/**
 * PHP's `urlencode` (application/x-www-form-urlencoded encoding) and its
 * inverse `urldecode`, which is how a server reads the query values back.
 */
module UrlEncoding {
  import opened PhpStrings

  /** Bytes `urlencode` leaves unchanged: letters, digits, `-`, `_` and `.`. */
  predicate IsUnreserved(c: char) {
    ('a' <= c <= 'z') || ('A' <= c <= 'Z') || ('0' <= c <= '9') || c == '-' || c == '_' || c == '.'
  }

  /**
   * Characters that can appear in the output of `urlencode`.  Characters
   * above 255 never occur in a PHP string; the model passes them through.
   */
  predicate IsEncodedByte(c: char) {
    IsUnreserved(c) || c == '%' || c == '+' || c as int >= 256
  }

  predicate IsHexDigit(c: char) {
    ('0' <= c <= '9') || ('a' <= c <= 'f') || ('A' <= c <= 'F')
  }

  /** The upper-case hexadecimal digit for `n`. */
  function HexDigit(n: nat): (c: char)
    requires n < 16
    ensures IsHexDigit(c) && IsUnreserved(c)
  {
    if n < 10 then ('0' as int + n) as char else ('A' as int + n - 10) as char
  }

  /** The value of a hexadecimal digit of either case. */
  function HexValue(c: char): (n: nat)
    requires IsHexDigit(c)
    ensures n < 16
  {
    if '0' <= c <= '9' then c as int - '0' as int
    else if 'a' <= c <= 'f' then c as int - 'a' as int + 10
    else c as int - 'A' as int + 10
  }

  lemma HexValueOfDigit(n: nat)
    requires n < 16
    ensures HexValue(HexDigit(n)) == n
  {
  }

  /**
   * The encoding of one byte: kept, `+` for a space, `%XX` otherwise.
   * (A character above 255, which no PHP string holds, is kept.)
   */
  function EncodeByte(c: char): (r: string)
    ensures 1 <= |r| <= 3
  {
    if IsUnreserved(c) then [c]
    else if c == ' ' then ['+']
    else if c as int < 256 then ['%', HexDigit(c as int / 16), HexDigit(c as int % 16)]
    else [c]
  }

  /** `urlencode(s)`. */
  function UrlEncode(s: string): (r: string)
    ensures |s| <= |r| <= 3 * |s|
    decreases |s|
  {
    if s == [] then [] else EncodeByte(s[0]) + UrlEncode(s[1..])
  }

  lemma EncodeByteAlphabet(c: char)
    ensures forall i | 0 <= i < |EncodeByte(c)| :: IsEncodedByte(EncodeByte(c)[i])
  {
    if !IsUnreserved(c) && c != ' ' && c as int < 256 {
      var hi := HexDigit(c as int / 16);
      var lo := HexDigit(c as int % 16);
      var r := EncodeByte(c);
      assert r == ['%', hi, lo];
      forall i | 0 <= i < |r|
        ensures IsEncodedByte(r[i])
      {
        if i == 1 {
          assert r[i] == hi;
        } else if i == 2 {
          assert r[i] == lo;
        }
      }
    }
  }

  /** `urlencode` writes only unreserved bytes, `%` and `+`; in particular no `&` or `=`. */
  lemma {:induction false} UrlEncodeAlphabet(s: string)
    ensures forall i | 0 <= i < |UrlEncode(s)| :: IsEncodedByte(UrlEncode(s)[i])
    decreases |s|
  {
    if s != [] {
      UrlEncodeAlphabet(s[1..]);
      var head := EncodeByte(s[0]);
      EncodeByteAlphabet(s[0]);
      var r := UrlEncode(s);
      forall i | 0 <= i < |r|
        ensures IsEncodedByte(r[i])
      {
        if i < |head| {
          assert r[i] == head[i];
        } else {
          assert r[i] == UrlEncode(s[1..])[i - |head|];
        }
      }
    }
  }

  /**
   * `urldecode(s)`: `+` is a space, `%` followed by two hexadecimal digits
   * is that byte, and every other byte stands for itself.
   */
  function UrlDecode(s: string): string
    decreases |s|
  {
    if s == [] then []
    else if s[0] == '+' then [' '] + UrlDecode(s[1..])
    else if s[0] == '%' && |s| >= 3 && IsHexDigit(s[1]) && IsHexDigit(s[2]) then
      [(HexValue(s[1]) * 16 + HexValue(s[2])) as char] + UrlDecode(s[3..])
    else [s[0]] + UrlDecode(s[1..])
  }

  /** Decoding one encoded byte followed by anything yields that byte first. */
  lemma DecodeEncodedByte(c: char, t: string)
    ensures UrlDecode(EncodeByte(c) + t) == [c] + UrlDecode(t)
  {
    var u := EncodeByte(c) + t;
    if IsUnreserved(c) {
      assert u[1..] == t;
    } else if c == ' ' || c as int >= 256 {
      assert u[1..] == t;
    } else {
      HexValueOfDigit(c as int / 16);
      HexValueOfDigit(c as int % 16);
      assert u[3..] == t;
      assert (HexValue(u[1]) * 16 + HexValue(u[2])) as char == c;
    }
  }

  /** `urldecode(urlencode(s)) == s`: every value encoded into a URL is recovered exactly. */
  lemma {:induction false} DecodeEncode(s: string)
    ensures UrlDecode(UrlEncode(s)) == s
    decreases |s|
  {
    if s != [] {
      DecodeEncodedByte(s[0], UrlEncode(s[1..]));
      DecodeEncode(s[1..]);
      assert [s[0]] + s[1..] == s;
    }
  }

  /** `urldecode` leaves alone a string with no `%` and no `+`. */
  lemma {:induction false} DecodePlain(s: string)
    requires forall i | 0 <= i < |s| :: s[i] != '%' && s[i] != '+'
    ensures UrlDecode(s) == s
    decreases |s|
  {
    if s != [] {
      DecodePlain(s[1..]);
      assert [s[0]] + s[1..] == s;
    }
  }
}
