/**
 * PHP string primitives used by the Keycloak provider.
 *
 * PHP strings are byte strings; a Dafny `string` stands for one, each
 * character below 256 standing for a byte.  This module defines the few
 * built-ins the provider relies on: truthiness, null-to-string coercion,
 * `rtrim` with a one-character list, `nl2br`, and the `preg_replace` that
 * removes `<br />` again.
 */
module PhpStrings {
  import opened Wrappers

  /** PHP truthiness of a nullable string: null, "" and "0" are false. */
  predicate Truthy(v: Option<string>) {
    v.Some? && v.value != "" && v.value != "0"
  }

  /** PHP's coercion of a nullable string in string context: null becomes "". */
  function ToStr(v: Option<string>): string {
    v.GetOr("")
  }

  /** True when every byte of `s` from index `from` on equals `c`. */
  predicate AllFrom(s: string, from: nat, c: char) {
    forall i | from <= i < |s| :: s[i] == c
  }

  /**
   * `rtrim(s, c)`: `s` without its trailing run of `c`.  The result is the
   * prefix of `s` that does not end in `c` and after which `s` holds only `c`.
   */
  function RTrim(s: string, c: char): (r: string)
    ensures r <= s
    ensures r == [] || r[|r| - 1] != c
    ensures AllFrom(s, |r|, c)
    decreases |s|
  {
    if s != [] && s[|s| - 1] == c then RTrim(s[..|s| - 1], c) else s
  }

  /** The three facts that `RTrim` ensures determine its result. */
  lemma RTrimUnique(s: string, c: char, r: string)
    requires r <= s
    requires r == [] || r[|r| - 1] != c
    requires AllFrom(s, |r|, c)
    ensures r == RTrim(s, c)
  {
    var t := RTrim(s, c);
    if r != [] {
      assert r[|r| - 1] == s[|r| - 1];
    }
    if t != [] {
      assert t[|t| - 1] == s[|t| - 1];
    }
    assert |r| == |t|;
    assert r == s[..|r|] == t;
  }

  /** `n` copies of the byte `c`. */
  function Repeat(c: char, n: nat): (r: string)
    ensures |r| == n
    ensures AllFrom(r, 0, c)
  {
    if n == 0 then [] else [c] + Repeat(c, n - 1)
  }

  /** Trimming is insensitive to how many trailing `c` the input carries. */
  lemma RTrimIgnoresTrailing(s: string, c: char, n: nat)
    ensures RTrim(s + Repeat(c, n), c) == RTrim(s, c)
  {
    var t := RTrim(s, c);
    var u := s + Repeat(c, n);
    assert t <= u by {
      assert u[..|s|] == s;
    }
    forall i | |t| <= i < |u|
      ensures u[i] == c
    {
      if i < |s| {
        assert u[i] == s[i];
      } else {
        assert u[i] == Repeat(c, n)[i - |s|];
      }
    }
    RTrimUnique(u, c, t);
  }

  /** Trimming only touches the tail when the tail keeps a byte other than `c`. */
  lemma RTrimAppend(a: string, b: string, c: char)
    requires RTrim(b, c) != []
    ensures RTrim(a + b, c) == a + RTrim(b, c)
  {
    var t := a + RTrim(b, c);
    var u := a + b;
    assert t <= u by {
      assert RTrim(b, c) <= b;
    }
    forall i | |t| <= i < |u|
      ensures u[i] == c
    {
      assert u[i] == b[i - |a|];
    }
    RTrimUnique(u, c, t);
  }

  /** Trimming `a + b` never cuts into `a` when `a` does not end in `c`. */
  lemma RTrimKeepsPrefix(a: string, b: string, c: char)
    requires a != [] && a[|a| - 1] != c
    ensures a <= RTrim(a + b, c)
  {
    var u := a + b;
    assert u[|a| - 1] != c;
    assert |a| <= |RTrim(u, c)|;
    assert RTrim(u, c)[..|a|] == u[..|a|] == a;
  }

  /** A string that does not end in `c` is left alone by `rtrim`. */
  lemma RTrimNoTrailing(s: string, c: char)
    requires s == [] || s[|s| - 1] != c
    ensures RTrim(s, c) == s
  {
    RTrimUnique(s, c, s);
  }

  /** The markup `nl2br` inserts before each line break. */
  const Br: string := "<br />"

  /**
   * `nl2br(s)`: inserts `<br />` before every line break, where `\r\n` and
   * `\n\r` count as one break.
   */
  function Nl2Br(s: string): string
    decreases |s|
  {
    if s == [] then []
    else if |s| >= 2 && ((s[0] == '\r' && s[1] == '\n') || (s[0] == '\n' && s[1] == '\r')) then
      Br + s[..2] + Nl2Br(s[2..])
    else if s[0] == '\n' || s[0] == '\r' then
      Br + [s[0]] + Nl2Br(s[1..])
    else
      [s[0]] + Nl2Br(s[1..])
  }

  /** `preg_replace('/(<br \/>)/m', '', s)`: removes every `<br />`, scanning left to right. */
  function StripBr(s: string): string
    decreases |s|
  {
    if |s| >= |Br| && s[..|Br|] == Br then StripBr(s[|Br|..])
    else if s == [] then []
    else [s[0]] + StripBr(s[1..])
  }

  lemma StripBrCons(c: char, s: string)
    requires c != '<'
    ensures StripBr([c] + s) == [c] + StripBr(s)
  {
    var u := [c] + s;
    assert u[1..] == s;
    assert u[0] != Br[0];
  }

  lemma StripBrAfterBr(s: string)
    ensures StripBr(Br + s) == StripBr(s)
  {
    var u := Br + s;
    assert u[..|Br|] == Br;
    assert u[|Br|..] == s;
  }

  /**
   * Removing `<br />` after `nl2br` gives back the original string, provided
   * it holds no `<` of its own.
   */
  lemma {:induction false} StripNl2Br(s: string)
    requires forall i | 0 <= i < |s| :: s[i] != '<'
    ensures StripBr(Nl2Br(s)) == s
    decreases |s|
  {
    if s == [] {
    } else if |s| >= 2 && ((s[0] == '\r' && s[1] == '\n') || (s[0] == '\n' && s[1] == '\r')) {
      var rest := Nl2Br(s[2..]);
      calc {
        StripBr(Br + s[..2] + rest);
        { assert Br + s[..2] + rest == Br + (s[..2] + rest); StripBrAfterBr(s[..2] + rest); }
        StripBr(s[..2] + rest);
        { assert s[..2] + rest == [s[0]] + ([s[1]] + rest);
          StripBrCons(s[0], [s[1]] + rest); StripBrCons(s[1], rest); }
        [s[0]] + ([s[1]] + StripBr(rest));
        { StripNl2Br(s[2..]); }
        [s[0]] + [s[1]] + s[2..];
      }
      assert [s[0]] + [s[1]] + s[2..] == s;
    } else if s[0] == '\n' || s[0] == '\r' {
      var rest := Nl2Br(s[1..]);
      assert Br + [s[0]] + rest == Br + ([s[0]] + rest);
      StripBrAfterBr([s[0]] + rest);
      StripBrCons(s[0], rest);
      StripNl2Br(s[1..]);
      assert [s[0]] + s[1..] == s;
    } else {
      StripBrCons(s[0], Nl2Br(s[1..]));
      StripNl2Br(s[1..]);
      assert [s[0]] + s[1..] == s;
    }
  }
}
