/**
 * Query strings: how the provider writes `key=value` pairs joined by `&`,
 * and how a receiving server parses them back.
 */
module Query {
  import opened PhpStrings
  import opened UrlEncoding

  /** A query parameter: its name and its (unencoded) value. */
  type Param = (string, string)

  /** A name that survives being written unencoded: no `&`, `=`, `%` or `+`. */
  predicate PlainName(k: string) {
    forall i | 0 <= i < |k| :: k[i] != '&' && k[i] != '=' && k[i] != '%' && k[i] != '+'
  }

  predicate PlainNames(ps: seq<Param>) {
    forall i | 0 <= i < |ps| :: PlainName(ps[i].0)
  }

  lemma PlainNamesAppend(a: seq<Param>, b: seq<Param>)
    requires PlainNames(a) && PlainNames(b)
    ensures PlainNames(a + b)
  {
    forall i | 0 <= i < |a + b|
      ensures PlainName((a + b)[i].0)
    {
      if i < |a| {
        assert (a + b)[i] == a[i];
      } else {
        assert (a + b)[i] == b[i - |a|];
      }
    }
  }

  /** `key=urlencode(value)`; the name is written as it is. */
  function Render(p: Param): string {
    p.0 + "=" + UrlEncode(p.1)
  }

  /** The pairs rendered in order and separated by `&`. */
  function Join(ps: seq<Param>): string
    requires |ps| > 0
  {
    if |ps| == 1 then Render(ps[0]) else Join(ps[..|ps| - 1]) + "&" + Render(ps[|ps| - 1])
  }

  /** `s` cut at every `sep`; there is always at least one piece. */
  function Split(s: string, sep: char): (parts: seq<string>)
    ensures |parts| >= 1
    decreases |s|
  {
    if s == [] then [[]]
    else
      var rest := Split(s[1..], sep);
      if s[0] == sep then [[]] + rest else [[s[0]] + rest[0]] + rest[1..]
  }

  /** The index of the first `c` in `s`, or `|s|` when there is none. */
  function IndexOf(s: string, c: char): (i: nat)
    ensures i <= |s|
    ensures i < |s| ==> s[i] == c
    ensures forall j | 0 <= j < i :: s[j] != c
    decreases |s|
  {
    if s == [] then 0 else if s[0] == c then 0 else 1 + IndexOf(s[1..], c)
  }

  /** One `name=value` piece, cut at its first `=`, both halves decoded. */
  function ParsePair(piece: string): Param {
    var i := IndexOf(piece, '=');
    if i == |piece| then (UrlDecode(piece), []) else (UrlDecode(piece[..i]), UrlDecode(piece[i + 1..]))
  }

  function ParsePieces(pieces: seq<string>): (ps: seq<Param>)
    ensures |ps| == |pieces|
  {
    if pieces == [] then [] else ParsePieces(pieces[..|pieces| - 1]) + [ParsePair(pieces[|pieces| - 1])]
  }

  /** How a server reads a query string: split at `&`, then each piece at `=`. */
  function ParseQuery(q: string): seq<Param> {
    ParsePieces(Split(q, '&'))
  }

  /** Splitting at a separator splits both sides independently. */
  lemma {:induction false} SplitAppend(a: string, b: string, sep: char)
    ensures Split(a + [sep] + b, sep) == Split(a, sep) + Split(b, sep)
    decreases |a|
  {
    var u := a + [sep] + b;
    if a == [] {
      assert u[1..] == b;
    } else {
      assert u[1..] == a[1..] + [sep] + b;
      SplitAppend(a[1..], b, sep);
    }
  }

  /** A string without the separator is a single piece. */
  lemma {:induction false} SplitNone(s: string, sep: char)
    requires forall i | 0 <= i < |s| :: s[i] != sep
    ensures Split(s, sep) == [s]
    decreases |s|
  {
    if s != [] {
      SplitNone(s[1..], sep);
      assert [s[0]] + s[1..] == s;
    }
  }

  /** A rendered pair holds no `&`. */
  lemma RenderHasNoAmpersand(p: Param)
    requires PlainName(p.0)
    ensures forall i | 0 <= i < |Render(p)| :: Render(p)[i] != '&'
  {
    var e := UrlEncode(p.1);
    UrlEncodeAlphabet(p.1);
    forall i | 0 <= i < |Render(p)|
      ensures Render(p)[i] != '&'
    {
      if i < |p.0| {
        assert Render(p)[i] == p.0[i];
      } else if i > |p.0| {
        assert Render(p)[i] == e[i - |p.0| - 1];
        assert IsEncodedByte(e[i - |p.0| - 1]);
      }
    }
  }

  /** A rendered pair reads back as the pair itself. */
  lemma ParseRender(p: Param)
    requires PlainName(p.0)
    ensures ParsePair(Render(p)) == p
  {
    var r := Render(p);
    var k := p.0;
    assert r[|k|] == '=';
    assert forall j | 0 <= j < |k| :: r[j] == k[j];
    assert IndexOf(r, '=') == |k|;
    assert r[..|k|] == k;
    assert r[|k| + 1..] == UrlEncode(p.1);
    DecodePlain(k);
    DecodeEncode(p.1);
  }

  /** Parsing a joined list of pairs gives back exactly those pairs, in order. */
  lemma {:induction false} ParseJoin(ps: seq<Param>)
    requires |ps| > 0
    requires PlainNames(ps)
    ensures ParseQuery(Join(ps)) == ps
    decreases |ps|
  {
    var last := ps[|ps| - 1];
    RenderHasNoAmpersand(last);
    SplitNone(Render(last), '&');
    ParseRender(last);
    if |ps| == 1 {
      assert Split(Join(ps), '&') == [Render(last)];
    } else {
      var init := ps[..|ps| - 1];
      ParseJoin(init);
      SplitAppend(Join(init), Render(last), '&');
      var pieces := Split(Join(ps), '&');
      assert pieces == Split(Join(init), '&') + [Render(last)];
      assert pieces[..|pieces| - 1] == Split(Join(init), '&');
      assert ps == init + [last];
    }
  }
}
