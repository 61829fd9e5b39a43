/** The placeholder codec of core/placeholder_engine.py: scanning a YAML
    template for `{{ $name }}` tokens, listing their names, substituting values,
    validating a value against a placeholder type and formatting the name list. */
module Placeholders {
  import opened Wrappers
  import opened Text
  import opened Order

  /** A template read left to right: one literal character, or one whole token
      (`{{`, optional whitespace, `$`, a name, optional whitespace, `}}`) with its
      exact spelling. */
  datatype Piece = Lit(c: char) | Tok(name: string, raw: string)

  /** A placeholder name: one or more `[A-Za-z0-9_]`. */
  predicate IsName(s: string) {
    |s| > 0 && forall i :: 0 <= i < |s| ==> IsWordChar(s[i])
  }

  /** Where a greedy `\s*` starting at `i` stops. */
  function SpaceEnd(s: string, i: nat): (j: nat)
    requires i <= |s|
    ensures i <= j <= |s|
    decreases |s| - i
  {
    if i < |s| && IsSpace(s[i]) then SpaceEnd(s, i + 1) else i
  }

  /** Where a greedy `\w*` starting at `i` stops. */
  function WordEnd(s: string, i: nat): (j: nat)
    requires i <= |s|
    ensures i <= j <= |s|
    decreases |s| - i
  {
    if i < |s| && IsWordChar(s[i]) then WordEnd(s, i + 1) else i
  }

  /** A run of name characters ends exactly at the first other character. */
  lemma {:induction false} WordEndIs(s: string, i: nat, e: nat)
    requires i <= e <= |s|
    requires forall q :: i <= q < e ==> IsWordChar(s[q])
    requires e < |s| ==> !IsWordChar(s[e])
    ensures WordEnd(s, i) == e
    decreases |s| - i
  {
    if i < e {
      WordEndIs(s, i + 1, e);
    }
  }

  lemma {:induction false} WordEndChars(s: string, i: nat)
    requires i <= |s|
    ensures forall q :: i <= q < WordEnd(s, i) ==> IsWordChar(s[q])
    ensures WordEnd(s, i) < |s| ==> !IsWordChar(s[WordEnd(s, i)])
    decreases |s| - i
  {
    if i < |s| && IsWordChar(s[i]) {
      WordEndChars(s, i + 1);
    }
  }

  /** A whitespace run is decided by the characters up to where it stops. */
  lemma {:induction false} SpaceEndAgree(s: string, t: string, i: nat, k: nat)
    requires i <= |s| && i <= |t| && SpaceEnd(s, i) < k <= |s| && k <= |t|
    requires forall q :: i <= q < k ==> s[q] == t[q]
    ensures SpaceEnd(t, i) == SpaceEnd(s, i)
    decreases |s| - i
  {
    if IsSpace(s[i]) {
      SpaceEndAgree(s, t, i + 1, k);
    }
  }

  /** A name run is decided by the characters up to where it stops. */
  lemma {:induction false} WordEndAgree(s: string, t: string, i: nat, k: nat)
    requires i <= |s| && i <= |t| && WordEnd(s, i) < k <= |s| && k <= |t|
    requires forall q :: i <= q < k ==> s[q] == t[q]
    ensures WordEnd(t, i) == WordEnd(s, i)
    decreases |s| - i
  {
    if IsWordChar(s[i]) {
      WordEndAgree(s, t, i + 1, k);
    }
  }

  /** The token starting at the first character of `s`, if any: its name and its
      length. This is one attempt of `PLACEHOLDER_PATTERN` anchored at a position;
      greedy runs never need to give characters back, since `$` is not whitespace
      and neither whitespace nor `}` is a name character. */
  function TokenAt(s: string): (r: Option<(string, nat)>)
    ensures r.Some? ==> 0 < r.value.1 <= |s|
  {
    if |s| < 2 || s[0] != '{' || s[1] != '{' then None
    else
      var i := SpaceEnd(s, 2);
      if i == |s| || s[i] != '$' then None
      else
        var e := WordEnd(s, i + 1);
        var j := SpaceEnd(s, e);
        if e == i + 1 || j + 2 > |s| || s[j] != '}' || s[j + 1] != '}' then None
        else Some((s[i + 1..e], j + 2))
  }

  lemma TokenNameIsName(s: string)
    requires TokenAt(s).Some?
    ensures IsName(TokenAt(s).value.0)
  {
    var i := SpaceEnd(s, 2);
    WordEndChars(s, i + 1);
  }

  /** Whether a token is found does not depend on what follows it. */
  lemma TokenAtPrefix(s: string, t: string)
    requires TokenAt(s).Some?
    requires TokenAt(s).value.1 <= |t| && s[..TokenAt(s).value.1] == t[..TokenAt(s).value.1]
    ensures TokenAt(t) == TokenAt(s)
  {
    var len := TokenAt(s).value.1;
    forall q | 0 <= q < len ensures s[q] == t[q] {
      assert s[..len][q] == t[..len][q];
    }
    TokenAtAgree(s, t, len);
  }

  /** The positions the scanner finds in a token are the same in any text that
      agrees with it over the token's length. */
  lemma TokenPartsAgree(s: string, t: string, i: nat, e: nat, j: nat)
    requires 2 <= i < e <= j && j + 2 <= |s| && j + 2 <= |t|
    requires i == SpaceEnd(s, 2) && e == WordEnd(s, i + 1) && j == SpaceEnd(s, e)
    requires forall q :: 0 <= q < j + 2 ==> s[q] == t[q]
    ensures SpaceEnd(t, 2) == i && WordEnd(t, i + 1) == e && SpaceEnd(t, e) == j
    ensures t[i + 1..e] == s[i + 1..e]
  {
    SpaceEndAgree(s, t, 2, j + 2);
    WordEndAgree(s, t, i + 1, j + 2);
    SpaceEndAgree(s, t, e, j + 2);
    assert s[i + 1..e] == t[i + 1..e];
  }

  lemma TokenAtAgree(s: string, t: string, len: nat)
    requires TokenAt(s).Some? && len == TokenAt(s).value.1 && len <= |t|
    requires forall q :: 0 <= q < len ==> s[q] == t[q]
    ensures TokenAt(t) == TokenAt(s)
  {
    var i := SpaceEnd(s, 2);
    var e := WordEnd(s, i + 1);
    var j := SpaceEnd(s, e);
    assert 2 <= i < e <= j && len == j + 2;
    assert TokenAt(s) == Some((s[i + 1..e], len));
    TokenPartsAgree(s, t, i, e, j);
    assert t[0] == s[0] && t[1] == s[1] && t[i] == s[i] && t[j] == s[j] && t[j + 1] == s[j + 1];
  }

  /** The spelling of a piece. */
  function Raw(p: Piece): string {
    match p
    case Lit(c) => [c]
    case Tok(_, raw) => raw
  }

  /** A token piece whose spelling scans back to exactly that token. */
  predicate IsToken(p: Piece) {
    p.Tok? && TokenAt(p.raw) == Some((p.name, |p.raw|))
  }

  predicate WellFormed(ps: seq<Piece>) {
    forall i :: 0 <= i < |ps| && ps[i].Tok? ==> IsToken(ps[i])
  }

  /** No literal piece is an opening brace: every `{` belongs to a token. */
  predicate NoLitBrace(ps: seq<Piece>) {
    forall i :: 0 <= i < |ps| ==> ps[i] != Lit('{')
  }

  /** The left-to-right scan of `re.findall`/`re.sub`: at each position a token if
      one starts there, otherwise a single character. */
  function Parse(s: string): seq<Piece>
    decreases |s|
  {
    if s == [] then []
    else match TokenAt(s)
      case Some((n, len)) => [Tok(n, s[..len])] + Parse(s[len..])
      case None => [Lit(s[0])] + Parse(s[1..])
  }

  /** Every token piece of a scan is a genuine token. */
  lemma {:induction false} ParseWellFormed(s: string)
    ensures WellFormed(Parse(s))
    decreases |s|
  {
    if s != [] {
      match TokenAt(s)
      case Some((n, len)) =>
        TokenAtPrefix(s, s[..len]);
        ParseWellFormed(s[len..]);
        WellFormedCons(Tok(n, s[..len]), Parse(s[len..]));
      case None =>
        ParseWellFormed(s[1..]);
        WellFormedCons(Lit(s[0]), Parse(s[1..]));
    }
  }

  lemma WellFormedCons(p: Piece, ps: seq<Piece>)
    requires p.Tok? ==> IsToken(p)
    requires WellFormed(ps)
    ensures WellFormed([p] + ps)
  {
    var r := [p] + ps;
    forall i | 0 <= i < |r| && r[i].Tok? ensures IsToken(r[i]) {
      if i > 0 {
        assert r[i] == ps[i - 1];
      }
    }
  }

  function Unparse(ps: seq<Piece>): string
    decreases |ps|
  {
    if ps == [] then "" else Raw(ps[0]) + Unparse(ps[1..])
  }

  /** The names of the tokens of a parse, in text order, repeats included. */
  function Names(ps: seq<Piece>): seq<string>
    decreases |ps|
  {
    if ps == [] then []
    else if ps[0].Tok? then [ps[0].name] + Names(ps[1..])
    else Names(ps[1..])
  }

  lemma {:induction false} UnparseConcat(a: seq<Piece>, b: seq<Piece>)
    ensures Unparse(a + b) == Unparse(a) + Unparse(b)
    decreases |a|
  {
    if a == [] {
      assert a + b == b;
    } else {
      assert (a + b)[1..] == a[1..] + b;
      UnparseConcat(a[1..], b);
    }
  }

  lemma {:induction false} NamesConcat(a: seq<Piece>, b: seq<Piece>)
    ensures Names(a + b) == Names(a) + Names(b)
    decreases |a|
  {
    if a == [] {
      assert a + b == b;
    } else {
      assert (a + b)[1..] == a[1..] + b;
      NamesConcat(a[1..], b);
    }
  }

  /** Scanning loses nothing: the pieces spell the text back. */
  lemma {:induction false} ParseRoundTrip(s: string)
    ensures Unparse(Parse(s)) == s
    decreases |s|
  {
    if s != [] {
      match TokenAt(s)
      case Some((n, len)) =>
        ParseRoundTrip(s[len..]);
        assert s[..len] + s[len..] == s;
      case None =>
        ParseRoundTrip(s[1..]);
        assert [s[0]] + s[1..] == s;
    }
  }

  /** A well-formed piece list with no stray `{` is what scanning its spelling gives. */
  lemma {:induction false} UnparseRoundTrip(ps: seq<Piece>)
    requires WellFormed(ps) && NoLitBrace(ps)
    ensures Parse(Unparse(ps)) == ps
    decreases |ps|
  {
    if ps != [] {
      var s := Unparse(ps);
      var rest := Unparse(ps[1..]);
      assert s == Raw(ps[0]) + rest;
      UnparseRoundTrip(ps[1..]);
      match ps[0]
      case Lit(c) =>
        assert s[0] == c && c != '{';
        assert TokenAt(s) == None;
        assert s[1..] == rest;
      case Tok(n, raw) =>
        assert IsToken(ps[0]);
        assert s[..|raw|] == raw[..|raw|];
        TokenAtPrefix(raw, s);
        assert s[..|raw|] == raw && s[|raw|..] == rest;
    }
  }

  /** A value spelled as literal characters. */
  function Lits(v: string): (ps: seq<Piece>)
    ensures |ps| == |v|
  {
    seq(|v|, i requires 0 <= i < |v| => Lit(v[i]))
  }

  lemma {:induction false} UnparseLits(v: string)
    ensures Unparse(Lits(v)) == v && Names(Lits(v)) == []
    decreases |v|
  {
    if v != [] {
      assert Lits(v)[1..] == Lits(v[1..]);
      UnparseLits(v[1..]);
    }
  }

  /** One piece after substitution: a token whose name is a key becomes its value. */
  function ExpandPiece(p: Piece, m: map<string, string>): seq<Piece> {
    if p.Tok? && p.name in m then Lits(m[p.name]) else [p]
  }

  function Expand(ps: seq<Piece>, m: map<string, string>): seq<Piece>
    decreases |ps|
  {
    if ps == [] then [] else ExpandPiece(ps[0], m) + Expand(ps[1..], m)
  }

  /** Single-pass substitution: every token whose name is a key of `m` replaced by
      its value, everything else kept. This is the specification `FillPlaceholders`
      is measured against. */
  function Render(s: string, m: map<string, string>): string {
    Unparse(Expand(Parse(s), m))
  }

  /** No value contains an opening brace, so no value can start or complete a token. */
  predicate BraceFree(m: map<string, string>) {
    forall k :: k in m ==> '{' !in m[k]
  }

  /** Every `{` of the text opens a token. */
  predicate BracesOnlyInTokens(s: string) {
    NoLitBrace(Parse(s))
  }

  lemma {:induction false} ExpandConcat(a: seq<Piece>, b: seq<Piece>, m: map<string, string>)
    ensures Expand(a + b, m) == Expand(a, m) + Expand(b, m)
    decreases |a|
  {
    if a == [] {
      assert a + b == b;
    } else {
      assert (a + b)[1..] == a[1..] + b;
      ExpandConcat(a[1..], b, m);
    }
  }

  lemma {:induction false} ExpandEmpty(ps: seq<Piece>)
    ensures Expand(ps, map[]) == ps
    decreases |ps|
  {
    if ps != [] {
      ExpandEmpty(ps[1..]);
      assert [ps[0]] + ps[1..] == ps;
    }
  }

  lemma CleanConcat(a: seq<Piece>, b: seq<Piece>)
    requires WellFormed(a) && NoLitBrace(a) && WellFormed(b) && NoLitBrace(b)
    ensures WellFormed(a + b) && NoLitBrace(a + b)
  {
    assert forall i :: 0 <= i < |b| ==> (a + b)[|a| + i] == b[i];
  }

  lemma PieceClean(p: Piece, m: map<string, string>)
    requires WellFormed([p]) && NoLitBrace([p]) && BraceFree(m)
    ensures WellFormed(ExpandPiece(p, m)) && NoLitBrace(ExpandPiece(p, m))
  {
    if p.Tok? && p.name in m {
      var v := m[p.name];
      var ps := Lits(v);
      forall i | 0 <= i < |ps| ensures ps[i] != Lit('{') {
        assert ps[i] == Lit(v[i]);
      }
    }
  }

  lemma {:induction false} ExpandKeepsClean(ps: seq<Piece>, m: map<string, string>)
    requires WellFormed(ps) && NoLitBrace(ps) && BraceFree(m)
    ensures WellFormed(Expand(ps, m)) && NoLitBrace(Expand(ps, m))
    decreases |ps|
  {
    if ps != [] {
      assert [ps[0]][0] == ps[0];
      ExpandKeepsClean(ps[1..], m);
      PieceClean(ps[0], m);
      CleanConcat(ExpandPiece(ps[0], m), Expand(ps[1..], m));
    }
  }

  lemma {:induction false} ExpandPieceTwice(p: Piece, m1: map<string, string>, m2: map<string, string>)
    requires m1.Keys !! m2.Keys
    ensures Expand(ExpandPiece(p, m1), m2) == ExpandPiece(p, m1 + m2)
  {
    if p.Tok? && p.name in m1 {
      var v := m1[p.name];
      LitsFixed(v, m2);
    } else {
      assert [p][1..] == [];
    }
  }

  lemma {:induction false} LitsFixed(v: string, m: map<string, string>)
    ensures Expand(Lits(v), m) == Lits(v)
    decreases |v|
  {
    if v != [] {
      assert Lits(v)[1..] == Lits(v[1..]);
      LitsFixed(v[1..], m);
      assert [Lits(v)[0]] + Lits(v[1..]) == Lits(v);
    }
  }

  /** Substituting with two maps in turn is substituting with their union. */
  lemma {:induction false} ExpandTwice(ps: seq<Piece>, m1: map<string, string>, m2: map<string, string>)
    requires m1.Keys !! m2.Keys
    ensures Expand(Expand(ps, m1), m2) == Expand(ps, m1 + m2)
    decreases |ps|
  {
    if ps != [] {
      ExpandConcat(ExpandPiece(ps[0], m1), Expand(ps[1..], m1), m2);
      ExpandPieceTwice(ps[0], m1, m2);
      ExpandTwice(ps[1..], m1, m2);
    }
  }

  /** After substitution, the remaining token names are exactly the ones without a value. */
  lemma {:induction false} NamesExpand(ps: seq<Piece>, m: map<string, string>)
    ensures forall n :: n in Names(Expand(ps, m)) <==> n in Names(ps) && n !in m
    decreases |ps|
  {
    if ps != [] {
      NamesExpand(ps[1..], m);
      NamesConcat(ExpandPiece(ps[0], m), Expand(ps[1..], m));
      if ps[0].Tok? && ps[0].name in m {
        UnparseLits(m[ps[0].name]);
      } else {
        assert [ps[0]][1..] == [];
      }
    }
  }

  /** The names of the tokens in a text, in text order, repeats included
      (`re.findall(PLACEHOLDER_PATTERN, text)`). */
  function TokenNames(s: string): seq<string> {
    Names(Parse(s))
  }

  lemma {:induction false} NamesAreNames(ps: seq<Piece>)
    requires WellFormed(ps)
    ensures forall n :: n in Names(ps) ==> IsName(n)
    decreases |ps|
  {
    if ps != [] {
      NamesAreNames(ps[1..]);
      if ps[0].Tok? {
        assert IsToken(ps[0]);
        TokenNameIsName(ps[0].raw);
      }
    }
  }

  /** `extract_placeholders`: the token names, sorted, each once. */
  function Extract(s: string): (r: seq<string>)
    ensures StrictlySorted(r)
    ensures forall n :: n in r <==> n in TokenNames(s)
    ensures forall n :: n in r ==> IsName(n)
  {
    ParseWellFormed(s);
    NamesAreNames(Parse(s));
    SortedSet(TokenNames(s))
  }

  /** The set of token names of a text. */
  function NameSet(s: string): set<string> {
    set n | n in TokenNames(s)
  }

  lemma HeadIn(r: seq<string>)
    requires r != []
    ensures r[0] in r
  {
  }

  /** Substituting with no values changes nothing. */
  lemma RenderEmpty(s: string)
    ensures Render(s, map[]) == s
  {
    ExpandEmpty(Parse(s));
    ParseRoundTrip(s);
  }

  /** For a text whose braces all open tokens and values without braces, the
      result's tokens are exactly the original tokens whose name has no value:
      tokens without a value are kept, tokens with one are gone. */
  lemma RenderNames(s: string, m: map<string, string>)
    requires BracesOnlyInTokens(s) && BraceFree(m)
    ensures Parse(Render(s, m)) == Expand(Parse(s), m)
    ensures forall n :: n in TokenNames(Render(s, m)) <==> n in TokenNames(s) && n !in m
    ensures NameSet(Render(s, m)) == NameSet(s) - m.Keys
  {
    ParseWellFormed(s);
    ExpandKeepsClean(Parse(s), m);
    UnparseRoundTrip(Expand(Parse(s), m));
    NamesExpand(Parse(s), m);
  }

  /** With a value for every name, nothing is left to extract. */
  lemma RenderComplete(s: string, m: map<string, string>)
    requires BracesOnlyInTokens(s) && BraceFree(m)
    requires NameSet(s) <= m.Keys
    ensures Extract(Render(s, m)) == []
  {
    RenderNames(s, m);
    var r := Extract(Render(s, m));
    if r != [] {
      HeadIn(r);
    }
  }

  /** Substituting with `m1` and then with `m2` is substituting with both at once. */
  lemma RenderCompose(s: string, m1: map<string, string>, m2: map<string, string>)
    requires BracesOnlyInTokens(s) && BraceFree(m1)
    requires m1.Keys !! m2.Keys
    ensures Render(Render(s, m1), m2) == Render(s, m1 + m2)
  {
    RenderNames(s, m1);
    ExpandTwice(Parse(s), m1, m2);
  }

  /** Length of the match of the per-key pattern built in `fill_placeholders`
      (`{{`, whitespace, `$`, the key verbatim, whitespace, `}}`) at the start of
      `s`, or 0 when it does not match there. */
  function KeyTokenAt(s: string, key: string): (len: nat)
    ensures len <= |s|
  {
    if |s| < 2 || s[0] != '{' || s[1] != '{' then 0
    else
      var i := SpaceEnd(s, 2);
      if i == |s| || s[i] != '$' || i + 1 + |key| > |s| || s[i + 1..i + 1 + |key|] != key then 0
      else
        var j := SpaceEnd(s, i + 1 + |key|);
        if j + 2 > |s| || s[j] != '}' || s[j + 1] != '}' then 0
        else j + 2
  }

  /** For a key that is a name, the per-key pattern matches exactly where a token
      with that name starts, and over the same length. */
  lemma KeyTokenIsToken(s: string, key: string)
    requires IsName(key)
    ensures KeyTokenAt(s, key) > 0 <==> TokenAt(s).Some? && TokenAt(s).value.0 == key
    ensures KeyTokenAt(s, key) > 0 ==> KeyTokenAt(s, key) == TokenAt(s).value.1
  {
    if |s| >= 2 && s[0] == '{' && s[1] == '{' {
      var i := SpaceEnd(s, 2);
      if i < |s| && s[i] == '$' {
        var e := i + 1 + |key|;
        if e <= |s| && s[i + 1..e] == key {
          var j := SpaceEnd(s, e);
          if j + 2 <= |s| && s[j] == '}' && s[j + 1] == '}' {
            forall q | i + 1 <= q < e ensures IsWordChar(s[q]) {
              assert s[i + 1..e][q - (i + 1)] == key[q - (i + 1)];
            }
            if j > e {
              assert IsSpace(s[e]);
            }
            WordEndIs(s, i + 1, e);
          }
        }
        var w := WordEnd(s, i + 1);
        if w > i + 1 && s[i + 1..w] == key {
          assert e == w;
        }
      }
    }
  }

  /** One `pattern.sub(value, text)` pass for one key: scanning left to right,
      every match of the per-key pattern replaced by `value`. */
  function SubKey(s: string, key: string, value: string): string
    decreases |s|
  {
    if s == [] then ""
    else
      var n := KeyTokenAt(s, key);
      if n > 0 then value + SubKey(s[n..], key, value)
      else [s[0]] + SubKey(s[1..], key, value)
  }

  /** One scanning step of the substitution. */
  lemma RenderStep(s: string, m: map<string, string>)
    requires s != []
    ensures TokenAt(s).Some? ==>
      Render(s, m) == Unparse(ExpandPiece(Tok(TokenAt(s).value.0, s[..TokenAt(s).value.1]), m))
                      + Render(s[TokenAt(s).value.1..], m)
    ensures TokenAt(s).None? ==> Render(s, m) == [s[0]] + Render(s[1..], m)
  {
    var ps := Parse(s);
    assert Expand(ps, m) == ExpandPiece(ps[0], m) + Expand(ps[1..], m);
    UnparseConcat(ExpandPiece(ps[0], m), Expand(ps[1..], m));
  }

  lemma {:induction false} SpaceEndChars(s: string, i: nat)
    requires i <= |s|
    ensures forall q :: i <= q < SpaceEnd(s, i) ==> IsSpace(s[q])
    decreases |s| - i
  {
    if i < |s| && IsSpace(s[i]) {
      SpaceEndChars(s, i + 1);
    }
  }

  /** Past its opening `{{`, a token holds no `{`. */
  lemma TokenInnerNoBrace(s: string)
    requires TokenAt(s).Some?
    ensures forall q :: 2 <= q < TokenAt(s).value.1 ==> s[q] != '{'
  {
    var i := SpaceEnd(s, 2);
    SpaceEndChars(s, 2);
    var e := WordEnd(s, i + 1);
    WordEndChars(s, i + 1);
    SpaceEndChars(s, e);
  }

  /** A stretch of text in which no `{{` starts is copied through by a pass. */
  lemma {:induction false} SubKeyLiteral(x: string, y: string, key: string, value: string)
    requires forall q :: 0 <= q < |x| && x[q] == '{' ==> q + 1 < |x| && x[q + 1] != '{'
    ensures SubKey(x + y, key, value) == x + SubKey(y, key, value)
    decreases |x|
  {
    if x != [] {
      var xy, t := x + y, x[1..];
      assert xy[0] == x[0] && (|x| > 1 ==> xy[1] == x[1]);
      assert KeyTokenAt(xy, key) == 0;
      assert SubKey(xy, key, value) == [x[0]] + SubKey(xy[1..], key, value);
      assert xy[1..] == t + y;
      forall q | 0 <= q < |t| && t[q] == '{' ensures q + 1 < |t| && t[q + 1] != '{' {
        assert t[q] == x[q + 1];
        assert q + 2 < |x| ==> t[q + 1] == x[q + 2];
      }
      SubKeyLiteral(t, y, key, value);
      assert [x[0]] + t == x;
    } else {
      assert x + y == y;
    }
  }

  /** A token with the key's name is replaced by the value, by a pass and by
      the substitution alike. */
  lemma SubKeyOwnToken(s: string, key: string, value: string)
    requires IsName(key) && TokenAt(s).Some? && TokenAt(s).value.0 == key
    ensures var len := TokenAt(s).value.1;
            && SubKey(s, key, value) == value + SubKey(s[len..], key, value)
            && Render(s, map[key := value]) == value + Render(s[len..], map[key := value])
  {
    KeyTokenIsToken(s, key);
    RenderStep(s, map[key := value]);
    UnparseLits(value);
  }

  /** A token with another name is copied through by a pass. */
  lemma SubKeyOtherToken(s: string, key: string, value: string)
    requires IsName(key) && TokenAt(s).Some? && TokenAt(s).value.0 != key
    ensures var len := TokenAt(s).value.1;
            SubKey(s, key, value) == s[..len] + SubKey(s[len..], key, value)
  {
    var len := TokenAt(s).value.1;
    KeyTokenIsToken(s, key);
    assert KeyTokenAt(s, key) == 0;
    assert SubKey(s, key, value) == [s[0]] + SubKey(s[1..], key, value);
    TokenInnerNoBrace(s);
    assert 2 < len;
    var x := s[1..len];
    forall q | 0 <= q < |x| && x[q] == '{' ensures q + 1 < |x| && x[q + 1] != '{' {
      assert x[q] == s[q + 1];
      assert x[1] == s[2];
    }
    assert s[1..] == x + s[len..];
    assert s[..len] == [s[0]] + x;
    SubKeyLiteral(x, s[len..], key, value);
  }

  /** A token whose name is not a key is copied through by the substitution. */
  lemma RenderOtherToken(s: string, m: map<string, string>)
    requires s != [] && TokenAt(s).Some? && TokenAt(s).value.0 !in m
    ensures var len := TokenAt(s).value.1;
            Render(s, m) == s[..len] + Render(s[len..], m)
  {
    RenderStep(s, m);
  }

  /** A character that starts no token is copied through by both. */
  lemma SubKeyPlain(s: string, key: string, value: string)
    requires IsName(key) && s != [] && TokenAt(s).None?
    ensures SubKey(s, key, value) == [s[0]] + SubKey(s[1..], key, value)
    ensures Render(s, map[key := value]) == [s[0]] + Render(s[1..], map[key := value])
  {
    KeyTokenIsToken(s, key);
    RenderStep(s, map[key := value]);
  }

  /** For a key that is a name, one pass is the single-pass substitution with a
      one-entry map. */
  lemma {:induction false} SubKeyIsRender(s: string, key: string, value: string)
    requires IsName(key)
    ensures SubKey(s, key, value) == Render(s, map[key := value])
    decreases |s|
  {
    if s != [] {
      match TokenAt(s)
      case Some((n, len)) =>
        SubKeyIsRender(s[len..], key, value);
        if n == key {
          SubKeyOwnToken(s, key, value);
        } else {
          SubKeyOtherToken(s, key, value);
          RenderOtherToken(s, map[key := value]);
        }
      case None =>
        SubKeyIsRender(s[1..], key, value);
        SubKeyPlain(s, key, value);
    }
  }

  /** One more pass of the fill loop, for a key not substituted yet. */
  lemma FillStep(text: string, done: map<string, string>, key: string, value: string)
    requires BracesOnlyInTokens(text) && BraceFree(done) && IsName(key) && key !in done
    ensures SubKey(Render(text, done), key, value) == Render(text, done[key := value])
  {
    SubKeyIsRender(Render(text, done), key, value);
    RenderCompose(text, done, map[key := value]);
    assert done + map[key := value] == done[key := value];
  }

  /** `fill_placeholders`: one substitution pass per key of `values`, in whatever
      order the keys come. With no values the text is returned as is; when every
      key is a name, every `{` of the text opens a token and no value holds a `{`,
      the result is the single-pass substitution, whatever the order. */
  method FillPlaceholders(text: string, values: map<string, string>) returns (r: string)
    ensures values == map[] ==> r == text
    ensures (forall k :: k in values ==> IsName(k)) && BracesOnlyInTokens(text) && BraceFree(values)
            ==> r == Render(text, values)
  {
    r := text;
    var pending := values.Keys;
    ghost var done: map<string, string> := map[];
    ghost var clean := (forall k :: k in values ==> IsName(k)) && BracesOnlyInTokens(text) && BraceFree(values);
    RenderEmpty(text);
    while pending != {}
      invariant pending <= values.Keys
      invariant done.Keys == values.Keys - pending
      invariant forall k :: k in done ==> done[k] == values[k]
      invariant done == map[] ==> r == text
      invariant clean ==> r == Render(text, done)
      decreases pending
    {
      var key :| key in pending;
      if clean {
        FillStep(text, done, key, values[key]);
      }
      r := SubKey(r, key, values[key]);
      done := done[key := values[key]];
      pending := pending - {key};
    }
    assert done == values;
  }

  /** `PLACEHOLDER_TYPES`: the placeholders whose type is known. */
  const PlaceholderTypes: map<string, string> := map[
    "secretServerHost" := "str",
    "egressLabel" := "str",
    "serverHostDB1" := "str",
    "serverHostDB1ip" := "str",
    "serverHostDB2" := "str",
    "serverHostDB2ip" := "str",
    "serverPort" := "int",
    "virtualPortDB1" := "int",
    "virtualPortDB2" := "int",
    "pathToCACert" := "str",
    "pathToCert" := "str",
    "pathToKey" := "str"
  ]

  /** The placeholders the table types as "int". */
  predicate IsPortName(name: string) {
    name == "serverPort" || name == "virtualPortDB1" || name == "virtualPortDB2"
  }

  /** The type a placeholder's value is checked against: "int" for the ports,
      "str" for everything else. */
  function ExpectedType(current: Option<string>): (t: string)
    ensures t == "int" || t == "str"
  {
    if current.Some? && IsPortName(current.value) then "int" else "str"
  }

  /** `ExpectedType` is `PLACEHOLDER_TYPES.get(current, "str")`: the table's type
      for a listed name, "str" for any other name and for no name at all. */
  lemma ExpectedTypeIsTableLookup(current: Option<string>)
    ensures ExpectedType(current) ==
              if current.Some? && current.value in PlaceholderTypes then PlaceholderTypes[current.value] else "str"
  {
  }

  /** `is_placeholder_valid`; a type it does not know falls off the end and
      yields `None`, which every caller treats as invalid. */
  predicate IsPlaceholderValid(value: string, expectedType: string) {
    var v := Trim(value);
    if expectedType == "int" then IsDigits(v)
    else if expectedType == "url" then StartsWith(v, "http://") || StartsWith(v, "https://")
    else if expectedType == "str" then v != [] && WordCount(v) <= 1 && !IsDigits(v)
    else false
  }

  /** The acceptance rule of each type, stated on the stripped value: "int" wants
      digits only, "url" an http or https scheme, "str" a single non-numeric word,
      and any other type accepts nothing. */
  lemma ValidatorRules(value: string, t: string)
    ensures IsPlaceholderValid(value, "int") <==> Trim(value) != [] && forall i :: 0 <= i < |Trim(value)| ==> IsDigit(Trim(value)[i])
    ensures IsPlaceholderValid(value, "url") <==> StartsWith(Trim(value), "http://") || StartsWith(Trim(value), "https://")
    ensures IsPlaceholderValid(value, "str") <==> Trim(value) != [] && !HasSpace(Trim(value)) && !IsDigits(Trim(value))
    ensures t !in {"int", "url", "str"} ==> !IsPlaceholderValid(value, t)
  {
    StrRule(value);
  }

  /** The "str" rule on its own: one non-numeric word. */
  lemma StrRule(value: string)
    ensures IsPlaceholderValid(value, "str") <==> Trim(value) != [] && !HasSpace(Trim(value)) && !IsDigits(Trim(value))
  {
    var v := Trim(value);
    assert "str" != "int" && "str" != "url";
    assert IsPlaceholderValid(value, "str") == (v != [] && WordCount(v) <= 1 && !IsDigits(v));
    if v != [] {
      WordCountOfTrimmed(v);
    }
  }

  /** Validating the stripped value is validating the value. */
  lemma ValidTrimmed(value: string, t: string)
    ensures IsPlaceholderValid(Trim(value), t) == IsPlaceholderValid(value, t)
  {
    TrimIdempotent(value);
  }

  /** Whitespace around a value never changes the verdict. */
  lemma ValidatorIgnoresPadding(p: string, value: string, q: string, t: string)
    requires AllSpace(p) && AllSpace(q)
    ensures IsPlaceholderValid(p + value + q, t) == IsPlaceholderValid(value, t)
  {
    TrimPadded(p, value, q);
  }

  /** No value is both a valid "int" and a valid "str". */
  lemma IntAndStrDisjoint(value: string)
    ensures !(IsPlaceholderValid(value, "int") && IsPlaceholderValid(value, "str"))
  {
  }

  /** `format_placeholder_list`. */
  function FormatPlaceholderList(names: seq<string>): string {
    if names == [] then NoParametersText
    else ParametersHeader + "\n" + Join(Bullets(names), "\n")
  }

  const NoParametersText: string := "Найденные манифесты не содержат параметров для заполнения"
  const ParametersHeader: string := "Список параметров для заполнения:"

  function Bullets(names: seq<string>): (r: seq<string>)
    ensures |r| == |names|
  {
    seq(|names|, i requires 0 <= i < |names| => "- $" + names[i])
  }

  /** A non-empty list reads as the header and then one `- $name` line per name,
      in order. */
  lemma FormatPlaceholderListLines(names: seq<string>)
    requires forall i :: 0 <= i < |names| ==> '\n' !in names[i]
    ensures names != [] ==> SplitLines(FormatPlaceholderList(names)) == [ParametersHeader] + Bullets(names)
  {
    var lines := [ParametersHeader] + Bullets(names);
    forall i | 0 <= i < |lines| ensures '\n' !in lines[i] {
      if i > 0 {
        assert lines[i] == "- $" + names[i - 1];
      }
    }
    if names != [] {
      SplitJoinLines(lines);
      assert Join(lines, "\n") == ParametersHeader + "\n" + Join(Bullets(names), "\n");
    }
  }

  /** A host name is a "str". */
  lemma HostNameIsStr()
    ensures IsPlaceholderValid("host1", "str")
  {
    TrimOfTrimmed("host1");
    StrRule("host1");
    assert !IsDigit("host1"[0]);
  }

  /** A number is not a "str". */
  lemma NumberIsNotStr()
    ensures !IsPlaceholderValid("42", "str")
  {
    var n := "42";
    TrimOfTrimmed(n);
    StrRule(n);
    assert IsDigits(n) by {
      forall i | 0 <= i < |n| ensures IsDigit(n[i]) {}
    }
  }

  /** A phrase is not a "str". */
  lemma PhraseIsNotStr()
    ensures !IsPlaceholderValid("multi word", "str")
  {
    SpacedIsNotStr("multi word", 5);
  }

  /** A stripped value with a space inside is not a "str". */
  lemma SpacedIsNotStr(w: string, i: nat)
    requires i < |w| && IsSpace(w[i]) && !IsSpace(w[0]) && !IsSpace(w[|w| - 1])
    ensures !IsPlaceholderValid(w, "str")
  {
    TrimOfTrimmed(w);
    StrRule(w);
  }

  /** A port number is an "int"; digits followed by a letter are not. */
  lemma PortIsInt()
    ensures IsPlaceholderValid("8080", "int")
    ensures !IsPlaceholderValid("80a", "int")
  {
    var p := "8080";
    TrimOfTrimmed(p);
    assert IsDigits(p) by {
      forall i | 0 <= i < |p| ensures IsDigit(p[i]) {}
    }
    TrimOfTrimmed("80a");
    assert !IsDigit("80a"[2]);
  }

  lemma TokenExamples()
    ensures TokenAt("{{ $b }}") == Some(("b", 8))
    ensures TokenAt("{{$a}}") == Some(("a", 6))
  {
    var rb, ra := "{{ $b }}", "{{$a}}";
    assert SpaceEnd(rb, 2) == 3 && WordEnd(rb, 4) == 5 && SpaceEnd(rb, 5) == 6;
    assert rb[4..5] == "b";
    assert SpaceEnd(ra, 2) == 2 && WordEnd(ra, 3) == 4 && SpaceEnd(ra, 4) == 4;
    assert ra[3..4] == "a";
  }

  /** The pieces of a small template with a repeated name. */
  function ExamplePieces(): seq<Piece> {
    [Tok("b", "{{ $b }}"), Lit('-'), Tok("a", "{{$a}}"), Lit('-'), Tok("b", "{{ $b }}")]
  }

  lemma ExamplePiecesSpell()
    ensures Unparse(ExamplePieces()) == "{{ $b }}-{{$a}}-{{ $b }}"
  {
    var rb, ra := "{{ $b }}", "{{$a}}";
    var p4 := [Tok("b", rb)];
    var p3 := [Lit('-')] + p4;
    var p2 := [Tok("a", ra)] + p3;
    var p1 := [Lit('-')] + p2;
    var p0 := [Tok("b", rb)] + p1;
    UnparseCons(Tok("b", rb), []);
    assert [Tok("b", rb)] + [] == p4;
    UnparseCons(Lit('-'), p4);
    UnparseCons(Tok("a", ra), p3);
    UnparseCons(Lit('-'), p2);
    UnparseCons(Tok("b", rb), p1);
    assert p0 == ExamplePieces();
    ExampleText(rb, ra);
  }

  lemma ExampleText(rb: string, ra: string)
    requires rb == "{{ $b }}" && ra == "{{$a}}"
    ensures rb + ("-" + (ra + ("-" + (rb + "")))) == "{{ $b }}-{{$a}}-{{ $b }}"
  {
  }

  lemma UnparseCons(p: Piece, ps: seq<Piece>)
    ensures Unparse([p] + ps) == Raw(p) + Unparse(ps)
  {
    assert ([p] + ps)[1..] == ps;
  }

  lemma ExamplePiecesClean()
    ensures WellFormed(ExamplePieces()) && NoLitBrace(ExamplePieces())
    ensures Names(ExamplePieces()) == ["b", "a", "b"]
  {
    TokenExamples();
  }

  lemma SortedSetExample()
    ensures SortedSet(["b", "a", "b"]) == ["a", "b"]
  {
    assert Less("a", "b");
    SortedListingUnique(SortedSet(["b", "a", "b"]), ["a", "b"]);
  }

  /** Names are listed once each, in order, however often and wherever they occur. */
  lemma ExtractExample()
    ensures Extract("{{ $b }}-{{$a}}-{{ $b }}") == ["a", "b"]
  {
    ExamplePiecesSpell();
    ExamplePiecesClean();
    UnparseRoundTrip(ExamplePieces());
    SortedSetExample();
  }
  lemma PassOnToken()
    ensures SubKey("{{ $a }}", "a", "A") == "A"
  {
    var s := "{{ $a }}";
    assert SpaceEnd(s, 2) == 3 && s[4..5] == "a" && SpaceEnd(s, 5) == 6;
    assert KeyTokenAt(s, "a") == 8;
    assert s[8..] == "";
  }
  lemma PassOnInnerB(v: string)
    ensures SubKey("{{ $b }} }}", "b", v) == v + " }}"
  {
    var s := "{{ $b }} }}";
    assert SpaceEnd(s, 2) == 3 && s[4..5] == "b" && SpaceEnd(s, 5) == 6;
    assert KeyTokenAt(s, "b") == 8;
    assert s[8..] == " }}";
    SubKeyLiteral(" }}", "", "b", v);
    assert " }}" + "" == " }}";
  }
  lemma PassOnInnerA(v: string)
    ensures SubKey("{{ $b }} }}", "a", v) == "{{ $b }} }}"
  {
    var s := "{{ $b }} }}";
    assert KeyTokenAt(s, "a") == 0 by {
      assert SpaceEnd(s, 2) == 3 && s[4..5] == "b";
    }
    SubKeyCopied(s, "a", v);
  }

  /** A text that does not start with a token of the key, and in which no
      `{{` starts after the first character, is copied through by a pass. */
  lemma SubKeyCopied(s: string, key: string, value: string)
    requires s != [] && KeyTokenAt(s, key) == 0
    requires forall q :: 1 <= q < |s| && s[q] == '{' ==> q + 1 < |s| && s[q + 1] != '{'
    ensures SubKey(s, key, value) == s
  {
    var x := s[1..];
    forall q | 0 <= q < |x| && x[q] == '{' ensures q + 1 < |x| && x[q + 1] != '{' {
      assert x[q] == s[q + 1];
    }
    assert SubKey(s, key, value) == [s[0]] + SubKey(x, key, value);
    SubKeyLiteral(x, [], key, value);
    assert x + [] == x && SubKey([], key, value) == [];
    assert [s[0]] + x == s;
  }
  /** An opening `{{ $` followed by another brace is not a token of any name,
      so a pass copies it and goes on with what follows. */
  lemma PassOnOpening(y: string, k: string, v: string)
    requires IsName(k) && y != [] && y[0] == '{'
    ensures SubKey("{{ $" + y, k, v) == "{{ $" + SubKey(y, k, v)
  {
    var t := "{{ $" + y;
    assert t[0] == '{' && t[1] == '{' && t[2] == ' ' && t[3] == '$' && t[4] == '{';
    assert SpaceEnd(t, 2) == 3;
    assert 4 + |k| <= |t| ==> t[4..4 + |k|][0] != k[0];
    assert KeyTokenAt(t, k) == 0;
    var t1 := t[1..];
    assert t1 == "{ $" + y;
    assert KeyTokenAt(t1, k) == 0;
    assert t1[1..] == " $" + y;
    SubKeyLiteral(" $", y, k, v);
    var r := SubKey(y, k, v);
    assert SubKey(t1, k, v) == [t1[0]] + SubKey(t1[1..], k, v);
    assert SubKey(t, k, v) == [t[0]] + SubKey(t1, k, v);
    assert ['{'] + (['{'] + (" $" + r)) == "{{ $" + r;
  }

  lemma PassOnNestedA()
    ensures SubKey("{{ ${{ $b }} }}", "a", "A") == "{{ ${{ $b }} }}"
  {
    NestedSpelling();
    PassOnOpening("{{ $b }} }}", "a", "A");
    PassOnInnerA("A");
  }

  lemma PassOnNestedB()
    ensures SubKey("{{ ${{ $b }} }}", "b", "a") == "{{ $a }}"
  {
    NestedSpelling();
    PassOnOpening("{{ $b }} }}", "b", "a");
    PassOnInnerB("a");
    TokenSpelling();
  }

  lemma NestedSpelling()
    ensures "{{ $" + "{{ $b }} }}" == "{{ ${{ $b }} }}"
  {
  }

  lemma TokenSpelling()
    ensures "{{ $" + ("a" + " }}") == "{{ $a }}"
  {
  }

  /** Why `FillPlaceholders` promises its result only for texts whose every `{`
      opens a token: in `{{ ${{ $b }} }}` the value "a" for `b` completes a new
      token `{{ $a }}`, so with both names filled the result depends on the key
      order, and one order leaves a token behind. */
  lemma NestedTokenOrderMatters()
    ensures SubKey(SubKey("{{ ${{ $b }} }}", "b", "a"), "a", "A") == "A"
    ensures SubKey(SubKey("{{ ${{ $b }} }}", "a", "A"), "b", "a") == "{{ $a }}"
    ensures TokenAt("{{ $a }}") == Some(("a", 8))
  {
    PassOnNestedB();
    PassOnToken();
    PassOnNestedA();
    TokenAExample();
  }

  lemma TokenAExample()
    ensures TokenAt("{{ $a }}") == Some(("a", 8))
  {
    var s := "{{ $a }}";
    assert SpaceEnd(s, 2) == 3 && WordEnd(s, 4) == 5 && SpaceEnd(s, 5) == 6 && s[4..5] == "a";
  }
}
