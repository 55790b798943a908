/**
  Connection templates: `${NAME}` references are masked by fresh markers while a URL is parsed
  and validated, and replaced by environment values in one pass when it is used.

  Strings are byte strings.  A text is cut into pieces, one per literal character or reference.
*/
module UrlTemplate {
  import opened Numbers
  import opened Wrappers
  import Letters

  datatype Piece = Char(c: char) | Ref(name: string)

  // ---------------------------------------------------------------- the reference pattern

  predicate NameStart(c: char) {
    'A' <= c <= 'Z' || 'a' <= c <= 'z' || c == '_'
  }

  predicate NameChar(c: char) {
    NameStart(c) || '0' <= c <= '9'
  }

  predicate ValidName(name: string) {
    name != "" && NameStart(name[0]) && forall i :: 0 <= i < |name| ==> NameChar(name[i])
  }

  lemma NameCharsAre(c: char)
    ensures NameStart(c) <==> c == '_' || c in Letters.UPPER || c in Letters.LOWER
    ensures NameChar(c) <==> NameStart(c) || c in Letters.DIGITS
  {
    Letters.UpperIs(c);
    Letters.LowerIs(c);
    Letters.DigitsAre(c);
  }

  /** The longest run of name characters at the start. */
  function NameRun(s: string): (n: nat)
    ensures n <= |s| && (forall i :: 0 <= i < n ==> NameChar(s[i])) && (n < |s| ==> !NameChar(s[n]))
  {
    if s == "" || !NameChar(s[0]) then 0 else 1 + NameRun(s[1..])
  }

  /** The reference a text starts with, if any: ${[A-Za-z_][A-Za-z0-9_]*}. */
  function RefAt(s: string): (r: Option<string>)
    ensures r.Some? ==> ValidName(r.value) && |r.value| + 3 <= |s| && s[..|r.value| + 3] == "${" + r.value + "}"
  {
    if |s| >= 2 && s[0] == '$' && s[1] == '{' then
      var n := NameRun(s[2..]);
      if n > 0 && NameStart(s[2]) && n + 2 < |s| && s[n + 2] == '}' then Some(s[2..n + 2]) else None
    else None
  }

  /** A text starts with a reference exactly when it starts with a valid name in `${...}`. */
  lemma RefAtIs(s: string, name: string)
    ensures RefAt(s) == Some(name) <==> ValidName(name) && |name| + 3 <= |s| && s[..|name| + 3] == "${" + name + "}"
  {
    if ValidName(name) && |name| + 3 <= |s| && s[..|name| + 3] == "${" + name + "}" {
      var reference := "${" + name + "}";
      assert forall i :: 0 <= i < |reference| ==> s[..|reference|][i] == s[i];
      assert s[0] == '$' && s[1] == '{' && s[2] == name[0] && s[|name| + 2] == '}';
      assert s[2..|name| + 2] == name;
      assert forall i :: 0 <= i < |name| ==> s[2..][i] == name[i];
      assert s[2..][|name|] == '}';
      assert NameRun(s[2..]) == |name|;
    }
  }

  /** Leftmost, non-overlapping matches of the pattern. */
  function Tokenize(s: string): seq<Piece>
    decreases |s|
  {
    if s == "" then []
    else match RefAt(s)
      case Some(name) => [Ref(name)] + Tokenize(s[|name| + 3..])
      case None => [Char(s[0])] + Tokenize(s[1..])
  }

  /** The leftmost reference is found, and the search goes on behind it; any other character stands for itself. */
  lemma TokenizeFindsReferences(name: string, rest: string)
    requires ValidName(name)
    ensures Tokenize("${" + name + "}" + rest) == [Ref(name)] + Tokenize(rest)
  {
    var s := "${" + name + "}" + rest;
    RefAtIs(s, name);
    assert s[|name| + 3..] == rest;
  }

  lemma TokenizeKeepsOthers(s: string)
    requires s != "" && forall name :: ValidName(name) && |name| + 3 <= |s| ==> s[..|name| + 3] != "${" + name + "}"
    ensures Tokenize(s) == [Char(s[0])] + Tokenize(s[1..])
  {
  }

  function Unparse(ps: seq<Piece>): string {
    if ps == [] then ""
    else (match ps[0] case Char(c) => [c] case Ref(name) => "${" + name + "}") + Unparse(ps[1..])
  }

  lemma UnparseRef(name: string, rest: seq<Piece>)
    ensures Unparse([Ref(name)] + rest) == "${" + name + "}" + Unparse(rest)
  {
    assert ([Ref(name)] + rest)[1..] == rest;
  }

  lemma UnparseChar(c: char, rest: seq<Piece>)
    ensures Unparse([Char(c)] + rest) == [c] + Unparse(rest)
  {
    assert ([Char(c)] + rest)[1..] == rest;
  }

  lemma {:induction false} TokensSpellTheText(s: string)
    ensures Unparse(Tokenize(s)) == s
    decreases |s|
  {
    if s != "" {
      match RefAt(s)
      case Some(name) =>
        var rest := s[|name| + 3..];
        TokensSpellTheText(rest);
        UnparseRef(name, Tokenize(rest));
        assert s == s[..|name| + 3] + rest;
      case None =>
        TokensSpellTheText(s[1..]);
        UnparseChar(s[0], Tokenize(s[1..]));
        assert s == [s[0]] + s[1..];
    }
  }

  /** What is left when every reference is removed. */
  function Literals(ps: seq<Piece>): string {
    if ps == [] then "" else (if ps[0].Char? then [ps[0].c] else "") + Literals(ps[1..])
  }

  function Names(ps: seq<Piece>): seq<string> {
    if ps == [] then [] else (if ps[0].Ref? then [ps[0].name] else []) + Names(ps[1..])
  }

  // ---------------------------------------------------------------- substrings

  predicate StartsAt(s: string, i: nat, sub: string) {
    i + |sub| <= |s| && s[i..i + |sub|] == sub
  }

  predicate Contains(s: string, sub: string) {
    exists i: nat :: i <= |s| && StartsAt(s, i, sub)
  }

  lemma ContainsInside(before: string, s: string, after: string, sub: string)
    requires Contains(s, sub)
    ensures Contains(before + s + after, sub)
  {
    var i: nat :| i <= |s| && StartsAt(s, i, sub);
    assert (before + s + after)[|before| + i..|before| + i + |sub|] == s[i..i + |sub|];
    assert StartsAt(before + s + after, |before| + i, sub);
  }

  // ---------------------------------------------------------------- markers

  const STEM := "nextaskenvref"

  function Repeat(c: char, k: nat): (s: string)
    ensures |s| == k && forall i :: 0 <= i < k ==> s[i] == c
  {
    if k == 0 then "" else [c] + Repeat(c, k - 1)
  }

  function Prefix(k: nat): string {
    STEM + Repeat('x', k)
  }

  function Marker(x: nat, i: nat): string {
    Prefix(x) + Itoa(i) + "end"
  }

  /** Nowhere inside a marker does its prefix start again: no 'n' is followed by 'e' after the first. */
  lemma MarkerInterior(x: nat, i: nat, d: nat)
    requires 0 < d < |Marker(x, i)|
    ensures Marker(x, i)[d] != 'n' || (d + 1 < |Marker(x, i)| && Marker(x, i)[d + 1] != 'e')
  {
    var m, p, n := Marker(x, i), Prefix(x), Itoa(i);
    if d < |STEM| { assert m[d] == STEM[d]; assert d + 1 < |STEM| ==> m[d + 1] == STEM[d + 1]; }
    else if d < |p| { assert m[d] == 'x'; }
    else if d < |p| + |n| { assert m[d] == n[d - |p|]; }
    else { assert m[d] == "end"[d - |p| - |n|]; assert d + 1 < |m| ==> m[d + 1] == "end"[d + 1 - |p| - |n|]; }
  }

  /** A text starts with at most one of the markers. */
  lemma MarkersAreApart(x: nat, i: nat, j: nat, t: string)
    requires StartsAt(Marker(x, j) + t, 0, Marker(x, i))
    ensures i == j
  {
    var s := Marker(x, j) + t;
    var p, a, b := |Prefix(x)|, Itoa(i), Itoa(j);
    var n := if |a| < |b| then |a| else |b|;
    assert IsDigit(Marker(x, i)[p + n]) <==> n < |a| by { assert n == |a| ==> Marker(x, i)[p + n] == 'e'; }
    assert IsDigit(s[p + n]) <==> n < |b| by { assert n == |b| ==> s[p + n] == 'e'; }
    assert s[..|Marker(x, i)|] == Marker(x, i);
    forall q | 0 <= q < |Marker(x, i)| ensures s[q] == Marker(x, i)[q] { assert s[..|Marker(x, i)|][q] == s[q]; }
    assert |a| == |b|;
    forall q | 0 <= q < |a| ensures a[q] == b[q] { assert Marker(x, i)[p + q] == a[q]; assert s[p + q] == b[q]; }
    ItoaIsInjective(i, j);
  }

  // ---------------------------------------------------------------- masking

  /** Every reference replaced by its marker; `k` is the number of the first one. */
  function Mask(ps: seq<Piece>, x: nat, k: nat): string {
    if ps == [] then ""
    else match ps[0]
      case Char(c) => [c] + Mask(ps[1..], x, k)
      case Ref(_) => Marker(x, k) + Mask(ps[1..], x, k + 1)
  }

  /** The number of the reference whose marker begins at this offset of the masked text. */
  function RefAtOffset(ps: seq<Piece>, x: nat, k: nat, p: nat): Option<nat> {
    if ps == [] then None
    else match ps[0]
      case Char(_) => if p == 0 then None else RefAtOffset(ps[1..], x, k, p - 1)
      case Ref(_) =>
        if p == 0 then Some(k)
        else if p < |Marker(x, k)| then None
        else RefAtOffset(ps[1..], x, k + 1, p - |Marker(x, k)|)
  }

  lemma StartsWithChar(c: char, rest: string, q: string)
    requires q != ""
    ensures StartsAt([c] + rest, 0, q) <==> c == q[0] && StartsAt(rest, 0, q[1..])
  {
    if |q| <= |rest| + 1 {
      assert ([c] + rest)[0..|q|] == [c] + rest[0..|q| - 1];
      assert q == [q[0]] + q[1..];
    }
  }

  /** A marker does not begin with what is left of its prefix after the first characters: 'n' then 'e' is only at the start. */
  lemma NoRestAtMarker(x: nat, k: nat, after: string, j: nat)
    requires 0 < j < |Prefix(x)|
    ensures !StartsAt(Marker(x, k) + after, 0, Prefix(x)[j..])
  {
    var p, s := Prefix(x), Marker(x, k) + after;
    MarkerInterior(x, k, j);
    assert s[0] == 'n' && s[1] == 'e';
    assert Marker(x, k)[j] == p[j];
    assert j + 1 < |p| ==> Marker(x, k)[j + 1] == p[j + 1];
    assert j + 1 == |p| ==> p[j] != 'n' by { assert p[|p| - 1] == if x == 0 then 'f' else 'x'; }
    if |p| - j <= |s| {
      assert s[0..|p| - j][0] == s[0] && p[j..][0] == p[j];
      assert j + 1 < |p| ==> s[0..|p| - j][1] == s[1] && p[j..][1] == p[j + 1];
    }
  }

  lemma DropOneMore(s: string, j: nat)
    requires j < |s|
    ensures s[j..][1..] == s[j + 1..] && s[j..] != ""
  {
  }

  /** Once begun in literal text, the prefix can only go on in literal text; q is what is left of it. */
  lemma {:induction false} RestOfPrefixIsLiteral(ps: seq<Piece>, x: nat, k: nat, j: nat, q: string)
    requires 0 < j <= |Prefix(x)| && q == Prefix(x)[j..]
    ensures StartsAt(Mask(ps, x, k), 0, q) ==> StartsAt(Unparse(ps), 0, q)
    decreases |ps|
  {
    if ps != [] && j < |Prefix(x)| {
      match ps[0]
      case Char(c) =>
        DropOneMore(Prefix(x), j);
        RestOfPrefixIsLiteral(ps[1..], x, k, j + 1, q[1..]);
        StartsWithChar(c, Mask(ps[1..], x, k), q);
        StartsWithChar(c, Unparse(ps[1..]), q);
      case Ref(_) =>
        NoRestAtMarker(x, k, Mask(ps[1..], x, k + 1), j);
    }
  }

  /** The prefix cannot start in literal text that does not contain it, not even across the next marker. */
  lemma NoPrefixAtChar(ps: seq<Piece>, x: nat, k: nat)
    requires ps != [] && ps[0].Char? && !StartsAt(Unparse(ps), 0, Prefix(x))
    ensures !StartsAt(Mask(ps, x, k), 0, Prefix(x))
  {
    RestOfPrefixIsLiteral(ps[1..], x, k, 1, Prefix(x)[1..]);
    StartsWithChar(ps[0].c, Mask(ps[1..], x, k), Prefix(x));
    StartsWithChar(ps[0].c, Unparse(ps[1..]), Prefix(x));
  }

  lemma {:induction false} UnparseTail(ps: seq<Piece>, sub: string)
    requires ps != [] && !Contains(Unparse(ps), sub)
    ensures !Contains(Unparse(ps[1..]), sub) && !StartsAt(Unparse(ps), 0, sub)
  {
    if Contains(Unparse(ps[1..]), sub) {
      var head := match ps[0] case Char(c) => [c] case Ref(name) => "${" + name + "}";
      ContainsInside(head, Unparse(ps[1..]), "", sub);
      assert head + Unparse(ps[1..]) + "" == Unparse(ps);
    }
  }

  lemma ShiftStart(head: string, rest: string, p: nat, sub: string)
    requires p >= |head|
    ensures StartsAt(head + rest, p, sub) <==> StartsAt(rest, p - |head|, sub)
  {
    if p + |sub| <= |head + rest| {
      assert (head + rest)[p..p + |sub|] == rest[p - |head|..p - |head| + |sub|];
    }
  }

  lemma NoPrefixInsideMarker(x: nat, k: nat, rest: string, p: nat)
    requires 0 < p < |Marker(x, k)|
    ensures !StartsAt(Marker(x, k) + rest, p, Prefix(x))
  {
    var s := Marker(x, k) + rest;
    if StartsAt(s, p, Prefix(x)) {
      assert s[p..p + |Prefix(x)|][0] == s[p] && s[p..p + |Prefix(x)|][1] == s[p + 1];
      MarkerInterior(x, k, p);
    }
  }

  /** In the masked text the prefix starts exactly where a reference stood. */
  lemma {:induction false} PrefixOnlyAtReferences(ps: seq<Piece>, x: nat, k: nat, p: nat)
    requires !Contains(Unparse(ps), Prefix(x))
    ensures StartsAt(Mask(ps, x, k), p, Prefix(x)) <==> RefAtOffset(ps, x, k, p).Some?
    decreases |ps|
  {
    if ps != [] {
      UnparseTail(ps, Prefix(x));
      match ps[0]
      case Char(c) =>
        if p == 0 { NoPrefixAtChar(ps, x, k); }
        else {
          PrefixOnlyAtReferences(ps[1..], x, k, p - 1);
          ShiftStart([c], Mask(ps[1..], x, k), p, Prefix(x));
        }
      case Ref(_) =>
        var rest := Mask(ps[1..], x, k + 1);
        if p == 0 { assert (Marker(x, k) + rest)[0..|Prefix(x)|] == Prefix(x); }
        else if p < |Marker(x, k)| { NoPrefixInsideMarker(x, k, rest, p); }
        else {
          PrefixOnlyAtReferences(ps[1..], x, k + 1, p - |Marker(x, k)|);
          ShiftStart(Marker(x, k), rest, p, Prefix(x));
        }
    }
  }

  lemma {:induction false} MarkerAtReference(ps: seq<Piece>, x: nat, k: nat, p: nat)
    requires RefAtOffset(ps, x, k, p).Some?
    ensures
      var i := RefAtOffset(ps, x, k, p).value;
      k <= i < k + |Names(ps)| && p <= |Mask(ps, x, k)| &&
      forall j: nat :: StartsAt(Mask(ps, x, k), p, Marker(x, j)) <==> j == i
    decreases |ps|
  {
    match ps[0]
    case Char(c) =>
      MarkerAtReference(ps[1..], x, k, p - 1);
      forall j: nat ensures StartsAt(Mask(ps, x, k), p, Marker(x, j)) <==> StartsAt(Mask(ps[1..], x, k), p - 1, Marker(x, j)) {
        ShiftStart([c], Mask(ps[1..], x, k), p, Marker(x, j));
      }
    case Ref(_) =>
      var rest := Mask(ps[1..], x, k + 1);
      if p == 0 {
        forall j: nat ensures StartsAt(Marker(x, k) + rest, 0, Marker(x, j)) <==> j == k {
          if StartsAt(Marker(x, k) + rest, 0, Marker(x, j)) { MarkersAreApart(x, j, k, rest); }
          assert (Marker(x, k) + rest)[0..|Marker(x, k)|] == Marker(x, k);
        }
      } else {
        MarkerAtReference(ps[1..], x, k + 1, p - |Marker(x, k)|);
        forall j: nat ensures
          StartsAt(Mask(ps, x, k), p, Marker(x, j)) <==> StartsAt(rest, p - |Marker(x, k)|, Marker(x, j))
        {
          ShiftStart(Marker(x, k), rest, p, Marker(x, j));
        }
      }
  }

  /** A marker occurrence is an occurrence of the prefix. */
  lemma MarkerHasPrefix(s: string, p: nat, x: nat, i: nat)
    requires StartsAt(s, p, Marker(x, i))
    ensures StartsAt(s, p, Prefix(x))
  {
    assert s[p..p + |Prefix(x)|] == s[p..p + |Marker(x, i)|][..|Prefix(x)|];
  }

  // ---------------------------------------------------------------- strings.NewReplacer(...).Replace

  /** The first old string, in argument order, that the text starts with. */
  function FirstMatch(x: nat, n: nat, s: string): Option<nat>
    decreases n
  {
    if n == 0 then None
    else match FirstMatch(x, n - 1, s)
      case Some(i) => Some(i)
      case None => if StartsAt(s, 0, Marker(x, n - 1)) then Some(n - 1) else None
  }

  lemma {:induction false} FirstMatchIsFirst(x: nat, n: nat, s: string)
    ensures match FirstMatch(x, n, s)
            case Some(i) => i < n && StartsAt(s, 0, Marker(x, i)) && forall j: nat :: j < i ==> !StartsAt(s, 0, Marker(x, j))
            case None => forall j: nat :: j < n ==> !StartsAt(s, 0, Marker(x, j))
  {
    if n > 0 { FirstMatchIsFirst(x, n - 1, s); }
  }

  /** One pass from left to right over the text; replaced text is not looked at again. */
  function Replace(x: nat, values: seq<string>, s: string): string
    decreases |s|
  {
    if s == "" then ""
    else
      FirstMatchIsFirst(x, |values|, s);
      match FirstMatch(x, |values|, s)
      case Some(i) => values[i] + Replace(x, values, s[|Marker(x, i)|..])
      case None => [s[0]] + Replace(x, values, s[1..])
  }

  /** Simultaneous substitution: the i-th reference becomes the i-th value. */
  function Expand(ps: seq<Piece>, values: seq<string>, k: nat): string
    requires k + |Names(ps)| <= |values|
  {
    if ps == [] then ""
    else match ps[0]
      case Char(c) => [c] + Expand(ps[1..], values, k)
      case Ref(_) => values[k] + Expand(ps[1..], values, k + 1)
  }

  /** No literal text poses as a marker. */
  ghost predicate NoFalseMarker(ps: seq<Piece>, x: nat, k: nat, n: nat) {
    forall p: nat, i: nat :: i < n && StartsAt(Mask(ps, x, k), p, Marker(x, i)) ==> RefAtOffset(ps, x, k, p) == Some(i)
  }

  lemma FreshPrefixExcludesFalseMarkers(ps: seq<Piece>, x: nat, k: nat, n: nat)
    requires !Contains(Unparse(ps), Prefix(x))
    ensures NoFalseMarker(ps, x, k, n)
  {
    forall p: nat, i: nat | i < n && StartsAt(Mask(ps, x, k), p, Marker(x, i))
      ensures RefAtOffset(ps, x, k, p) == Some(i)
    {
      MarkerHasPrefix(Mask(ps, x, k), p, x, i);
      PrefixOnlyAtReferences(ps, x, k, p);
      MarkerAtReference(ps, x, k, p);
    }
  }

  lemma NoFalseMarkerInTail(ps: seq<Piece>, x: nat, k: nat, n: nat)
    requires ps != [] && NoFalseMarker(ps, x, k, n)
    ensures NoFalseMarker(ps[1..], x, if ps[0].Ref? then k + 1 else k, n)
  {
    var head := match ps[0] case Char(c) => [c] case Ref(_) => Marker(x, k);
    var k' := if ps[0].Ref? then k + 1 else k;
    forall p: nat, i: nat | i < n && StartsAt(Mask(ps[1..], x, k'), p, Marker(x, i))
      ensures RefAtOffset(ps[1..], x, k', p) == Some(i)
    {
      ShiftStart(head, Mask(ps[1..], x, k'), p + |head|, Marker(x, i));
      assert StartsAt(Mask(ps, x, k), p + |head|, Marker(x, i));
      TailOffset(ps, x, k, k', head, p);
    }
  }

  lemma {:induction false} TailOffset(ps: seq<Piece>, x: nat, k: nat, k': nat, head: string, p: nat)
    requires ps != [] && k' == (if ps[0].Ref? then k + 1 else k)
    requires head == match ps[0] case Char(c) => [c] case Ref(_) => Marker(x, k)
    ensures RefAtOffset(ps, x, k, p + |head|) == RefAtOffset(ps[1..], x, k', p)
  {
  }

  lemma ReplaceMarker(x: nat, values: seq<string>, i: nat, rest: string)
    requires i < |values|
    ensures Replace(x, values, Marker(x, i) + rest) == values[i] + Replace(x, values, rest)
  {
    var s := Marker(x, i) + rest;
    FirstMatchIsFirst(x, |values|, s);
    assert s[0..|Marker(x, i)|] == Marker(x, i);
    assert StartsAt(s, 0, Marker(x, i));
    match FirstMatch(x, |values|, s) {
      case Some(j) => MarkersAreApart(x, j, i, rest);
      case None =>
    }
    assert s[|Marker(x, i)|..] == rest;
  }

  lemma {:induction false} ReplaceIsExpand(ps: seq<Piece>, x: nat, k: nat, values: seq<string>)
    requires k + |Names(ps)| <= |values| && NoFalseMarker(ps, x, k, |values|)
    ensures Replace(x, values, Mask(ps, x, k)) == Expand(ps, values, k)
    decreases |ps|
  {
    if ps != [] {
      NoFalseMarkerInTail(ps, x, k, |values|);
      match ps[0]
      case Char(c) =>
        FirstMatchIsFirst(x, |values|, Mask(ps, x, k));
        assert RefAtOffset(ps, x, k, 0) == None;
        assert FirstMatch(x, |values|, Mask(ps, x, k)) == None;
        assert Mask(ps, x, k)[1..] == Mask(ps[1..], x, k);
        ReplaceIsExpand(ps[1..], x, k, values);
      case Ref(_) =>
        ReplaceMarker(x, values, k, Mask(ps[1..], x, k + 1));
        ReplaceIsExpand(ps[1..], x, k + 1, values);
    }
  }

  function Dollars(n: nat): (v: seq<string>)
    ensures |v| == n && forall i :: 0 <= i < n ==> v[i] == "$"
  {
    seq(n, _ => "$")
  }

  /** Two texts that begin alike differ if they differ afterwards. */
  lemma DifferLater(head: string, a: string, b: string)
    requires a != b
    ensures head + a != head + b
  {
    assert (head + a)[|head|..] == a && (head + b)[|head|..] == b;
  }

  lemma {:induction false} FalseMarkersShow(ps: seq<Piece>, x: nat, k: nat, n: nat, p: nat, i: nat)
    requires k + |Names(ps)| <= n && i < n && StartsAt(Mask(ps, x, k), p, Marker(x, i)) && RefAtOffset(ps, x, k, p) != Some(i)
    ensures Replace(x, Dollars(n), Mask(ps, x, k)) != Expand(ps, Dollars(n), k)
    decreases |ps|
  {
    if ps != [] {
      if ps[0].Char? {
        FalseMarkerAtChar(ps, x, k, n);
        if FirstMatch(x, n, Mask(ps, x, k)).None? {
          FirstMatchIsFirst(x, n, Mask(ps, x, k));
          ShiftStart([ps[0].c], Mask(ps[1..], x, k), p, Marker(x, i));
          FalseMarkersShow(ps[1..], x, k, n, p - 1, i);
          DifferLater([ps[0].c], Replace(x, Dollars(n), Mask(ps[1..], x, k)), Expand(ps[1..], Dollars(n), k));
        }
      } else {
        FalseMarkerIsLater(ps, x, k, p, i);
        var rest := Mask(ps[1..], x, k + 1);
        FalseMarkersShow(ps[1..], x, k + 1, n, p - |Marker(x, k)|, i);
        ReplaceMarker(x, Dollars(n), k, rest);
        DifferLater("$", Replace(x, Dollars(n), rest), Expand(ps[1..], Dollars(n), k + 1));
      }
    }
  }

  lemma FalseMarkerAtChar(ps: seq<Piece>, x: nat, k: nat, n: nat)
    requires ps != [] && ps[0].Char? && k + |Names(ps)| <= n
    ensures FirstMatch(x, n, Mask(ps, x, k)).Some? ==> Replace(x, Dollars(n), Mask(ps, x, k)) != Expand(ps, Dollars(n), k)
    ensures FirstMatch(x, n, Mask(ps, x, k)).None? ==>
      Replace(x, Dollars(n), Mask(ps, x, k)) == [ps[0].c] + Replace(x, Dollars(n), Mask(ps[1..], x, k))
  {
    var mask := Mask(ps, x, k);
    FirstMatchIsFirst(x, n, mask);
    assert mask[1..] == Mask(ps[1..], x, k);
    if FirstMatch(x, n, mask).Some? {
      var j := FirstMatch(x, n, mask).value;
      assert mask[0..|Marker(x, j)|][0] == mask[0];
      assert Marker(x, j)[0] == 'n';
      assert Replace(x, Dollars(n), mask)[0] == '$';
    }
  }

  lemma FalseMarkerIsLater(ps: seq<Piece>, x: nat, k: nat, p: nat, i: nat)
    requires ps != [] && ps[0].Ref? && StartsAt(Mask(ps, x, k), p, Marker(x, i)) && RefAtOffset(ps, x, k, p) != Some(i)
    ensures p >= |Marker(x, k)|
    ensures StartsAt(Mask(ps[1..], x, k + 1), p - |Marker(x, k)|, Marker(x, i))
    ensures RefAtOffset(ps[1..], x, k + 1, p - |Marker(x, k)|) != Some(i)
  {
    var rest := Mask(ps[1..], x, k + 1);
    if p == 0 { MarkersAreApart(x, i, k, rest); }
    else if p < |Marker(x, k)| {
      MarkerHasPrefix(Mask(ps, x, k), p, x, i);
      NoPrefixInsideMarker(x, k, rest, p);
    } else {
      ShiftStart(Marker(x, k), rest, p, Marker(x, i));
    }
  }

  /** One pass is simultaneous substitution for every choice of values exactly when no literal poses as a marker. */
  lemma OnePassIsExactIff(ps: seq<Piece>, x: nat, n: nat)
    requires |Names(ps)| <= n
    ensures NoFalseMarker(ps, x, 0, n) <==>
      forall values: seq<string> :: |values| == n ==> Replace(x, values, Mask(ps, x, 0)) == Expand(ps, values, 0)
  {
    if NoFalseMarker(ps, x, 0, n) {
      forall values: seq<string> | |values| == n ensures Replace(x, values, Mask(ps, x, 0)) == Expand(ps, values, 0) {
        ReplaceIsExpand(ps, x, 0, values);
      }
    } else {
      var p: nat, i: nat :| i < n && StartsAt(Mask(ps, x, 0), p, Marker(x, i)) && RefAtOffset(ps, x, 0, p) != Some(i);
      FalseMarkersShow(ps, x, 0, n, p, i);
      assert |Dollars(n)| == n;
    }
  }
}
