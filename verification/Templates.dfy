/** What net/url makes of a masked text, component by component. */
module Templates {
  import opened Numbers
  import opened Wrappers
  import opened UrlTemplate

  // ---------------------------------------------------------------- percent decoding

  predicate IsHex(c: char) {
    '0' <= c <= '9' || 'a' <= c <= 'f' || 'A' <= c <= 'F'
  }

  function HexValue(c: char): (v: nat)
    requires IsHex(c)
    ensures v < 16
  {
    if '0' <= c <= '9' then (c as int) - ('0' as int)
    else if 'a' <= c <= 'f' then (c as int) - ('a' as int) + 10
    else (c as int) - ('A' as int) + 10
  }

  function Byte(a: char, b: char): char
    requires IsHex(a) && IsHex(b)
  {
    (16 * HexValue(a) + HexValue(b)) as char
  }

  function Then(head: string, tail: Option<string>): Option<string> {
    if tail.Some? then Some(head + tail.value) else None
  }

  /** url.PathUnescape or, with `plus`, url.QueryUnescape, where + is a space; None is the error. */
  function Unescape(s: string, plus: bool): Option<string> {
    if s == "" then Some("")
    else if s[0] != '%' then Then([if plus && s[0] == '+' then ' ' else s[0]], Unescape(s[1..], plus))
    else if |s| < 3 || !IsHex(s[1]) || !IsHex(s[2]) then None
    else Then([Byte(s[1], s[2])], Unescape(s[3..], plus))
  }

  const HexDigits := "0123456789abcdef"
  const UpperHexDigits := "0123456789ABCDEF"

  lemma HexDigitsAreHex(n: nat, c: char)
    requires n < 16
    ensures IsHex(c) && HexValue(c) == n <==> c == HexDigits[n] || c == UpperHexDigits[n]
  {
  }

  /** An escape stands for its byte, whatever it is, and a plus for a space only in a query; a percent sign without two digits is an error. */
  lemma EscapesDecode(byte: nat, high: char, low: char, rest: string, plus: bool)
    requires byte < 256
    requires high == HexDigits[byte / 16] || high == UpperHexDigits[byte / 16]
    requires low == HexDigits[byte % 16] || low == UpperHexDigits[byte % 16]
    ensures Unescape(['%', high, low] + rest, plus) == Then([byte as char], Unescape(rest, plus))
    ensures Unescape("+" + rest, plus) == Then(if plus then " " else "+", Unescape(rest, plus))
    ensures |rest| < 2 || !IsHex(rest[0]) || !IsHex(rest[1]) ==> Unescape("%" + rest, plus).None?
  {
    HexDigitsAreHex(byte / 16, high);
    HexDigitsAreHex(byte % 16, low);
    assert (['%', high, low] + rest)[3..] == rest;
    assert ("+" + rest)[1..] == rest && ("%" + rest)[1..] == rest;
  }

  predicate HexPiece(p: Piece) {
    p.Char? && IsHex(p.c)
  }

  function Before(head: Piece, tail: Option<seq<Piece>>): Option<seq<Piece>> {
    if tail.Some? then Some([head] + tail.value) else None
  }

  /** The same decoding of the literal characters around references. */
  function Decode(ps: seq<Piece>, plus: bool): Option<seq<Piece>> {
    if ps == [] then Some([])
    else if ps[0] != Char('%') then Before(if plus && ps[0] == Char('+') then Char(' ') else ps[0], Decode(ps[1..], plus))
    else if |ps| < 3 || !HexPiece(ps[1]) || !HexPiece(ps[2]) then None
    else Before(Char(Byte(ps[1].c, ps[2].c)), Decode(ps[3..], plus))
  }

  predicate WellNamed(ps: seq<Piece>) {
    forall i :: 0 <= i < |ps| && ps[i].Ref? ==> ValidName(ps[i].name)
  }

  lemma {:induction false} TokensAreWellNamed(s: string)
    ensures WellNamed(Tokenize(s))
    decreases |s|
  {
    if s != "" {
      match RefAt(s)
      case Some(name) => TokensAreWellNamed(s[|name| + 3..]);
      case None => TokensAreWellNamed(s[1..]);
    }
  }

  lemma {:induction false} UnescapePlain(plain: string, rest: string, plus: bool)
    requires '%' !in plain && '+' !in plain
    ensures Unescape(plain + rest, plus) == Then(plain, Unescape(rest, plus))
  {
    if plain == "" {
      assert plain + rest == rest;
      assert Unescape(rest, plus).Some? ==> plain + Unescape(rest, plus).value == Unescape(rest, plus).value;
    } else {
      assert plain[0] in plain;
      assert (plain + rest)[0] == plain[0] && (plain + rest)[1..] == plain[1..] + rest;
      UnescapePlain(plain[1..], rest, plus);
      if Unescape(rest, plus).Some? {
        assert [plain[0]] + (plain[1..] + Unescape(rest, plus).value) == plain + Unescape(rest, plus).value;
      }
    }
  }

  /** Unescaping the text is decoding its pieces: no escape can reach into a reference. */
  lemma {:induction false} UnescapeTheText(ps: seq<Piece>)
    requires WellNamed(ps)
    ensures Unescape(Unparse(ps), false) == if Decode(ps, false).Some? then Some(Unparse(Decode(ps, false).value)) else None
    decreases |ps|
  {
    if ps != [] {
      if ps[0].Ref? {
        UnescapeTheText(ps[1..]);
        UnescapePlain("${" + ps[0].name + "}", Unparse(ps[1..]), false);
      } else if ps[0] != Char('%') {
        UnescapeTheText(ps[1..]);
        assert Unparse(ps)[1..] == Unparse(ps[1..]);
      } else {
        EscapeInText(ps);
        if |ps| >= 3 && HexPiece(ps[1]) && HexPiece(ps[2]) { UnescapeTheText(ps[3..]); }
      }
    }
  }

  lemma EscapeInText(ps: seq<Piece>)
    requires ps != [] && ps[0] == Char('%')
    ensures
      var s := Unparse(ps);
      s[0] == '%' &&
      ((|ps| >= 3 && HexPiece(ps[1]) && HexPiece(ps[2])) <==> (|s| >= 3 && IsHex(s[1]) && IsHex(s[2])))
    ensures |ps| >= 3 && HexPiece(ps[1]) && HexPiece(ps[2]) ==>
      Unparse(ps)[1] == ps[1].c && Unparse(ps)[2] == ps[2].c && Unparse(ps)[3..] == Unparse(ps[3..])
  {
    assert Unparse(ps) == "%" + Unparse(ps[1..]);
    if |ps| >= 2 {
      assert ps[1..][0] == ps[1] && ps[1..][1..] == ps[2..];
      if |ps| >= 3 { assert ps[2..][0] == ps[2] && ps[2..][1..] == ps[3..]; }
    }
  }

  lemma EscapeInMask(ps: seq<Piece>, x: nat, k: nat)
    requires ps != [] && ps[0] == Char('%')
    ensures
      var s := Mask(ps, x, k);
      s[0] == '%' &&
      ((|ps| >= 3 && HexPiece(ps[1]) && HexPiece(ps[2])) <==> (|s| >= 3 && IsHex(s[1]) && IsHex(s[2])))
    ensures |ps| >= 3 && HexPiece(ps[1]) && HexPiece(ps[2]) ==>
      Mask(ps, x, k)[1] == ps[1].c && Mask(ps, x, k)[2] == ps[2].c && Mask(ps, x, k)[3..] == Mask(ps[3..], x, k)
  {
    assert Mask(ps, x, k) == "%" + Mask(ps[1..], x, k);
    assert Marker(x, k)[0] == 'n';
    if |ps| >= 2 {
      assert ps[1..][0] == ps[1] && ps[1..][1..] == ps[2..];
      if |ps| >= 3 { assert ps[2..][0] == ps[2] && ps[2..][1..] == ps[3..]; }
    }
  }

  lemma MarkerIsPlain(x: nat, k: nat)
    ensures '%' !in Marker(x, k) && '+' !in Marker(x, k)
  {
  }

  /** net/url decodes a masked text to the mask of the decoded pieces: markers pass through untouched. */
  lemma {:induction false} UnescapeTheMask(ps: seq<Piece>, x: nat, k: nat, plus: bool)
    ensures Unescape(Mask(ps, x, k), plus) == if Decode(ps, plus).Some? then Some(Mask(Decode(ps, plus).value, x, k)) else None
    decreases |ps|
  {
    if ps != [] {
      if ps[0].Ref? {
        UnescapeTheMask(ps[1..], x, k + 1, plus);
        MarkerIsPlain(x, k);
        UnescapePlain(Marker(x, k), Mask(ps[1..], x, k + 1), plus);
      } else if ps[0] != Char('%') {
        UnescapeTheMask(ps[1..], x, k, plus);
        assert Mask(ps, x, k)[1..] == Mask(ps[1..], x, k);
      } else {
        EscapeInMask(ps, x, k);
        if |ps| >= 3 && HexPiece(ps[1]) && HexPiece(ps[2]) { UnescapeTheMask(ps[3..], x, k, plus); }
      }
    }
  }

  lemma BeforeSplits(head: Piece, middle: seq<Piece>, tail: Option<seq<Piece>>)
    ensures tail.Some? ==> [head] + (middle + tail.value) == ([head] + middle) + tail.value
  {
  }

  lemma {:induction false} DecodeSplits(a: seq<Piece>, b: seq<Piece>)
    requires Decode(a, false).Some?
    ensures Decode(a + b, false) ==
      if Decode(b, false).Some? then Some(Decode(a, false).value + Decode(b, false).value) else None
    decreases |a|
  {
    if a == [] {
      assert a + b == b && Decode(a, false) == Some([]);
      assert Decode(b, false).Some? ==> [] + Decode(b, false).value == Decode(b, false).value;
    } else if a[0] != Char('%') {
      assert (a + b)[0] == a[0] && (a + b)[1..] == a[1..] + b;
      DecodeSplits(a[1..], b);
      BeforeSplits(a[0], Decode(a[1..], false).value, Decode(b, false));
    } else {
      assert (a + b)[0] == a[0] && (a + b)[3..] == a[3..] + b;
      DecodeSplits(a[3..], b);
      BeforeSplits(Char(Byte(a[1].c, a[2].c)), Decode(a[3..], false).value, Decode(b, false));
    }
  }

  lemma {:induction false} UnparseSplits(a: seq<Piece>, b: seq<Piece>)
    ensures Unparse(a + b) == Unparse(a) + Unparse(b)
  {
    if a == [] {
      assert a + b == b;
    } else {
      assert (a + b)[1..] == a[1..] + b;
      UnparseSplits(a[1..], b);
      var head := match a[0] case Char(c) => [c] case Ref(name) => "${" + name + "}";
      assert head + (Unparse(a[1..]) + Unparse(b)) == (head + Unparse(a[1..])) + Unparse(b);
    }
  }

  /** Query decoding differs from path decoding only in spaces, and a prefix has none. */
  lemma {:induction false} SpacedPieces(ps: seq<Piece>)
    ensures Decode(ps, true).Some? <==> Decode(ps, false).Some?
    ensures Decode(ps, false).Some? ==>
      var u, v := Unparse(Decode(ps, false).value), Unparse(Decode(ps, true).value);
      |u| == |v| && forall i :: 0 <= i < |u| ==> v[i] == u[i] || v[i] == ' '
    ensures Decode(ps, false).Some? ==> |Names(Decode(ps, false).value)| == |Names(Decode(ps, true).value)|
    decreases |ps|
  {
    if ps != [] {
      if ps[0] != Char('%') { SpacedPieces(ps[1..]); }
      else if |ps| >= 3 && HexPiece(ps[1]) && HexPiece(ps[2]) { SpacedPieces(ps[3..]); }
    }
  }

  lemma SpacesHideNoPrefix(u: string, v: string, x: nat)
    requires |u| == |v| && forall i :: 0 <= i < |u| ==> v[i] == u[i] || v[i] == ' '
    requires Contains(v, Prefix(x))
    ensures Contains(u, Prefix(x))
  {
    var p := Prefix(x);
    var i: nat :| i <= |v| && StartsAt(v, i, p);
    forall j | 0 <= j < |p| ensures u[i + j] == p[j] {
      assert v[i..i + |p|][j] == v[i + j];
    }
    assert u[i..i + |p|] == p;
    assert StartsAt(u, i, p);
  }

  // ---------------------------------------------------------------- components

  lemma UnparseThree(u: seq<Piece>, v: seq<Piece>, w: seq<Piece>)
    ensures Unparse(u + (v + w)) == Unparse(u) + (Unparse(v) + Unparse(w))
  {
    UnparseSplits(u, v + w);
    UnparseSplits(v, w);
  }

  lemma ThreePartsDecode(a: seq<Piece>, b: seq<Piece>, c: seq<Piece>, u: seq<Piece>, v: seq<Piece>)
    returns (w: seq<Piece>)
    requires Decode(a, false) == Some(u) && Decode(b, false) == Some(v) && Decode(a + (b + c), false).Some?
    ensures Decode(a + (b + c), false) == Some(u + (v + w))
  {
    DecodeSplits(a, b + c);
    DecodeSplits(b, c);
    w := Decode(c, false).value;
  }

  lemma ContainsBetween(before: string, s: string, after: string, sub: string)
    requires !Contains(before + (s + after), sub)
    ensures !Contains(s, sub)
  {
    assert before + (s + after) == before + s + after;
    if Contains(s, sub) { ContainsInside(before, s, after, sub); }
  }

  /** A decoded part of a text lies inside the decoded text. */
  lemma PartsDecodeInside(a: seq<Piece>, b: seq<Piece>, c: seq<Piece>, u: seq<Piece>, v: seq<Piece>, t: seq<Piece>, sub: string)
    requires Decode(a, false) == Some(u) && Decode(b, false) == Some(v) && Decode(a + (b + c), false) == Some(t)
    requires !Contains(Unparse(t), sub)
    ensures !Contains(Unparse(v), sub)
  {
    var w := ThreePartsDecode(a, b, c, u, v);
    UnparseThree(u, v, w);
    ContainsBetween(Unparse(u), Unparse(v), Unparse(w), sub);
  }

  lemma SpacedPiecesHideNoPrefix(part: seq<Piece>, plus: bool, x: nat)
    requires Decode(part, plus).Some? && Decode(part, false).Some?
    requires !Contains(Unparse(Decode(part, false).value), Prefix(x))
    ensures !Contains(Unparse(Decode(part, plus).value), Prefix(x))
  {
    SpacedPieces(part);
    var u, v := Unparse(Decode(part, false).value), Unparse(Decode(part, true).value);
    if Contains(v, Prefix(x)) { SpacesHideNoPrefix(u, v, x); }
  }

  lemma {:induction false} DecodingKeepsReferences(ps: seq<Piece>, plus: bool)
    requires Decode(ps, plus).Some?
    ensures Names(Decode(ps, plus).value) == Names(ps)
    decreases |ps|
  {
    if ps != [] {
      if ps[0] != Char('%') {
        DecodingKeepsReferences(ps[1..], plus);
      } else {
        DecodingKeepsReferences(ps[3..], plus);
        assert ps[1..][0] == ps[1] && ps[1..][1..] == ps[2..] && ps[2..][0] == ps[2] && ps[2..][1..] == ps[3..];
        assert Names(ps[1..]) == Names(ps[2..]) == Names(ps[3..]);
        assert Decode(ps, plus).value[1..] == Decode(ps[3..], plus).value;
      }
    }
  }

  lemma {:induction false} NamesSplit(a: seq<Piece>, b: seq<Piece>)
    ensures Names(a + b) == Names(a) + Names(b)
  {
    if a == [] { assert a + b == b; }
    else { assert (a + b)[0] == a[0] && (a + b)[1..] == a[1..] + b; NamesSplit(a[1..], b); }
  }

  lemma PartHidesNoPrefix(ps: seq<Piece>, a: nat, b: nat, x: nat)
    requires a <= b <= |ps| && Decode(ps, false).Some? && !Contains(Unparse(Decode(ps, false).value), Prefix(x))
    requires Decode(ps[..a], false).Some?
    ensures Decode(ps[a..b], false).Some? ==> !Contains(Unparse(Decode(ps[a..b], false).value), Prefix(x))
    ensures |Names(ps[..a])| + |Names(ps[a..b])| <= |Names(ps)|
  {
    assert ps == ps[..a] + (ps[a..b] + ps[b..]);
    NamesSplit(ps[..a], ps[a..b] + ps[b..]);
    NamesSplit(ps[a..b], ps[b..]);
    if Decode(ps[a..b], false).Some? {
      PartsDecodeInside(ps[..a], ps[a..b], ps[b..], Decode(ps[..a], false).value, Decode(ps[a..b], false).value,
        Decode(ps, false).value, Prefix(x));
    }
  }

  // ---------------------------------------------------------------- IsReference, ContainsReference

  lemma MaskOfSomething(ps: seq<Piece>, x: nat, k: nat)
    ensures Mask(ps, x, k) == "" ==> ps == []
  {
    assert |Marker(x, k)| > 0;
  }

  /** A parsed component equals the i-th marker exactly when it is that one reference and nothing else. */
  lemma IsReferenceMeansOneReference(ps: seq<Piece>, x: nat, k: nat, i: nat)
    requires !Contains(Unparse(ps), Prefix(x))
    ensures Mask(ps, x, k) == Marker(x, i) <==> |ps| == 1 && ps[0].Ref? && i == k
  {
    if Mask(ps, x, k) == Marker(x, i) {
      assert Mask(ps, x, k)[0..|Marker(x, i)|] == Marker(x, i);
      MarkerHasPrefix(Mask(ps, x, k), 0, x, i);
      PrefixOnlyAtReferences(ps, x, k, 0);
      MarkerAtReference(ps, x, k, 0);
      assert ps[0].Ref? && Mask(ps, x, k) == Marker(x, k) + Mask(ps[1..], x, k + 1);
      assert Mask(ps[1..], x, k + 1) == "";
      MaskOfSomething(ps[1..], x, k + 1);
    } else if |ps| == 1 && ps[0].Ref? {
      assert Mask(ps, x, k) == Marker(x, k) + "";
    }
  }

  lemma {:induction false} ReferenceHasOffset(ps: seq<Piece>, x: nat, k: nat, i: nat)
    requires k <= i < k + |Names(ps)|
    ensures exists p: nat :: RefAtOffset(ps, x, k, p) == Some(i)
    decreases |ps|
  {
    if ps[0].Char? {
      ReferenceHasOffset(ps[1..], x, k, i);
      var p: nat :| RefAtOffset(ps[1..], x, k, p) == Some(i);
      assert RefAtOffset(ps, x, k, p + 1) == Some(i);
    } else if i == k {
      assert RefAtOffset(ps, x, k, 0) == Some(i);
    } else {
      ReferenceHasOffset(ps[1..], x, k + 1, i);
      var p: nat :| RefAtOffset(ps[1..], x, k + 1, p) == Some(i);
      assert RefAtOffset(ps, x, k, p + |Marker(x, k)|) == Some(i);
    }
  }

  /** A parsed component contains the i-th marker exactly when the i-th reference stands in it. */
  lemma ContainsReferenceMeansAReference(ps: seq<Piece>, x: nat, k: nat, i: nat)
    requires !Contains(Unparse(ps), Prefix(x))
    ensures Contains(Mask(ps, x, k), Marker(x, i)) <==> k <= i < k + |Names(ps)|
  {
    if k <= i < k + |Names(ps)| {
      ReferenceHasOffset(ps, x, k, i);
      var p: nat :| RefAtOffset(ps, x, k, p) == Some(i);
      MarkerAtReference(ps, x, k, p);
      assert StartsAt(Mask(ps, x, k), p, Marker(x, i));
    }
    if Contains(Mask(ps, x, k), Marker(x, i)) {
      var p: nat :| p <= |Mask(ps, x, k)| && StartsAt(Mask(ps, x, k), p, Marker(x, i));
      MarkerHasPrefix(Mask(ps, x, k), p, x, i);
      PrefixOnlyAtReferences(ps, x, k, p);
      MarkerAtReference(ps, x, k, p);
    }
  }

  function Spelled(names: seq<string>): (v: seq<string>)
    ensures |v| == |names|
  {
    seq(|names|, i requires 0 <= i < |names| => "${" + names[i] + "}")
  }

  lemma {:induction false} ExpandSpelled(ps: seq<Piece>, all: seq<string>, k: nat)
    requires k + |Names(ps)| <= |all| && Names(ps) == all[k..k + |Names(ps)|]
    ensures Expand(ps, Spelled(all), k) == Unparse(ps)
    decreases |ps|
  {
    if ps != [] {
      if ps[0].Char? {
        ExpandSpelled(ps[1..], all, k);
      } else {
        assert Names(ps) == [ps[0].name] + Names(ps[1..]);
        assert Names(ps)[1..] == Names(ps[1..]) == all[k + 1..k + |Names(ps)|];
        assert all[k] == Names(ps)[0];
        ExpandSpelled(ps[1..], all, k + 1);
      }
    }
  }

  /** Putting `${NAME}` back for every marker gives the original text. */
  lemma MaskingIsReversible(value: string, x: nat)
    requires !Contains(value, Prefix(x))
    ensures Replace(x, Spelled(Names(Tokenize(value))), Mask(Tokenize(value), x, 0)) == value
  {
    var ps := Tokenize(value);
    TokensSpellTheText(value);
    FreshPrefixExcludesFalseMarkers(ps, x, 0, |Names(ps)|);
    ReplaceIsExpand(ps, x, 0, Spelled(Names(ps)));
    ExpandSpelled(ps, Names(ps), 0);
  }

  // ---------------------------------------------------------------- the prefix and the masked text

  predicate Controlled(s: string) {
    '\0' in s || '\r' in s || '\n' in s
  }

  /** parse goes on to mask the references. */
  predicate Maskable(value: string) {
    !Controlled(value) && !Contains(Literals(Tokenize(value)), "${")
  }

  function DecodedOrNothing(value: string): string {
    if Unescape(value, false).Some? then Unescape(value, false).value else ""
  }

  /** The prefix parse picks: the shortest that occurs neither in the text nor in what it decodes to, if it does. */
  ghost predicate FreshFor(value: string, x: nat) {
    && !Contains(value, Prefix(x)) && !Contains(DecodedOrNothing(value), Prefix(x))
    && forall y: nat :: y < x ==> Contains(value, Prefix(y)) || Contains(DecodedOrNothing(value), Prefix(y))
  }

  lemma Joined<T>(a: seq<T>, b: seq<T>, c: seq<T>)
    ensures a + (b + c) == a + b + c
  {
  }

  lemma LongTextsAreNotContained(s: string, sub: string)
    requires |sub| > |s|
    ensures !Contains(s, sub)
  {
  }

  /** The loop that lengthens the prefix stops, and at the shortest one that occurs in neither text. */
  method FreshPrefix(value: string, decoded: string) returns (x: nat)
    ensures !Contains(value, Prefix(x)) && !Contains(decoded, Prefix(x))
    ensures forall y: nat :: y < x ==> Contains(value, Prefix(y)) || Contains(decoded, Prefix(y))
  {
    x := 0;
    while Contains(value, Prefix(x)) || Contains(decoded, Prefix(x))
      invariant forall y: nat :: y < x ==> Contains(value, Prefix(y)) || Contains(decoded, Prefix(y))
      decreases |value| + |decoded| - x
    {
      if x > |value| + |decoded| {
        LongTextsAreNotContained(value, Prefix(x));
        LongTextsAreNotContained(decoded, Prefix(x));
      }
      x := x + 1;
    }
  }

  /** Masking one more piece of the text. */
  lemma MaskOneMore(rest: string, x: nat, k: nat)
    requires rest != ""
    ensures match RefAt(rest)
            case Some(name) =>
              && Mask(Tokenize(rest), x, k) == Marker(x, k) + Mask(Tokenize(rest[|name| + 3..]), x, k + 1)
              && Names(Tokenize(rest)) == [name] + Names(Tokenize(rest[|name| + 3..]))
            case None =>
              && Mask(Tokenize(rest), x, k) == [rest[0]] + Mask(Tokenize(rest[1..]), x, k)
              && Names(Tokenize(rest)) == Names(Tokenize(rest[1..]))
  {
    match RefAt(rest)
    case Some(name) => assert ([Ref(name)] + Tokenize(rest[|name| + 3..]))[1..] == Tokenize(rest[|name| + 3..]);
    case None => assert ([Char(rest[0])] + Tokenize(rest[1..]))[1..] == Tokenize(rest[1..]);
  }

  predicate Masking(value: string, x: nat, masked: string, refs: seq<string>, rest: string) {
    && masked + Mask(Tokenize(rest), x, |refs|) == Mask(Tokenize(value), x, 0)
    && refs + Names(Tokenize(rest)) == Names(Tokenize(value))
  }

  lemma MaskingGoesOn(value: string, x: nat, masked: string, refs: seq<string>, rest: string)
    requires rest != "" && Masking(value, x, masked, refs, rest)
    ensures match RefAt(rest)
            case Some(name) => Masking(value, x, masked + Marker(x, |refs|), refs + [name], rest[|name| + 3..])
            case None => Masking(value, x, masked + [rest[0]], refs, rest[1..])
  {
    MaskOneMore(rest, x, |refs|);
    match RefAt(rest)
    case Some(name) =>
      Joined(masked, Marker(x, |refs|), Mask(Tokenize(rest[|name| + 3..]), x, |refs| + 1));
      Joined(refs, [name], Names(Tokenize(rest[|name| + 3..])));
    case None =>
      Joined(masked, [rest[0]], Mask(Tokenize(rest[1..]), x, |refs|));
  }

  /** ReplaceAllStringFunc: one marker per reference, in order, remembering the names. */
  method MaskReferences(value: string, x: nat) returns (masked: string, refs: seq<string>)
    ensures masked == Mask(Tokenize(value), x, 0) && refs == Names(Tokenize(value))
  {
    masked, refs := "", [];
    var rest := value;
    assert Masking(value, x, masked, refs, rest);
    while rest != ""
      invariant Masking(value, x, masked, refs, rest)
      decreases |rest|
    {
      MaskingGoesOn(value, x, masked, refs, rest);
      match RefAt(rest) {
        case Some(name) =>
          masked, refs, rest := masked + Marker(x, |refs|), refs + [name], rest[|name| + 3..];
        case None =>
          masked, rest := masked + [rest[0]], rest[1..];
      }
    }
    assert masked + "" == masked && refs + [] == refs;
  }

  // ---------------------------------------------------------------- accepted templates

  /** How net/url and ParseQuery read a stretch of the text; a masked port is taken as it stands. */
  datatype Reading = Port | Path | Query

  datatype Part = Part(pieces: seq<Piece>, reading: Reading)

  function Joint(parts: seq<Part>, n: nat): seq<Piece>
    requires n <= |parts|
  {
    if n == 0 then [] else Joint(parts, n - 1) + parts[n - 1].pieces
  }

  /** The component the program sees for a part of the masked text; None is a refused URL. */
  function Component(part: Part, x: nat, k: nat): Option<string> {
    if part.reading.Port? then Some(Mask(part.pieces, x, k)) else Unescape(Mask(part.pieces, x, k), part.reading.Query?)
  }

  /** The decoded literals and the references the component stands for. */
  function Meaning(part: Part): Option<seq<Piece>> {
    if part.reading.Port? then Some(part.pieces) else Decode(part.pieces, part.reading.Query?)
  }

  predicate OneReference(ps: seq<Piece>) {
    |ps| == 1 && ps[0].Ref?
  }

  ghost predicate Substitutes(component: string, x: nat, meaning: seq<Piece>, k: nat, n: nat) {
    && k + |Names(meaning)| <= n
    && forall values: seq<string> :: |values| == n ==> Replace(x, values, component) == Expand(meaning, values, k)
  }

  ghost predicate ReadAsReference(component: string, x: nat, meaning: seq<Piece>, k: nat) {
    forall i: nat :: component == Marker(x, i) <==> OneReference(meaning) && i == k
  }

  /** Expanding the component substitutes every value at once, and it passes for a reference only if it is one. */
  ghost predicate Exact(part: Part, x: nat, k: nat, n: nat) {
    && Component(part, x, k).Some? && Meaning(part).Some?
    && Substitutes(Component(part, x, k).value, x, Meaning(part).value, k, n)
    && ReadAsReference(Component(part, x, k).value, x, Meaning(part).value, k)
  }

  /**
    The parts of a text whose URL is accepted: net/url refuses a bad escape in user, host and path,
    and the check of a connection refuses one in the query; delimiters decode to themselves.
  */
  ghost predicate Accepted(value: string, x: nat, parts: seq<Part>) {
    && FreshFor(value, x) && Joint(parts, |parts|) == Tokenize(value)
    && forall i :: 0 <= i < |parts| ==> Meaning(parts[i]).Some?
  }

  ghost predicate PartIsExact(value: string, x: nat, parts: seq<Part>, i: nat)
    requires i < |parts|
  {
    Exact(parts[i], x, |Names(Joint(parts, i))|, |Names(Tokenize(value))|)
  }

  ghost predicate AllExact(value: string, x: nat, parts: seq<Part>) {
    forall i {:trigger PartIsExact(value, x, parts, i)} :: 0 <= i < |parts| ==> PartIsExact(value, x, parts, i)
  }

  ghost predicate PortsDecode(parts: seq<Part>) {
    forall i :: 0 <= i < |parts| && parts[i].reading.Port? ==> Decode(parts[i].pieces, false).Some?
  }

  lemma {:induction false} JointIsPrefix(parts: seq<Part>, i: nat, n: nat)
    requires i <= n <= |parts|
    ensures Joint(parts, i) <= Joint(parts, n)
    decreases n
  {
    if i < n { JointIsPrefix(parts, i, n - 1); }
  }

  /** Parts that decode one by one decode together. */
  lemma {:induction false} JointDecodes(parts: seq<Part>, n: nat)
    requires n <= |parts| && PortsDecode(parts) && forall i :: 0 <= i < |parts| ==> Meaning(parts[i]).Some?
    ensures Decode(Joint(parts, n), false).Some?
  {
    if n > 0 {
      JointDecodes(parts, n - 1);
      SpacedPieces(parts[n - 1].pieces);
      DecodeSplits(Joint(parts, n - 1), parts[n - 1].pieces);
    }
  }

  lemma StretchIsInside(ps: seq<Piece>, a: nat, b: nat, sub: string)
    requires a <= b <= |ps| && !Contains(Unparse(ps), sub)
    ensures !Contains(Unparse(ps[a..b]), sub)
    ensures |Names(ps[..a])| + |Names(ps[a..b])| <= |Names(ps)|
  {
    assert ps == ps[..a] + (ps[a..b] + ps[b..]);
    NamesSplit(ps[..a], ps[a..b] + ps[b..]);
    NamesSplit(ps[a..b], ps[b..]);
    UnparseThree(ps[..a], ps[a..b], ps[b..]);
    ContainsBetween(Unparse(ps[..a]), Unparse(ps[a..b]), Unparse(ps[b..]), sub);
  }

  lemma FreshMeaningIsExact(part: Part, x: nat, k: nat, n: nat)
    requires Meaning(part).Some? && !Contains(Unparse(Meaning(part).value), Prefix(x))
    requires k + |Names(part.pieces)| <= n
    ensures Exact(part, x, k, n)
  {
    var meaning := Meaning(part).value;
    if !part.reading.Port? {
      UnescapeTheMask(part.pieces, x, k, part.reading.Query?);
      DecodingKeepsReferences(part.pieces, part.reading.Query?);
    }
    FreshPrefixExcludesFalseMarkers(meaning, x, k, n);
    forall values: seq<string> | |values| == n ensures Replace(x, values, Mask(meaning, x, k)) == Expand(meaning, values, k) {
      ReplaceIsExpand(meaning, x, k, values);
    }
    forall i: nat ensures Mask(meaning, x, k) == Marker(x, i) <==> OneReference(meaning) && i == k {
      IsReferenceMeansOneReference(meaning, x, k, i);
    }
  }

  lemma PartIsAStretch(value: string, x: nat, parts: seq<Part>, i: nat)
    requires Accepted(value, x, parts) && i < |parts|
    ensures |Joint(parts, i)| <= |Joint(parts, i + 1)| <= |Tokenize(value)|
    ensures Tokenize(value)[..|Joint(parts, i)|] == Joint(parts, i)
    ensures Tokenize(value)[|Joint(parts, i)|..|Joint(parts, i + 1)|] == parts[i].pieces
  {
    JointIsPrefix(parts, i + 1, |parts|);
    assert Joint(parts, i + 1) == Joint(parts, i) + parts[i].pieces;
  }

  /** A port holds no prefix by the check of the raw text alone. */
  lemma PortIsFresh(value: string, x: nat, parts: seq<Part>, i: nat)
    requires Accepted(value, x, parts) && i < |parts| && parts[i].reading.Port?
    ensures FreshPart(value, x, parts, i)
  {
    PartIsAStretch(value, x, parts, i);
    TokensSpellTheText(value);
    StretchIsInside(Tokenize(value), |Joint(parts, i)|, |Joint(parts, i + 1)|, Prefix(x));
  }

  /** A decoded part holds none when all that net/url was not shown decodes too. */
  lemma DecodedPartIsFresh(value: string, x: nat, parts: seq<Part>, i: nat)
    requires Accepted(value, x, parts) && i < |parts| && !parts[i].reading.Port? && PortsDecode(parts)
    ensures FreshPart(value, x, parts, i)
  {
    var ps, a, b := Tokenize(value), |Joint(parts, i)|, |Joint(parts, i + 1)|;
    PartIsAStretch(value, x, parts, i);
    JointDecodes(parts, |parts|);
    JointDecodes(parts, i);
    TokensSpellTheText(value);
    TokensAreWellNamed(value);
    UnescapeTheText(ps);
    PartHidesNoPrefix(ps, a, b, x);
    SpacedPieces(ps[a..b]);
    SpacedPiecesHideNoPrefix(ps[a..b], parts[i].reading.Query?, x);
  }

  /** What a part stands for does not contain the prefix, and its references are among those of the text. */
  ghost predicate FreshPart(value: string, x: nat, parts: seq<Part>, i: nat)
    requires i < |parts|
  {
    && Meaning(parts[i]).Some? && !Contains(Unparse(Meaning(parts[i]).value), Prefix(x))
    && |Names(Joint(parts, i))| + |Names(parts[i].pieces)| <= |Names(Tokenize(value))|
  }

  lemma PartIsFresh(value: string, x: nat, parts: seq<Part>, i: nat)
    requires Accepted(value, x, parts) && i < |parts| && PortsDecode(parts)
    ensures FreshPart(value, x, parts, i)
  {
    if parts[i].reading.Port? { PortIsFresh(value, x, parts, i); } else { DecodedPartIsFresh(value, x, parts, i); }
  }

  /**
    Every component of every accepted template expands to simultaneous substitution, whatever the
    values are, and passes for a reference only if it is one, provided each port that was cut out
    before net/url saw the text can be decoded as well; in particular when none was cut out.
  */
  lemma AcceptedTemplatesExpandExactly(value: string, x: nat, parts: seq<Part>)
    requires Accepted(value, x, parts) && PortsDecode(parts)
    ensures AllExact(value, x, parts)
  {
    forall i | 0 <= i < |parts| ensures PartIsExact(value, x, parts, i) {
      PartIsFresh(value, x, parts, i);
      FreshMeaningIsExact(parts[i], x, |Names(Joint(parts, i))|, |Names(Tokenize(value))|);
    }
  }
}
