/**
  parseMaskedURL: net/url wants a numeric port, so a port that holds references is cut out of the
  masked text before it is parsed and put back undecoded.
*/
module Ports {
  import opened Numbers
  import opened Wrappers
  import opened UrlTemplate
  import opened Templates

  // ---------------------------------------------------------------- where the port is cut

  /** strings.Index(text, "://"). */
  function Separator(text: string): (r: Option<nat>)
    ensures r.Some? ==> r.value + 3 <= |text|
  {
    if text == "" then None
    else if StartsAt(text, 0, "://") then Some(0)
    else match Separator(text[1..]) case None => None case Some(p) => Some(p + 1)
  }

  predicate EndsAuthority(c: char) {
    c == '/' || c == '?' || c == '#'
  }

  predicate IsDelimiter(c: char) {
    EndsAuthority(c) || c == '@' || c == ':'
  }

  /** strings.IndexAny(text, "/?#") from an offset on, or the end of the text. */
  function EndOfAuthority(text: string, i: nat): (e: nat)
    requires i <= |text|
    ensures i <= e <= |text|
    decreases |text| - i
  {
    if i == |text| || EndsAuthority(text[i]) then i else EndOfAuthority(text, i + 1)
  }

  /** Where the text after the last such character of a stretch begins: at its start if there is none. */
  function AfterLast(text: string, c: char, lo: nat, hi: nat): (r: nat)
    requires lo <= hi <= |text|
    ensures lo <= r <= hi
  {
    if hi == lo || text[hi - 1] == c then hi else AfterLast(text, c, lo, hi - 1)
  }

  datatype Span = Span(from: nat, to: nat)

  predicate Undelimited(s: string) {
    forall i :: 0 <= i < |s| ==> !IsDelimiter(s[i])
  }

  /** From a colon to the end of the authority, without another delimiter, and with the prefix inside. */
  predicate CutAt(text: string, prefix: string, from: nat, to: nat) {
    && 0 < from <= to <= |text| && text[from - 1] == ':' && (to == |text| || EndsAuthority(text[to]))
    && Undelimited(text[from..to]) && Contains(text[from..to], prefix)
  }

  /** The stretch that is cut: what follows the last colon of the host, if the prefix occurs there. */
  function PortCut(text: string, prefix: string): Option<Span> {
    match Separator(text)
    case None => None
    case Some(p) => CutOfAuthority(text, prefix, p + 3)
  }

  function CutOfAuthority(text: string, prefix: string, start: nat): Option<Span>
    requires start <= |text|
  {
    var end := EndOfAuthority(text, start);
    var host := AfterLast(text, '@', start, end);
    var port := AfterLast(text, ':', host, end);
    if port > host && Contains(text[port..end], prefix) then Some(Span(port, end)) else None
  }

  /** What url.Parse is given. */
  function Shown(text: string, prefix: string): string {
    match PortCut(text, prefix)
    case None => text
    case Some(span) =>
      CutIsDelimited(text, prefix);
      text[..span.from] + "0" + text[span.to..]
  }

  predicate WithinAuthority(text: string, i: nat, e: nat)
    requires i <= e <= |text|
  {
    forall j :: i <= j < e ==> !EndsAuthority(text[j])
  }

  lemma {:induction false} EndOfAuthorityIs(text: string, i: nat, e: nat)
    requires i <= e <= |text| && WithinAuthority(text, i, e) && (e < |text| ==> EndsAuthority(text[e]))
    ensures EndOfAuthority(text, i) == e
    decreases e - i
  {
    if i < e { EndOfAuthorityIs(text, i + 1, e); }
  }

  lemma {:induction false} EndOfAuthorityIsFirst(text: string, i: nat)
    requires i <= |text|
    ensures var e := EndOfAuthority(text, i); WithinAuthority(text, i, e) && (e < |text| ==> EndsAuthority(text[e]))
    decreases |text| - i
  {
    if i < |text| && !EndsAuthority(text[i]) { EndOfAuthorityIsFirst(text, i + 1); }
  }

  predicate Without(text: string, c: char, lo: nat, hi: nat)
    requires lo <= hi <= |text|
  {
    forall j :: lo <= j < hi ==> text[j] != c
  }

  lemma {:induction false} AfterLastIs(text: string, c: char, lo: nat, hi: nat, r: nat)
    requires lo < r <= hi <= |text| && text[r - 1] == c && Without(text, c, r, hi)
    ensures AfterLast(text, c, lo, hi) == r
    decreases hi - r
  {
    if r < hi { AfterLastIs(text, c, lo, hi - 1, r); }
  }

  lemma {:induction false} AfterLastIsLast(text: string, c: char, lo: nat, hi: nat)
    requires lo <= hi <= |text|
    ensures var r := AfterLast(text, c, lo, hi); (r > lo ==> text[r - 1] == c) && Without(text, c, r, hi)
  {
    if hi > lo && text[hi - 1] != c { AfterLastIsLast(text, c, lo, hi - 1); }
  }

  lemma CutIsDelimited(text: string, prefix: string)
    requires PortCut(text, prefix).Some?
    ensures var span := PortCut(text, prefix).value; CutAt(text, prefix, span.from, span.to)
  {
    var p := Separator(text).value;
    var end := EndOfAuthority(text, p + 3);
    var host := AfterLast(text, '@', p + 3, end);
    var port := AfterLast(text, ':', host, end);
    EndOfAuthorityIsFirst(text, p + 3);
    AfterLastIsLast(text, '@', p + 3, end);
    AfterLastIsLast(text, ':', host, end);
  }

  lemma {:induction false} SeparatorIsFirst(text: string)
    ensures match Separator(text)
      case None => forall q :: 0 <= q < |text| ==> !StartsAt(text, q, "://")
      case Some(p) => StartsAt(text, p, "://") && forall q :: 0 <= q < p ==> !StartsAt(text, q, "://")
  {
    if text != "" && !StartsAt(text, 0, "://") {
      SeparatorIsFirst(text[1..]);
      forall q | 0 < q < |text| ensures StartsAt(text, q, "://") <==> StartsAt(text[1..], q - 1, "://") {
        if q + 3 <= |text| { assert text[1..][q - 1..q + 2] == text[q..q + 3]; }
      }
    }
  }

  /**
    The cut in the text's own characters: after the first "://" the authority runs to the next slash,
    question mark or hash; the cut is what follows its last colon, if no at-sign comes later and the
    prefix occurs in it.
  */
  ghost predicate IsCut(text: string, prefix: string, p: nat, span: Span) {
    && StartsAt(text, p, "://") && (forall q :: 0 <= q < p ==> !StartsAt(text, q, "://"))
    && p + 3 < span.from <= span.to <= |text| && text[span.from - 1] == ':'
    && (span.to == |text| || text[span.to] in "/?#")
    && (forall j :: p + 3 <= j < span.to ==> text[j] !in "/?#")
    && (forall j :: span.from <= j < span.to ==> text[j] !in "@:")
    && Contains(text[span.from..span.to], prefix)
  }

  /** Exactly that stretch is cut, and nothing if there is none. */
  lemma PortCutIs(text: string, prefix: string, span: Span)
    ensures PortCut(text, prefix) == Some(span) <==> exists p: nat :: IsCut(text, prefix, p, span)
  {
    SeparatorIsFirst(text);
    if PortCut(text, prefix) == Some(span) {
      var p := Separator(text).value;
      var end := EndOfAuthority(text, p + 3);
      var host := AfterLast(text, '@', p + 3, end);
      EndOfAuthorityIsFirst(text, p + 3);
      AfterLastIsLast(text, '@', p + 3, end);
      AfterLastIsLast(text, ':', host, end);
      assert IsCut(text, prefix, p, span);
    }
    if p: nat :| IsCut(text, prefix, p, span) { CutIsThere(text, prefix, p, span); }
  }

  lemma CutIsThere(text: string, prefix: string, p: nat, span: Span)
    requires IsCut(text, prefix, p, span)
    ensures PortCut(text, prefix) == Some(span)
  {
    SeparatorIsFirst(text);
    assert Separator(text) == Some(p);
    EndOfAuthorityIs(text, p + 3, span.to);
    var host := AfterLast(text, '@', p + 3, span.to);
    AfterLastIsLast(text, '@', p + 3, span.to);
    AfterLastIs(text, ':', host, span.to, span.from);
  }

  // ---------------------------------------------------------------- the cut falls between pieces

  predicate InMarker(c: char) {
    'a' <= c <= 'z' || '0' <= c <= '9'
  }

  lemma MarkersAreWords(x: nat, k: nat)
    ensures forall i :: 0 <= i < |Marker(x, k)| ==> InMarker(Marker(x, k)[i])
  {
    forall i | 0 <= i < |Marker(x, k)| ensures InMarker(Marker(x, k)[i]) {
      var p, n := Prefix(x), Itoa(k);
      if i >= |p| && i < |p| + |n| { assert Marker(x, k)[i] == n[i - |p|] && IsDigit(n[i - |p|]); }
    }
  }

  lemma {:induction false} MaskSplits(a: seq<Piece>, b: seq<Piece>, x: nat, k: nat)
    ensures Mask(a + b, x, k) == Mask(a, x, k) + Mask(b, x, k + |Names(a)|)
    decreases |a|
  {
    if a == [] {
      assert a + b == b;
    } else {
      assert (a + b)[0] == a[0] && (a + b)[1..] == a[1..] + b;
      var k' := if a[0].Ref? then k + 1 else k;
      MaskSplits(a[1..], b, x, k');
      var head := match a[0] case Char(c) => [c] case Ref(_) => Marker(x, k);
      Joined(head, Mask(a[1..], x, k'), Mask(b, x, k + |Names(a)|));
    }
  }

  /** A character no marker has is a literal character of the template. */
  lemma {:induction false} CharIsAPiece(ps: seq<Piece>, x: nat, k: nat, p: nat) returns (i: nat)
    requires p < |Mask(ps, x, k)| && !InMarker(Mask(ps, x, k)[p])
    ensures i < |ps| && |Mask(ps[..i], x, k)| == p && ps[i] == Char(Mask(ps, x, k)[p])
    decreases |ps|
  {
    if ps[0].Char? && p == 0 {
      i := 0;
    } else {
      var head, k' := if ps[0].Char? then [ps[0].c] else Marker(x, k), if ps[0].Char? then k else k + 1;
      MarkersAreWords(x, k);
      assert Mask(ps, x, k) == head + Mask(ps[1..], x, k');
      assert p >= |head|;
      i := CharIsAPiece(ps[1..], x, k', p - |head|);
      assert ps[..i + 1][1..] == ps[1..][..i] && ps[..i + 1][0] == ps[0];
      i := i + 1;
    }
  }

  lemma MaskUpTo(ps: seq<Piece>, x: nat, i: nat)
    requires i <= |ps|
    ensures Mask(ps, x, 0) == Mask(ps[..i], x, 0) + Mask(ps[i..], x, |Names(ps[..i])|)
  {
    assert ps == ps[..i] + ps[i..];
    MaskSplits(ps[..i], ps[i..], x, 0);
  }

  /** This stretch of the masked text is the mask of these pieces, which hold a reference and follow a colon. */
  predicate IsPort(ps: seq<Piece>, x: nat, from: nat, to: nat, i: nat, j: nat) {
    && 0 < i <= j <= |ps| && ps[i - 1] == Char(':') && Names(ps[i..j]) != [] && from <= to <= |Mask(ps, x, 0)|
    && Mask(ps, x, 0)[..from] == Mask(ps[..i], x, 0)
    && Mask(ps, x, 0)[from..to] == Mask(ps[i..j], x, |Names(ps[..i])|)
    && Mask(ps, x, 0)[to..] == Mask(ps[j..], x, |Names(ps[..j])|)
  }

  /**
    The cut port is a run of whole pieces of the template with at least one reference among them,
    and what is left on either side is masked as it was.
  */
  lemma PortIsAPart(ps: seq<Piece>, x: nat, span: Span) returns (i: nat, j: nat)
    requires PortCut(Mask(ps, x, 0), Prefix(x)) == Some(span) && !Contains(Unparse(ps), Prefix(x))
    ensures IsPort(ps, x, span.from, span.to, i, j)
  {
    CutIsDelimited(Mask(ps, x, 0), Prefix(x));
    i, j := PiecesBetween(ps, x, span.from, span.to);
  }

  lemma PiecesBetween(ps: seq<Piece>, x: nat, from: nat, to: nat) returns (i: nat, j: nat)
    requires !Contains(Unparse(ps), Prefix(x)) && CutAt(Mask(ps, x, 0), Prefix(x), from, to)
    ensures IsPort(ps, x, from, to, i, j)
  {
    i := EndOfPort(ps, x, from - 1);
    MaskOfNext(ps, x, i);
    i := i + 1;
    j := EndOfPort(ps, x, to);
    PiecesInOrder(ps, x, i, j);
    CutBetween(ps, x, i, j);
    StretchIsInside(ps, i, j, Prefix(x));
    NamedIfPrefixed(ps[i..j], x, |Names(ps[..i])|);
  }

  /** A delimiter of the masked text, or its end, is a boundary of pieces. */
  lemma EndOfPort(ps: seq<Piece>, x: nat, p: nat) returns (i: nat)
    requires p <= |Mask(ps, x, 0)| && (p < |Mask(ps, x, 0)| ==> !InMarker(Mask(ps, x, 0)[p]))
    ensures i <= |ps| && |Mask(ps[..i], x, 0)| == p
    ensures p < |Mask(ps, x, 0)| ==> i < |ps| && ps[i] == Char(Mask(ps, x, 0)[p])
  {
    if p < |Mask(ps, x, 0)| { i := CharIsAPiece(ps, x, 0, p); } else { i := |ps|; }
    assert ps[..|ps|] == ps;
  }

  lemma CutBetween(ps: seq<Piece>, x: nat, i: nat, j: nat)
    requires i <= j <= |ps|
    ensures
      var text, a, b := Mask(ps, x, 0), |Mask(ps[..i], x, 0)|, |Mask(ps[..j], x, 0)|;
      && a <= b <= |text| && text[..a] == Mask(ps[..i], x, 0)
      && text[a..b] == Mask(ps[i..j], x, |Names(ps[..i])|)
      && text[b..] == Mask(ps[j..], x, |Names(ps[..j])|)
  {
    MaskUpTo(ps, x, j);
    MiddleOfMask(ps, x, i, j);
  }

  lemma MaskOfNext(ps: seq<Piece>, x: nat, i: nat)
    requires i < |ps| && ps[i].Char?
    ensures Mask(ps[..i + 1], x, 0) == Mask(ps[..i], x, 0) + [ps[i].c]
  {
    assert ps[..i + 1] == ps[..i] + [ps[i]];
    MaskSplits(ps[..i], [ps[i]], x, 0);
    assert Mask([ps[i]], x, |Names(ps[..i])|) == [ps[i].c];
  }

  lemma {:induction false} PiecesInOrder(ps: seq<Piece>, x: nat, i: nat, j: nat)
    requires i <= |ps| && j <= |ps| && |Mask(ps[..i], x, 0)| <= |Mask(ps[..j], x, 0)|
    ensures i <= j
  {
    if j < i {
      assert ps[..i] == ps[..j] + ps[j..i];
      MaskSplits(ps[..j], ps[j..i], x, 0);
      MaskOfSomething(ps[j..i], x, |Names(ps[..j])|);
    }
  }

  lemma MiddleOfMask(ps: seq<Piece>, x: nat, i: nat, j: nat)
    requires i <= j <= |ps|
    ensures Mask(ps[..j], x, 0) == Mask(ps[..i], x, 0) + Mask(ps[i..j], x, |Names(ps[..i])|)
  {
    assert ps[..j] == ps[..i] + ps[i..j];
    MaskSplits(ps[..i], ps[i..j], x, 0);
  }

  lemma {:induction false} NamedIfPrefixed(ps: seq<Piece>, x: nat, k: nat)
    requires !Contains(Unparse(ps), Prefix(x))
    ensures Contains(Mask(ps, x, k), Prefix(x)) <==> Names(ps) != []
  {
    if Contains(Mask(ps, x, k), Prefix(x)) {
      var p: nat :| p <= |Mask(ps, x, k)| && StartsAt(Mask(ps, x, k), p, Prefix(x));
      PrefixOnlyAtReferences(ps, x, k, p);
      MarkerAtReference(ps, x, k, p);
    } else if Names(ps) != [] {
      ContainsReferenceMeansAReference(ps, x, k, k);
      var p: nat :| p <= |Mask(ps, x, k)| && StartsAt(Mask(ps, x, k), p, Marker(x, k));
      MarkerHasPrefix(Mask(ps, x, k), p, x, k);
    }
  }

  // ---------------------------------------------------------------- literal text

  function Chars(s: string): (ps: seq<Piece>)
    ensures |ps| == |s| && Names(ps) == []
  {
    if s == "" then [] else [Char(s[0])] + Chars(s[1..])
  }

  lemma {:induction false} TokenizePlain(plain: string, rest: string)
    requires '$' !in plain
    ensures Tokenize(plain + rest) == Chars(plain) + Tokenize(rest)
  {
    if plain == "" {
      assert plain + rest == rest;
    } else {
      assert plain[0] in plain;
      assert (plain + rest)[0] == plain[0] && (plain + rest)[1..] == plain[1..] + rest;
      TokenizePlain(plain[1..], rest);
    }
  }

  lemma {:induction false} MaskOfChars(s: string, x: nat, k: nat)
    ensures Mask(Chars(s), x, k) == s
  {
    if s != "" { MaskOfChars(s[1..], x, k); }
  }

  lemma {:induction false} LiteralsSplit(a: seq<Piece>, b: seq<Piece>)
    ensures Literals(a + b) == Literals(a) + Literals(b)
  {
    if a == [] {
      assert a + b == b;
    } else {
      assert (a + b)[0] == a[0] && (a + b)[1..] == a[1..] + b;
      LiteralsSplit(a[1..], b);
      Joined(if a[0].Char? then [a[0].c] else "", Literals(a[1..]), Literals(b));
    }
  }

  lemma {:induction false} LiteralsOfChars(s: string)
    ensures Literals(Chars(s)) == s
  {
    if s != "" { LiteralsOfChars(s[1..]); }
  }

  lemma {:induction false} PlainDecodes(s: string)
    requires '%' !in s
    ensures Decode(Chars(s), false) == Some(Chars(s))
  {
    if s != "" {
      assert s[0] in s;
      PlainDecodes(s[1..]);
    }
  }

  // ---------------------------------------------------------------- a literal that poses as a reference

  ghost predicate NeAt(s: string, i: nat) {
    i + 1 < |s| && s[i] == 'n' && s[i + 1] == 'e'
  }

  /** No 'n' is followed by an 'e'. */
  ghost predicate NoNe(s: string) {
    forall i: nat {:trigger NeAt(s, i)} :: !NeAt(s, i)
  }

  /** A prefix in a text whose beginning has no "ne" lies after that beginning. */
  lemma PrefixLiesAfter(head: string, tail: string, x: nat)
    requires NoNe(head) && head != "" && head[|head| - 1] != 'n'
    ensures Contains(head + tail, Prefix(x)) <==> Contains(tail, Prefix(x))
  {
    var s := head + tail;
    if Contains(s, Prefix(x)) {
      var i: nat :| i <= |s| && StartsAt(s, i, Prefix(x));
      assert s[i..i + |Prefix(x)|][0] == s[i] && s[i..i + |Prefix(x)|][1] == s[i + 1];
      assert Prefix(x)[0] == 'n' && Prefix(x)[1] == 'e';
      assert NeAt(s, i);
      assert !NeAt(head, i);
      ShiftStart(head, tail, i, Prefix(x));
      assert StartsAt(tail, i - |head|, Prefix(x));
    }
    if Contains(tail, Prefix(x)) {
      ContainsInside(head, tail, "", Prefix(x));
      assert head + tail + "" == s;
    }
  }

  /** A marker with its first letter escaped. */
  function Escaped(x: nat, k: nat): string {
    "%6e" + Marker(x, k)[1..]
  }

  lemma EscapedMarkerDecodes(x: nat, k: nat)
    ensures Unescape(Escaped(x, k), false) == Some(Marker(x, k))
  {
    var plain := Marker(x, k)[1..];
    MarkerIsPlain(x, k);
    UnescapePlain(plain, "", false);
    assert plain + "" == plain;
    var s := Escaped(x, k);
    assert s[0] == '%' && s[1] == '6' && s[2] == 'e' && s[3..] == plain;
    assert Byte('6', 'e') == 'n';
    assert Marker(x, k) == "n" + plain;
  }

  /** The literal, as a part on its own, comes out of net/url as the marker. */
  lemma EscapedMarkerPoses(x: nat, k: nat, part: Part)
    requires part == Part(Chars(Escaped(x, k)), Path)
    ensures Component(part, x, 0) == Some(Marker(x, k)) && Meaning(part).Some? && Names(Meaning(part).value) == []
  {
    EscapedMarkerDecodes(x, k);
    MaskOfChars(Escaped(x, k), x, 0);
    UnescapeTheMask(part.pieces, x, 0, false);
    DecodingKeepsReferences(part.pieces, false);
  }

  /** What can be cut as a port of a template that parse does not refuse. */
  predicate PortText(port: string) {
    Undelimited(port) && Maskable(port) && Names(Tokenize(port)) != []
  }

  /** The i-th part is the port that is cut out, and the only one. */
  ghost predicate PortAt(ps: seq<Piece>, x: nat, parts: seq<Part>, i: nat, port: seq<Piece>) {
    && i < |parts| && parts[i] == Part(port, Port)
    && (forall j :: 0 <= j < |parts| && j != i ==> !parts[j].reading.Port?)
    && PortCut(Mask(ps, x, 0), Prefix(x)) == Some(Span(|Mask(Joint(parts, i), x, 0)|, |Mask(Joint(parts, i + 1), x, 0)|))
  }

  ghost predicate CutsPort(ps: seq<Piece>, x: nat, parts: seq<Part>, port: seq<Piece>) {
    exists i :: PortAt(ps, x, parts, i, port)
  }

  ghost predicate AcceptedWithPort(value: string, x: nat, parts: seq<Part>, port: string) {
    Maskable(value) && Accepted(value, x, parts) && CutsPort(Tokenize(value), x, parts, Tokenize(port))
  }

  lemma {:induction false} CharsSplit(a: string, b: string)
    ensures Chars(a + b) == Chars(a) + Chars(b)
  {
    if a == "" {
      assert a + b == b;
    } else {
      assert (a + b)[0] == a[0] && (a + b)[1..] == a[1..] + b;
      CharsSplit(a[1..], b);
    }
  }

  lemma JointOfFour(parts: seq<Part>, n: nat)
    requires n == |parts| == 4
    ensures Joint(parts, n - 3) == parts[0].pieces
    ensures Joint(parts, n - 1) == parts[0].pieces + (parts[1].pieces + parts[2].pieces)
    ensures Joint(parts, n) == parts[0].pieces + (parts[1].pieces + parts[2].pieces) + parts[3].pieces
  {
    assert Joint(parts, n - 4) == [];
    assert Joint(parts, n - 3) == [] + parts[0].pieces;
    assert Joint(parts, n - 1) == (Joint(parts, n - 3) + parts[1].pieces) + parts[2].pieces;
  }

  lemma DollarsLieAfter(head: string, tail: string)
    requires '$' !in head && !Contains(tail, "${")
    ensures !Contains(head + tail, "${")
  {
    if Contains(head + tail, "${") {
      var i: nat :| i <= |head + tail| && StartsAt(head + tail, i, "${");
      assert (head + tail)[i..i + 2][0] == (head + tail)[i];
      ShiftStart(head, tail, i, "${");
    }
  }

  /** The masked port has no delimiters either. */
  lemma {:induction false} MaskedPortIsUndelimited(port: string, x: nat, k: nat)
    requires Undelimited(port)
    ensures Undelimited(Mask(Tokenize(port), x, k))
    decreases |port|
  {
    if port != "" {
      MaskOneMore(port, x, k);
      match RefAt(port)
      case Some(name) =>
        MarkersAreWords(x, k);
        UndelimitedLater(port, |name| + 3);
        MaskedPortIsUndelimited(port[|name| + 3..], x, k + 1);
        UndelimitedTogether(Marker(x, k), Mask(Tokenize(port[|name| + 3..]), x, k + 1));
      case None =>
        UndelimitedLater(port, 1);
        MaskedPortIsUndelimited(port[1..], x, k);
        UndelimitedTogether([port[0]], Mask(Tokenize(port[1..]), x, k));
    }
  }

  lemma UndelimitedLater(s: string, i: nat)
    requires i <= |s| && Undelimited(s)
    ensures Undelimited(s[i..])
  {
  }

  lemma UndelimitedTogether(a: string, b: string)
    requires Undelimited(a) && Undelimited(b)
    ensures Undelimited(a + b)
  {
  }

  lemma CutBehindColon(text: string, start: nat, h: nat, prefix: string)
    requires start + 3 <= h <= |text| && text[h - 3] == '@' && text[h - 1] == ':'
    requires WithinAuthority(text, start, |text|) && Without(text, '@', h - 2, |text|) && Without(text, ':', h, |text|)
    ensures CutOfAuthority(text, prefix, start) == if Contains(text[h..|text|], prefix) then Some(Span(h, |text|)) else None
  {
    EndOfAuthorityIs(text, start, |text|);
    AfterLastIs(text, '@', start, |text|, h - 2);
    AfterLastIs(text, ':', h - 2, |text|, h);
  }

  lemma {:induction false} SeparatorIsBehind(word: string, rest: string)
    requires forall i :: 0 <= i < |word| ==> word[i] != ':'
    ensures Separator(word + ("://" + rest)) == Some(|word|)
  {
    var text := word + ("://" + rest);
    if word == "" {
      assert text[0..3] == "://";
    } else {
      assert text[0] == word[0];
      assert |text| >= 3 ==> text[0..3][0] == text[0];
      assert text[1..] == word[1..] + ("://" + rest);
      SeparatorIsBehind(word[1..], rest);
    }
  }

  lemma MaskBehind(head: string, port: seq<Piece>, x: nat)
    ensures Mask(Chars(head), x, 0) == head && Mask(Chars(head) + port, x, 0) == head + Mask(port, x, 0)
  {
    MaskSplits(Chars(head), port, x, 0);
    MaskOfChars(head, x, 0);
  }

  lemma LiteralPosing(value: string, x: nat, parts: seq<Part>, i: nat)
    requires i < |parts| && Names(Joint(parts, i)) == []
    requires Component(parts[i], x, 0) == Some(Marker(x, 0)) && Meaning(parts[i]).Some?
    requires Names(Meaning(parts[i]).value) == []
    ensures !AllExact(value, x, parts)
  {
    assert !OneReference(Meaning(parts[i]).value);
    assert !ReadAsReference(Marker(x, 0), x, Meaning(parts[i]).value, 0);
    assert !PartIsExact(value, x, parts, i);
  }

  /**
    Literal text up to the colon before the port: a, which ends within the user information, the
    password b, and c, which ends the user information and names the host.
  */
  ghost predicate HeadOf(head: string, a: string, b: string, c: string, start: nat) {
    && head == a + (b + c) && '$' !in head && !Controlled(head) && NoNe(head)
    && 0 <= start - 3 && (forall rest :: Separator(head + rest) == Some(start - 3))
    && start + 3 <= |head| && head[|head| - 3] == '@' && head[|head| - 1] == ':'
    && WithinAuthority(head, start, |head|) && Without(head, '@', |head| - 2, |head|)
    && '%' !in a && Decode(Chars(b), false).Some? && '%' !in c
  }

  function PartsOf(a: string, b: string, c: string, port: string): (parts: seq<Part>)
    ensures |parts| == 4
  {
    [Part(Chars(a), Path), Part(Chars(b), Path), Part(Chars(c), Path), Part(Tokenize(port), Port)]
  }

  /** The parts before the last are this literal text, and the last is this port. */
  ghost predicate HeadBefore(parts: seq<Part>, head: string, port: seq<Piece>) {
    && parts != [] && parts[|parts| - 1] == Part(port, Port)
    && (forall j :: 0 <= j < |parts| - 1 ==> !parts[j].reading.Port?)
    && Joint(parts, |parts| - 1) == Chars(head) && Joint(parts, |parts|) == Chars(head) + port
  }

  lemma JointOfHead(head: string, a: string, b: string, c: string, port: string)
    requires head == a + (b + c)
    ensures HeadBefore(PartsOf(a, b, c, port), head, Tokenize(port))
  {
    CharsSplit(a, b + c);
    CharsSplit(b, c);
    JointOfFour(PartsOf(a, b, c, port), |PartsOf(a, b, c, port)|);
  }

  lemma HeadDecodes(head: string, a: string, b: string, c: string, start: nat)
    requires HeadOf(head, a, b, c, start)
    ensures Decode(Chars(head), false).Some?
  {
    CharsSplit(a, b + c);
    CharsSplit(b, c);
    PlainDecodes(a);
    PlainDecodes(c);
    DecodeSplits(Chars(b), Chars(c));
    DecodeSplits(Chars(a), Chars(b) + Chars(c));
  }

  /** The whole text fails to decode with its port. */
  lemma TextIsUndecodable(head: string, port: string)
    requires '$' !in head && Decode(Chars(head), false).Some? && Unescape(port, false).None?
    ensures Unescape(head + port, false).None?
  {
    TokenizePlain(head, port);
    TokensAreWellNamed(port);
    TokensAreWellNamed(head + port);
    TokensSpellTheText(port);
    TokensSpellTheText(head + port);
    UnescapeTheText(Tokenize(port));
    UnescapeTheText(Tokenize(head + port));
    DecodeSplits(Chars(head), Tokenize(port));
  }

  lemma NothingHoldsNoPrefix(x: nat)
    ensures !Contains("", Prefix(x))
  {
  }

  /** The prefix that is fresh for the port is the one picked for the whole text. */
  lemma PortPrefixIsPicked(head: string, a: string, b: string, c: string, start: nat, port: string, x: nat)
    requires HeadOf(head, a, b, c, start) && Unescape(port, false).None? && FreshFor(port, x)
    ensures FreshFor(head + port, x)
  {
    HeadDecodes(head, a, b, c, start);
    TextIsUndecodable(head, port);
    NothingHoldsNoPrefix(x);
    forall y: nat ensures Contains(head + port, Prefix(y)) <==> Contains(port, Prefix(y)) {
      PrefixLiesAfter(head, port, y);
    }
  }

  lemma TextIsMaskable(head: string, port: string)
    requires '$' !in head && !Controlled(head) && Maskable(port)
    ensures Maskable(head + port)
  {
    TokenizePlain(head, port);
    LiteralsSplit(Chars(head), Tokenize(port));
    LiteralsOfChars(head);
    DollarsLieAfter(head, Literals(Tokenize(port)));
  }

  /** The port is found behind such a head. */
  lemma CutBehindHead(head: string, a: string, b: string, c: string, start: nat, masked: string, prefix: string)
    requires HeadOf(head, a, b, c, start) && Undelimited(masked) && Contains(masked, prefix)
    ensures PortCut(head + masked, prefix) == Some(Span(|head|, |head| + |masked|))
  {
    var text, h := head + masked, |head|;
    forall i | 0 <= i < |text| ensures text[i] == if i < h then head[i] else masked[i - h] {}
    assert text[h..|text|] == masked;
    CutBehindColon(text, start, h, prefix);
  }

  lemma MaskedPortIsCut(head: string, a: string, b: string, c: string, start: nat, x: nat, port: string)
    requires HeadOf(head, a, b, c, start)
    requires Undelimited(port) && Names(Tokenize(port)) != [] && !Contains(port, Prefix(x))
    ensures
      var masked := Mask(Tokenize(port), x, 0);
      PortCut(head + masked, Prefix(x)) == Some(Span(|head|, |head| + |masked|))
  {
    PortHoldsPrefix(port, x);
    CutBehindHead(head, a, b, c, start, Mask(Tokenize(port), x, 0), Prefix(x));
  }

  lemma PortHoldsPrefix(port: string, x: nat)
    requires Undelimited(port) && Names(Tokenize(port)) != [] && !Contains(port, Prefix(x))
    ensures var masked := Mask(Tokenize(port), x, 0); Undelimited(masked) && Contains(masked, Prefix(x))
  {
    MaskedPortIsUndelimited(port, x, 0);
    TokensSpellTheText(port);
    NamedIfPrefixed(Tokenize(port), x, 0);
  }

  lemma PortIsLast(parts: seq<Part>, head: string, x: nat, port: seq<Piece>)
    requires HeadBefore(parts, head, port)
    requires PortCut(head + Mask(port, x, 0), Prefix(x)) == Some(Span(|head|, |head| + |Mask(port, x, 0)|))
    ensures PortAt(Chars(head) + port, x, parts, |parts| - 1, port)
  {
    MaskBehind(head, port, x);
  }

  lemma PartsAreAccepted(parts: seq<Part>, head: string, x: nat, port: string)
    requires HeadBefore(parts, head, Tokenize(port)) && FreshFor(head + port, x)
    requires Tokenize(head + port) == Chars(head) + Tokenize(port)
    requires forall i :: 0 <= i < |parts| ==> Meaning(parts[i]).Some?
    ensures Accepted(head + port, x, parts)
  {
  }

  lemma PartsDecode(a: string, b: string, c: string, port: string)
    requires '%' !in a && Decode(Chars(b), false).Some? && '%' !in c
    ensures forall i :: 0 <= i < |PartsOf(a, b, c, port)| ==> Meaning(PartsOf(a, b, c, port)[i]).Some?
  {
    PlainDecodes(a);
    PlainDecodes(c);
  }

  lemma HeadIsAccepted(head: string, a: string, b: string, c: string, start: nat, x: nat, port: string)
    requires HeadOf(head, a, b, c, start) && Unescape(port, false).None? && FreshFor(port, x)
    ensures Accepted(head + port, x, PartsOf(a, b, c, port))
  {
    JointOfHead(head, a, b, c, port);
    TokenizePlain(head, port);
    PartsDecode(a, b, c, port);
    PortPrefixIsPicked(head, a, b, c, start, port, x);
    PartsAreAccepted(PartsOf(a, b, c, port), head, x, port);
  }

  lemma PortBehindHead(head: string, a: string, b: string, c: string, start: nat, x: nat, port: string)
    requires HeadOf(head, a, b, c, start)
    requires Undelimited(port) && Names(Tokenize(port)) != [] && !Contains(port, Prefix(x))
    ensures CutsPort(Tokenize(head + port), x, PartsOf(a, b, c, port), Tokenize(port))
  {
    TokenizeHead(head, a, b, c, start, port);
    LastPartIsCut(head, a, b, c, start, x, port);
  }

  lemma TokenizeHead(head: string, a: string, b: string, c: string, start: nat, port: string)
    requires HeadOf(head, a, b, c, start)
    ensures Tokenize(head + port) == Chars(head) + Tokenize(port)
  {
    TokenizePlain(head, port);
  }

  lemma LastPartIsCut(head: string, a: string, b: string, c: string, start: nat, x: nat, port: string)
    requires HeadOf(head, a, b, c, start)
    requires Undelimited(port) && Names(Tokenize(port)) != [] && !Contains(port, Prefix(x))
    ensures var parts := PartsOf(a, b, c, port); PortAt(Chars(head) + Tokenize(port), x, parts, |parts| - 1, Tokenize(port))
  {
    JointOfHead(head, a, b, c, port);
    MaskedPortIsCut(head, a, b, c, start, x, port);
    PortIsLast(PartsOf(a, b, c, port), head, x, Tokenize(port));
  }

  /** The literal password comes out of net/url as the marker of a reference. */
  lemma PasswordPoses(a: string, c: string, x: nat, port: string, value: string)
    ensures
      var parts := PartsOf(a, Escaped(x, 0), c, port);
      Component(parts[1], x, 0) == Some(Marker(x, 0)) && !AllExact(value, x, parts)
  {
    var parts := PartsOf(a, Escaped(x, 0), c, port);
    JointOfFour(parts, |parts|);
    EscapedMarkerPoses(x, 0, parts[1]);
    LiteralPosing(value, x, parts, |parts| - 3);
  }

  lemma EscapedHasNoNe(x: nat, k: nat, after: string)
    requires NoNe(after) && (after != "" ==> after[0] != 'e')
    ensures NoNe(Escaped(x, k) + after)
  {
    var s, m := Escaped(x, k) + after, Marker(x, k);
    forall i: nat ensures !NeAt(s, i) {
      if 3 <= i < |m| + 2 { assert s[i] == m[i - 2]; MarkerInterior(x, k, i - 2); }
      else if |m| + 2 <= i < |s| { assert s[i] == after[i - |m| - 2]; assert !NeAt(after, i - |m| - 2); }
    }
  }

  const BeforePassword := "postgres://u:"
  const AfterPassword := "@h:"

  lemma BeforeEnds(rest: string)
    ensures Separator(BeforePassword + rest) == Some(8)
  {
    SeparatorIsBehind("postgres", "u:" + rest);
    assert "postgres" + ("://" + ("u:" + rest)) == BeforePassword + rest;
  }

  lemma PlainHead(head: string, b: string)
    requires head == BeforePassword + (b + AfterPassword) && b != ""
    requires NoNe(b + AfterPassword) && forall i :: 0 <= i < |b| ==> InMarker(b[i]) || b[i] == '%'
    ensures NoNe(head) && '$' !in head && !Controlled(head)
    ensures WithinAuthority(head, 11, |head|) && Without(head, '@', |head| - 2, |head|)
  {
    var tail := b + AfterPassword;
    forall i | 0 <= i < |head| ensures head[i] !in "$\0\r\n" && (i >= 11 ==> !EndsAuthority(head[i])) {
      if i < |BeforePassword| { assert head[i] == BeforePassword[i]; }
      else { assert head[i] == tail[i - |BeforePassword|]; }
    }
    forall i: nat ensures !NeAt(head, i) {
      if |BeforePassword| <= i < |head| { assert head[i] == tail[i - |BeforePassword|]; assert !NeAt(tail, i - |BeforePassword|); }
    }
  }

  lemma EscapedIsPlain(x: nat, k: nat)
    ensures forall i :: 0 <= i < |Escaped(x, k)| ==> InMarker(Escaped(x, k)[i]) || Escaped(x, k)[i] == '%'
  {
    MarkersAreWords(x, k);
    var b, m := Escaped(x, k), Marker(x, k);
    forall i | 0 <= i < |b| ensures InMarker(b[i]) || b[i] == '%' {
      if i >= 3 { assert b[i] == m[i - 2]; }
    }
  }

  lemma HeadOfDatabaseUrl(x: nat) returns (head: string, a: string, b: string, c: string)
    ensures HeadOf(head, a, b, c, 11) && a == BeforePassword && b == Escaped(x, 0) && c == AfterPassword
  {
    a, b, c := BeforePassword, Escaped(x, 0), AfterPassword;
    head := a + (b + c);
    EscapedHasNoNe(x, 0, AfterPassword);
    EscapedIsPlain(x, 0);
    PlainHead(head, b);
    forall rest ensures Separator(head + rest) == Some(8) {
      BeforeEnds((b + AfterPassword) + rest);
      Joined(BeforePassword, b + AfterPassword, rest);
    }
    EscapedMarkerPoses(x, 0, Part(Chars(b), Path));
  }

  lemma {:induction false} ShortestPrefix(value: string, y: nat) returns (x: nat)
    requires forall z: nat :: z < y ==> Contains(value, Prefix(z)) || Contains(DecodedOrNothing(value), Prefix(z))
    ensures FreshFor(value, x)
    decreases |value| + |DecodedOrNothing(value)| + 1 - y
  {
    if Contains(value, Prefix(y)) || Contains(DecodedOrNothing(value), Prefix(y)) {
      if y > |value| + |DecodedOrNothing(value)| {
        LongTextsAreNotContained(value, Prefix(y));
        LongTextsAreNotContained(DecodedOrNothing(value), Prefix(y));
      }
      x := ShortestPrefix(value, y + 1);
    } else {
      x := y;
    }
  }

  lemma DecodedPortIsExact(value: string, x: nat, parts: seq<Part>, port: string)
    requires Accepted(value, x, parts) && CutsPort(Tokenize(value), x, parts, Tokenize(port)) && Unescape(port, false).Some?
    ensures AllExact(value, x, parts)
  {
    TokensSpellTheText(port);
    TokensAreWellNamed(port);
    UnescapeTheText(Tokenize(port));
    AcceptedTemplatesExpandExactly(value, x, parts);
  }

  lemma HeadMakesATemplate(head: string, a: string, b: string, c: string, start: nat, x: nat, port: string)
    requires HeadOf(head, a, b, c, start) && PortText(port) && Unescape(port, false).None? && FreshFor(port, x)
    ensures AcceptedWithPort(head + port, x, PartsOf(a, b, c, port), port)
  {
    HeadIsAccepted(head, a, b, c, start, x, port);
    TextIsMaskable(head, port);
    PortBehindHead(head, a, b, c, start, x, port);
  }

  lemma UndecodedPortIsNot(port: string) returns (value: string, x: nat, parts: seq<Part>)
    requires PortText(port) && Unescape(port, false).None?
    ensures AcceptedWithPort(value, x, parts, port) && !AllExact(value, x, parts)
  {
    x := ShortestPrefix(port, 0);
    var head, a, b, c := HeadOfDatabaseUrl(x);
    HeadMakesATemplate(head, a, b, c, 11, x, port);
    PasswordPoses(a, c, x, port, head + port);
    value, parts := head + port, PartsOf(a, b, c, port);
  }

  /**
    For each text a port with references can have: all accepted templates with this port are exact in
    all their components if and only if url.PathUnescape of the port succeeds.  Otherwise, as in
    postgres://u:%6eextaskenvref0end@h:%zz${A}, its error is dropped, the prefix is checked against the raw
    text only, and a percent-encoded literal password is taken for a reference.
  */
  lemma ExactIffThePortDecodes(port: string)
    requires PortText(port)
    ensures
      (forall value, x, parts :: AcceptedWithPort(value, x, parts, port) ==> AllExact(value, x, parts))
      <==> Unescape(port, false).Some?
  {
    if Unescape(port, false).Some? {
      forall value, x, parts | AcceptedWithPort(value, x, parts, port) ensures AllExact(value, x, parts) {
        DecodedPortIsExact(value, x, parts, port);
      }
    } else {
      var value, x, parts := UndecodedPortIsNot(port);
    }
  }
}
