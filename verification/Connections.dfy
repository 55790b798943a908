/**
  parse and Resolve: a connection template is empty, one reference, a path or remote name, or a
  URL.  What net/url and the checks of a connection type answer are parameters.
*/
module Connections {
  import opened Numbers
  import opened Wrappers
  import opened UrlTemplate
  import opened Templates
  import opened Ports

  // ---------------------------------------------------------------- parse

  datatype Credentials = Credentials(username: string, password: Option<string>)

  /** The decoded components of a URL; the query is what ParseQuery yields. */
  datatype Url = Url(
    scheme: string, user: Option<Credentials>, host: string, path: string, query: map<string, seq<string>>)

  datatype Template =
    | Empty
    | Whole(name: string)
    | Local(text: string, x: nat, refs: seq<string>)
    | Remote(url: Url, x: nat, refs: seq<string>)

  datatype Error =
    | ControlCharacter
    | BadReference
    | BadUrl
    | Missing(name: string)
    | BadValue(name: string)
    | Refused
    | BadHost

  function TrimSuffix(s: string, suffix: string): string {
    if |s| >= |suffix| && s[|s| - |suffix|..] == suffix then s[..|s| - |suffix|] else s
  }

  /** parseMaskedURL: the port that was cut out is put back behind the host, as it stood. */
  function ParseMasked(text: string, prefix: string, parse: string -> Option<Url>): Option<Url> {
    match (PortCut(text, prefix), parse(Shown(text, prefix)))
    case (_, None) => None
    case (None, Some(u)) => Some(u)
    case (Some(span), Some(u)) =>
      CutIsDelimited(text, prefix);
      Some(u.(host := TrimSuffix(u.host, ":0") + ":" + text[span.from..span.to]))
  }

  predicate IsUrl(value: string) {
    Contains(value, "://")
  }

  /** The masked text, what it parses to, and the names of the references. */
  ghost predicate Parses(value: string, parse: string -> Option<Url>, t: Template) {
    match t
    case Empty => value == ""
    case Whole(name) => Tokenize(value) == [Ref(name)]
    case Local(text, x, refs) =>
      && !IsUrl(value) && FreshFor(value, x)
      && text == Mask(Tokenize(value), x, 0) && refs == Names(Tokenize(value))
    case Remote(url, x, refs) =>
      && IsUrl(value) && FreshFor(value, x)
      && ParseMasked(Mask(Tokenize(value), x, 0), Prefix(x), parse) == Some(url) && refs == Names(Tokenize(value))
  }

  /** Masking neither makes nor breaks the mark of a URL. */
  lemma {:induction false} MaskKeepsSeparators(ps: seq<Piece>, x: nat, k: nat)
    requires WellNamed(ps)
    ensures Contains(Mask(ps, x, k), "://") <==> Contains(Unparse(ps), "://")
    decreases |ps|
  {
    if ps == [] {
      assert Mask(ps, x, k) == Unparse(ps);
    } else {
      var k' := if ps[0].Ref? then k + 1 else k;
      MaskKeepsSeparators(ps[1..], x, k');
      match ps[0]
      case Char(c) =>
        SeparatorBehindChar(c, Mask(ps[1..], x, k));
        SeparatorBehindChar(c, Unparse(ps[1..]));
        SlashesInMask(ps[1..], x, k);
      case Ref(name) =>
        MarkersAreWords(x, k);
        SeparatorBehindWord(Marker(x, k), Mask(ps[1..], x, k + 1));
        SeparatorBehindWord("${" + name + "}", Unparse(ps[1..]));
    }
  }

  predicate Slashed(s: string) {
    |s| >= 2 && s[0] == '/' && s[1] == '/'
  }

  lemma SlashesInMask(ps: seq<Piece>, x: nat, k: nat)
    ensures Slashed(Mask(ps, x, k)) <==> Slashed(Unparse(ps))
  {
    assert Marker(x, k)[0] == 'n';
    if ps != [] && ps[0].Char? && |ps| >= 2 { assert ps[1..][0] == ps[1]; }
  }

  lemma SeparatorBehindChar(c: char, rest: string)
    ensures Contains([c] + rest, "://") <==> (c == ':' && Slashed(rest)) || Contains(rest, "://")
  {
    var s := [c] + rest;
    if Contains(s, "://") {
      var i: nat :| i <= |s| && StartsAt(s, i, "://");
      if i > 0 { ShiftStart([c], rest, i, "://"); }
      else { assert s[0..3][0] == c && s[0..3][1] == rest[0] && s[0..3][2] == rest[1]; }
    }
    if c == ':' && Slashed(rest) { assert s[0..3] == "://"; assert StartsAt(s, 0, "://"); }
    if Contains(rest, "://") { ContainsInside([c], rest, "", "://"); assert s + "" == s; }
  }

  lemma SeparatorBehindWord(word: string, rest: string)
    requires forall i :: 0 <= i < |word| ==> word[i] != ':'
    ensures Contains(word + rest, "://") <==> Contains(rest, "://")
  {
    var s := word + rest;
    if Contains(s, "://") {
      var i: nat :| i <= |s| && StartsAt(s, i, "://");
      assert s[i..i + 3][0] == s[i];
      ShiftStart(word, rest, i, "://");
    }
    if Contains(rest, "://") { ContainsInside(word, rest, "", "://"); assert s + "" == s; }
  }

  /**
    parse: exactly when it refuses a text, and of which kind an accepted one is.  The URL shown to
    net/url is the masked text without its masked port.
  */
  method Parse(value: string, parse: string -> Option<Url>) returns (r: Result<Template, Error>, ghost x: nat)
    ensures r == Err(ControlCharacter) <==> Controlled(value)
    ensures r == Err(BadReference) <==> !Controlled(value) && Contains(Literals(Tokenize(value)), "${")
    ensures r == Err(BadUrl) <==>
      && Maskable(value) && IsUrl(value)
      && FreshFor(value, x) && parse(Shown(Mask(Tokenize(value), x, 0), Prefix(x))).None?
    ensures r.Err? ==> r.error.ControlCharacter? || r.error.BadReference? || r.error.BadUrl?
    ensures r.Ok? ==> Parses(value, parse, r.value) && Maskable(value)
    ensures r.Ok? && (r.value.Local? || r.value.Remote?) ==> r.value.x == x && !OneReference(Tokenize(value)) && value != ""
  {
    x := 0;
    if value == "" { assert !Contains("", "${"); NoSeparator(value); return Ok(Empty), 0; }
    if Controlled(value) { return Err(ControlCharacter), 0; }
    var ps := Tokenize(value);
    if Contains(Literals(ps), "${") { return Err(BadReference), 0; }
    if |ps| == 1 && ps[0].Ref? { WholeIsNoUrl(value); return Ok(Whole(ps[0].name)), 0; }
    var picked := FreshPrefix(value, DecodedOrNothing(value));
    x := picked;
    var masked, refs := MaskReferences(value, picked);
    TokensSpellTheText(value);
    TokensAreWellNamed(value);
    MaskKeepsSeparators(ps, x, 0);
    if !Contains(masked, "://") { return Ok(Local(masked, picked, refs)), x; }
    match ParseMasked(masked, Prefix(picked), parse) {
      case None => return Err(BadUrl), x;
      case Some(url) => return Ok(Remote(url, picked, refs)), x;
    }
  }

  lemma NoSeparator(value: string)
    requires value == ""
    ensures !IsUrl(value)
  {
  }

  lemma WholeIsNoUrl(value: string)
    requires OneReference(Tokenize(value))
    ensures !IsUrl(value)
  {
    TokensSpellTheText(value);
    TokensAreWellNamed(value);
    var name := Tokenize(value)[0].name;
    assert Unparse(Tokenize(value)[1..]) == "";
    SeparatorBehindWord("${" + name + "}", "");
    NoSeparator("");
  }

  // ---------------------------------------------------------------- IsReference

  ghost predicate IsMarker(component: string, x: nat, n: nat) {
    exists i :: 0 <= i < n && component == Marker(x, i)
  }

  /** IsReference of a parsed component, as CheckPasswordReference asks it of the password. */
  method IsReference(component: string, x: nat, refs: seq<string>) returns (yes: bool)
    ensures yes <==> IsMarker(component, x, |refs|)
  {
    for i := 0 to |refs|
      invariant !IsMarker(component, x, i)
    {
      if component == Marker(x, i) { return true; }
    }
    return false;
  }

  /** Where every component is exact, a component is reported as a reference if and only if it is one reference and nothing else. */
  lemma ReportedIffOneReference(value: string, x: nat, parts: seq<Part>, i: nat)
    requires AllExact(value, x, parts) && i < |parts|
    ensures Component(parts[i], x, |Names(Joint(parts, i))|).Some? && Meaning(parts[i]).Some?
    ensures IsMarker(Component(parts[i], x, |Names(Joint(parts, i))|).value, x, |Names(Tokenize(value))|) <==>
      OneReference(Meaning(parts[i]).value)
  {
    assert PartIsExact(value, x, parts, i);
    var component, k := Component(parts[i], x, |Names(Joint(parts, i))|).value, |Names(Joint(parts, i))|;
    var meaning := Meaning(parts[i]).value;
    if OneReference(meaning) {
      assert meaning[1..] == [] && Names(meaning) == [meaning[0].name];
      assert component == Marker(x, k);
    }
  }

  // ---------------------------------------------------------------- the environment

  predicate Blank(s: string) {
    forall i :: 0 <= i < |s| ==> s[i] in " \t\n\U{000b}\U{000c}\r"
  }

  /** environment: a required, non-blank value without control characters. */
  function Environment(env: map<string, string>, name: string): Result<string, Error> {
    if name !in env || Blank(env[name]) then Err(Missing(name))
    else if Controlled(env[name]) then Err(BadValue(name))
    else Ok(env[name])
  }

  /** The variable is set to this value, which says something and has no control character. */
  predicate IsValue(env: map<string, string>, name: string, value: string) {
    && name in env && env[name] == value
    && (exists i :: 0 <= i < |value| && value[i] !in " \t\n\U{000b}\U{000c}\r")
    && forall i :: 0 <= i < |value| ==> value[i] !in "\0\r\n"
  }

  /** Exactly the values that can be used are used; one that is missing or blank is told apart from a bad one. */
  lemma EnvironmentIsExact(env: map<string, string>, name: string)
    ensures match Environment(env, name)
            case Ok(v) => IsValue(env, name, v)
            case Err(Missing(n)) => n == name && (name in env ==> forall i :: 0 <= i < |env[name]| ==> env[name][i] in " \t\n\U{000b}\U{000c}\r")
            case Err(BadValue(n)) => n == name && name in env && exists i :: 0 <= i < |env[name]| && env[name][i] in "\0\r\n"
            case _ => false
  {
  }

  predicate Available(env: map<string, string>, names: seq<string>) {
    forall i :: 0 <= i < |names| ==> Environment(env, names[i]).Ok?
  }

  function ValuesOf(env: map<string, string>, names: seq<string>): (v: seq<string>)
    requires Available(env, names)
    ensures |v| == |names|
  {
    seq(|names|, i requires 0 <= i < |names| => Environment(env, names[i]).value)
  }

  /** The values in the order of the references, or the error of the first one that has none. */
  method Values(env: map<string, string>, names: seq<string>) returns (r: Result<seq<string>, Error>)
    ensures r.Ok? <==> Available(env, names)
    ensures r.Ok? ==> r.value == ValuesOf(env, names)
    ensures r.Ok? ==> |r.value| == |names| && forall i :: 0 <= i < |names| ==> IsValue(env, names[i], r.value[i])
    ensures r.Err? ==> exists i :: 0 <= i < |names| && Environment(env, names[i]) == Err(r.error) && Available(env, names[..i])
  {
    var values: seq<string> := [];
    for i := 0 to |names|
      invariant |values| == i && forall j :: 0 <= j < i ==> Environment(env, names[j]) == Ok(values[j]) && IsValue(env, names[j], values[j])
    {
      EnvironmentIsExact(env, names[i]);
      match Environment(env, names[i]) {
        case Ok(v) => values := values + [v];
        case Err(e) => return Err(e);
      }
    }
    return Ok(values);
  }

  lemma WholeExpands(name: string, env: map<string, string>)
    ensures Names([Ref(name)]) == [name]
    ensures Available(env, [name]) <==> Environment(env, name).Ok?
    ensures Environment(env, name).Ok? ==>
      Expand([Ref(name)], ValuesOf(env, [name]), 0) == Environment(env, name).value
  {
    assert [Ref(name)][1..] == [];
    assert Names([Ref(name)][1..]) == [];
    assert [name][0] == name;
  }

  // ---------------------------------------------------------------- Resolve

  predicate BreaksHost(host: string) {
    exists i :: 0 <= i < |host| && host[i] in "/?#@\\\r\n\0"
  }

  lemma BreaksHostIs(host: string)
    ensures BreaksHost(host) <==>
      '/' in host || '?' in host || '#' in host || '@' in host || '\\' in host || '\r' in host || '\n' in host || '\0' in host
  {
    var breaking := "/?#@\\\r\n\0";
    assert breaking == ['/', '?', '#', '@', '\\', '\r', '\n', '\0'];
  }

  function ReplaceEach(x: nat, values: seq<string>, ss: seq<string>): (r: seq<string>)
    ensures |r| == |ss|
  {
    seq(|ss|, i requires 0 <= i < |ss| => Replace(x, values, ss[i]))
  }

  /** Every component on its own; the keys of the query stay as they are. */
  function ExpandUrl(u: Url, x: nat, values: seq<string>): Url {
    Url(
      Replace(x, values, u.scheme),
      if u.user.None? then None
      else Some(Credentials(Replace(x, values, u.user.value.username),
        if u.user.value.password.None? then None else Some(Replace(x, values, u.user.value.password.value)))),
      Replace(x, values, u.host),
      Replace(x, values, u.path),
      map key | key in u.query :: ReplaceEach(x, values, u.query[key]))
  }

  // ---------------------------------------------------------------- components are parts of the template

  /**
    Which parts of the template the components of its URL are.  With `cut`, the host goes up to the
    colon, and the masked port is the next part.
  */
  datatype Layout = Layout(
    scheme: nat, user: Option<nat>, password: Option<nat>, host: nat, cut: bool, path: nat, query: map<string, seq<nat>>)

  ghost predicate IsPart(component: string, parts: seq<Part>, x: nat, i: nat) {
    i < |parts| && Component(parts[i], x, |Names(Joint(parts, i))|) == Some(component)
  }

  /** The host is one part, or what precedes the port, up to the colon, and the port. */
  ghost predicate IsHost(host: string, parts: seq<Part>, x: nat, i: nat, cut: bool) {
    if !cut then IsPart(host, parts, x, i)
    else
      && i + 1 < |parts| && parts[i + 1].reading.Port?
      && (match (Component(parts[i], x, |Names(Joint(parts, i))|), Component(parts[i + 1], x, |Names(Joint(parts, i + 1))|))
          case (Some(before), Some(port)) => host == before + port
          case _ => false)
      && (match Meaning(parts[i])
          case Some(ps) => ps != [] && ps[|ps| - 1] == Char(':')
          case None => false)
  }

  ghost predicate Laid(u: Url, parts: seq<Part>, x: nat, l: Layout) {
    IsHost(u.host, parts, x, l.host, l.cut) && LaidBesideHost(u, parts, x, l)
  }

  ghost predicate LaidBesideHost(u: Url, parts: seq<Part>, x: nat, l: Layout) {
    && IsPart(u.scheme, parts, x, l.scheme) && IsPart(u.path, parts, x, l.path)
    && (u.user.Some? <==> l.user.Some?)
    && (u.user.Some? ==>
         && IsPart(u.user.value.username, parts, x, l.user.value)
         && (u.user.value.password.Some? <==> l.password.Some?)
         && (l.password.Some? ==> IsPart(u.user.value.password.value, parts, x, l.password.value)))
    && u.query.Keys == l.query.Keys
    && forall key :: key in u.query ==> AreParts(u.query[key], parts, x, l.query[key])
  }

  ghost predicate AreParts(components: seq<string>, parts: seq<Part>, x: nat, l: seq<nat>) {
    |components| == |l| && forall i :: 0 <= i < |l| ==> IsPart(components[i], parts, x, l[i])
  }

  /** The simultaneous substitution of what a part stands for. */
  function PartValue(parts: seq<Part>, i: nat, values: seq<string>): string {
    if i < |parts| && Meaning(parts[i]).Some? && |Names(Joint(parts, i))| + |Names(Meaning(parts[i]).value)| <= |values|
    then Expand(Meaning(parts[i]).value, values, |Names(Joint(parts, i))|)
    else ""
  }

  function PartValues(parts: seq<Part>, l: seq<nat>, values: seq<string>): seq<string> {
    seq(|l|, i requires 0 <= i < |l| => PartValue(parts, l[i], values))
  }

  /** The URL with every component substituted at once. */
  function Substituted(l: Layout, parts: seq<Part>, values: seq<string>): Url {
    Url(
      PartValue(parts, l.scheme, values),
      if l.user.None? then None
      else Some(Credentials(PartValue(parts, l.user.value, values),
        if l.password.None? then None else Some(PartValue(parts, l.password.value, values)))),
      PartValue(parts, l.host, values) + if l.cut then PartValue(parts, l.host + 1, values) else "",
      PartValue(parts, l.path, values),
      map key | key in l.query :: PartValues(parts, l.query[key], values))
  }

  lemma {:induction false} PartExpands(value: string, x: nat, parts: seq<Part>, values: seq<string>, component: string, i: nat)
    requires Accepted(value, x, parts) && PortsDecode(parts) && |values| == |Names(Tokenize(value))|
    requires IsPart(component, parts, x, i)
    ensures Replace(x, values, component) == PartValue(parts, i, values)
  {
    AcceptedTemplatesExpandExactly(value, x, parts);
    assert PartIsExact(value, x, parts, i);
  }

  lemma {:induction false} NoColonInside(s: string, i: nat, sub: string)
    requires StartsAt(s, i, sub) && forall k :: 0 <= k < |sub| ==> sub[k] != ':'
    ensures forall j :: i <= j < i + |sub| ==> s[j] != ':'
  {
    forall j | i <= j < i + |sub| ensures s[j] != ':' { assert s[i..i + |sub|][j - i] == s[j]; }
  }

  /** A prefix cannot reach across a colon. */
  lemma {:induction false} PrefixEndsAtColon(a: string, b: string, x: nat)
    requires a != "" && a[|a| - 1] == ':' && Contains(a + b, Prefix(x))
    ensures Contains(a, Prefix(x)) || Contains(b, Prefix(x))
  {
    var i: nat :| i <= |a + b| && StartsAt(a + b, i, Prefix(x));
    NoColonInside(a + b, i, Prefix(x));
    assert (a + b)[|a| - 1] == ':';
    if i >= |a| {
      ShiftStart(a, b, i, Prefix(x));
      assert StartsAt(b, i - |a|, Prefix(x));
    } else {
      assert a[i..i + |Prefix(x)|] == (a + b)[i..i + |Prefix(x)|];
      assert StartsAt(a, i, Prefix(x));
    }
  }

  lemma {:induction false} ExpandSplits(a: seq<Piece>, b: seq<Piece>, values: seq<string>, k: nat)
    requires Names(a + b) == Names(a) + Names(b) && k + |Names(a)| + |Names(b)| <= |values|
    ensures Expand(a + b, values, k) == Expand(a, values, k) + Expand(b, values, k + |Names(a)|)
    decreases |a|
  {
    if a == [] {
      assert a + b == b;
    } else {
      assert (a + b)[0] == a[0] && (a + b)[1..] == a[1..] + b;
      NamesSplit(a[1..], b);
      var head, next := if a[0].Ref? then values[k] else [a[0].c], if a[0].Ref? then k + 1 else k;
      ExpandSplits(a[1..], b, values, next);
      Joined(head, Expand(a[1..], values, next), Expand(b, values, k + |Names(a)|));
    }
  }

  lemma {:induction false} UnparseEndsWithColon(ps: seq<Piece>)
    requires ps != [] && ps[|ps| - 1] == Char(':')
    ensures Unparse(ps) != "" && Unparse(ps)[|Unparse(ps)| - 1] == ':'
  {
    var init, last := ps[..|ps| - 1], [Char(':')];
    assert ps == init + last;
    UnparseSplits(init, last);
    assert Unparse(last) == ":";
  }

  /** Host and port together, when the host ends with the colon before the port. */
  lemma {:induction false} PairExpands(a: seq<Piece>, b: seq<Piece>, x: nat, k: nat, values: seq<string>)
    requires a != [] && a[|a| - 1] == Char(':') && k + |Names(a)| + |Names(b)| <= |values|
    requires !Contains(Unparse(a), Prefix(x)) && !Contains(Unparse(b), Prefix(x))
    ensures Replace(x, values, Mask(a, x, k) + Mask(b, x, k + |Names(a)|)) == Expand(a, values, k) + Expand(b, values, k + |Names(a)|)
  {
    UnparseEndsWithColon(a);
    UnparseSplits(a, b);
    if Contains(Unparse(a + b), Prefix(x)) { PrefixEndsAtColon(Unparse(a), Unparse(b), x); }
    NamesSplit(a, b);
    ExpandSplits(a, b, values, k);
    MaskSplits(a, b, x, k);
    FreshPrefixExcludesFalseMarkers(a + b, x, k, |values|);
    ReplaceIsExpand(a + b, x, k, values);
  }

  lemma {:induction false} ComponentIsMask(part: Part, x: nat, k: nat)
    requires Meaning(part).Some?
    ensures Component(part, x, k) == Some(Mask(Meaning(part).value, x, k)) && Names(Meaning(part).value) == Names(part.pieces)
  {
    if !part.reading.Port? {
      UnescapeTheMask(part.pieces, x, k, part.reading.Query?);
      DecodingKeepsReferences(part.pieces, part.reading.Query?);
    }
  }

  lemma {:induction false} NamesOfNext(parts: seq<Part>, i: nat)
    requires i < |parts|
    ensures |Names(Joint(parts, i + 1))| == |Names(Joint(parts, i))| + |Names(parts[i].pieces)|
  {
    NamesSplit(Joint(parts, i), parts[i].pieces);
  }

  /** Each part, on its own, expands to its substitution. */
  ghost predicate AllExpand(parts: seq<Part>, x: nat, values: seq<string>) {
    forall component, i: nat {:trigger IsPart(component, parts, x, i)} ::
      IsPart(component, parts, x, i) ==> Replace(x, values, component) == PartValue(parts, i, values)
  }

  lemma {:induction false} EachPartExpands(value: string, x: nat, parts: seq<Part>, values: seq<string>)
    requires Accepted(value, x, parts) && PortsDecode(parts) && |values| == |Names(Tokenize(value))|
    ensures AllExpand(parts, x, values)
  {
    forall component, i: nat | IsPart(component, parts, x, i) ensures Replace(x, values, component) == PartValue(parts, i, values) {
      PartExpands(value, x, parts, values, component, i);
    }
  }

  lemma BothAreFresh(value: string, x: nat, parts: seq<Part>, i: nat)
    requires Accepted(value, x, parts) && PortsDecode(parts) && i + 1 < |parts|
    ensures FreshPart(value, x, parts, i) && FreshPart(value, x, parts, i + 1)
  {
    PartIsFresh(value, x, parts, i);
    PartIsFresh(value, x, parts, i + 1);
  }

  lemma {:induction false} HostExpands(value: string, x: nat, parts: seq<Part>, values: seq<string>, host: string, i: nat)
    requires Accepted(value, x, parts) && PortsDecode(parts) && |values| == |Names(Tokenize(value))|
    requires IsHost(host, parts, x, i, true)
    ensures Replace(x, values, host) == PartValue(parts, i, values) + PartValue(parts, i + 1, values)
  {
    BothAreFresh(value, x, parts, i);
    FreshHostExpands(value, x, parts, values, host, i);
  }

  /** So does each host with the port that was cut off it. */
  ghost predicate HostsExpand(parts: seq<Part>, x: nat, values: seq<string>) {
    forall host, i: nat {:trigger IsHost(host, parts, x, i, true)} ::
      IsHost(host, parts, x, i, true) ==> Replace(x, values, host) == PartValue(parts, i, values) + PartValue(parts, i + 1, values)
  }

  lemma {:induction false} EachHostExpands(value: string, x: nat, parts: seq<Part>, values: seq<string>)
    requires Accepted(value, x, parts) && PortsDecode(parts) && |values| == |Names(Tokenize(value))|
    ensures HostsExpand(parts, x, values)
  {
    forall host, i: nat | IsHost(host, parts, x, i, true)
      ensures Replace(x, values, host) == PartValue(parts, i, values) + PartValue(parts, i + 1, values)
    {
      HostExpands(value, x, parts, values, host, i);
    }
  }

  lemma {:induction false} FreshHostExpands(value: string, x: nat, parts: seq<Part>, values: seq<string>, host: string, i: nat)
    requires i + 1 < |parts| && FreshPart(value, x, parts, i) && FreshPart(value, x, parts, i + 1)
    requires |values| == |Names(Tokenize(value))| && IsHost(host, parts, x, i, true)
    ensures Replace(x, values, host) == PartValue(parts, i, values) + PartValue(parts, i + 1, values)
  {
    var k := |Names(Joint(parts, i))|;
    NamesOfNext(parts, i);
    ComponentIsMask(parts[i], x, k);
    ComponentIsMask(parts[i + 1], x, |Names(Joint(parts, i + 1))|);
    PairExpands(Meaning(parts[i]).value, Meaning(parts[i + 1]).value, x, k, values);
  }

  lemma {:induction false} PartsExpand(x: nat, parts: seq<Part>, values: seq<string>, components: seq<string>, l: seq<nat>)
    requires AllExpand(parts, x, values) && AreParts(components, parts, x, l)
    ensures ReplaceEach(x, values, components) == PartValues(parts, l, values)
  {
    forall i | 0 <= i < |l| ensures Replace(x, values, components[i]) == PartValue(parts, l[i], values) {
      assert IsPart(components[i], parts, x, l[i]);
    }
  }

  lemma {:induction false} QueryExpands(x: nat, parts: seq<Part>, values: seq<string>, query: map<string, seq<string>>, l: map<string, seq<nat>>)
    requires AllExpand(parts, x, values) && query.Keys == l.Keys
    requires forall key :: key in query ==> AreParts(query[key], parts, x, l[key])
    ensures (map key | key in query :: ReplaceEach(x, values, query[key])) == (map key | key in l :: PartValues(parts, l[key], values))
  {
    forall key | key in query ensures ReplaceEach(x, values, query[key]) == PartValues(parts, l[key], values) {
      PartsExpand(x, parts, values, query[key], l[key]);
    }
  }

  lemma {:induction false} UrlExpands(x: nat, parts: seq<Part>, values: seq<string>, u: Url, l: Layout)
    requires AllExpand(parts, x, values) && HostsExpand(parts, x, values) && Laid(u, parts, x, l)
    ensures ExpandUrl(u, x, values) == Substituted(l, parts, values)
  {
    QueryExpands(x, parts, values, u.query, l.query);
    assert !l.cut ==> PartValue(parts, l.host, values) + "" == PartValue(parts, l.host, values);
  }

  /**
    Where the port decodes and the components are parts of the template, expanding the URL
    component by component is substituting all values at once.
  */
  lemma {:induction false} ExpandedUrlIsSubstituted(value: string, x: nat, parts: seq<Part>, values: seq<string>, u: Url, l: Layout)
    requires Accepted(value, x, parts) && PortsDecode(parts) && |values| == |Names(Tokenize(value))| && Laid(u, parts, x, l)
    ensures ExpandUrl(u, x, values) == Substituted(l, parts, values)
  {
    EachPartExpands(value, x, parts, values);
    EachHostExpands(value, x, parts, values);
    UrlExpands(x, parts, values, u, l);
  }

  // ---------------------------------------------------------------- from net/url's answer to the template

  /** The host net/url answers: one part, or what precedes the port up to the colon, and the 0 it was shown instead. */
  ghost predicate IsShownHost(host: string, parts: seq<Part>, x: nat, i: nat, cut: bool) {
    if !cut then IsPart(host, parts, x, i)
    else
      && |host| >= 2 && host[|host| - 2..] == ":0" && IsPart(host[..|host| - 1], parts, x, i)
      && EndsWithColon(parts, i)
  }

  ghost predicate EndsWithColon(parts: seq<Part>, i: nat) {
    && i < |parts| && Meaning(parts[i]).Some?
    && Meaning(parts[i]).value != [] && Meaning(parts[i]).value[|Meaning(parts[i]).value| - 1] == Char(':')
  }

  /**
    What net/url answers to the text it is shown: every component is a part of the template.  With
    `cut`, the port after the host is the one that was cut out; otherwise none was.
  */
  ghost predicate Answers(u: Url, value: string, x: nat, parts: seq<Part>, l: Layout) {
    && (if l.cut then l.host + 1 < |parts| && PortAt(Tokenize(value), x, parts, l.host + 1, parts[l.host + 1].pieces)
        else PortCut(Mask(Tokenize(value), x, 0), Prefix(x)).None?)
    && IsShownHost(u.host, parts, x, l.host, l.cut) && LaidBesideHost(u, parts, x, l)
  }

  lemma PartIsBetween(value: string, x: nat, parts: seq<Part>, i: nat)
    requires Accepted(value, x, parts) && i < |parts|
    ensures
      var ps, a, b := Tokenize(value), |Joint(parts, i)|, |Joint(parts, i + 1)|;
      a <= b <= |ps| && ps[..a] == Joint(parts, i) && ps[..b] == Joint(parts, i + 1) && ps[a..b] == parts[i].pieces
  {
    PartIsAStretch(value, x, parts, i);
    JointIsPrefix(parts, i + 1, |parts|);
  }

  /** The stretch of a masked text between two pieces, as the cut of a port. */
  lemma {:induction false} CutIsAMask(ps: seq<Piece>, x: nat, before: seq<Piece>, upTo: seq<Piece>, port: seq<Piece>, span: Span)
    requires |before| <= |upTo| <= |ps| && ps[..|before|] == before && ps[..|upTo|] == upTo && ps[|before|..|upTo|] == port
    requires span == Span(|Mask(before, x, 0)|, |Mask(upTo, x, 0)|)
    ensures span.from <= span.to <= |Mask(ps, x, 0)| && Mask(ps, x, 0)[span.from..span.to] == Mask(port, x, |Names(before)|)
  {
    CutBetween(ps, x, |before|, |upTo|);
  }

  /** The stretch that was cut is the mask of the port. */
  lemma {:induction false} CutIsTheMaskedPort(value: string, x: nat, parts: seq<Part>, i: nat) returns (span: Span)
    requires Accepted(value, x, parts) && i < |parts| && PortAt(Tokenize(value), x, parts, i, parts[i].pieces)
    ensures PortCut(Mask(Tokenize(value), x, 0), Prefix(x)) == Some(span)
    ensures span.from <= span.to <= |Mask(Tokenize(value), x, 0)|
    ensures Component(parts[i], x, |Names(Joint(parts, i))|) == Some(Mask(Tokenize(value), x, 0)[span.from..span.to])
  {
    PartIsBetween(value, x, parts, i);
    span := PortCut(Mask(Tokenize(value), x, 0), Prefix(x)).value;
    CutIsAMask(Tokenize(value), x, Joint(parts, i), Joint(parts, i + 1), parts[i].pieces, span);
  }

  /** The host after the port is back behind it. */
  lemma HostIsPutTogether(host: string, port: string, parts: seq<Part>, x: nat, i: nat)
    requires IsShownHost(host, parts, x, i, true) && i + 1 < |parts| && parts[i + 1].reading.Port?
    requires Component(parts[i + 1], x, |Names(Joint(parts, i + 1))|) == Some(port)
    ensures IsHost(TrimSuffix(host, ":0") + ":" + port, parts, x, i, true)
  {
    var before := host[..|host| - 1];
    assert host[|host| - 2..][0] == ':' && host[|host| - 2..][1] == '0';
    assert TrimSuffix(host, ":0") + ":" == before;
  }

  lemma PortIsPutBack(text: string, prefix: string, parse: string -> Option<Url>, u: Url, span: Span)
    requires PortCut(text, prefix) == Some(span) && span.from <= span.to <= |text| && parse(Shown(text, prefix)) == Some(u)
    ensures ParseMasked(text, prefix, parse) == Some(u.(host := TrimSuffix(u.host, ":0") + ":" + text[span.from..span.to]))
  {
  }

  lemma NoPortIsPutBack(text: string, prefix: string, parse: string -> Option<Url>)
    requires PortCut(text, prefix).None?
    ensures Shown(text, prefix) == text && ParseMasked(text, prefix, parse) == parse(text)
  {
  }

  lemma LaidWithPort(u: Url, v: Url, parts: seq<Part>, x: nat, l: Layout, port: string)
    requires l.cut && IsShownHost(u.host, parts, x, l.host, true) && LaidBesideHost(u, parts, x, l)
    requires l.host + 1 < |parts| && parts[l.host + 1].reading.Port?
    requires Component(parts[l.host + 1], x, |Names(Joint(parts, l.host + 1))|) == Some(port)
    requires v == u.(host := TrimSuffix(u.host, ":0") + ":" + port)
    ensures Laid(v, parts, x, l)
  {
    HostIsPutTogether(u.host, port, parts, x, l.host);
  }

  /** So what parse makes of net/url's answer is laid out over the template, its port included. */
  lemma {:induction false} ParsedUrlIsLaid(value: string, parse: string -> Option<Url>, v: Url, x: nat, parts: seq<Part>, u: Url, l: Layout)
    requires ParseMasked(Mask(Tokenize(value), x, 0), Prefix(x), parse) == Some(v) && Accepted(value, x, parts)
    requires parse(Shown(Mask(Tokenize(value), x, 0), Prefix(x))) == Some(u) && Answers(u, value, x, parts, l)
    ensures Laid(v, parts, x, l)
  {
    if l.cut {
      var span := CutIsTheMaskedPort(value, x, parts, l.host + 1);
      PortIsPutBack(Mask(Tokenize(value), x, 0), Prefix(x), parse, u, span);
      LaidWithPort(u, v, parts, x, l, Mask(Tokenize(value), x, 0)[span.from..span.to]);
    } else {
      NoPortIsPutBack(Mask(Tokenize(value), x, 0), Prefix(x), parse);
    }
  }

  /** The i-th part is a host, a colon, and the port behind it. */
  ghost predicate HostAndPort(parts: seq<Part>, i: nat, host: seq<Piece>, port: seq<Piece>) {
    && i + 1 < |parts| && parts[i + 1] == Part(port, Port)
    && Meaning(parts[i]) == Some(host + [Char(':')])
  }

  lemma {:induction false} ColonHasNoName(host: seq<Piece>)
    ensures Names(host + [Char(':')]) == Names(host)
  {
    NamesSplit(host, [Char(':')]);
    assert [Char(':')][1..] == [];
  }

  lemma {:induction false} ExpandBeforeColon(host: seq<Piece>, values: seq<string>, k: nat)
    requires k + |Names(host)| <= |values| && Names(host + [Char(':')]) == Names(host)
    ensures Expand(host + [Char(':')], values, k) == Expand(host, values, k) + ":"
  {
    var colon := [Char(':')];
    assert colon[1..] == [];
    assert Names(colon) == [] && Expand(colon, values, k + |Names(host)|) == ":";
    ExpandSplits(host, colon, values, k);
  }

  /** The host of the substituted URL is that of the template, a colon, and its port, each substituted. */
  lemma {:induction false} SubstitutedHost(parts: seq<Part>, values: seq<string>, l: Layout, host: seq<Piece>, port: seq<Piece>)
    requires l.cut && HostAndPort(parts, l.host, host, port)
    requires |Names(Joint(parts, l.host))| + |Names(host)| + |Names(port)| <= |values|
    ensures
      var k := |Names(Joint(parts, l.host))|;
      Substituted(l, parts, values).host == (Expand(host, values, k) + ":") + Expand(port, values, k + |Names(host)|)
  {
    NamesOfNext(parts, l.host);
    ComponentIsMask(parts[l.host], 0, 0);
    ColonHasNoName(host);
    ExpandBeforeColon(host, values, |Names(Joint(parts, l.host))|);
    PortValue(parts, l.host + 1, values, |Names(Joint(parts, l.host + 1))|);
  }

  lemma {:induction false} PortValue(parts: seq<Part>, i: nat, values: seq<string>, k: nat)
    requires i < |parts| && parts[i].reading.Port? && k == |Names(Joint(parts, i))| && k + |Names(parts[i].pieces)| <= |values|
    ensures PartValue(parts, i, values) == Expand(parts[i].pieces, values, k)
  {
  }

  /**
    So a resolved URL is the text of the substituted one: where net/url's answer to the text it is
    shown consists of parts of the template, and the port, if one was cut out, can be decoded.
  */
  lemma {:induction false} ResolvedUrlIsSubstituted(t: Template, value: string, parts: seq<Part>, values: seq<string>, kind: Kind, u: Url, l: Layout)
    requires t.Remote? && Parses(value, kind.parse, t) && |values| == |Names(Tokenize(value))|
    requires Accepted(value, t.x, parts) && PortsDecode(parts)
    requires kind.parse(Shown(Mask(Tokenize(value), t.x, 0), Prefix(t.x))) == Some(u) && Answers(u, value, t.x, parts, l)
    ensures Resolved(t, value, values, kind) == kind.format(Substituted(l, parts, values))
  {
    ParsedUrlIsLaid(value, kind.parse, t.url, t.x, parts, u, l);
    ExpandedUrlIsSubstituted(value, t.x, parts, values, t.url, l);
  }

  /** What the connection type and net/url contribute: two checks, parsing and formatting. */
  datatype Kind = Kind(
    parse: string -> Option<Url>, check: Template -> bool, accept: string -> bool, format: Url -> string)

  /** The resolved text of a template: for a URL, that of its expanded components. */
  function Resolved(t: Template, value: string, values: seq<string>, kind: Kind): string
    requires |values| == |Names(Tokenize(value))|
  {
    if t.Remote? then kind.format(ExpandUrl(t.url, t.x, values)) else Expand(Tokenize(value), values, 0)
  }

  /** What stands in the way of a parsed template: its check, a value, the expanded host, the final check. */
  predicate Resolvable(t: Template, value: string, env: map<string, string>, kind: Kind) {
    var names := Names(Tokenize(value));
    && (t.Whole? || kind.check(t))
    && Available(env, names)
    && (t.Remote? ==> !BreaksHost(Replace(t.x, ValuesOf(env, names), t.url.host)))
    && kind.accept(Resolved(t, value, ValuesOf(env, names), kind))
  }

  method ExpandLocal(value: string, text: string, x: nat, values: seq<string>) returns (r: string)
    requires text == Mask(Tokenize(value), x, 0) && FreshFor(value, x) && |values| == |Names(Tokenize(value))|
    ensures r == Expand(Tokenize(value), values, 0)
  {
    TokensSpellTheText(value);
    FreshPrefixExcludesFalseMarkers(Tokenize(value), x, 0, |values|);
    ReplaceIsExpand(Tokenize(value), x, 0, values);
    r := Replace(x, values, text);
  }

  method ResolveUrl(t: Template, value: string, values: seq<string>, kind: Kind) returns (r: Result<string, Error>)
    requires t.Remote? && |values| == |Names(Tokenize(value))|
    ensures r.Ok? <==> !BreaksHost(Replace(t.x, values, t.url.host)) && kind.accept(Resolved(t, value, values, kind))
    ensures r.Ok? ==> r.value == Resolved(t, value, values, kind)
  {
    var url := ExpandUrl(t.url, t.x, values);
    if BreaksHost(url.host) { return Err(BadHost); }
    if !kind.accept(kind.format(url)) { return Err(Refused); }
    return Ok(kind.format(url));
  }

  /** net/url refuses the masked text that parse shows it. */
  ghost predicate Unparsable(value: string, parse: string -> Option<Url>) {
    exists x: nat :: FreshFor(value, x) && parse(Shown(Mask(Tokenize(value), x, 0), Prefix(x))).None?
  }

  /** The prefix is determined by the text, so no other choice could be refused. */
  lemma ParsedIsNotRefused(value: string, parse: string -> Option<Url>, t: Template)
    requires Parses(value, parse, t)
    ensures !IsUrl(value) || !Unparsable(value, parse)
  {
    match t
    case Empty => NoSeparator(value);
    case Whole(_) => WholeIsNoUrl(value);
    case Local(_, _, _) =>
    case Remote(_, x, _) =>
      forall y: nat | FreshFor(value, y) ensures y == x {}
  }

  /**
    Resolve: a path or remote name becomes the text with every reference replaced by its value at
    once, a URL is put together from its expanded components, and it fails exactly when parse
    refuses the text, a check refuses it, a value is missing or bad, or the host would be broken.
  */
  method Resolve(value: string, env: map<string, string>, kind: Kind)
    returns (r: Result<string, Error>, ghost parsed: Result<Template, Error>)
    ensures value == "" ==> r == Ok("")
    ensures parsed.Ok? ==> Parses(value, kind.parse, parsed.value) && Maskable(value)
    ensures parsed.Err? ==> r == Err(parsed.error)
    ensures parsed.Err? <==> !Maskable(value) || (IsUrl(value) && Unparsable(value, kind.parse))
    ensures parsed.Ok? && value != "" ==>
      (r.Ok? <==> Resolvable(parsed.value, value, env, kind))
    ensures r.Ok? && value != "" ==> r.value == Resolved(parsed.value, value, ValuesOf(env, Names(Tokenize(value))), kind)
  {
    var template;
    ghost var x;
    template, x := Parse(value, kind.parse);
    parsed := template;
    if template.Err? { return Err(template.error), parsed; }
    var t := template.value;
    ParsedIsNotRefused(value, kind.parse, t);
    match t {
      case Empty => return Ok(""), parsed;
      case Whole(name) =>
        WholeExpands(name, env);
        match Environment(env, name) {
          case Err(e) => return Err(e), parsed;
          case Ok(v) =>
            if !kind.accept(v) { return Err(Refused), parsed; }
            return Ok(v), parsed;
        }
      case Local(text, x, refs) =>
        if !kind.check(t) { return Err(Refused), parsed; }
        var values := Values(env, refs);
        if values.Err? { return Err(values.error), parsed; }
        var expanded := ExpandLocal(value, text, x, values.value);
        if !kind.accept(expanded) { return Err(Refused), parsed; }
        return Ok(expanded), parsed;
      case Remote(_, x, refs) =>
        if !kind.check(t) { return Err(Refused), parsed; }
        var values := Values(env, refs);
        if values.Err? { return Err(values.error), parsed; }
        r := ResolveUrl(t, value, values.value, kind);
        return r, parsed;
    }
  }
}
