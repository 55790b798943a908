/**
  Planning a fetch: which listed objects are taken, in which order, and when their paths conflict.
  Object names are relative slash-separated paths.
*/
module FetchPlan {
  import opened Wrappers

  // ---------------------------------------------------------------- paths

  /** path.Dir of a valid path: the text before the last slash, or ".". */
  function ParentOf(name: string): (dir: string)
    ensures dir == "." || (|dir| < |name| && name[..|dir|] == dir && name[|dir|] == '/' && '/' !in name[|dir| + 1..])
    ensures '/' in name ==> |dir| < |name| && name[..|dir|] == dir && name[|dir|] == '/' && '/' !in name[|dir| + 1..]
    ensures '/' !in name ==> dir == "."
  {
    if name == "" then "."
    else
      var n := |name| - 1;
      if name[n] == '/' then name[..n]
      else if '/' in name[..n] then
        var dir := ParentOf(name[..n]);
        assert name[..n][..|dir|] == name[..|dir|] && name[|dir| + 1..] == name[..n][|dir| + 1..] + [name[n]];
        dir
      else
        assert name == name[..n] + [name[n]];
        "."
  }

  /** A directory on the way to a name. */
  predicate Ancestor(a: string, name: string) {
    |a| < |name| && name[..|a|] == a && name[|a|] == '/'
  }

  lemma ParentIsNearest(name: string, a: string)
    requires Ancestor(a, name)
    ensures Ancestor(ParentOf(name), name) && (a == ParentOf(name) || Ancestor(a, ParentOf(name)))
  {
    var dir := ParentOf(name);
    assert forall i :: |dir| < i < |name| ==> name[|dir| + 1..][i - |dir| - 1] == name[i];
    assert name[..|dir|][..|a|] == name[..|a|];
  }

  lemma AncestorsNest(a: string, b: string, name: string)
    requires Ancestor(a, b) && Ancestor(b, name)
    ensures Ancestor(a, name)
  {
    assert name[..|b|][..|a|] == name[..|a|] && name[..|b|][|a|] == name[|a|];
  }

  /** No path occurs twice, and no path is a directory of another. */
  ghost predicate NoConflict(names: multiset<string>) {
    && (forall n :: names[n] <= 1)
    && (forall a, n :: a in names && n in names ==> !Ancestor(a, n))
  }

  // ---------------------------------------------------------------- sort.Strings

  /** Byte order. */
  predicate LessEq(a: string, b: string) {
    a == "" || (b != "" && (a[0] < b[0] || (a[0] == b[0] && LessEq(a[1..], b[1..]))))
  }

  lemma {:induction false} LessEqIsTotal(a: string, b: string)
    ensures LessEq(a, b) || LessEq(b, a)
    ensures LessEq(a, b) && LessEq(b, a) ==> a == b
  {
    if a != "" && b != "" {
      LessEqIsTotal(a[1..], b[1..]);
      assert a == [a[0]] + a[1..] && b == [b[0]] + b[1..];
    }
  }

  /** Both texts agree up to here, where the first ends or has the smaller character. */
  predicate DecidedAt(a: string, b: string, i: nat) {
    i <= |a| && i <= |b| && a[..i] == b[..i] && (i == |a| || (i < |b| && a[i] < b[i]))
  }

  /** The order is that of the first difference, where a beginning of a text comes before the text. */
  lemma {:induction false} FirstDifferenceDecides(a: string, b: string)
    ensures LessEq(a, b) <==> exists i: nat :: DecidedAt(a, b, i)
  {
    if a == "" || b == "" || a[0] != b[0] {
      assert LessEq(a, b) ==> DecidedAt(a, b, 0);
      assert forall i: nat :: 0 < i <= |a| && i <= |b| && a[..i] == b[..i] ==> a[..i][0] == b[..i][0];
    } else {
      FirstDifferenceDecides(a[1..], b[1..]);
      if LessEq(a, b) {
        var i: nat :| DecidedAt(a[1..], b[1..], i);
        assert a[..i + 1] == [a[0]] + a[1..][..i] && b[..i + 1] == [b[0]] + b[1..][..i];
        assert DecidedAt(a, b, i + 1);
      }
      forall i: nat | DecidedAt(a, b, i) ensures LessEq(a, b) {
        assert a[..i][1..] == a[1..][..i - 1] && b[..i][1..] == b[1..][..i - 1];
        assert DecidedAt(a[1..], b[1..], i - 1);
      }
    }
  }

  lemma {:induction false} LessEqIsTransitive(a: string, b: string, c: string)
    requires LessEq(a, b) && LessEq(b, c)
    ensures LessEq(a, c)
  {
    if a != "" && a[0] == b[0] == c[0] { LessEqIsTransitive(a[1..], b[1..], c[1..]); }
  }

  predicate Sorted(names: seq<string>) {
    forall i, j :: 0 <= i < j < |names| ==> LessEq(names[i], names[j])
  }

  function Insert(name: string, names: seq<string>): (r: seq<string>)
    ensures multiset(r) == multiset(names) + multiset{name}
  {
    if names == [] || LessEq(name, names[0]) then [name] + names
    else
      assert names == [names[0]] + names[1..];
      [names[0]] + Insert(name, names[1..])
  }

  function Sort(names: seq<string>): (r: seq<string>)
    ensures multiset(r) == multiset(names)
  {
    if names == [] then []
    else
      assert names == [names[0]] + names[1..];
      Insert(names[0], Sort(names[1..]))
  }

  lemma {:induction false} InsertKeepsOrder(name: string, names: seq<string>)
    requires Sorted(names)
    ensures Sorted(Insert(name, names))
  {
    if names == [] {
    } else if LessEq(name, names[0]) {
      forall j | 0 <= j < |names| ensures LessEq(name, names[j]) {
        if j > 0 { LessEqIsTransitive(name, names[0], names[j]); }
      }
    } else {
      InsertKeepsOrder(name, names[1..]);
      LessEqIsTotal(name, names[0]);
      var rest := Insert(name, names[1..]);
      forall j | 0 <= j < |rest| ensures LessEq(names[0], rest[j]) {
        assert rest[j] in multiset(rest);
        assert rest[j] == name || rest[j] in names[1..];
      }
    }
  }

  lemma {:induction false} SortSorts(names: seq<string>)
    ensures Sorted(Sort(names))
  {
    if names != [] {
      SortSorts(names[1..]);
      InsertKeepsOrder(names[0], Sort(names[1..]));
    }
  }

  // ---------------------------------------------------------------- the listing

  function Parts(name: string): seq<string> {
    if '/' !in name then [name] else Parts(ParentOf(name)) + [name[|ParentOf(name)| + 1..]]
  }

  /** Parts with slashes between them. */
  function WithSlashes(parts: seq<string>): string {
    if parts == [] then ""
    else if |parts| == 1 then parts[0]
    else WithSlashes(parts[..|parts| - 1]) + "/" + parts[|parts| - 1]
  }

  predicate NoSlashIn(parts: seq<string>) {
    forall i :: 0 <= i < |parts| ==> '/' !in parts[i]
  }

  /** Cutting a name at its slashes, and only there, loses nothing. */
  lemma {:induction false} PartsSpellTheName(name: string)
    ensures Parts(name) != [] && NoSlashIn(Parts(name)) && WithSlashes(Parts(name)) == name
    decreases |name|
  {
    if '/' in name {
      var dir := ParentOf(name);
      PartsSpellTheName(dir);
      assert Parts(name)[..|Parts(name)| - 1] == Parts(dir);
      assert name == dir + "/" + name[|dir| + 1..];
    }
  }

  lemma SlashesBehind(name: string, i: nat)
    requires i < |name|
    ensures '/' in name[i + 1..] <==> exists j :: i < j < |name| && name[j] == '/'
  {
    assert forall j :: i < j < |name| ==> name[i + 1..][j - i - 1] == name[j];
  }

  lemma LastSlash(dir: string, part: string)
    requires '/' !in part
    ensures ParentOf(dir + "/" + part) == dir
  {
    var name := dir + "/" + part;
    assert name[|dir|] == '/' && name[..|dir|] == dir && name[|dir| + 1..] == part;
    SlashesBehind(name, |dir|);
    SlashesBehind(name, |ParentOf(name)|);
  }

  /** And parts without a slash are found again. */
  lemma {:induction false} PartsAreFound(parts: seq<string>)
    requires parts != [] && NoSlashIn(parts)
    ensures Parts(WithSlashes(parts)) == parts
  {
    if |parts| > 1 {
      var front, last := parts[..|parts| - 1], parts[|parts| - 1];
      PartsAreFound(front);
      LastSlash(WithSlashes(front), last);
      var name := WithSlashes(parts);
      assert name[|WithSlashes(front)|] == '/';
      assert name[|WithSlashes(front)| + 1..] == last;
    } else {
      assert parts == [parts[0]];
    }
  }

  /** fs.ValidPath and filepath.Localize on Unix, without "." and backslashes. */
  predicate Safe(name: string, reserved: string -> bool) {
    && (forall i :: 0 <= i < |Parts(name)| ==> Parts(name)[i] !in {"", ".", ".."})
    && '\\' !in name && '\0' !in name && !reserved(name)
  }

  /** How many directories deep a path of these parts leads, if it never leaves the root. */
  function Depth(parts: seq<string>): int {
    if parts == [] then 0 else Depth(parts[..|parts| - 1]) + LevelsDown(parts[|parts| - 1])
  }

  function LevelsDown(part: string): int {
    if part == "" || part == "." then 0 else if part == ".." then -1 else 1
  }

  /** Every part of the name leads one level down: the path never leaves the root, nor stays where it is. */
  ghost predicate LeadsDown(name: string) {
    forall n: nat :: n <= |Parts(name)| ==> Depth(Parts(name)[..n]) == n
  }

  /** Exactly the names that lead down part by part are safe, without a backslash or NUL, and if they are not reserved. */
  lemma SafeNamesLeadDown(name: string, reserved: string -> bool)
    ensures Safe(name, reserved) <==> LeadsDown(name) && !reserved(name) && forall i :: 0 <= i < |name| ==> name[i] != '\\' && name[i] != '\0'
  {
    if forall i :: 0 <= i < |Parts(name)| ==> Parts(name)[i] !in {"", ".", ".."} {
      forall n: nat | n <= |Parts(name)| ensures Depth(Parts(name)[..n]) == n { PlainPartsLeadDown(Parts(name)[..n]); }
    } else {
      var i :| 0 <= i < |Parts(name)| && Parts(name)[i] in {"", ".", ".."};
      assert Parts(name)[..i + 1][..i] == Parts(name)[..i];
      assert Depth(Parts(name)[..i + 1]) <= Depth(Parts(name)[..i]);
    }
  }

  lemma {:induction false} PlainPartsLeadDown(parts: seq<string>)
    requires forall i :: 0 <= i < |parts| ==> parts[i] !in {"", ".", ".."}
    ensures Depth(parts) == |parts|
  {
    if parts != [] { PlainPartsLeadDown(parts[..|parts| - 1]); }
  }

  /** What the listing makes of one key: the name of a file, nothing, or an error. */
  datatype Key = Take(name: string) | Skip | Unsafe

  function Classify(key: string, source: string, reserved: string -> bool, wanted: string -> bool): Key {
    if !(|source| <= |key| && key[..|source|] == source) then Unsafe
    else
      var name := key[|source|..];
      if name == "" || name == "/" then Skip
      else
        var directory := name[|name| - 1] == '/';
        var file := if directory then name[..|name| - 1] else name;
        if !Safe(file, reserved) then Unsafe
        else if directory || !wanted(file) then Skip
        else Take(file)
  }

  datatype Error = UnsafeKey | NoArtifacts | Duplicate(path: string) | Conflict(path: string)

  function Taken(keys: seq<string>, source: string, reserved: string -> bool, wanted: string -> bool): seq<string> {
    if keys == [] then []
    else
      var k := |keys| - 1;
      Taken(keys[..k], source, reserved, wanted) +
        match Classify(keys[k], source, reserved, wanted) case Take(name) => [name] case _ => []
  }

  predicate AllSafe(keys: seq<string>, source: string, reserved: string -> bool, wanted: string -> bool) {
    forall i :: 0 <= i < |keys| ==> !Classify(keys[i], source, reserved, wanted).Unsafe?
  }

  /** A file, or the marker of a directory, whose name is safe; or the task's own directory. */
  predicate ListedAs(key: string, source: string, file: string, reserved: string -> bool) {
    (key == source + file || key == source + file + "/") && (file == "" || Safe(file, reserved))
  }

  ghost predicate IsListed(key: string, source: string, reserved: string -> bool) {
    exists file :: ListedAs(key, source, file, reserved)
  }

  lemma LastPart(name: string)
    ensures Parts(name) != []
    ensures name == "" || name[|name| - 1] == '/' ==> Parts(name)[|Parts(name)| - 1] == ""
  {
  }

  lemma SafeNamesEndInAPart(name: string, reserved: string -> bool)
    requires Safe(name, reserved)
    ensures name != "" && name[|name| - 1] != '/'
  {
    LastPart(name);
  }

  /** Which keys are not refused: those under the source whose name is empty or safe, up to one final slash. */
  lemma SafeKeysAreListed(key: string, source: string, reserved: string -> bool, wanted: string -> bool)
    ensures !Classify(key, source, reserved, wanted).Unsafe? <==> IsListed(key, source, reserved)
  {
    if !Classify(key, source, reserved, wanted).Unsafe? {
      var name := key[|source|..];
      var file := if name != "" && name[|name| - 1] == '/' then name[..|name| - 1] else name;
      assert key == source + name && (name == file || name == file + "/");
      assert key == source + file || key == source + file + "/";
      assert ListedAs(key, source, file, reserved);
    }
    forall file | ListedAs(key, source, file, reserved) ensures !Classify(key, source, reserved, wanted).Unsafe? {
      assert key[..|source|] == source;
      assert key[|source|..] == file || key[|source|..] == file + "/";
      if file != "" {
        SafeNamesEndInAPart(file, reserved);
        assert (file + "/")[..|file|] == file;
      }
    }
  }

  /** A name that a key can stand for: not that of a directory, and asked for. */
  predicate IsWanted(name: string, wanted: string -> bool) {
    name != "" && name[|name| - 1] != '/' && wanted(name)
  }

  /** The name one listed key is taken for, if it is one. */
  lemma OneKeyExactly(key: string, source: string, reserved: string -> bool, wanted: string -> bool, name: string)
    requires !Classify(key, source, reserved, wanted).Unsafe?
    ensures Classify(key, source, reserved, wanted) == Take(name) <==> key == source + name && IsWanted(name, wanted)
  {
    assert key == source + key[|source|..];
    assert (source + name)[|source|..] == name;
  }

  /**
    What is taken from a listing without an unsafe key: every wanted file under the source, in any
    directory, as often as it is listed, and nothing else.
  */
  lemma {:induction false} TakenExactly(keys: seq<string>, source: string, reserved: string -> bool, wanted: string -> bool, name: string)
    requires AllSafe(keys, source, reserved, wanted)
    ensures multiset(Taken(keys, source, reserved, wanted))[name] == if IsWanted(name, wanted) then multiset(keys)[source + name] else 0
  {
    if keys != [] {
      var front, last := keys[..|keys| - 1], keys[|keys| - 1];
      assert keys == front + [last];
      TakenExactly(front, source, reserved, wanted, name);
      OneKeyExactly(last, source, reserved, wanted, name);
    }
  }

  ghost predicate AllListed(keys: seq<string>, source: string, reserved: string -> bool) {
    forall i :: 0 <= i < |keys| ==> IsListed(keys[i], source, reserved)
  }

  /** These names are the wanted files of the listing, each as often as it is listed. */
  ghost predicate Selects(names: seq<string>, keys: seq<string>, source: string, wanted: string -> bool) {
    forall name :: multiset(names)[name] == if IsWanted(name, wanted) then multiset(keys)[source + name] else 0
  }

  lemma SelectionIsExact(keys: seq<string>, source: string, reserved: string -> bool, wanted: string -> bool)
    ensures AllSafe(keys, source, reserved, wanted) <==> AllListed(keys, source, reserved)
    ensures AllSafe(keys, source, reserved, wanted) ==> Selects(Taken(keys, source, reserved, wanted), keys, source, wanted)
    ensures AllSafe(keys, source, reserved, wanted) ==> Selects(Sort(Taken(keys, source, reserved, wanted)), keys, source, wanted)
  {
    forall i | 0 <= i < |keys|
      ensures !Classify(keys[i], source, reserved, wanted).Unsafe? <==> IsListed(keys[i], source, reserved)
    {
      SafeKeysAreListed(keys[i], source, reserved, wanted);
    }
    if AllSafe(keys, source, reserved, wanted) {
      forall name
        ensures multiset(Taken(keys, source, reserved, wanted))[name] == if IsWanted(name, wanted) then multiset(keys)[source + name] else 0
      {
        TakenExactly(keys, source, reserved, wanted, name);
      }
    }
  }

  lemma {:induction false} TakenAreSafe(keys: seq<string>, source: string, reserved: string -> bool, wanted: string -> bool)
    ensures forall name :: name in Taken(keys, source, reserved, wanted) ==> Safe(name, reserved) && wanted(name)
  {
    if keys != [] { TakenAreSafe(keys[..|keys| - 1], source, reserved, wanted); }
  }

  /** The callback of the listing, key by key. */
  method Collect(keys: seq<string>, source: string, reserved: string -> bool, wanted: string -> bool)
    returns (r: Option<seq<string>>)
    ensures r.Some? <==> AllSafe(keys, source, reserved, wanted)
    ensures r.Some? <==> AllListed(keys, source, reserved)
    ensures r.Some? ==> r.value == Taken(keys, source, reserved, wanted) && Selects(r.value, keys, source, wanted)
  {
    var names := [];
    for i := 0 to |keys|
      invariant AllSafe(keys[..i], source, reserved, wanted) && names == Taken(keys[..i], source, reserved, wanted)
    {
      assert keys[..i + 1][..i] == keys[..i];
      match Classify(keys[i], source, reserved, wanted) {
        case Take(name) => names := names + [name];
        case Skip => assert names + [] == names;
        case Unsafe =>
          SelectionIsExact(keys, source, reserved, wanted);
          return None;
      }
    }
    assert keys[..|keys|] == keys;
    SelectionIsExact(keys, source, reserved, wanted);
    return Some(names);
  }

  // ---------------------------------------------------------------- conflicts

  method FindDuplicate(names: seq<string>) returns (r: Option<string>)
    ensures r.None? <==> forall n :: multiset(names)[n] <= 1
    ensures r.Some? ==> multiset(names)[r.value] > 1
  {
    var selected: set<string> := {};
    for i := 0 to |names|
      invariant forall n :: n in selected <==> n in names[..i]
      invariant forall n :: multiset(names[..i])[n] <= 1
    {
      assert names[..i + 1] == names[..i] + [names[i]];
      assert names == names[..i + 1] + names[i + 1..];
      assert multiset(names) == multiset(names[..i]) + multiset{names[i]} + multiset(names[i + 1..]);
      if names[i] in selected {
        assert names[i] in multiset(names[..i]);
        assert multiset(names)[names[i]] > 1;
        return Some(names[i]);
      }
      selected := selected + {names[i]};
    }
    assert names[..|names|] == names;
    return None;
  }

  /** The walk from a path to its parents finds every ancestor that is selected. */
  method SelectedAncestor(name: string, names: seq<string>) returns (r: Option<string>)
    requires "." !in names
    ensures r.None? <==> forall a :: a in names ==> !Ancestor(a, name)
    ensures r.Some? ==> r.value in names && Ancestor(r.value, name)
  {
    var parent := ParentOf(name);
    Nearest(name, names);
    while parent != "."
      invariant parent == "." || Ancestor(parent, name)
      invariant forall a :: a in names && Ancestor(a, name) ==> parent != "." && (a == parent || Ancestor(a, parent))
      decreases if parent == "." then 0 else |parent| + 1
    {
      if parent in names { return Some(parent); }
      var next := ParentOf(parent);
      Nearest(parent, names);
      if next != "." { AncestorsNest(next, parent, name); }
      parent := next;
    }
    return None;
  }

  lemma Nearest(name: string, names: seq<string>)
    requires "." !in names
    ensures ParentOf(name) == "." || Ancestor(ParentOf(name), name)
    ensures forall a :: a in names && Ancestor(a, name) ==>
      ParentOf(name) != "." && (a == ParentOf(name) || Ancestor(a, ParentOf(name)))
  {
    forall a | a in names && Ancestor(a, name)
      ensures ParentOf(name) != "." && (a == ParentOf(name) || Ancestor(a, ParentOf(name)))
    {
      ParentIsNearest(name, a);
    }
  }

  method FindConflict(names: seq<string>) returns (r: Option<string>)
    requires "." !in names
    ensures r.None? <==> forall a, n :: a in names && n in names ==> !Ancestor(a, n)
    ensures r.Some? ==> r.value in names && exists n :: n in names && Ancestor(r.value, n)
  {
    for i := 0 to |names|
      invariant forall a, n :: a in names && n in names[..i] ==> !Ancestor(a, n)
    {
      r := SelectedAncestor(names[i], names);
      if r.Some? {
        assert names[i] in names;
        return;
      }
      assert names[..i + 1] == names[..i] + [names[i]];
    }
    assert names[..|names|] == names;
    return None;
  }

  /** Every listed key is safe, and the selection is not empty and free of conflicts. */
  ghost predicate Acceptable(keys: seq<string>, source: string, reserved: string -> bool, wanted: string -> bool) {
    && AllSafe(keys, source, reserved, wanted)
    && Taken(keys, source, reserved, wanted) != []
    && NoConflict(multiset(Taken(keys, source, reserved, wanted)))
  }

  /**
    The planning part of Fetch.  A selection is accepted exactly when every listed key is safe,
    something is selected, no path occurs twice and none is an ancestor of another; what is
    fetched is the selection in sorted order.
  */
  method Plan(keys: seq<string>, source: string, reserved: string -> bool, wanted: string -> bool)
    returns (r: Result<seq<string>, Error>)
    ensures r == Err(UnsafeKey) <==> !AllListed(keys, source, reserved)
    ensures r == Err(NoArtifacts) <==> AllListed(keys, source, reserved) && Taken(keys, source, reserved, wanted) == []
    ensures r.Ok? <==> Acceptable(keys, source, reserved, wanted)
    ensures r.Ok? ==> r.value == Sort(Taken(keys, source, reserved, wanted)) && Sorted(r.value)
    ensures r.Ok? ==> Selects(r.value, keys, source, wanted)
    ensures r.Err? && r.error.Duplicate? ==> multiset(Taken(keys, source, reserved, wanted))[r.error.path] > 1
    ensures r.Err? && r.error.Conflict? ==>
      exists n :: n in Taken(keys, source, reserved, wanted) && Ancestor(r.error.path, n)
  {
    SelectionIsExact(keys, source, reserved, wanted);
    var collected := Collect(keys, source, reserved, wanted);
    if collected.None? { return Err(UnsafeKey); }
    if collected.value == [] { return Err(NoArtifacts); }
    var names := Sort(collected.value);
    SortSorts(collected.value);
    TakenAreSafe(keys, source, reserved, wanted);
    SameElements(collected.value, names);
    var duplicate := FindDuplicate(names);
    if duplicate.Some? { return Err(Duplicate(duplicate.value)); }
    assert "." !in names by { assert Parts(".") == ["."]; assert Parts(".")[0] == "."; }
    var conflict := FindConflict(names);
    if conflict.Some? { return Err(Conflict(conflict.value)); }
    return Ok(names);
  }

  lemma SameElements(a: seq<string>, b: seq<string>)
    requires multiset(a) == multiset(b)
    ensures forall n :: n in a <==> n in b
    ensures forall n :: n in multiset(a) <==> n in a
  {
    forall n ensures n in a <==> n in b {
      assert n in a <==> n in multiset(a);
      assert n in b <==> n in multiset(b);
    }
  }

  /** Accepted names stand at distinct places. */
  lemma AcceptedNamesAreDistinct(names: seq<string>, i: nat, j: nat)
    requires NoConflict(multiset(names)) && i < j < |names|
    ensures names[i] != names[j] && !Ancestor(names[i], names[j]) && !Ancestor(names[j], names[i])
  {
    assert names == names[..i] + [names[i]] + names[i + 1..j] + [names[j]] + names[j + 1..];
    assert names[i] in multiset(names) && names[j] in multiset(names);
    assert names[i] == names[j] ==> multiset(names)[names[i]] >= 2;
  }

  /** So no accepted name is published twice or inside another. */
  lemma AcceptedAreApart(taken: seq<string>)
    requires NoConflict(multiset(taken))
    ensures forall i, j :: 0 <= i < j < |Sort(taken)| ==>
      && Sort(taken)[i] != Sort(taken)[j] && !Ancestor(Sort(taken)[i], Sort(taken)[j])
      && !Ancestor(Sort(taken)[j], Sort(taken)[i])
  {
    var names := Sort(taken);
    SortSorts(taken);
    forall i, j | 0 <= i < j < |names| ensures names[i] != names[j] && !Ancestor(names[i], names[j]) && !Ancestor(names[j], names[i]) {
      AcceptedNamesAreDistinct(names, i, j);
    }
  }
}
