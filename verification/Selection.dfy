/**
  Which files of a task directory are uploaded.  Sync walks the tree and prunes directories; the
  same rule as a filter on single names is what Fetch applies to the objects it finds.

  A name is the list of its components, and the empty list is ".".  Strings are code points.
  Pattern matching is a parameter.
*/
module Selection {
  type Name = seq<string>

  /** Directory entries in the order in which they are read. */
  datatype Tree = File | Dir(entries: Forest)
  datatype Forest = Nil | Entry(name: string, tree: Tree, rest: Forest)

  /** Whether some include, and some exclude pattern matches a name. */
  datatype Filter = Filter(includes: Name -> bool, excludes: Name -> bool)

  // ---------------------------------------------------------------- the filter on one name

  /** Simple case folding of the letters that occur in the reserved names. */
  function Fold(c: char): char {
    if 'A' <= c <= 'Z' then ((c as int) - ('A' as int) + ('a' as int)) as char
    else if c == '\U{212a}' then 'k'
    else if c == '\U{017f}' then 's'
    else c
  }

  predicate EqualFold(a: string, b: string) {
    |a| == |b| && forall i :: 0 <= i < |a| ==> Fold(a[i]) == Fold(b[i])
  }

  /** Both forms of the i-th letter; k and s have one more each. */
  predicate IsLetter(c: char, i: nat) {
    && i < 26
    && (c as int == 65 + i || c as int == 97 + i || (i == 10 && c == '\U{212a}') || (i == 18 && c == '\U{017f}'))
  }

  /** Two characters fold alike when they are the same, or the same letter. */
  lemma FoldedAlike(c: char, d: char)
    ensures Fold(c) == Fold(d) <==> c == d || exists i: nat :: IsLetter(c, i) && IsLetter(d, i)
  {
    if 'A' <= c <= 'Z' { assert IsLetter(c, c as int - 65); }
    if 'a' <= c <= 'z' { assert IsLetter(c, c as int - 97); }
    if 'A' <= d <= 'Z' { assert IsLetter(d, d as int - 65); }
    if 'a' <= d <= 'z' { assert IsLetter(d, d as int - 97); }
    assert IsLetter('\U{212a}', 10) && IsLetter('\U{017f}', 18);
  }

  /** strings.EqualFold, letter by letter. */
  lemma EqualFoldIs(a: string, b: string)
    ensures EqualFold(a, b) <==>
      |a| == |b| && forall i :: 0 <= i < |a| ==> a[i] == b[i] || exists n: nat :: IsLetter(a[i], n) && IsLetter(b[i], n)
  {
    if |a| == |b| {
      forall i | 0 <= i < |a|
        ensures Fold(a[i]) == Fold(b[i]) <==> a[i] == b[i] || exists n: nat :: IsLetter(a[i], n) && IsLetter(b[i], n)
      {
        FoldedAlike(a[i], b[i]);
      }
    }
  }

  predicate ReservedPart(part: string) {
    EqualFold(part, ".git") || EqualFold(part, ".nextask")
  }

  predicate Reserved(name: Name) {
    exists i :: 0 <= i < |name| && ReservedPart(name[i])
  }

  /** In any spelling, .git and .nextask are reserved, and nothing else. */
  lemma ReservedIs(part: string)
    ensures ReservedPart(part) <==>
      || (|part| == 4 && part[0] == '.' && part[1] in "gG" && part[2] in "iI" && part[3] in "tT")
      || (|part| == 8 && part[0] == '.' && part[1] in "nN" && part[2] in "eE" && part[3] in "xX" && part[4] in "tT"
          && part[5] in "aA" && part[6] in "sS\U{017f}" && part[7] in "kK\U{212a}")
  {
    var git, nextask := ".git", ".nextask";
    if |part| == 4 { assert EqualFold(part, git) <==> Alike(part, git, 0) && Alike(part, git, 1) && Alike(part, git, 2) && Alike(part, git, 3); }
    if |part| == 8 {
      assert EqualFold(part, nextask) <==>
        && Alike(part, nextask, 0) && Alike(part, nextask, 1) && Alike(part, nextask, 2) && Alike(part, nextask, 3)
        && Alike(part, nextask, 4) && Alike(part, nextask, 5) && Alike(part, nextask, 6) && Alike(part, nextask, 7);
    }
  }

  predicate Alike(a: string, b: string, i: nat)
    requires i < |a| && i < |b|
  {
    Fold(a[i]) == Fold(b[i])
  }

  /** A pattern matches the name itself or one of its ancestors below ".". */
  predicate Excluded(excludes: Name -> bool, name: Name) {
    excludes(name) || exists n :: 0 < n < |name| && excludes(name[..n])
  }

  /** excluded: the loop over a name and its parents. */
  method IsExcluded(excludes: Name -> bool, name: Name) returns (found: bool)
    ensures found <==> Excluded(excludes, name)
  {
    var current := name;
    while true
      invariant current <= name && (current == [] ==> name == [])
      invariant forall n :: |current| < n <= |name| ==> !excludes(name[..n])
      decreases |current|
    {
      assert current == name[..|current|] && name == name[..|name|];
      if excludes(current) { return true; }
      if |current| <= 1 { return false; }
      current := current[..|current| - 1];
    }
  }

  predicate Selected(f: Filter, name: Name) {
    f.includes(name) && !Excluded(f.excludes, name) && !Reserved(name)
  }

  function Filtered(f: Filter, names: seq<Name>): seq<Name> {
    if names == [] then []
    else (if Selected(f, names[0]) then [names[0]] else []) + Filtered(f, names[1..])
  }

  /** Every file below a name, in the order of the walk. */
  function Files(name: Name, tree: Tree): seq<Name>
    decreases tree
  {
    match tree
    case File => [name]
    case Dir(entries) => FilesOf(name, entries)
  }

  function FilesOf(name: Name, entries: Forest): seq<Name>
    decreases entries
  {
    match entries
    case Nil => []
    case Entry(part, tree, rest) => Files(name + [part], tree) + FilesOf(name, rest)
  }

  // ---------------------------------------------------------------- the walk

  datatype Visit = SkipDir | Continue(upload: bool)

  /** The function Sync gives to fs.WalkDir. */
  function VisitEntry(f: Filter, name: Name, isDir: bool): Visit {
    if Reserved(name) then (if isDir then SkipDir else Continue(false))
    else if isDir then (if f.excludes(name) then SkipDir else Continue(false))
    else Continue(f.includes(name) && !f.excludes(name))
  }

  /** fs.WalkDir: the names handed to upload, in order. */
  function Walk(f: Filter, name: Name, tree: Tree): seq<Name>
    decreases tree
  {
    match tree
    case File => (match VisitEntry(f, name, false) case SkipDir => [] case Continue(upload) => if upload then [name] else [])
    case Dir(entries) => (match VisitEntry(f, name, true) case SkipDir => [] case Continue(_) => WalkEntries(f, name, entries))
  }

  function WalkEntries(f: Filter, name: Name, entries: Forest): seq<Name>
    decreases entries
  {
    match entries
    case Nil => []
    case Entry(part, tree, rest) => Walk(f, name + [part], tree) + WalkEntries(f, name, rest)
  }

  // ---------------------------------------------------------------- the walk is the filter

  lemma {:induction false} FilteredSplits(f: Filter, a: seq<Name>, b: seq<Name>)
    ensures Filtered(f, a + b) == Filtered(f, a) + Filtered(f, b)
  {
    if a == [] {
      assert a + b == b;
    } else {
      assert (a + b)[0] == a[0] && (a + b)[1..] == a[1..] + b;
      FilteredSplits(f, a[1..], b);
    }
  }

  /** No file below this name can be selected. */
  predicate Pruned(f: Filter, name: Name) {
    Reserved(name) || (name != [] && Excluded(f.excludes, name))
  }

  lemma PrunedBelow(f: Filter, name: Name, part: string)
    ensures Pruned(f, name) ==> Pruned(f, name + [part])
    ensures Pruned(f, name + [part]) <==> Pruned(f, name) || ReservedPart(part) || f.excludes(name + [part])
  {
    var below := name + [part];
    assert forall i :: 0 <= i < |name| ==> below[i] == name[i];
    assert below[|name|] == part;
    assert below[..|name|] == name;
    assert forall n :: 0 < n < |name| ==> below[..n] == name[..n];
  }

  lemma {:induction false} NothingBelowPruned(f: Filter, name: Name, tree: Tree)
    requires Pruned(f, name)
    ensures Filtered(f, Files(name, tree)) == []
    decreases tree
  {
    match tree
    case File => assert Filtered(f, [name]) == [];
    case Dir(entries) => NothingInPruned(f, name, entries);
  }

  lemma {:induction false} NothingInPruned(f: Filter, name: Name, entries: Forest)
    requires Pruned(f, name)
    ensures Filtered(f, FilesOf(name, entries)) == []
    decreases entries
  {
    match entries
    case Nil =>
    case Entry(part, tree, rest) =>
      PrunedBelow(f, name, part);
      NothingBelowPruned(f, name + [part], tree);
      NothingInPruned(f, name, rest);
      FilteredSplits(f, Files(name + [part], tree), FilesOf(name, rest));
  }

  lemma {:induction false} WalkBelow(f: Filter, name: Name, part: string, tree: Tree)
    requires !Pruned(f, name)
    ensures Walk(f, name + [part], tree) == Filtered(f, Files(name + [part], tree))
    decreases tree, 0
  {
    var below := name + [part];
    PrunedBelow(f, name, part);
    assert Reserved(below) <==> ReservedPart(part) by {
      assert below[|name|] == part;
      assert forall i :: 0 <= i < |name| ==> below[i] == name[i];
    }
    if Pruned(f, below) {
      NothingBelowPruned(f, below, tree);
    } else if tree.Dir? {
      WalkIn(f, below, tree.entries);
    } else {
      assert Filtered(f, [below]) == if f.includes(below) then [below] else [];
    }
  }

  lemma {:induction false} WalkIn(f: Filter, name: Name, entries: Forest)
    requires !Pruned(f, name)
    ensures WalkEntries(f, name, entries) == Filtered(f, FilesOf(name, entries))
    decreases entries, 1
  {
    match entries
    case Nil =>
    case Entry(part, tree, rest) =>
      WalkBelow(f, name, part, tree);
      WalkIn(f, name, rest);
      FilteredSplits(f, Files(name + [part], tree), FilesOf(name, rest));
  }

  /**
    The pruned walk of a task directory uploads exactly the files the filter selects, in the same
    order, if and only if no exclude pattern matches "." or the filter selects nothing: a pattern
    such as "?" that matches "." prunes the root, while the filter never looks at it.
  */
  lemma PrunedWalkIsTheFilter(f: Filter, entries: Forest)
    ensures Walk(f, [], Dir(entries)) == Filtered(f, Files([], Dir(entries)))
      <==> !f.excludes([]) || Filtered(f, Files([], Dir(entries))) == []
  {
    assert !Reserved([]);
    WalkIn(f, [], entries);
  }

  /** Includes everything and excludes "?", which matches "." and the names of one letter. */
  function OneLetterNamesOut(): Filter {
    Filter(_ => true, (n: Name) => n == [] || (|n| == 1 && |n[0]| == 1))
  }

  /** A concrete disagreement: the walk loses a file named ab. */
  lemma RootPatternsLoseFiles()
    ensures
      var tree := Dir(Entry("ab", File, Nil));
      Walk(OneLetterNamesOut(), [], tree) == [] && Filtered(OneLetterNamesOut(), Files([], tree)) == [["ab"]]
  {
    var entries := Entry("ab", File, Nil);
    assert [] + ["ab"] == ["ab"];
    assert FilesOf([], entries) == [["ab"]] + FilesOf([], Nil);
    assert Files([], Dir(entries)) == [["ab"]];
    assert Selected(OneLetterNamesOut(), ["ab"]);
  }
}
