/** Directories that hold what an extraction wrote: there always is one. */
module Disks {
  import opened Json
  import opened Splits
  import opened Listings
  import opened Trees
  import opened Snapshots

  // ---------------------------------------------------------------- one more entry in a tree

  /** The tree with a file, or an empty directory, put where its directory is. */
  function Plant(children: seq<Node>, path: Path, leaf: Node): seq<Node>
    requires path != []
    decreases children
  {
    if |path| == 1 then children + [leaf]
    else if children == [] then []
    else if children[0].Directory? && children[0].name == path[0] then
      [Directory(path[0], Plant(children[0].children, path[1..], leaf))] + children[1..]
    else [children[0]] + Plant(children[1..], path, leaf)
  }

  predicate IsLeaf(leaf: Node, path: Path) {
    && path != [] && IsEntryName(leaf.name) && leaf.name == path[|path| - 1]
    && (leaf.File? || (leaf.Directory? && leaf.children == []))
  }

  function At(leaf: Node, path: Path): Item {
    if leaf.File? then FileAt(path, leaf.content) else DirAt(path)
  }

  /** The rest of a whole path, below a prefix of it. */
  predicate IsRest(whole: Path, prefix: Path, path: Path) {
    |whole| == |prefix| + |path| && whole[..|prefix|] == prefix && whole[|prefix|..] == path
  }

  /** The entry has a place: its directory is there, and nothing stands at its path. */
  ghost predicate HasPlace(children: seq<Node>, prefix: Path, path: Path, whole: Path, parent: Path) {
    && path != []
    && (|path| > 1 ==> DirAt(parent) in Items(children, prefix))
    && NothingAt(Items(children, prefix), whole)
  }

  ghost predicate NothingAt(items: seq<Item>, path: Path) {
    forall item <- items :: item.path != path
  }

  /** Going down by one name. */
  lemma RestBelow(whole: Path, prefix: Path, path: Path)
    requires IsRest(whole, prefix, path) && path != []
    ensures whole[|prefix|] == path[0] && IsRest(whole, prefix + [path[0]], path[1..])
  {
    assert whole[|prefix|..][0] == path[0];
    assert whole[..|prefix| + 1] == whole[..|prefix|] + [whole[|prefix|]];
    assert whole[|prefix| + 1..] == whole[|prefix|..][1..];
  }

  ghost predicate OneMoreItem(before: seq<Item>, after: seq<Item>, added: Item) {
    forall item :: item in after <==> item in before || item == added
  }

  lemma {:induction false} ItemsOfAppend(a: seq<Node>, b: seq<Node>, prefix: Path)
    ensures Items(a + b, prefix) == Items(a, prefix) + Items(b, prefix)
    decreases |a|
  {
    if a == [] {
      assert a + b == b;
    } else {
      assert (a + b)[0] == a[0] && (a + b)[1..] == a[1..] + b;
      ItemsOfAppend(a[1..], b, prefix);
      FirstThenRest(a, prefix);
      FirstThenRest(a + b, prefix);
      assert (a + b)[..1] == a[..1];
    }
  }

  lemma {:induction false} EveryChildHasAnItem(children: seq<Node>, prefix: Path, child: Node)
    requires child in children
    ensures exists item <- Items(children, prefix) :: item.path == prefix + [child.name]
    decreases |children|
  {
    FirstThenRest(children, prefix);
    if child == children[0] {
      var items := Items(children, prefix);
      assert items[0].path == prefix + [child.name];
      assert items[0] in items;
    } else {
      assert child in children[1..];
      EveryChildHasAnItem(children[1..], prefix, child);
    }
  }

  lemma {:induction false} WellFormedAppend(children: seq<Node>, leaf: Node)
    requires WellFormed(children) && IsEntryName(leaf.name) && (leaf.Directory? ==> leaf.children == [])
    requires forall c <- children :: c.name != leaf.name
    ensures WellFormed(children + [leaf])
    decreases |children|
  {
    var all := children + [leaf];
    if children == [] {
      assert all[1..] == [];
    } else {
      assert all[1..] == children[1..] + [leaf];
      WellFormedAppend(children[1..], leaf);
    }
  }

  lemma PlantedHere(children: seq<Node>, prefix: Path, path: Path, leaf: Node, whole: Path)
    requires WellFormed(children) && |path| == 1 && IsLeaf(leaf, path) && NothingAt(Items(children, prefix), whole)
    requires whole == prefix + [leaf.name]
    ensures WellFormed(children + [leaf])
    ensures OneMoreItem(Items(children, prefix), Items(children + [leaf], prefix), At(leaf, whole))
  {
    forall c <- children
      ensures c.name != leaf.name
    {
      EveryChildHasAnItem(children, prefix, c);
    }
    WellFormedAppend(children, leaf);
    ItemsOfAppend(children, [leaf], prefix);
    ItemsOfLeaf(leaf, prefix);
  }

  lemma ItemsOfLeaf(leaf: Node, prefix: Path)
    requires leaf.File? || (leaf.Directory? && leaf.children == [])
    ensures Items([leaf], prefix) == [At(leaf, prefix + [leaf.name])]
  {
    assert [leaf][1..] == [];
  }

  lemma FirstOfDirectory(node: Node, prefix: Path)
    requires node.Directory?
    ensures Items([node], prefix) == [DirAt(prefix + [node.name])] + Items(node.children, prefix + [node.name])
  {
    assert [node][1..] == [];
  }

  /** The entries of a directory, those below its first child, and those of the other children. */
  lemma DirectoryFirst(children: seq<Node>, prefix: Path, here: Path)
    requires children != [] && children[0].Directory? && here == prefix + [children[0].name]
    ensures Items(children, prefix) ==
      [DirAt(here)] + Items(children[0].children, here) + Items(children[1..], prefix)
  {
    FirstThenRest(children, prefix);
    assert children[..1] == [children[0]];
    FirstOfDirectory(children[0], prefix);
  }

  lemma NotInTheRest(children: seq<Node>, prefix: Path, item: Item)
    requires WellFormed(children) && children != []
    requires |item.path| > |prefix| && item.path[|prefix|] == children[0].name
    ensures item !in Items(children[1..], prefix)
  {
    ItemsAreBelow(children[1..], prefix);
  }

  /** The directory of the place is below the child of its first name, which is a directory. */
  lemma PlaceIsBelow(children: seq<Node>, prefix: Path, here: Path, path: Path, whole: Path, parent: Path)
    requires WellFormed(children) && children != [] && |path| > 1 && HasPlace(children, prefix, path, whole, parent)
    requires children[0].Directory? && here == prefix + [children[0].name]
    requires |parent| > |prefix| && parent[|prefix|] == children[0].name && (|path| > 2 ==> |parent| > |here|)
    ensures HasPlace(children[0].children, here, path[1..], whole, parent)
  {
    DirectoryFirst(children, prefix, here);
    NotInTheRest(children, prefix, DirAt(parent));
    assert forall item <- Items(children[0].children, here) :: item in Items(children, prefix);
  }

  lemma PlaceIsAfter(children: seq<Node>, prefix: Path, path: Path, whole: Path, parent: Path)
    requires WellFormed(children) && children != [] && |path| > 1 && HasPlace(children, prefix, path, whole, parent)
    requires DirAt(parent) !in Items([children[0]], prefix)
    ensures HasPlace(children[1..], prefix, path, whole, parent)
  {
    FirstThenRest(children, prefix);
    assert children[..1] == [children[0]];
  }

  lemma NoDirectoryFirst(node: Node, prefix: Path, parent: Path)
    requires !node.Directory?
    ensures DirAt(parent) !in Items([node], prefix)
  {
    assert [node][1..] == [];
  }

  lemma OtherNameFirst(node: Node, prefix: Path, parent: Path)
    requires IsEntryName(node.name) && (node.Directory? ==> WellFormed(node.children))
    requires |parent| > |prefix| && parent[|prefix|] != node.name
    ensures DirAt(parent) !in Items([node], prefix)
  {
    OneChild(node, prefix);
  }

  lemma {:induction false} Planted(children: seq<Node>, prefix: Path, path: Path, leaf: Node, whole: Path, parent: Path)
    requires WellFormed(children) && IsLeaf(leaf, path) && HasPlace(children, prefix, path, whole, parent)
    requires IsRest(whole, prefix, path) && parent == whole[..|whole| - 1]
    ensures WellFormed(Plant(children, path, leaf))
    ensures OneMoreItem(Items(children, prefix), Items(Plant(children, path, leaf), prefix), At(leaf, whole))
    ensures |path| > 1 ==> forall c <- Plant(children, path, leaf) :: exists d <- children :: d.name == c.name
    decreases children
  {
    RestBelow(whole, prefix, path);
    if |path| == 1 {
      assert whole == whole[..|prefix|] + whole[|prefix|..];
      PlantedHere(children, prefix, path, leaf, whole);
    } else {
      assert parent[|prefix|] == path[0];
      assert children != [];
      if children[0].Directory? && children[0].name == path[0] {
        var here := prefix + [path[0]];
        PlaceIsBelow(children, prefix, here, path, whole, parent);
        Planted(children[0].children, here, path[1..], leaf, whole, parent);
        PlantedBelow(children, prefix, here, path, leaf, whole);
      } else {
        if children[0].Directory? {
          OtherNameFirst(children[0], prefix, parent);
        } else {
          NoDirectoryFirst(children[0], prefix, parent);
        }
        PlaceIsAfter(children, prefix, path, whole, parent);
        Planted(children[1..], prefix, path, leaf, whole, parent);
        PlantedAfter(children, prefix, path, leaf, whole);
      }
    }
  }

  lemma PlantedBelow(children: seq<Node>, prefix: Path, here: Path, path: Path, leaf: Node, whole: Path)
    requires WellFormed(children) && |path| > 1 && children != []
    requires children[0].Directory? && children[0].name == path[0] && here == prefix + [path[0]]
    requires WellFormed(Plant(children[0].children, path[1..], leaf))
    requires OneMoreItem(Items(children[0].children, here), Items(Plant(children[0].children, path[1..], leaf), here),
                         At(leaf, whole))
    ensures WellFormed(Plant(children, path, leaf))
    ensures OneMoreItem(Items(children, prefix), Items(Plant(children, path, leaf), prefix), At(leaf, whole))
    ensures forall c <- Plant(children, path, leaf) :: exists d <- children :: d.name == c.name
  {
    var grown := Directory(path[0], Plant(children[0].children, path[1..], leaf));
    var after := Plant(children, path, leaf);
    assert after == [grown] + children[1..] && after[1..] == children[1..];
    assert forall c <- after :: c == grown || c in children;
    DirectoryFirst(children, prefix, here);
    DirectoryFirst(after, prefix, here);
  }

  lemma PlantedAfter(children: seq<Node>, prefix: Path, path: Path, leaf: Node, whole: Path)
    requires WellFormed(children) && |path| > 1 && children != []
    requires !(children[0].Directory? && children[0].name == path[0])
    requires WellFormed(Plant(children[1..], path, leaf))
    requires OneMoreItem(Items(children[1..], prefix), Items(Plant(children[1..], path, leaf), prefix), At(leaf, whole))
    requires forall c <- Plant(children[1..], path, leaf) :: exists d <- children[1..] :: d.name == c.name
    ensures WellFormed(Plant(children, path, leaf))
    ensures OneMoreItem(Items(children, prefix), Items(Plant(children, path, leaf), prefix), At(leaf, whole))
    ensures forall c <- Plant(children, path, leaf) :: exists d <- children :: d.name == c.name
  {
    var rest := Plant(children[1..], path, leaf);
    var after := Plant(children, path, leaf);
    assert after == [children[0]] + rest && after[1..] == rest && after[..1] == children[..1];
    FirstThenRest(children, prefix);
    FirstThenRest(after, prefix);
  }

  // ---------------------------------------------------------------- what an extraction wrote

  lemma HeldPaths(children: seq<Node>, disk: Disk)
    requires Holds(children, disk)
    ensures forall item <- Items(children, []) :: item.path in disk.files || item.path in disk.dirs
  {
    forall item <- Items(children, [])
      ensures item.path in disk.files || item.path in disk.dirs
    {
      match item
      case FileAt(path, content) => assert path in disk.files;
      case DirAt(path) => assert path in disk.dirs;
      case OddAt(_, _) =>
    }
  }

  /** A leaf where nothing is yet, in a directory that is there. */
  lemma HoldOneMore(children: seq<Node>, disk: Disk, path: Path, leaf: Node) returns (again: seq<Node>)
    requires Holds(children, disk) && IsLeaf(leaf, path)
    requires path !in disk.files && path !in disk.dirs && (|path| > 1 ==> path[..|path| - 1] in disk.dirs)
    ensures WellFormed(again)
    ensures OneMoreItem(Items(children, []), Items(again, []), At(leaf, path))
  {
    HeldPaths(children, disk);
    Planted(children, [], path, leaf, path, path[..|path| - 1]);
    again := Plant(children, path, leaf);
  }

  lemma HoldDirectory(children: seq<Node>, disk: Disk, path: Path) returns (again: seq<Node>)
    requires Holds(children, disk) && path != [] && IsEntryName(path[|path| - 1])
    requires path !in disk.files && (|path| > 1 ==> path[..|path| - 1] in disk.dirs)
    ensures Holds(again, disk.(dirs := disk.dirs + {path}))
  {
    if path in disk.dirs {
      assert disk.dirs + {path} == disk.dirs;
      again := children;
    } else {
      again := HoldOneMore(children, disk, path, Directory(path[|path| - 1], []));
    }
  }

  lemma HoldFile(children: seq<Node>, disk: Disk, path: Path, content: seq<Byte>) returns (again: seq<Node>)
    requires Holds(children, disk) && path != [] && IsEntryName(path[|path| - 1])
    requires path !in disk.files && path !in disk.dirs && (|path| > 1 ==> path[..|path| - 1] in disk.dirs)
    ensures Holds(again, disk.(files := disk.files[path := content]))
  {
    again := HoldOneMore(children, disk, path, File(path[|path| - 1], content));
  }

  lemma AncestorsOneMore(path: Path)
    requires path != []
    ensures Ancestors(path) == Ancestors(path[..|path| - 1]) + {path}
  {
    var parent := path[..|path| - 1];
    forall k | 0 < k <= |parent|
      ensures parent[..k] == path[..k]
    {
    }
    assert path[..|path|] == path;
    forall a <- Ancestors(path)
      ensures a in Ancestors(parent) + {path}
    {
      var k :| 0 < k <= |path| && a == path[..k];
      assert k <= |parent| ==> parent[..k] == a;
    }
    forall a <- Ancestors(parent)
      ensures a in Ancestors(path)
    {
      var k :| 0 < k <= |parent| && a == parent[..k];
      assert path[..k] == a;
    }
    assert path[..|path|] in Ancestors(path);
  }

  lemma {:induction false} HoldDirectories(children: seq<Node>, disk: Disk, path: Path) returns (again: seq<Node>)
    requires Holds(children, disk) && MakeDirs(disk, path).Ok? && forall part <- path :: IsEntryName(part)
    ensures Holds(again, MakeDirs(disk, path).value)
    decreases |path|
  {
    if path == [] {
      assert Ancestors(path) == {};
      again := children;
    } else {
      var parent := path[..|path| - 1];
      AncestorsOneMore(path);
      var mid := HoldDirectories(children, disk, parent);
      var made := MakeDirs(disk, parent).value;
      assert |path| > 1 ==> parent[..|parent|] == parent && parent in Ancestors(parent);
      again := HoldDirectory(mid, made, path);
      assert made.dirs + {path} == disk.dirs + Ancestors(path);
    }
  }

  lemma PartsAreEntryNames(name: Name, maxDepth: int)
    requires ArchiveParts(name, maxDepth).Ok?
    ensures forall part <- ArchiveParts(name, maxDepth).value :: IsEntryName(part)
  {
    var normalized := Normalized(name);
    var parts := Split(normalized, SLASH);
    NotEmptyKeeps(parts);
    PartsOfSplit(normalized, SLASH);
  }

  lemma HoldEntry(children: seq<Node>, p: Progress, e: Entry, limits: Limits, fold: Name -> Name)
    returns (again: seq<Node>)
    requires Holds(children, p.disk) && ExtractEntry(p, e, limits, fold).Ok?
    ensures Holds(again, ExtractEntry(p, e, limits, fold).value.disk)
  {
    PartsAreEntryNames(e.name, limits.maxDepth);
    var parts := ArchiveParts(e.name, limits.maxDepth).value;
    if IsDirectoryEntry(e.name) {
      again := HoldDirectories(children, p.disk, parts);
    } else {
      var parent := parts[..|parts| - 1];
      assert forall part <- parent :: part in parts;
      var mid := HoldDirectories(children, p.disk, parent);
      assert |parts| > 1 ==> parent[..|parent|] == parent && parent in Ancestors(parent);
      again := HoldFile(mid, MakeDirs(p.disk, parent).value, parts, e.content);
    }
  }

  ghost predicate Held(disk: Disk) {
    exists children :: Holds(children, disk)
  }

  /** A step from what some directory holds leads to what some directory holds. */
  ghost predicate KeepsHeld(step: Step) {
    forall p, e | step(p, e).Ok? && Held(p.disk) :: Held(step(p, e).value.disk)
  }

  lemma ExtractingKeepsHeld(limits: Limits, fold: Name -> Name)
    ensures KeepsHeld(Extracting(limits, fold))
  {
    forall p, e | Extracting(limits, fold)(p, e).Ok? && Held(p.disk)
      ensures Held(Extracting(limits, fold)(p, e).value.disk)
    {
      var children :| Holds(children, p.disk);
      var again := HoldEntry(children, p, e, limits, fold);
    }
  }

  lemma {:induction false} ExtractedIsHeld(entries: seq<Entry>, n: nat, step: Step)
    requires n <= |entries| && KeepsHeld(step) && ExtractFirst(entries, n, step).Ok?
    ensures Held(ExtractFirst(entries, n, step).value.disk)
  {
    if n == 0 {
      NothingIsHeld();
    } else {
      ExtractedIsHeld(entries, n - 1, step);
    }
  }

  lemma NothingIsHeld()
    ensures Held(Disk(map[], {}))
  {
    assert Items([], []) == [];
    assert Holds([], Disk(map[], {}));
  }

  /** Whatever was extracted, some directory holds it. */
  lemma SomeTreeHolds(archive: Archive, limits: Limits, fold: Name -> Name) returns (again: seq<Node>)
    ensures WellFormed(again) && Sound(Items(again, []))
    ensures var r := Extract(archive, limits, fold); r.Ok? ==> Holds(again, r.value)
  {
    if Extract(archive, limits, fold).Ok? {
      ExtractingKeepsHeld(limits, fold);
      ExtractedIsHeld(archive.entries, |archive.entries|, Extracting(limits, fold));
      again :| Holds(again, Extract(archive, limits, fold).value);
    } else {
      again := [];
    }
    TreesAreSound(again);
  }

  // ---------------------------------------------------------------- snapshots come back

  /** The snapshot of an accepted tree of portable names that fits comes back as a tree, which is
      accepted with the same report. */
  lemma SnapshotIsRestored(children: seq<Node>, limits: Limits, fold: Name -> Name, hash: seq<Byte> -> seq<Byte>)
    returns (again: seq<Node>)
    requires WellFormed(children) && Sound(Items(children, [])) && Accepted(Items(children, []), limits)
    requires Portable(Docs(Items(children, [])), fold) && Fits(Docs(Items(children, [])), limits)
    ensures var r := Extract(Snapshot(Docs(Items(children, []))), Widened(limits), fold);
      r.Ok? && Holds(again, r.value)
    ensures Sound(Items(again, [])) && Accepted(Items(again, []), limits)
    ensures Report(hash, Docs(Items(again, []))) == Report(hash, Docs(Items(children, [])))
  {
    again := SomeTreeHolds(Snapshot(Docs(Items(children, []))), Widened(limits), fold);
    SnapshotRoundTrip(children, limits, fold, hash, again);
  }

  /** For every accepted tree there is what its snapshot becomes on disk, if anything, and barring
      collisions that is the tree again if and only if the names are portable and the archive fits. */
  lemma SnapshotOutcome(children: seq<Node>, limits: Limits, fold: Name -> Name, hash: seq<Byte> -> seq<Byte>)
    returns (again: seq<Node>)
    requires WellFormed(children) && Sound(Items(children, [])) && Accepted(Items(children, []), limits)
    requires Gives32Bytes(hash)
    ensures WellFormed(again) && Sound(Items(again, []))
    ensures var r := Extract(Snapshot(Docs(Items(children, []))), Widened(limits), fold); r.Ok? ==>
      Holds(again, r.value)
    ensures NoCollision(hash, Docs(Items(children, [])), Docs(Items(again, []))) ==>
      (ComesBack(children, limits, fold, hash, again) <==>
         Portable(Docs(Items(children, [])), fold) && Fits(Docs(Items(children, [])), limits))
  {
    again := SomeTreeHolds(Snapshot(Docs(Items(children, []))), Widened(limits), fold);
    if NoCollision(hash, Docs(Items(children, [])), Docs(Items(again, []))) {
      SnapshotWorksIff(children, limits, fold, hash, again);
    }
  }
}
