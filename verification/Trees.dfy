/** Source trees: the bounded walk that inspects one, and what its outcome depends on. */
module Trees {
  import opened Json
  import opened Splits
  import opened Listings

  const SLASH: Byte := 47
  const DOT: Name := [46]
  const DOT_DOT: Name := [46, 46]

  type Path = seq<Name>

  /** A directory entry, in the order the directory is scanned. */
  datatype Node =
    | File(name: Name, content: seq<Byte>)
    | Directory(name: Name, children: seq<Node>)
    | Link(name: Name)
    | Special(name: Name)

  datatype Item = FileAt(path: Path, content: seq<Byte>) | DirAt(path: Path) | OddAt(path: Path, link: bool)

  /** Every entry below a directory in the order of the walk: a directory before what it holds. */
  function Items(children: seq<Node>, prefix: Path): seq<Item>
    decreases children
  {
    if children == [] then []
    else
      var path := prefix + [children[0].name];
      (match children[0]
       case File(_, content) => [FileAt(path, content)]
       case Directory(_, below) => [DirAt(path)] + Items(below, path)
       case Link(_) => [OddAt(path, true)]
       case Special(_) => [OddAt(path, false)])
      + Items(children[1..], prefix)
  }

  // ---------------------------------------------------------------- what a file system holds

  predicate IsEntryName(name: Name) {
    name != [] && name != DOT && name != DOT_DOT && SLASH !in name && 0 !in name
  }

  predicate WellFormed(children: seq<Node>)
    decreases children
  {
    children == [] ||
    (&& IsEntryName(children[0].name)
     && (forall c <- children[1..] :: c.name != children[0].name)
     && (children[0].Directory? ==> WellFormed(children[0].children))
     && WellFormed(children[1..]))
  }

  predicate Below(item: Item, prefix: Path) {
    |item.path| > |prefix| && item.path[..|prefix|] == prefix && forall name <- item.path[|prefix|..] ::
      IsEntryName(name)
  }

  predicate DistinctPaths(items: seq<Item>) {
    forall i, j | 0 <= i < j < |items| :: items[i].path != items[j].path
  }

  /** Every directory on the way to an entry is an entry itself. */
  ghost predicate PrefixClosed(items: seq<Item>, above: nat) {
    forall item <- items, k | above < k < |item.path| :: DirAt(item.path[..k]) in items
  }

  lemma {:induction false} ItemsAreBelow(children: seq<Node>, prefix: Path)
    requires WellFormed(children)
    ensures forall item <- Items(children, prefix) ::
      Below(item, prefix) && exists c <- children :: c.name == item.path[|prefix|]
    decreases children
  {
    if children != [] {
      ItemsAreBelow(children[1..], prefix);
      var path := prefix + [children[0].name];
      assert children[0] in children;
      if children[0].Directory? {
        ItemsAreBelow(children[0].children, path);
        forall item <- Items(children[0].children, path)
          ensures Below(item, prefix) && item.path[|prefix|] == children[0].name
        {
          BelowTwice(item, prefix, children[0].name);
        }
      }
    }
  }

  lemma BelowTwice(item: Item, prefix: Path, name: Name)
    requires IsEntryName(name) && Below(item, prefix + [name])
    ensures Below(item, prefix) && item.path[|prefix|] == name
  {
    var path := prefix + [name];
    assert item.path[..|prefix|] == path[..|prefix|] == prefix;
    assert item.path[|prefix|] == item.path[..|path|][|prefix|];
    assert item.path[|prefix|..] == [name] + item.path[|path|..];
  }

  /** The paths of a tree are distinct and closed under going up. */
  lemma {:induction false} ItemsOfATree(children: seq<Node>, prefix: Path)
    requires WellFormed(children)
    ensures DistinctPaths(Items(children, prefix)) && PrefixClosed(Items(children, prefix), |prefix|)
    decreases children
  {
    if children != [] {
      var first, rest := Items(children[..1], prefix), Items(children[1..], prefix);
      var all := first + rest;
      FirstThenRest(children, prefix);
      ItemsOfATree(children[1..], prefix);
      ItemsAreBelow(children[1..], prefix);
      OneChild(children[0], prefix);
      forall i, j | 0 <= i < j < |all|
        ensures all[i].path != all[j].path
      {
        if i < |first| <= j {
          assert first[i] in first && rest[j - |first|] in rest;
          assert first[i].path[|prefix|] == children[0].name;
        }
      }
    }
  }

  lemma FirstThenRest(children: seq<Node>, prefix: Path)
    requires children != []
    ensures Items(children, prefix) == Items(children[..1], prefix) + Items(children[1..], prefix)
  {
    assert children[..1][0] == children[0] && children[..1][1..] == [];
  }

  lemma {:induction false} OneChild(node: Node, prefix: Path)
    requires IsEntryName(node.name) && (node.Directory? ==> WellFormed(node.children))
    ensures var items := Items([node], prefix);
      && DistinctPaths(items) && PrefixClosed(items, |prefix|)
      && forall item <- items :: Below(item, prefix) && item.path[|prefix|] == node.name
    decreases node
  {
    var items, path := Items([node], prefix), prefix + [node.name];
    assert [node][1..] == [];
    if node.Directory? {
      var below := Items(node.children, path);
      assert items == [DirAt(path)] + below;
      ItemsAreBelow(node.children, path);
      ItemsOfATree(node.children, path);
      forall item <- below
        ensures Below(item, prefix) && item.path[|prefix|] == node.name
      {
        BelowTwice(item, prefix, node.name);
      }
      forall item <- items, k | |prefix| < k < |item.path|
        ensures DirAt(item.path[..k]) in items
      {
        if item in below && k == |path| {
          assert item.path[..k] == path;
        }
      }
    }
  }

  // ---------------------------------------------------------------- the bounded walk

  datatype Limits = Limits(maxFiles: int, maxFileBytes: int, maxTotalBytes: int, maxDepth: int, timeoutSeconds: int)

  datatype PreflightError =
    NotPositive | TooManyEntries | Linked | TooDeep | SpecialFile | TooManyFiles | FileTooLarge | TotalTooLarge

  datatype Preflight = Preflight(files: set<Name>, binaries: set<Name>, contentHash: seq<Byte>)

  function NameOf(path: Path): Name
    requires path != []
  {
    Join(path, SLASH)
  }

  predicate Positive(limits: Limits) {
    limits.maxFiles > 0 && limits.maxFileBytes > 0 && limits.maxTotalBytes > 0 && limits.maxDepth > 0
      && limits.timeoutSeconds > 0
  }

  function DocOf(item: Item): Doc
    requires item.FileAt? && item.path != []
  {
    Doc(NameOf(item.path), item.content)
  }

  function Docs(items: seq<Item>): seq<Doc>
    requires forall item <- items :: item.path != []
  {
    if items == [] then []
    else
      var last := items[|items| - 1];
      Docs(items[..|items| - 1]) + if last.FileAt? then [DocOf(last)] else []
  }

  function TotalSize(docs: seq<Doc>): nat {
    if docs == [] then 0 else TotalSize(docs[..|docs| - 1]) + |docs[|docs| - 1].content|
  }

  predicate Tolerated(item: Item, limits: Limits) {
    match item
    case FileAt(path, content) => |path| <= limits.maxDepth && |content| <= limits.maxFileBytes
    case DirAt(path) => |path| < limits.maxDepth
    case OddAt(_, _) => false
  }

  /** Everything the walk insists on. */
  predicate Accepted(items: seq<Item>, limits: Limits)
    requires forall item <- items :: item.path != []
  {
    && Positive(limits)
    && |items| <= 2 * limits.maxFiles
    && (forall item <- items :: Tolerated(item, limits))
    && |Docs(items)| <= limits.maxFiles
    && TotalSize(Docs(items)) <= limits.maxTotalBytes
  }

  function Report(hash: seq<Byte> -> seq<Byte>, docs: seq<Doc>): Preflight {
    Preflight(
      set d <- docs | 0 !in d.content :: d.name,
      set d <- docs | 0 in d.content :: d.name,
      ContentHash(hash, docs))
  }

  /** The limit an error names is one the entries break. */
  ghost predicate Breaks(items: seq<Item>, limits: Limits, error: PreflightError)
    requires forall item <- items :: item.path != []
  {
    match error
    case NotPositive => !Positive(limits)
    case TooManyEntries => |items| > 2 * limits.maxFiles
    case Linked => exists item <- items :: item.OddAt? && item.link
    case SpecialFile => exists item <- items :: item.OddAt? && !item.link
    case TooDeep => exists item <- items ::
      !item.OddAt? && |item.path| + (if item.DirAt? then 1 else 0) > limits.maxDepth
    case TooManyFiles => |Docs(items)| > limits.maxFiles
    case FileTooLarge => exists item <- items :: item.FileAt? && |item.content| > limits.maxFileBytes
    case TotalTooLarge => TotalSize(Docs(items)) > limits.maxTotalBytes
  }

  lemma DocsOfOneMore(items: seq<Item>, item: Item)
    requires (forall i <- items :: i.path != []) && item.path != []
    ensures Docs(items + [item]) == Docs(items) + if item.FileAt? then [DocOf(item)] else []
    ensures TotalSize(Docs(items + [item])) == TotalSize(Docs(items)) + if item.FileAt? then |item.content| else 0
  {
    assert (items + [item])[..|items|] == items;
    if item.FileAt? {
      OneMoreSize(Docs(items), DocOf(item));
      assert Docs(items + [item]) == Docs(items) + [DocOf(item)];
    } else {
      assert Docs(items + [item]) == Docs(items);
    }
  }

  lemma OneMoreSize(docs: seq<Doc>, d: Doc)
    ensures TotalSize(docs + [d]) == TotalSize(docs) + |d.content|
  {
    assert (docs + [d])[..|docs|] == docs;
  }

  lemma {:induction false} DocsGrow(items: seq<Item>, n: nat)
    requires n <= |items| && forall item <- items :: item.path != []
    ensures |Docs(items[..n])| <= |Docs(items)| && TotalSize(Docs(items[..n])) <= TotalSize(Docs(items))
    decreases |items|
  {
    if n < |items| {
      var shorter := items[..|items| - 1];
      DocsGrow(shorter, n);
      assert shorter[..n] == items[..n];
      DocsOfOneMore(shorter, items[|items| - 1]);
      assert items == shorter + [items[|items| - 1]];
    } else {
      assert items[..n] == items;
    }
  }

  /** What the walk has gathered: the two partitions of the names, their number and total size, and
      each file with its digest. */
  datatype Tally = Tally(files: set<Name>, binaries: set<Name>, count: nat, total: nat, hashes: seq<Doc>)

  ghost predicate Gathered(hash: seq<Byte> -> seq<Byte>, docs: seq<Doc>, t: Tally) {
    && t.files == (set d <- docs | 0 !in d.content :: d.name)
    && t.binaries == (set d <- docs | 0 in d.content :: d.name)
    && t.count == |docs| && t.total == TotalSize(docs)
    && t.hashes == Digests(hash, docs)
  }

  method TakeFile(hash: seq<Byte> -> seq<Byte>, limits: Limits, ghost docs: seq<Doc>, t: Tally, d: Doc)
    returns (r: Result<Tally, PreflightError>)
    requires Gathered(hash, docs, t)
    ensures r.Ok? <==>
      |docs| < limits.maxFiles && |d.content| <= limits.maxFileBytes
        && TotalSize(docs) + |d.content| <= limits.maxTotalBytes
    ensures r.Ok? ==> Gathered(hash, docs + [d], r.value)
    ensures r.Err? ==>
      || (r.error == TooManyFiles && |docs| >= limits.maxFiles)
      || (r.error == FileTooLarge && |d.content| > limits.maxFileBytes)
      || (r.error == TotalTooLarge && TotalSize(docs) + |d.content| > limits.maxTotalBytes)
  {
    if t.count >= limits.maxFiles {
      return Err(TooManyFiles);
    }
    if |d.content| > limits.maxFileBytes {
      return Err(FileTooLarge);
    }
    if t.total + |d.content| > limits.maxTotalBytes {
      return Err(TotalTooLarge);
    }
    OneMoreSize(docs, d);
    assert forall e :: e in docs + [d] <==> e in docs || e == d;
    var binary := 0 in d.content;
    r := Ok(Tally(
      if binary then t.files else t.files + {d.name},
      if binary then t.binaries + {d.name} else t.binaries,
      t.count + 1, t.total + |d.content|,
      t.hashes + [Doc(d.name, hash(d.content))]));
  }

  lemma ItemBreaks(items: seq<Item>, item: Item, limits: Limits)
    requires item in items && forall item <- items :: item.path != []
    ensures item.OddAt? ==> Breaks(items, limits, if item.link then Linked else SpecialFile)
    ensures item.DirAt? && |item.path| >= limits.maxDepth ==> Breaks(items, limits, TooDeep)
    ensures item.FileAt? && |item.path| > limits.maxDepth ==> Breaks(items, limits, TooDeep)
    ensures item.FileAt? && |item.content| > limits.maxFileBytes ==> Breaks(items, limits, FileTooLarge)
  {
  }

  /** What the next file breaks, the whole tree breaks. */
  lemma LimitsStayBroken(items: seq<Item>, n: nat, limits: Limits)
    requires n < |items| && forall item <- items :: item.path != []
    ensures items[n].FileAt? && |Docs(items[..n])| >= limits.maxFiles ==> Breaks(items, limits, TooManyFiles)
    ensures items[n].FileAt? && TotalSize(Docs(items[..n])) + |items[n].content| > limits.maxTotalBytes ==>
      Breaks(items, limits, TotalTooLarge)
  {
    assert items[..n + 1] == items[..n] + [items[n]];
    DocsOfOneMore(items[..n], items[n]);
    DocsGrow(items, n + 1);
  }

  method Visit(hash: seq<Byte> -> seq<Byte>, limits: Limits, items: seq<Item>, n: nat, t: Tally)
    returns (r: Result<Tally, PreflightError>)
    requires n < |items| && forall item <- items :: item.path != []
    requires Gathered(hash, Docs(items[..n]), t)
    ensures r.Ok? ==> Tolerated(items[n], limits) && Gathered(hash, Docs(items[..n + 1]), r.value)
    ensures r.Ok? && t.count <= limits.maxFiles && t.total <= limits.maxTotalBytes ==>
      r.value.count <= limits.maxFiles && r.value.total <= limits.maxTotalBytes
    ensures r.Err? ==> Breaks(items, limits, r.error)
  {
    var item := items[n];
    assert items[..n + 1] == items[..n] + [item] && item in items;
    DocsOfOneMore(items[..n], item);
    LimitsStayBroken(items, n, limits);
    ItemBreaks(items, item, limits);
    match item
    case OddAt(_, link) =>
      r := Err(if link then Linked else SpecialFile);
    case DirAt(path) =>
      r := if |path| >= limits.maxDepth then Err(TooDeep) else Ok(t);
    case FileAt(path, content) =>
      if |path| > limits.maxDepth {
        return Err(TooDeep);
      }
      r := TakeFile(hash, limits, Docs(items[..n]), t, DocOf(item));
  }

  /** The digest is fed name by name, in the order of the names. */
  method DigestListing(hash: seq<Byte> -> seq<Byte>, hashes: seq<Doc>) returns (digest: seq<Byte>)
    ensures digest == hash(Encode(Sort(hashes)))
  {
    var listing, fed: seq<Byte> := Sort(hashes), [];
    for i := 0 to |listing|
      invariant fed == Encode(listing[..i])
    {
      assert listing[..i + 1][..i] == listing[..i];
      fed := fed + listing[i].name;
      fed := fed + [0];
      fed := fed + listing[i].content;
    }
    assert listing[..|listing|] == listing;
    digest := hash(fed);
  }

  lemma BrokenIsNotAccepted(items: seq<Item>, limits: Limits, error: PreflightError)
    requires (forall item <- items :: item.path != []) && Breaks(items, limits, error)
    ensures !Accepted(items, limits)
  {
    assert forall item <- items :: Accepted(items, limits) ==> Tolerated(item, limits);
  }

  lemma PathsAreNotEmpty(children: seq<Node>)
    requires WellFormed(children)
    ensures forall item <- Items(children, []) :: item.path != []
  {
    ItemsAreBelow(children, []);
  }

  /** Inspecting a tree accepts it exactly when it keeps every limit, and reports its files. */
  method Inspect(children: seq<Node>, limits: Limits, hash: seq<Byte> -> seq<Byte>)
    returns (r: Result<Preflight, PreflightError>)
    requires WellFormed(children)
    ensures forall item <- Items(children, []) :: item.path != []
    ensures r.Ok? <==> Accepted(Items(children, []), limits)
    ensures r.Ok? ==> r.value == Report(hash, Docs(Items(children, [])))
    ensures r.Err? ==> Breaks(Items(children, []), limits, r.error)
  {
    PathsAreNotEmpty(children);
    r := InspectWalk(Items(children, []), limits, hash);
  }

  method InspectWalk(items: seq<Item>, limits: Limits, hash: seq<Byte> -> seq<Byte>)
    returns (r: Result<Preflight, PreflightError>)
    requires forall item <- items :: item.path != []
    ensures r.Ok? <==> Accepted(items, limits)
    ensures r.Ok? ==> r.value == Report(hash, Docs(items))
    ensures r.Err? ==> Breaks(items, limits, r.error)
  {
    if !Positive(limits) {
      return Err(NotPositive);
    }
    var entries, t := 0, Tally({}, {}, 0, 0, []);
    for n := 0 to |items|
      invariant entries == n <= 2 * limits.maxFiles
      invariant forall item <- items[..n] :: Tolerated(item, limits)
      invariant Gathered(hash, Docs(items[..n]), t) && t.count <= limits.maxFiles && t.total <= limits.maxTotalBytes
    {
      entries := entries + 1;
      if entries > 2 * limits.maxFiles {
        return Err(TooManyEntries);
      }
      var visited := Visit(hash, limits, items, n, t);
      if visited.Err? {
        BrokenIsNotAccepted(items, limits, visited.error);
        return Err(visited.error);
      }
      t := visited.value;
      assert items[..n + 1] == items[..n] + [items[n]];
    }
    assert items[..|items|] == items;
    var digest := DigestListing(hash, t.hashes);
    r := Ok(Preflight(t.files, t.binaries, digest));
  }

  // ---------------------------------------------------------------- what an inspection depends on

  /** The same entries, met in whatever order. */
  ghost predicate SameItems(a: seq<Item>, b: seq<Item>) {
    forall item :: item in a <==> item in b
  }

  lemma {:induction false} DocsAre(items: seq<Item>)
    requires forall item <- items :: item.path != []
    ensures forall d :: d in Docs(items) <==> exists item <- items :: item.FileAt? && d == DocOf(item)
  {
    if items != [] {
      DocsAre(items[..|items| - 1]);
      assert items == items[..|items| - 1] + [items[|items| - 1]];
    }
  }

  /** Different paths have different names, because no entry name holds a slash. */
  lemma NamesTellPathsApart(p: Path, q: Path)
    requires p != [] && q != [] && NameOf(p) == NameOf(q)
    requires (forall name <- p :: SLASH !in name) && (forall name <- q :: SLASH !in name)
    ensures p == q
  {
    SplitJoin(p, SLASH);
    SplitJoin(q, SLASH);
  }

  ghost predicate Sound(items: seq<Item>) {
    DistinctPaths(items) && forall item <- items :: item.path != [] && forall name <- item.path :: SLASH !in name
  }

  lemma {:induction false} DocsAreDistinct(items: seq<Item>)
    requires Sound(items)
    ensures DistinctNames(Docs(items))
  {
    if items != [] {
      var before, last := items[..|items| - 1], items[|items| - 1];
      DocsAreDistinct(before);
      DocsAre(before);
      forall d <- Docs(before) | last.FileAt?
        ensures d.name != DocOf(last).name
      {
        var i :| 0 <= i < |before| && before[i].FileAt? && d == DocOf(before[i]);
        assert items[i] in items && last in items;
        if d.name == DocOf(last).name {
          NamesTellPathsApart(before[i].path, last.path);
        }
      }
    }
  }

  lemma SameItemsSameDocs(a: seq<Item>, b: seq<Item>)
    requires (forall item <- a :: item.path != []) && (forall item <- b :: item.path != []) && SameItems(a, b)
    ensures SameFiles(Docs(a), Docs(b))
  {
    DocsAre(a);
    DocsAre(b);
  }

  lemma {:induction false} NamesHaveNoNul(path: Path)
    requires path != [] && forall name <- path :: 0 !in name
    ensures 0 !in NameOf(path)
  {
    if |path| > 1 {
      NamesHaveNoNul(path[1..]);
    }
  }

  lemma TreesAreSound(children: seq<Node>)
    requires WellFormed(children)
    ensures Sound(Items(children, [])) && DistinctNames(Docs(Items(children, [])))
    ensures forall d <- Docs(Items(children, [])) :: 0 !in d.name
  {
    var items := Items(children, []);
    ItemsOfATree(children, []);
    ItemsAreBelow(children, []);
    forall item <- items
      ensures item.path != [] && forall name <- item.path :: IsEntryName(name)
    {
      assert Below(item, []) && item.path[0..] == item.path;
    }
    DocsAreDistinct(items);
    DocsAre(items);
    forall d <- Docs(items)
      ensures 0 !in d.name
    {
      var item :| item in items && item.FileAt? && d == DocOf(item);
      NamesHaveNoNul(item.path);
    }
  }

  function Members(items: seq<Item>): set<Item> {
    set item | item in items
  }

  lemma {:induction false} DistinctMembers(items: seq<Item>)
    ensures |Members(items)| <= |items| && (DistinctPaths(items) ==> |Members(items)| == |items|)
  {
    if items != [] {
      var before, last := items[..|items| - 1], items[|items| - 1];
      DistinctMembers(before);
      assert items == before + [last];
      assert forall item :: item in items <==> item in before || item == last;
      assert Members(items) == Members(before) + {last};
    }
  }

  lemma {:induction false} SubsetsAreSmaller(a: set<Item>, b: set<Item>)
    requires a <= b
    ensures |a| <= |b|
  {
    if x :| x in a {
      SubsetsAreSmaller(a - {x}, b - {x});
    }
  }

  lemma PartIsShorter(a: seq<Item>, b: seq<Item>)
    requires DistinctPaths(a) && forall item <- a :: item in b
    ensures |a| <= |b|
  {
    DistinctMembers(a);
    DistinctMembers(b);
    SubsetsAreSmaller(Members(a), Members(b));
  }

  lemma {:induction false} SizeOfInsert(d: Doc, s: seq<Doc>)
    ensures TotalSize(Insert(d, s)) == TotalSize(s) + |d.content|
  {
    if s == [] || Before(d.name, s[0].name) {
      SizeFromFront(d, s);
      assert Insert(d, s) == [d] + s;
    } else {
      SizeOfInsert(d, s[1..]);
      SizeFromFront(s[0], s[1..]);
      assert s == [s[0]] + s[1..];
      SizeFromFront(s[0], Insert(d, s[1..]));
    }
  }

  lemma {:induction false} SizeFromFront(d: Doc, s: seq<Doc>)
    ensures TotalSize([d] + s) == |d.content| + TotalSize(s)
  {
    if s == [] {
      assert [d] + s == [] + [d];
      OneMoreSize([], d);
    } else {
      assert ([d] + s)[..|s|] == [d] + s[..|s| - 1];
      SizeFromFront(d, s[..|s| - 1]);
    }
  }

  lemma {:induction false} SizeOfSort(s: seq<Doc>)
    ensures TotalSize(Sort(s)) == TotalSize(s)
  {
    if s != [] {
      SizeOfSort(s[1..]);
      SizeOfInsert(s[0], Sort(s[1..]));
      SizeFromFront(s[0], s[1..]);
      assert s == [s[0]] + s[1..];
    }
  }

  lemma SameFilesSameSize(a: seq<Doc>, b: seq<Doc>)
    requires DistinctNames(a) && DistinctNames(b) && SameFiles(a, b)
    ensures |a| == |b| && TotalSize(a) == TotalSize(b)
  {
    SortOrders(a);
    SortOrders(b);
    OneListing(Sort(a), Sort(b));
    SizeOfSort(a);
    SizeOfSort(b);
  }

  /** Whatever order the directories are scanned in, a tree is accepted or refused alike and its
      report is the same. */
  lemma InspectionIgnoresOrder(a: seq<Node>, b: seq<Node>, limits: Limits, hash: seq<Byte> -> seq<Byte>)
    requires WellFormed(a) && WellFormed(b) && SameItems(Items(a, []), Items(b, []))
    ensures Sound(Items(a, [])) && Sound(Items(b, []))
    ensures Accepted(Items(a, []), limits) == Accepted(Items(b, []), limits)
    ensures Report(hash, Docs(Items(a, []))) == Report(hash, Docs(Items(b, [])))
  {
    TreesAreSound(a);
    TreesAreSound(b);
    AcceptanceIgnoresOrder(Items(a, []), Items(b, []), limits);
    ReportIgnoresOrder(Items(a, []), Items(b, []), hash);
  }

  lemma AcceptanceIgnoresOrder(a: seq<Item>, b: seq<Item>, limits: Limits)
    requires Sound(a) && Sound(b) && SameItems(a, b)
    ensures Accepted(a, limits) == Accepted(b, limits)
  {
    DocsAreDistinct(a);
    DocsAreDistinct(b);
    SameItemsSameDocs(a, b);
    PartIsShorter(a, b);
    PartIsShorter(b, a);
    SameFilesSameSize(Docs(a), Docs(b));
  }

  lemma ReportIgnoresOrder(a: seq<Item>, b: seq<Item>, hash: seq<Byte> -> seq<Byte>)
    requires Sound(a) && Sound(b) && SameItems(a, b)
    ensures Report(hash, Docs(a)) == Report(hash, Docs(b))
  {
    DocsAreDistinct(a);
    DocsAreDistinct(b);
    SameItemsSameDocs(a, b);
    SameFilesSameReport(hash, Docs(a), Docs(b));
  }

  lemma SameFilesSameReport(hash: seq<Byte> -> seq<Byte>, a: seq<Doc>, b: seq<Doc>)
    requires DistinctNames(a) && DistinctNames(b) && SameFiles(a, b)
    ensures Report(hash, a) == Report(hash, b)
  {
    SameFilesSameHash(hash, a, b);
  }

  /** Two trees get one content hash exactly when they hold the same files, collisions aside. */
  lemma HashNamesTheTree(a: seq<Node>, b: seq<Node>, hash: seq<Byte> -> seq<Byte>)
    requires WellFormed(a) && WellFormed(b) && Gives32Bytes(hash)
    requires Sound(Items(a, [])) && Sound(Items(b, [])) && NoCollision(hash, Docs(Items(a, [])), Docs(Items(b, [])))
    ensures Report(hash, Docs(Items(a, []))).contentHash == Report(hash, Docs(Items(b, []))).contentHash <==>
      forall path, content :: FileAt(path, content) in Items(a, []) <==> FileAt(path, content) in Items(b, [])
  {
    TreesAreSound(a);
    TreesAreSound(b);
    ContentHashNamesTheFiles(hash, Docs(Items(a, [])), Docs(Items(b, [])));
    FilesAndDocs(Items(a, []), Items(b, []));
  }

  lemma FilesAndDocs(a: seq<Item>, b: seq<Item>)
    requires Sound(a) && Sound(b)
    ensures SameFiles(Docs(a), Docs(b)) <==> forall path, content :: FileAt(path, content) in a <==>
      FileAt(path, content) in b
  {
    DocsAre(a);
    DocsAre(b);
    if SameFiles(Docs(a), Docs(b)) {
      forall path, content
        ensures FileAt(path, content) in a <==> FileAt(path, content) in b
      {
        FileIsFound(a, b, path, content);
        FileIsFound(b, a, path, content);
      }
    }
  }

  lemma FileIsFound(a: seq<Item>, b: seq<Item>, path: Path, content: seq<Byte>)
    requires Sound(a) && Sound(b) && SameFiles(Docs(a), Docs(b))
    ensures FileAt(path, content) in a ==> FileAt(path, content) in b
  {
    if FileAt(path, content) in a {
      DocsAre(a);
      DocsAre(b);
      var d := DocOf(FileAt(path, content));
      assert d in Docs(b);
      var item :| item in b && item.FileAt? && DocOf(item) == d;
      NamesTellPathsApart(path, item.path);
    }
  }
}
