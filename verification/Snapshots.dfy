/** Content-addressed snapshots: a tree is archived, and an archive is extracted within limits and
    inspected again before anything is scanned. */
module Snapshots {
  import opened Json
  import opened Splits
  import opened Listings
  import opened Trees

  // ---------------------------------------------------------------- archives

  /** One archive entry: its file name, the bytes it decompresses to (with an error at the end when
      it is not intact), and what its headers declare. */
  datatype Entry = Entry(
    name: Name, content: seq<Byte>, intact: bool, declared: nat, compressed: nat, link: bool, encrypted: bool)

  datatype Archive = Archive(size: nat, entries: seq<Entry>)

  const BACKSLASH: Byte := 92
  const COLON: Byte := 58
  const CHUNK_BYTES: nat := 65536
  const MAX_COMPRESSION_RATIO: nat := 100

  datatype Refusal =
    | ArchiveTooLarge | TooManyArchiveEntries | UnsafePath | PathTooDeep | DuplicatePath | LinkedEntry | EncryptedEntry
    | EntryTooLarge | RatioTooHigh | BlockedDirectory | MoreThanAllowed | UnreadableEntry

  function Normalized(name: Name): Name {
    seq(|name|, i requires 0 <= i < |name| => if name[i] == BACKSLASH then SLASH else name[i])
  }

  function NotEmpty(parts: Path): Path {
    if parts == [] then []
    else (if parts[0] == [] then [] else [parts[0]]) + NotEmpty(parts[1..])
  }

  predicate UnsafePart(part: Name) {
    part == DOT || part == DOT_DOT || COLON in part
  }

  /** `_archive_parts`: the checked path of an entry. */
  function ArchiveParts(name: Name, maxDepth: int): (r: Result<Path, Refusal>)
    ensures r.Ok? ==> r.value != []
  {
    var normalized := Normalized(name);
    var parts := NotEmpty(Split(normalized, SLASH));
    if parts == [] || [SLASH] <= normalized || (exists part <- parts :: UnsafePart(part))
      || (exists b <- normalized :: b < 32)
    then Err(UnsafePath)
    else if |parts| > maxDepth then Err(PathTooDeep)
    else Ok(parts)
  }

  // ---------------------------------------------------------------- extraction

  /** The destination, which starts out empty. */
  datatype Disk = Disk(files: map<Path, seq<Byte>>, dirs: set<Path>)

  datatype Progress = Progress(seen: set<Name>, total: nat, disk: Disk)

  predicate IsDirectoryEntry(name: Name) {
    name != [] && name[|name| - 1] == SLASH
  }

  /** The directories to make so that a path exists, the path itself included. */
  function Ancestors(path: Path): set<Path> {
    set k | 0 < k <= |path| :: path[..k]
  }

  /** `mkdir(parents=True, exist_ok=True)`, which a file in the way blocks. */
  function MakeDirs(disk: Disk, path: Path): Result<Disk, Refusal> {
    if Ancestors(path) !! disk.files.Keys then Ok(disk.(dirs := disk.dirs + Ancestors(path))) else Err(BlockedDirectory)
  }

  function Least(a: int, b: int): int {
    if a < b then a else b
  }

  /** Copying the data of one entry: more than declared, or than the limits leave, is refused
      wherever it shows, before an unreadable end is. */
  function CopyAll(e: Entry, total: nat, limits: Limits): Result<nat, Refusal> {
    if e.content != [] && (|e.content| > Least(e.declared, limits.maxFileBytes)
      || total + |e.content| > limits.maxTotalBytes)
    then Err(MoreThanAllowed)
    else if !e.intact then Err(UnreadableEntry)
    else Ok(total + |e.content|)
  }

  function WriteFile(p: Progress, path: Path, e: Entry, limits: Limits): Result<Progress, Refusal> {
    if path in p.disk.files || path in p.disk.dirs then Err(UnreadableEntry)
    else
      match CopyAll(e, p.total, limits)
      case Err(refusal) => Err(refusal)
      case Ok(total) => Ok(p.(total := total, disk := p.disk.(files := p.disk.files[path := e.content])))
  }

  function ExtractEntry(p: Progress, e: Entry, limits: Limits, fold: Name -> Name): Result<Progress, Refusal> {
    match ArchiveParts(e.name, limits.maxDepth)
    case Err(refusal) => Err(refusal)
    case Ok(parts) =>
      var key := fold(NameOf(parts));
      if key in p.seen then Err(DuplicatePath)
      else if e.link then Err(LinkedEntry)
      else if e.encrypted then Err(EncryptedEntry)
      else
        var q := p.(seen := p.seen + {key});
        if IsDirectoryEntry(e.name) then
          match MakeDirs(p.disk, parts)
          case Err(refusal) => Err(refusal)
          case Ok(disk) => Ok(q.(disk := disk))
        else if e.declared > limits.maxFileBytes then Err(EntryTooLarge)
        else if e.declared > CHUNK_BYTES && e.declared > e.compressed * MAX_COMPRESSION_RATIO then Err(RatioTooHigh)
        else
          match MakeDirs(p.disk, parts[..|parts| - 1])
          case Err(refusal) => Err(refusal)
          case Ok(disk) => WriteFile(q.(disk := disk), parts, e, limits)
  }

  type Step = (Progress, Entry) -> Result<Progress, Refusal>

  function Extracting(limits: Limits, fold: Name -> Name): Step {
    (p: Progress, e: Entry) => ExtractEntry(p, e, limits, fold)
  }

  /** What the first entries lead to, by a step for each. */
  function ExtractFirst(entries: seq<Entry>, n: nat, step: Step): Result<Progress, Refusal>
    requires n <= |entries|
  {
    if n == 0 then Ok(Progress({}, 0, Disk(map[], {})))
    else
      match ExtractFirst(entries, n - 1, step)
      case Err(refusal) => Err(refusal)
      case Ok(p) => step(p, entries[n - 1])
  }

  function Extract(archive: Archive, limits: Limits, fold: Name -> Name): Result<Disk, Refusal> {
    if archive.size > limits.maxTotalBytes then Err(ArchiveTooLarge)
    else if |archive.entries| > 2 * limits.maxFiles then Err(TooManyArchiveEntries)
    else
      match ExtractFirst(archive.entries, |archive.entries|, Extracting(limits, fold))
      case Err(refusal) => Err(refusal)
      case Ok(p) => Ok(p.disk)
  }

  /** Header sizes can lie, so the bytes are counted chunk by chunk as they come. */
  method Copy(e: Entry, total: nat, limits: Limits) returns (r: Result<nat, Refusal>)
    ensures r == CopyAll(e, total, limits)
  {
    var written, sum := 0, total;
    while written < |e.content|
      invariant written <= |e.content| && sum == total + written
      invariant written > 0 ==> written <= Least(e.declared, limits.maxFileBytes) && sum <= limits.maxTotalBytes
    {
      var chunk := Least(CHUNK_BYTES, |e.content| - written);
      written, sum := written + chunk, sum + chunk;
      if written > Least(e.declared, limits.maxFileBytes) {
        return Err(MoreThanAllowed);
      }
      if sum > limits.maxTotalBytes {
        return Err(MoreThanAllowed);
      }
    }
    r := if e.intact then Ok(sum) else Err(UnreadableEntry);
  }

  /** Extraction entry by entry, with the running set of seen paths and total of written bytes. */
  method ExtractZip(archive: Archive, limits: Limits, fold: Name -> Name) returns (r: Result<Disk, Refusal>)
    ensures r == Extract(archive, limits, fold)
  {
    if archive.size > limits.maxTotalBytes {
      return Err(ArchiveTooLarge);
    }
    var entries := archive.entries;
    if |entries| > 2 * limits.maxFiles {
      return Err(TooManyArchiveEntries);
    }
    var p := Progress({}, 0, Disk(map[], {}));
    for n := 0 to |entries|
      invariant ExtractFirst(entries, n, Extracting(limits, fold)) == Ok(p)
    {
      var next := ExtractOne(p, entries[n], limits, fold);
      if next.Err? {
        RefusalIsFinal(entries, n + 1, Extracting(limits, fold));
        return Err(next.error);
      }
      p := next.value;
    }
    r := Ok(p.disk);
  }

  lemma {:induction false} RefusalIsFinal(entries: seq<Entry>, n: nat, step: Step)
    requires n <= |entries| && ExtractFirst(entries, n, step).Err?
    ensures ExtractFirst(entries, |entries|, step) == Err(ExtractFirst(entries, n, step).error)
    decreases |entries| - n
  {
    if n < |entries| {
      RefusalIsFinal(entries, n + 1, step);
    }
  }

  method ExtractOne(p: Progress, e: Entry, limits: Limits, fold: Name -> Name) returns (r: Result<Progress, Refusal>)
    ensures r == ExtractEntry(p, e, limits, fold)
  {
    var parts := ArchiveParts(e.name, limits.maxDepth);
    if parts.Err? {
      return Err(parts.error);
    }
    var target := parts.value;
    var key := fold(NameOf(target));
    if key in p.seen {
      return Err(DuplicatePath);
    }
    var seen := p.seen + {key};
    if e.link {
      return Err(LinkedEntry);
    }
    if e.encrypted {
      return Err(EncryptedEntry);
    }
    if IsDirectoryEntry(e.name) {
      var made := MakeDirs(p.disk, target);
      return if made.Err? then Err(made.error) else Ok(Progress(seen, p.total, made.value));
    }
    if e.declared > limits.maxFileBytes {
      return Err(EntryTooLarge);
    }
    if e.declared > CHUNK_BYTES && e.declared > e.compressed * MAX_COMPRESSION_RATIO {
      return Err(RatioTooHigh);
    }
    var made := MakeDirs(p.disk, target[..|target| - 1]);
    if made.Err? {
      return Err(made.error);
    }
    if target in made.value.files || target in made.value.dirs {
      return Err(UnreadableEntry);
    }
    var copied := Copy(e, p.total, limits);
    if copied.Err? {
      return Err(copied.error);
    }
    r := Ok(Progress(seen, copied.value, made.value.(files := made.value.files[target := e.content])));
  }

  // ---------------------------------------------------------------- building

  /** A stored entry: its data as it is, a regular file. */
  function Stored(d: Doc): Entry {
    Entry(d.name, d.content, true, |d.content|, |d.content|, false, false)
  }

  function StoredAll(docs: seq<Doc>): (entries: seq<Entry>)
    ensures |entries| == |docs| && forall i | 0 <= i < |docs| :: entries[i] == Stored(docs[i])
  {
    seq(|docs|, i requires 0 <= i < |docs| => Stored(docs[i]))
  }

  const LOCAL_HEADER: nat := 30
  const CENTRAL_HEADER: nat := 46
  const END_RECORD: nat := 22

  /** Local header, data and central directory header of every file. */
  function RecordBytes(docs: seq<Doc>): nat {
    if docs == [] then 0
    else
      var d := docs[|docs| - 1];
      RecordBytes(docs[..|docs| - 1]) + LOCAL_HEADER + |d.name| + |d.content| + CENTRAL_HEADER + |d.name|
  }

  function Snapshot(docs: seq<Doc>): Archive {
    Archive(RecordBytes(Sort(docs)) + END_RECORD, StoredAll(Sort(docs)))
  }

  /** Entries sorted by name and nothing that varies, so equal files give equal archives. */
  method BuildSnapshot(docs: seq<Doc>) returns (archive: Archive)
    ensures archive == Snapshot(docs)
  {
    var listing := Sort(docs);
    var offset, directory, entries: seq<Entry> := 0, 0, [];
    for i := 0 to |listing|
      invariant entries == StoredAll(listing[..i])
      invariant offset + directory == RecordBytes(listing[..i])
    {
      var d := listing[i];
      assert listing[..i + 1][..i] == listing[..i];
      entries := entries + [Stored(d)];
      offset := offset + LOCAL_HEADER + |d.name| + |d.content|;
      directory := directory + CENTRAL_HEADER + |d.name|;
    }
    assert listing[..|listing|] == listing;
    archive := Archive(offset + directory + END_RECORD, entries);
  }

  lemma SameFilesSameSnapshot(a: seq<Doc>, b: seq<Doc>)
    requires DistinctNames(a) && DistinctNames(b) && SameFiles(a, b)
    ensures Snapshot(a) == Snapshot(b)
  {
    SortOrders(a);
    SortOrders(b);
    OneListing(Sort(a), Sort(b));
  }

  // ---------------------------------------------------------------- names that survive the archive

  predicate IsPlainName(name: Name) {
    forall b <- name :: b >= 32 && b != COLON && b != BACKSLASH
  }

  lemma {:induction false} NotEmptyOfFull(parts: Path)
    requires forall part <- parts :: part != []
    ensures NotEmpty(parts) == parts
  {
    if parts != [] {
      assert parts[0] in parts && forall part <- parts[1..] :: part in parts;
      NotEmptyOfFull(parts[1..]);
    }
  }

  lemma {:induction false} NotEmptyKeeps(parts: Path)
    ensures forall part :: part in NotEmpty(parts) <==> part in parts && part != []
  {
    if parts != [] {
      NotEmptyKeeps(parts[1..]);
      assert parts == [parts[0]] + parts[1..];
    }
  }

  /** A plain name of an accepted file comes back as the path it stands for. */
  lemma PlainNamesPass(path: Path, maxDepth: int)
    requires path != [] && |path| <= maxDepth && (forall part <- path :: IsEntryName(part)) && IsPlainName(NameOf(path))
    ensures ArchiveParts(NameOf(path), maxDepth) == Ok(path)
    ensures !IsDirectoryEntry(NameOf(path)) && Split(NameOf(path), SLASH) == path
  {
    var name := NameOf(path);
    assert Normalized(name) == name by {
      assert forall i | 0 <= i < |name| :: name[i] in name;
    }
    SplitJoin(path, SLASH);
    NotEmptyOfFull(path);
    JoinEnds(path);
    PartsOfSplit(name, SLASH);
  }

  lemma {:induction false} JoinEnds(path: Path)
    requires path != [] && forall part <- path :: IsEntryName(part)
    ensures NameOf(path) != [] && NameOf(path)[0] != SLASH && !IsDirectoryEntry(NameOf(path))
  {
    if |path| > 1 {
      JoinEnds(path[1..]);
      assert path[0] in path && path[0][0] in path[0];
    } else {
      assert path[0] in path && path[0][0] in path[0];
    }
  }

  /** An accepted entry has no colon and no control character, and its path no backslash. */
  lemma AcceptedNames(name: Name, maxDepth: int)
    requires ArchiveParts(name, maxDepth).Ok?
    ensures forall b <- name :: b >= 32 && b != COLON
    ensures forall part <- ArchiveParts(name, maxDepth).value :: BACKSLASH !in part
  {
    var normalized := Normalized(name);
    var parts := Split(normalized, SLASH);
    NotEmptyKeeps(parts);
    PartsOfSplit(normalized, SLASH);
    assert BACKSLASH !in normalized;
    forall b <- name
      ensures b >= 32 && b != COLON
    {
      var i :| 0 <= i < |name| && name[i] == b;
      assert normalized[i] in normalized && (normalized[i] == b || b == BACKSLASH);
      if b == COLON {
        assert COLON in normalized;
        SplitKeeps(normalized, SLASH, COLON);
      }
    }
  }

  // ---------------------------------------------------------------- restoring a tree

  /** What the entries of a real tree satisfy. */
  ghost predicate TreeLike(items: seq<Item>) {
    && Sound(items) && PrefixClosed(items, 0)
    && forall item <- items, part <- item.path :: IsEntryName(part)
  }

  lemma TreesAreTreeLike(children: seq<Node>)
    requires WellFormed(children)
    ensures TreeLike(Items(children, []))
  {
    TreesAreSound(children);
    ItemsOfATree(children, []);
    ItemsAreBelow(children, []);
    forall item <- Items(children, []), part <- item.path
      ensures IsEntryName(part)
    {
      assert Below(item, []) && item.path[0..] == item.path;
    }
  }

  function PathOf(d: Doc): Path {
    Split(d.name, SLASH)
  }

  lemma DocComesFromItsPath(items: seq<Item>, d: Doc)
    requires TreeLike(items) && d in Docs(items)
    ensures FileAt(PathOf(d), d.content) in items && PathOf(d) != [] && d.name == NameOf(PathOf(d))
  {
    DocsAre(items);
    var item :| item in items && item.FileAt? && d == DocOf(item);
    SplitJoin(item.path, SLASH);
  }

  lemma OneItemPerPath(items: seq<Item>, a: Item, b: Item)
    requires DistinctPaths(items) && a in items && b in items && a.path == b.path
    ensures a == b
  {
    var i, j :| 0 <= i < |items| && items[i] == a && 0 <= j < |items| && items[j] == b;
    assert items[i].path == items[j].path;
  }

  function Widened(limits: Limits): Limits {
    limits.(maxTotalBytes := limits.maxTotalBytes + 512 * limits.maxFiles)
  }

  /** Names that need no escape, and that a case-insensitive file system keeps apart. */
  ghost predicate Portable(docs: seq<Doc>, fold: Name -> Name) {
    && (forall d <- docs :: IsPlainName(d.name))
    && (forall d <- docs, e <- docs :: fold(d.name) == fold(e.name) ==> d == e)
  }

  function SeenFirst(listing: seq<Doc>, n: nat, fold: Name -> Name): set<Name>
    requires n <= |listing|
  {
    if n == 0 then {} else SeenFirst(listing, n - 1, fold) + {fold(listing[n - 1].name)}
  }

  function FilesFirst(listing: seq<Doc>, n: nat): map<Path, seq<Byte>>
    requires n <= |listing|
  {
    if n == 0 then map[] else FilesFirst(listing, n - 1)[PathOf(listing[n - 1]) := listing[n - 1].content]
  }

  /** After the first files of the listing. */
  ghost predicate Restored(items: seq<Item>, listing: seq<Doc>, n: nat, p: Progress, fold: Name -> Name)
    requires n <= |listing|
  {
    && p.seen == SeenFirst(listing, n, fold)
    && p.total == TotalSize(listing[..n])
    && p.disk.files == FilesFirst(listing, n)
    && (forall q <- p.disk.dirs :: DirAt(q) in items)
  }

  /** The listing of a tree. */
  ghost predicate Lists(items: seq<Item>, listing: seq<Doc>) {
    TreeLike(items) && Ordered(listing) && (forall d <- listing :: d in Docs(items))
  }

  lemma PathsInTheListingDiffer(items: seq<Item>, listing: seq<Doc>, i: nat, j: nat)
    requires Lists(items, listing) && i < |listing| && j < |listing| && PathOf(listing[i]) == PathOf(listing[j])
    ensures i == j
  {
    assert listing[i] in listing && listing[j] in listing;
    DocComesFromItsPath(items, listing[i]);
    DocComesFromItsPath(items, listing[j]);
    BeforeIsTotal(listing[i].name, listing[j].name);
  }

  lemma {:induction false} FilesComeFrom(items: seq<Item>, listing: seq<Doc>, n: nat, path: Path)
    requires Lists(items, listing) && n <= |listing| && path in FilesFirst(listing, n)
    ensures FileAt(path, FilesFirst(listing, n)[path]) in items
    ensures forall i | n <= i < |listing| :: PathOf(listing[i]) != path
  {
    if path == PathOf(listing[n - 1]) {
      assert listing[n - 1] in listing;
      DocComesFromItsPath(items, listing[n - 1]);
      forall i | n <= i < |listing|
        ensures PathOf(listing[i]) != path
      {
        if PathOf(listing[i]) == path {
          PathsInTheListingDiffer(items, listing, n - 1, i);
        }
      }
    } else {
      FilesComeFrom(items, listing, n - 1, path);
    }
  }

  /** Nothing is in the way of a file: its directories are no files, and it is not there yet. */
  lemma TheWayIsFree(items: seq<Item>, listing: seq<Doc>, n: nat, p: Progress, fold: Name -> Name)
    requires Lists(items, listing) && n < |listing| && Restored(items, listing, n, p, fold)
    ensures var path := PathOf(listing[n]);
      && path != [] && FileAt(path, listing[n].content) in items
      && path !in p.disk.files && path !in p.disk.dirs
      && Ancestors(path[..|path| - 1]) !! p.disk.files.Keys
      && path !in Ancestors(path[..|path| - 1])
      && forall q <- Ancestors(path[..|path| - 1]) :: DirAt(q) in items
  {
    var d, path := listing[n], PathOf(listing[n]);
    assert d in listing;
    DocComesFromItsPath(items, d);
    AncestorsAreDirectories(items, path, d.content);
    if path in p.disk.files {
      FilesComeFrom(items, listing, n, path);
    }
    if path in p.disk.dirs {
      OneItemPerPath(items, FileAt(path, d.content), DirAt(path));
    }
    forall q <- Ancestors(path[..|path| - 1])
      ensures q !in p.disk.files
    {
      if q in p.disk.files {
        FilesComeFrom(items, listing, n, q);
        OneItemPerPath(items, FileAt(q, p.disk.files[q]), DirAt(q));
      }
    }
  }

  lemma AncestorsAreDirectories(items: seq<Item>, path: Path, content: seq<Byte>)
    requires TreeLike(items) && path != [] && FileAt(path, content) in items
    ensures forall q <- Ancestors(path[..|path| - 1]) :: DirAt(q) in items && q != path
  {
    var file := FileAt(path, content);
    forall q <- Ancestors(path[..|path| - 1])
      ensures DirAt(q) in items && q != path
    {
      var k :| 0 < k <= |path| - 1 && path[..|path| - 1][..k] == q;
      assert q == file.path[..k];
    }
  }

  lemma {:induction false} TotalsGrow(docs: seq<Doc>, n: nat)
    requires n <= |docs|
    ensures TotalSize(docs[..n]) <= TotalSize(docs)
    decreases |docs|
  {
    if n < |docs| {
      TotalsGrow(docs[..|docs| - 1], n);
      assert docs[..|docs| - 1][..n] == docs[..n];
    } else {
      assert docs[..n] == docs;
    }
  }

  function Written(p: Progress, d: Doc, fold: Name -> Name): Progress {
    var path := PathOf(d);
    Progress(p.seen + {fold(d.name)}, p.total + |d.content|,
             Disk(p.disk.files[path := d.content], p.disk.dirs + Ancestors(path[..|path| - 1])))
  }

  lemma RestoredOneMore(items: seq<Item>, listing: seq<Doc>, n: nat, p: Progress, fold: Name -> Name)
    requires Lists(items, listing) && n < |listing| && Restored(items, listing, n, p, fold)
    requires forall q <- Ancestors(PathOf(listing[n])[..|PathOf(listing[n])| - 1]) :: DirAt(q) in items
    ensures Restored(items, listing, n + 1, Written(p, listing[n], fold), fold)
  {
    assert listing[..n + 1] == listing[..n] + [listing[n]];
    OneMoreSize(listing[..n], listing[n]);
  }

  lemma NextIsSmallEnough(items: seq<Item>, listing: seq<Doc>, n: nat, limits: Limits)
    requires Lists(items, listing) && n < |listing|
    requires (forall item <- items :: Tolerated(item, limits)) && TotalSize(listing) <= limits.maxTotalBytes
    ensures var d := listing[n];
      && |PathOf(d)| <= limits.maxDepth && |d.content| <= limits.maxFileBytes
      && TotalSize(listing[..n]) + |d.content| <= limits.maxTotalBytes
  {
    var d := listing[n];
    assert d in listing;
    DocComesFromItsPath(items, d);
    assert Tolerated(FileAt(PathOf(d), d.content), limits);
    TotalsGrow(listing, n + 1);
    assert listing[..n + 1] == listing[..n] + [d];
    OneMoreSize(listing[..n], d);
  }

  lemma NextPasses(items: seq<Item>, listing: seq<Doc>, n: nat, limits: Limits, fold: Name -> Name)
    requires Lists(items, listing) && n < |listing| && Portable(listing, fold)
    requires |PathOf(listing[n])| <= limits.maxDepth
    ensures var d := listing[n];
      && PathOf(d) != [] && ArchiveParts(d.name, limits.maxDepth) == Ok(PathOf(d)) && d.name == NameOf(PathOf(d))
      && !IsDirectoryEntry(d.name)
  {
    var d := listing[n];
    assert d in listing;
    DocComesFromItsPath(items, d);
    PlainNamesPass(PathOf(d), limits.maxDepth);
  }

  /** One more file of a portable listing is extracted to where it came from. */
  lemma RestoreOne(items: seq<Item>, listing: seq<Doc>, n: nat, p: Progress, limits: Limits, fold: Name -> Name)
    requires Lists(items, listing) && n < |listing| && Restored(items, listing, n, p, fold)
    requires Portable(listing, fold) && Positive(limits)
    requires (forall item <- items :: Tolerated(item, limits)) && TotalSize(listing) <= limits.maxTotalBytes
    ensures ExtractEntry(p, Stored(listing[n]), Widened(limits), fold) == Ok(Written(p, listing[n], fold))
    ensures Restored(items, listing, n + 1, Written(p, listing[n], fold), fold)
  {
    TheWayIsFree(items, listing, n, p, fold);
    RestoredOneMore(items, listing, n, p, fold);
    NextIsSmallEnough(items, listing, n, limits);
    NextPasses(items, listing, n, limits, fold);
    KeyIsNew(listing, n, n, fold);
    WrittenIsExtracted(p, listing[n], limits, fold);
  }

  lemma {:induction false} KeyIsNew(listing: seq<Doc>, n: nat, m: nat, fold: Name -> Name)
    requires Ordered(listing) && m <= n < |listing| && Portable(listing, fold)
    ensures fold(listing[n].name) !in SeenFirst(listing, m, fold)
  {
    if m > 0 {
      KeyIsNew(listing, n, m - 1, fold);
      assert listing[m - 1] in listing && listing[n] in listing;
      BeforeIsTotal(listing[m - 1].name, listing[n].name);
    }
  }

  lemma WrittenIsExtracted(p: Progress, d: Doc, limits: Limits, fold: Name -> Name)
    requires var path := PathOf(d);
      && path != [] && ArchiveParts(d.name, limits.maxDepth) == Ok(path) && d.name == NameOf(path)
      && Ancestors(path[..|path| - 1]) !! p.disk.files.Keys && path !in p.disk.files
      && path !in p.disk.dirs && path !in Ancestors(path[..|path| - 1])
    requires !IsDirectoryEntry(d.name) && fold(d.name) !in p.seen
    requires |d.content| <= limits.maxFileBytes && p.total + |d.content| <= limits.maxTotalBytes && limits.maxFiles > 0
    ensures ExtractEntry(p, Stored(d), Widened(limits), fold) == Ok(Written(p, d, fold))
  {
  }

  lemma {:induction false} RestoreFirst(items: seq<Item>, listing: seq<Doc>, n: nat, step: Step, fold: Name -> Name)
    returns (p: Progress)
    requires n <= |listing|
    requires forall i, p | 0 <= i < |listing| && Restored(items, listing, i, p, fold) ::
      && step(p, Stored(listing[i])) == Ok(Written(p, listing[i], fold))
      && Restored(items, listing, i + 1, Written(p, listing[i], fold), fold)
    ensures ExtractFirst(StoredAll(listing), n, step) == Ok(p)
    ensures Restored(items, listing, n, p, fold)
  {
    if n == 0 {
      p := Progress({}, 0, Disk(map[], {}));
    } else {
      var before := RestoreFirst(items, listing, n - 1, step, fold);
      p := Written(before, listing[n - 1], fold);
    }
  }

  lemma RestoreAll(items: seq<Item>, listing: seq<Doc>, limits: Limits, fold: Name -> Name) returns (p: Progress)
    requires Lists(items, listing) && Portable(listing, fold) && Positive(limits)
    requires (forall item <- items :: Tolerated(item, limits)) && TotalSize(listing) <= limits.maxTotalBytes
    ensures ExtractFirst(StoredAll(listing), |listing|, Extracting(Widened(limits), fold)) == Ok(p)
    ensures Restored(items, listing, |listing|, p, fold)
  {
    forall i, p | 0 <= i < |listing| && Restored(items, listing, i, p, fold)
      ensures Extracting(Widened(limits), fold)(p, Stored(listing[i])) == Ok(Written(p, listing[i], fold))
      ensures Restored(items, listing, i + 1, Written(p, listing[i], fold), fold)
    {
      RestoreOne(items, listing, i, p, limits, fold);
    }
    p := RestoreFirst(items, listing, |listing|, Extracting(Widened(limits), fold), fold);
  }

  // ---------------------------------------------------------------- the round trip

  /** A directory that holds just what was extracted. */
  ghost predicate Holds(children: seq<Node>, disk: Disk) {
    && WellFormed(children)
    && (forall path, content ::
          FileAt(path, content) in Items(children, []) <==> path in disk.files && disk.files[path] == content)
    && (forall path :: DirAt(path) in Items(children, []) <==> path in disk.dirs)
    && (forall item <- Items(children, []) :: !item.OddAt?)
  }

  /** The archive of a tree is small enough for the widened limit. */
  predicate Fits(docs: seq<Doc>, limits: Limits) {
    Snapshot(docs).size <= Widened(limits).maxTotalBytes
  }

  lemma {:induction false} FilesStay(items: seq<Item>, listing: seq<Doc>, n: nat, i: nat)
    requires Lists(items, listing) && i < n <= |listing|
    ensures PathOf(listing[i]) in FilesFirst(listing, n)
      && FilesFirst(listing, n)[PathOf(listing[i])] == listing[i].content
  {
    if i < n - 1 {
      FilesStay(items, listing, n - 1, i);
      if PathOf(listing[i]) == PathOf(listing[n - 1]) {
        PathsInTheListingDiffer(items, listing, i, n - 1);
      }
    }
  }

  lemma AllFilesAreThere(items: seq<Item>, listing: seq<Doc>, path: Path, content: seq<Byte>)
    requires Lists(items, listing) && forall d <- Docs(items) :: d in listing
    ensures FileAt(path, content) in items <==>
      path in FilesFirst(listing, |listing|) && FilesFirst(listing, |listing|)[path] == content
  {
    if FileAt(path, content) in items {
      DocsAre(items);
      var d := DocOf(FileAt(path, content));
      assert d in Docs(items);
      SplitJoin(path, SLASH);
      var i :| 0 <= i < |listing| && listing[i] == d;
      FilesStay(items, listing, |listing|, i);
    }
    if path in FilesFirst(listing, |listing|) {
      FilesComeFrom(items, listing, |listing|, path);
    }
  }

  lemma ListingOfATree(children: seq<Node>, fold: Name -> Name)
    requires WellFormed(children)
    ensures Sound(Items(children, []))
    ensures var items := Items(children, []); var listing := Sort(Docs(items));
      && Lists(items, listing) && (forall d <- Docs(items) :: d in listing)
      && |listing| == |Docs(items)| && TotalSize(listing) == TotalSize(Docs(items))
      && Portable(listing, fold) == Portable(Docs(items), fold)
  {
    TreesAreSound(children);
    TreesAreTreeLike(children);
    SortOrders(Docs(Items(children, [])));
    SizeOfSort(Docs(Items(children, [])));
  }

  lemma SmallerTreeIsAccepted(items: seq<Item>, again: seq<Item>, limits: Limits)
    requires TreeLike(items) && Sound(again) && Accepted(items, limits)
    requires forall item <- again :: item in items
    requires forall path, content :: FileAt(path, content) in again <==> FileAt(path, content) in items
    ensures Accepted(again, limits) && SameFiles(Docs(again), Docs(items))
  {
    PartIsShorter(again, items);
    FilesAndDocs(again, items);
    DocsAreDistinct(again);
    DocsAreDistinct(items);
    SameFilesSameSize(Docs(again), Docs(items));
  }

  /** Extracting the snapshot of an accepted tree of portable names gives back its files. */
  lemma SnapshotExtracts(children: seq<Node>, limits: Limits, fold: Name -> Name) returns (disk: Disk)
    requires WellFormed(children) && Sound(Items(children, [])) && Accepted(Items(children, []), limits)
    requires Portable(Docs(Items(children, [])), fold) && Fits(Docs(Items(children, [])), limits)
    ensures Extract(Snapshot(Docs(Items(children, []))), Widened(limits), fold) == Ok(disk)
    ensures forall path, content ::
      FileAt(path, content) in Items(children, []) <==> path in disk.files && disk.files[path] == content
    ensures forall path <- disk.dirs :: DirAt(path) in Items(children, [])
  {
    var items := Items(children, []);
    var listing := Sort(Docs(items));
    ListingOfATree(children, fold);
    var p := RestoreAll(items, listing, limits, fold);
    disk := p.disk;
    forall path, content
      ensures FileAt(path, content) in items <==> path in disk.files && disk.files[path] == content
    {
      AllFilesAreThere(items, listing, path, content);
    }
  }

  /** A tree extracted from its own snapshot is accepted again, with the same report. */
  lemma SnapshotRoundTrip(children: seq<Node>, limits: Limits, fold: Name -> Name, hash: seq<Byte> -> seq<Byte>,
                          again: seq<Node>)
    requires WellFormed(children) && Sound(Items(children, [])) && Accepted(Items(children, []), limits)
    requires Portable(Docs(Items(children, [])), fold) && Fits(Docs(Items(children, [])), limits)
    ensures var r := Extract(Snapshot(Docs(Items(children, []))), Widened(limits), fold);
      r.Ok? && (Holds(again, r.value) ==>
        && Sound(Items(again, [])) && Accepted(Items(again, []), limits)
        && Report(hash, Docs(Items(again, []))) == Report(hash, Docs(Items(children, []))))
  {
    var disk := SnapshotExtracts(children, limits, fold);
    if Holds(again, disk) {
      TreesAreSound(again);
      TreesAreSound(children);
      TreesAreTreeLike(children);
      HeldItems(children, again, disk);
      SmallerTreeIsAccepted(Items(children, []), Items(again, []), limits);
      SameFilesSameReport(hash, Docs(Items(again, [])), Docs(Items(children, [])));
    }
  }

  lemma HeldItems(children: seq<Node>, again: seq<Node>, disk: Disk)
    requires Holds(again, disk)
    requires forall path, content ::
      FileAt(path, content) in Items(children, []) <==> path in disk.files && disk.files[path] == content
    requires forall path <- disk.dirs :: DirAt(path) in Items(children, [])
    ensures forall item <- Items(again, []) :: item in Items(children, [])
  {
    forall item <- Items(again, [])
      ensures item in Items(children, [])
    {
      match item
      case FileAt(path, content) => assert path in disk.files && disk.files[path] == content;
      case DirAt(path) => assert path in disk.dirs;
      case OddAt(_, _) =>
    }
  }

  // ---------------------------------------------------------------- when it works

  ghost predicate NoBackslash(path: Path) {
    forall part <- path :: BACKSLASH !in part
  }

  function KeyOf(e: Entry, maxDepth: int, fold: Name -> Name): Name
    requires ArchiveParts(e.name, maxDepth).Ok?
  {
    fold(NameOf(ArchiveParts(e.name, maxDepth).value))
  }

  /** What a successful extraction has checked. */
  ghost predicate Vetted(entries: seq<Entry>, n: nat, maxDepth: int, fold: Name -> Name, p: Progress)
    requires n <= |entries|
  {
    && (forall i | 0 <= i < n ::
         ArchiveParts(entries[i].name, maxDepth).Ok? && KeyOf(entries[i], maxDepth, fold) in p.seen)
    && (forall i, j | 0 <= i < j < n :: KeyOf(entries[i], maxDepth, fold) != KeyOf(entries[j], maxDepth, fold))
    && (forall path <- p.disk.files :: NoBackslash(path))
  }

  lemma OneEntryVetted(p: Progress, e: Entry, limits: Limits, fold: Name -> Name, q: Progress)
    requires ExtractEntry(p, e, limits, fold) == Ok(q)
    ensures ArchiveParts(e.name, limits.maxDepth).Ok?
    ensures var key := KeyOf(e, limits.maxDepth, fold); key !in p.seen && q.seen == p.seen + {key}
    ensures q.disk.files.Keys <= p.disk.files.Keys + {ArchiveParts(e.name, limits.maxDepth).value}
  {
  }

  lemma VetOneMore(entries: seq<Entry>, n: nat, maxDepth: int, fold: Name -> Name, p: Progress, q: Progress)
    requires 0 < n <= |entries| && Vetted(entries, n - 1, maxDepth, fold, p)
    requires ArchiveParts(entries[n - 1].name, maxDepth).Ok?
    requires var key := KeyOf(entries[n - 1], maxDepth, fold); key !in p.seen && q.seen == p.seen + {key}
    requires q.disk.files.Keys <= p.disk.files.Keys + {ArchiveParts(entries[n - 1].name, maxDepth).value}
    ensures Vetted(entries, n, maxDepth, fold, q)
  {
    AcceptedNames(entries[n - 1].name, maxDepth);
    forall path <- q.disk.files
      ensures NoBackslash(path)
    {
      assert path in q.disk.files.Keys;
    }
  }

  /** What a step that succeeds has checked. */
  ghost predicate Vets(step: Step, maxDepth: int, fold: Name -> Name) {
    forall p, e, q | step(p, e) == Ok(q) ::
      && ArchiveParts(e.name, maxDepth).Ok?
      && KeyOf(e, maxDepth, fold) !in p.seen && q.seen == p.seen + {KeyOf(e, maxDepth, fold)}
      && q.disk.files.Keys <= p.disk.files.Keys + {ArchiveParts(e.name, maxDepth).value}
  }

  lemma ExtractingVets(limits: Limits, fold: Name -> Name)
    ensures Vets(Extracting(limits, fold), limits.maxDepth, fold)
  {
    forall p, e, q | Extracting(limits, fold)(p, e) == Ok(q)
      ensures ArchiveParts(e.name, limits.maxDepth).Ok?
      ensures KeyOf(e, limits.maxDepth, fold) !in p.seen && q.seen == p.seen + {KeyOf(e, limits.maxDepth, fold)}
      ensures q.disk.files.Keys <= p.disk.files.Keys + {ArchiveParts(e.name, limits.maxDepth).value}
    {
      OneEntryVetted(p, e, limits, fold, q);
    }
  }

  lemma {:induction false} ExtractionVets(entries: seq<Entry>, n: nat, step: Step, maxDepth: int, fold: Name -> Name)
    requires n <= |entries| && ExtractFirst(entries, n, step).Ok? && Vets(step, maxDepth, fold)
    ensures Vetted(entries, n, maxDepth, fold, ExtractFirst(entries, n, step).value)
  {
    if n > 0 {
      ExtractionVets(entries, n - 1, step, maxDepth, fold);
      VetOneMore(entries, n, maxDepth, fold, ExtractFirst(entries, n - 1, step).value,
        ExtractFirst(entries, n, step).value);
    }
  }

  lemma {:induction false} JoinHasNoBackslash(path: Path)
    requires path != [] && NoBackslash(path)
    ensures BACKSLASH !in NameOf(path)
  {
    if |path| > 1 {
      JoinHasNoBackslash(path[1..]);
    }
  }

  /** A listed file that extraction put where it belongs has a plain name. */
  lemma PlacedIsPlain(items: seq<Item>, d: Doc, disk: Disk, maxDepth: int)
    requires TreeLike(items) && d in Docs(items) && PathOf(d) in disk.files
    requires (forall path <- disk.files :: NoBackslash(path)) && ArchiveParts(d.name, maxDepth).Ok?
    requires forall item <- items :: item.FileAt? ==> |item.path| <= maxDepth
    ensures IsPlainName(d.name) && ArchiveParts(d.name, maxDepth) == Ok(PathOf(d)) && d.name == NameOf(PathOf(d))
  {
    DocComesFromItsPath(items, d);
    JoinHasNoBackslash(PathOf(d));
    AcceptedNames(d.name, maxDepth);
    PlainNamesPass(PathOf(d), maxDepth);
  }

  /** When all files were put where they belong, their names are portable. */
  lemma PlacedIsPortable(items: seq<Item>, listing: seq<Doc>, limits: Limits, fold: Name -> Name, p: Progress)
    requires Lists(items, listing)
    requires ExtractFirst(StoredAll(listing), |listing|, Extracting(Widened(limits), fold)) == Ok(p)
    requires forall item <- items :: Tolerated(item, limits)
    requires forall d <- listing :: PathOf(d) in p.disk.files
    ensures Portable(listing, fold)
  {
    ExtractingVets(Widened(limits), fold);
    ExtractionVets(StoredAll(listing), |listing|, Extracting(Widened(limits), fold), limits.maxDepth, fold);
    VettedIsPortable(items, listing, limits.maxDepth, fold, p);
  }

  lemma VettedIsPortable(items: seq<Item>, listing: seq<Doc>, maxDepth: int, fold: Name -> Name, p: Progress)
    requires Lists(items, listing) && Vetted(StoredAll(listing), |listing|, maxDepth, fold, p)
    requires forall item <- items :: item.FileAt? ==> |item.path| <= maxDepth
    requires forall d <- listing :: PathOf(d) in p.disk.files
    ensures Portable(listing, fold)
  {
    forall i | 0 <= i < |listing|
      ensures IsPlainName(listing[i].name) && KeyOf(StoredAll(listing)[i], maxDepth, fold) == fold(listing[i].name)
    {
      assert listing[i] in listing && ArchiveParts(StoredAll(listing)[i].name, maxDepth).Ok?;
      PlacedIsPlain(items, listing[i], p.disk, maxDepth);
    }
    forall d <- listing, e <- listing | fold(d.name) == fold(e.name)
      ensures d == e
    {
      var i :| 0 <= i < |listing| && listing[i] == d;
      var j :| 0 <= j < |listing| && listing[j] == e;
      assert KeyOf(StoredAll(listing)[i], maxDepth, fold) == KeyOf(StoredAll(listing)[j], maxDepth, fold);
    }
  }

  /** The snapshot is extracted, and what it gives is accepted with the content hash of the tree. */
  ghost predicate ComesBack(
      children: seq<Node>, limits: Limits, fold: Name -> Name, hash: seq<Byte> -> seq<Byte>, again: seq<Node>)
    requires WellFormed(children) && Sound(Items(children, [])) && Sound(Items(again, [])) && Gives32Bytes(hash)
  {
    && Extract(Snapshot(Docs(Items(children, []))), Widened(limits), fold).Ok?
    && Accepted(Items(again, []), limits)
    && Report(hash, Docs(Items(again, []))).contentHash == Report(hash, Docs(Items(children, []))).contentHash
  }

  /** Exactly when a snapshot works: barring collisions, an accepted tree is accepted again with its
      content hash if and only if its names are portable and its archive fits. */
  lemma SnapshotWorksIff(children: seq<Node>, limits: Limits, fold: Name -> Name, hash: seq<Byte> -> seq<Byte>,
                         again: seq<Node>)
    requires WellFormed(children) && Sound(Items(children, [])) && Accepted(Items(children, []), limits)
    requires WellFormed(again) && Sound(Items(again, []))
    requires Gives32Bytes(hash) && NoCollision(hash, Docs(Items(children, [])), Docs(Items(again, [])))
    requires var r := Extract(Snapshot(Docs(Items(children, []))), Widened(limits), fold);
      r.Ok? ==> Holds(again, r.value)
    ensures ComesBack(children, limits, fold, hash, again) <==>
      Portable(Docs(Items(children, [])), fold) && Fits(Docs(Items(children, [])), limits)
  {
    var items := Items(children, []);
    var r := Extract(Snapshot(Docs(items)), Widened(limits), fold);
    if Portable(Docs(items), fold) && Fits(Docs(items), limits) {
      SnapshotRoundTrip(children, limits, fold, hash, again);
    }
    if r.Ok? && Report(hash, Docs(Items(again, []))).contentHash == Report(hash, Docs(items)).contentHash {
      SameHashIsPortable(children, limits, fold, hash, again, r.value);
    }
  }

  lemma SameHashIsPortable(
      children: seq<Node>, limits: Limits, fold: Name -> Name, hash: seq<Byte> -> seq<Byte>, again: seq<Node>,
        disk: Disk)
    requires WellFormed(children) && Sound(Items(children, [])) && Accepted(Items(children, []), limits)
    requires Holds(again, disk) && Sound(Items(again, []))
    requires Gives32Bytes(hash) && NoCollision(hash, Docs(Items(children, [])), Docs(Items(again, [])))
    requires Extract(Snapshot(Docs(Items(children, []))), Widened(limits), fold) == Ok(disk)
    requires Report(hash, Docs(Items(again, []))).contentHash == Report(hash, Docs(Items(children, []))).contentHash
    ensures Portable(Docs(Items(children, [])), fold)
  {
    var items := Items(children, []);
    ListingOfATree(children, fold);
    HashNamesTheTree(children, again, hash);
    var listing := Sort(Docs(items));
    forall d <- listing
      ensures PathOf(d) in disk.files
    {
      DocComesFromItsPath(items, d);
    }
    var p := ExtractFirst(StoredAll(listing), |listing|, Extracting(Widened(limits), fold)).value;
    PlacedIsPortable(items, listing, limits, fold, p);
  }

  // ---------------------------------------------------------------- names that do not come back

  lemma ItemsOfOne(name: Name)
    requires IsEntryName(name)
    ensures WellFormed([File(name, [1])]) && Items([File(name, [1])], []) == [FileAt([name], [1])]
  {
    var tree := [File(name, [1])];
    assert tree[1..] == [] && [] + [name] == [name];
    assert Items([], []) == [];
  }

  lemma ItemsOfTwo(a: Name, b: Name)
    requires IsEntryName(a) && IsEntryName(b) && a != b
    ensures WellFormed([File(a, [1]), File(b, [1])])
    ensures Items([File(a, [1]), File(b, [1])], []) == [FileAt([a], [1]), FileAt([b], [1])]
  {
    var tree := [File(a, [1]), File(b, [1])];
    ItemsOfOne(b);
    assert tree[1..] == [File(b, [1])] && [] + [a] == [a];
  }

  lemma DocsOfOne(name: Name)
    requires IsEntryName(name)
    ensures Docs([FileAt([name], [1])]) == [Doc(name, [1])] && TotalSize([Doc(name, [1])]) == 1
  {
    DocsOfOneMore([], FileAt([name], [1]));
    OneMoreSize([], Doc(name, [1]));
    assert [] + [FileAt([name], [1])] == [FileAt([name], [1])] && [] + [Doc(name, [1])] == [Doc(name, [1])];
  }

  lemma DocsOfTwo(a: Name, b: Name)
    requires IsEntryName(a) && IsEntryName(b)
    ensures Docs([FileAt([a], [1]), FileAt([b], [1])]) == [Doc(a, [1]), Doc(b, [1])]
    ensures TotalSize([Doc(a, [1]), Doc(b, [1])]) == 2
  {
    DocsOfOne(a);
    DocsOfOneMore([FileAt([a], [1])], FileAt([b], [1]));
    OneMoreSize([Doc(a, [1])], Doc(b, [1]));
    assert [FileAt([a], [1]), FileAt([b], [1])] == [FileAt([a], [1])] + [FileAt([b], [1])];
    assert [Doc(a, [1]), Doc(b, [1])] == [Doc(a, [1])] + [Doc(b, [1])];
  }

  lemma TreeOfOne(name: Name)
    requires IsEntryName(name)
    ensures var tree := [File(name, [1])];
      && WellFormed(tree) && Items(tree, []) == [FileAt([name], [1])] && Sound(Items(tree, []))
      && Docs(Items(tree, [])) == [Doc(name, [1])]
      && Accepted(Items(tree, []), Limits(1, 1, 1, 1, 60))
  {
    ItemsOfOne(name);
    DocsOfOne(name);
  }

  lemma TreeOfTwo(a: Name, b: Name)
    requires IsEntryName(a) && IsEntryName(b) && a != b
    ensures var tree := [File(a, [1]), File(b, [1])];
      && WellFormed(tree) && Sound(Items(tree, []))
      && Docs(Items(tree, [])) == [Doc(a, [1]), Doc(b, [1])]
      && Accepted(Items(tree, []), Limits(2, 1, 2, 1, 60))
  {
    ItemsOfTwo(a, b);
    DocsOfTwo(a, b);
  }

  /** An accepted tree of one file whose name has a colon, a backslash or a control character does
      not come back, whatever the archive becomes on disk. */
  lemma OddNameDoesNotComeBack(name: Name, fold: Name -> Name, hash: seq<Byte> -> seq<Byte>, again: seq<Node>)
    requires IsEntryName(name) && !IsPlainName(name)
    requires WellFormed(again) && Sound(Items(again, []))
    requires Gives32Bytes(hash) && NoCollision(hash, [Doc(name, [1])], Docs(Items(again, [])))
    requires var r := Extract(Snapshot([Doc(name, [1])]), Widened(Limits(1, 1, 1, 1, 60)), fold);
      r.Ok? ==> Holds(again, r.value)
    ensures var tree, limits := [File(name, [1])], Limits(1, 1, 1, 1, 60);
      && WellFormed(tree) && Sound(Items(tree, [])) && Accepted(Items(tree, []), limits)
      && !ComesBack(tree, limits, fold, hash, again)
  {
    TreeOfOne(name);
    OddIsNotPortable(name, fold);
    DoesNotComeBack([File(name, [1])], [Doc(name, [1])], Limits(1, 1, 1, 1, 60), fold, hash, again);
  }

  /** Nor do two files whose names are equal up to case. */
  lemma EqualUpToCaseDoesNotComeBack(
      a: Name, b: Name, fold: Name -> Name, hash: seq<Byte> -> seq<Byte>, again: seq<Node>)
    requires IsEntryName(a) && IsEntryName(b) && a != b && fold(a) == fold(b)
    requires WellFormed(again) && Sound(Items(again, []))
    requires Gives32Bytes(hash) && NoCollision(hash, [Doc(a, [1]), Doc(b, [1])], Docs(Items(again, [])))
    requires var r := Extract(Snapshot([Doc(a, [1]), Doc(b, [1])]), Widened(Limits(2, 1, 2, 1, 60)), fold);
      r.Ok? ==> Holds(again, r.value)
    ensures var tree, limits := [File(a, [1]), File(b, [1])], Limits(2, 1, 2, 1, 60);
      && WellFormed(tree) && Sound(Items(tree, [])) && Accepted(Items(tree, []), limits)
      && !ComesBack(tree, limits, fold, hash, again)
  {
    TreeOfTwo(a, b);
    EqualUpToCaseIsNotPortable(a, b, fold);
    DoesNotComeBack([File(a, [1]), File(b, [1])], [Doc(a, [1]), Doc(b, [1])], Limits(2, 1, 2, 1, 60), fold, hash,
      again);
  }

  lemma DoesNotComeBack(
      tree: seq<Node>, docs: seq<Doc>, limits: Limits, fold: Name -> Name, hash: seq<Byte> -> seq<Byte>,
        again: seq<Node>)
    requires WellFormed(tree) && Sound(Items(tree, [])) && Accepted(Items(tree, []), limits)
    requires Docs(Items(tree, [])) == docs && !Portable(docs, fold)
    requires WellFormed(again) && Sound(Items(again, []))
    requires Gives32Bytes(hash) && NoCollision(hash, docs, Docs(Items(again, [])))
    requires var r := Extract(Snapshot(docs), Widened(limits), fold); r.Ok? ==> Holds(again, r.value)
    ensures !ComesBack(tree, limits, fold, hash, again)
  {
    SnapshotWorksIff(tree, limits, fold, hash, again);
  }

  lemma OddIsNotPortable(name: Name, fold: Name -> Name)
    requires !IsPlainName(name)
    ensures !Portable([Doc(name, [1])], fold)
  {
    assert Doc(name, [1]) in [Doc(name, [1])];
  }

  lemma EqualUpToCaseIsNotPortable(a: Name, b: Name, fold: Name -> Name)
    requires a != b && fold(a) == fold(b)
    ensures !Portable([Doc(a, [1]), Doc(b, [1])], fold)
  {
    var docs := [Doc(a, [1]), Doc(b, [1])];
    assert docs[0] in docs && docs[1] in docs;
  }

  // ---------------------------------------------------------------- the size of a snapshot

  lemma {:induction false} RecordsAreBounded(docs: seq<Doc>)
    requires forall d <- docs :: |d.name| <= 200
    ensures RecordBytes(docs) <= TotalSize(docs) + 476 * |docs|
  {
    if docs != [] {
      assert docs[|docs| - 1] in docs;
      RecordsAreBounded(docs[..|docs| - 1]);
    }
  }

  /** 512 bytes a file are enough room for names of up to 200 bytes. */
  lemma ShortNamesFit(docs: seq<Doc>, limits: Limits)
    requires Positive(limits) && |docs| <= limits.maxFiles && TotalSize(docs) <= limits.maxTotalBytes
    requires forall d <- docs :: |d.name| <= 200
    ensures Fits(docs, limits)
  {
    SortKeeps(docs);
    SizeOfSort(docs);
    RecordsAreBounded(Sort(docs));
  }

  /** They are not for every accepted tree: one file of a long name, at both limits, does not fit. */
  lemma ALongNameDoesNotFit()
    ensures var tree := [File(seq(250, _ => 97), [1])];
      var limits := Limits(1, 1, 1, 1, 60);
      && WellFormed(tree) && Items(tree, []) == [FileAt([tree[0].name], [1])]
      && Accepted(Items(tree, []), limits) && !Fits(Docs(Items(tree, [])), limits)
  {
    var name: Name := seq(250, _ => 97);
    TreeOfOne(name);
    var d := Doc(name, [1]);
    assert Sort([d]) == [d] by {
      assert [d][1..] == [];
    }
    assert [d][..0] == [];
    assert RecordBytes([d]) == 577;
  }
}
