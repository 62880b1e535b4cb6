/** The worker's scratch of extracted trees: nothing is scanned before its content hash was
    verified. */
module Workspace {
  import opened Json
  import opened Listings
  import opened Trees
  import opened Snapshots

  /** A tree is kept under the tenant and the first half of the content hash. */
  datatype Key = Key(tenant: string, prefix: seq<Byte>)

  const PREFIX_BYTES: nat := 16

  function KeyFor(tenant: string, contentHash: seq<Byte>): Key
    requires |contentHash| >= PREFIX_BYTES
  {
    Key(tenant, contentHash[..PREFIX_BYTES])
  }

  datatype Defect = SnapshotMissing | SnapshotInvalid | SnapshotUnreadable | IntegrityMismatch

  /** What can stand on a disk. */
  ghost predicate Possible(tree: seq<Node>) {
    WellFormed(tree) && Sound(Items(tree, []))
  }

  class Scratch {
    const limits: Limits
    const fold: Name -> Name
    const hash: seq<Byte> -> seq<Byte>
    var trees: map<Key, seq<Node>>
    var verified: map<Key, Preflight>

    /** Trees of an earlier worker may be there already; none of them counts as verified. */
    constructor (limits: Limits, fold: Name -> Name, hash: seq<Byte> -> seq<Byte>, left: map<Key, seq<Node>>)
      requires Gives32Bytes(hash)
      requires forall key <- left :: Possible(left[key])
      ensures Valid() && trees == left && verified == map[]
      ensures this.limits == limits && this.fold == fold && this.hash == hash
    {
      this.limits, this.fold, this.hash := limits, fold, hash;
      trees, verified := left, map[];
    }

    /** The report is what inspecting this tree gives, and belongs under this key. */
    ghost predicate Vouches(key: Key, tree: seq<Node>, preflight: Preflight)
      requires Gives32Bytes(hash) && Possible(tree)
    {
      && Accepted(Items(tree, []), limits)
      && preflight == Report(hash, Docs(Items(tree, [])))
      && preflight.contentHash[..PREFIX_BYTES] == key.prefix
    }

    /** What is remembered as verified was found in a tree that is still there, so a tree that is
        extracted anew is never taken for verified. */
    ghost predicate Valid()
      reads this
    {
      && Gives32Bytes(hash)
      && (forall key <- trees :: Possible(trees[key]))
      && (forall key <- verified :: key in trees && Vouches(key, trees[key], verified[key]))
    }

    /** A tree that is handed out was inspected and has the first half of the wanted hash; one that
        was not verified before has all of it.  A tree of another hash is removed.  `found` is what
        the extracted archive looks like on disk. */
    method Materialize(tenant: string, contentHash: seq<Byte>, archive: Option<Archive>, found: seq<Node>)
      returns (r: Result<seq<Node>, Defect>)
      requires Valid() && |contentHash| == 32 && Possible(found)
      requires archive.Some? && Extract(archive.value, Widened(limits), fold).Ok? ==>
        Holds(found, Extract(archive.value, Widened(limits), fold).value)
      modifies this
      ensures Valid()
      ensures var key := KeyFor(tenant, contentHash);
        && (r.Ok? ==>
              && key in trees && key in verified && r.value == trees[key]
              && verified[key].contentHash[..PREFIX_BYTES] == contentHash[..PREFIX_BYTES]
              && (key !in old(verified) ==> verified[key].contentHash == contentHash))
        && (r == Err(IntegrityMismatch) ==> key !in trees)
        && (key !in old(trees) ==>
              (r == Ok(found) <==>
                 && archive.Some? && Extract(archive.value, Widened(limits), fold).Ok?
                 && Accepted(Items(found, []), limits)
                      && Report(hash, Docs(Items(found, []))).contentHash == contentHash))
        && (forall other <- old(trees) | other != key :: other in trees && trees[other] == old(trees)[other])
        && (forall other <- old(verified) | other != key ::
             other in verified && verified[other] == old(verified)[other])
    {
      var key := KeyFor(tenant, contentHash);
      if key in verified {
        return Ok(trees[key]);
      }
      if key !in trees {
        var defect := ExtractInto(key, archive, found);
        if defect.Some? {
          return Err(defect.value);
        }
      }
      r := Verify(key, contentHash);
    }

    /** Extract an archive to where a tree will be looked for. */
    method ExtractInto(key: Key, archive: Option<Archive>, found: seq<Node>) returns (defect: Option<Defect>)
      requires Valid() && key !in trees && Possible(found)
      modifies this`trees
      ensures Valid()
      ensures defect.None? <==> archive.Some? && Extract(archive.value, Widened(limits), fold).Ok?
      ensures trees == if defect.None? then old(trees)[key := found] else old(trees)
      ensures defect != Some(IntegrityMismatch)
    {
      if archive.None? {
        return Some(SnapshotMissing);
      }
      var extracted := ExtractZip(archive.value, Widened(limits), fold);
      if extracted.Err? {
        return Some(SnapshotInvalid);
      }
      trees := trees[key := found];
      defect := None;
    }

    /** Remove old trees to make room.  They are forgotten before they are removed. */
    method Evict(stale: set<Key>)
      requires Valid()
      modifies this
      ensures Valid()
      ensures trees == old(trees) - stale && verified == old(verified) - stale
    {
      verified := verified - stale;
      trees := trees - stale;
    }

    /** Inspect a tree before it is used for the first time. */
    method Verify(key: Key, contentHash: seq<Byte>) returns (r: Result<seq<Node>, Defect>)
      requires Valid() && key in trees && key !in verified && |contentHash| == 32
        && key.prefix == contentHash[..PREFIX_BYTES]
      modifies this
      ensures Valid()
      ensures r.Ok? <==>
        && Accepted(Items(old(trees)[key], []), limits)
        && Report(hash, Docs(Items(old(trees)[key], []))).contentHash == contentHash
      ensures r.Ok? ==>
        && trees == old(trees) && r.value == trees[key]
        && key in verified && verified == old(verified)[key := verified[key]]
             && verified[key].contentHash == contentHash
      ensures r.Err? ==> verified == old(verified)
      ensures r.Err? ==> trees == if r.error == IntegrityMismatch then old(trees) - {key} else old(trees)
    {
      var preflight := Inspect(trees[key], limits, hash);
      if preflight.Err? {
        return Err(SnapshotUnreadable);
      }
      if preflight.value.contentHash != contentHash {
        trees := trees - {key};
        return Err(IntegrityMismatch);
      }
      verified := verified[key := preflight.value];
      r := Ok(trees[key]);
    }
  }
}
