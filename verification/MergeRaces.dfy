/** Concurrent attempts of one merge: an at-least-once step may be running several times at once.
    However their writes interleave, and wherever attempts are cut off, the store ends as one
    complete attempt alone leaves it, up to timestamps. */
module MergeRaces {
  import opened Json
  import opened Store
  import opened Merge
  import opened MergeRetry

  // ---------------------------------------------------------------- what may interleave

  /** A write of an attempt that read the store in this state and found no summary there. */
  ghost predicate OfAttempt(w: World, read: Contents, run: Run, m: Material, op: Op) {
    && SummaryKey(run, m) !in read.checkpoints
    && exists attempt, now :: op in MergeOps(w, read.checkpoints, run, m, attempt, now)
  }

  /** Each write belongs to an attempt that read the store at some point before it.  No order is
      asked for, so every interleaving of any number of attempts, cut off anywhere, is of this kind. */
  ghost predicate Race(w: World, c: Contents, run: Run, m: Material, ops: seq<Op>) {
    forall i: nat | i < |ops| :: WrittenBy(w, c, run, m, ops, i)
  }

  ghost predicate WrittenBy(w: World, c: Contents, run: Run, m: Material, ops: seq<Op>, i: nat)
    requires i < |ops|
  {
    exists j: nat :: j <= i && OfAttempt(w, ApplyAll(ops[..j], c), run, m, ops[i])
  }

  /** Some attempt that read the store after j writes, and that does not give up on the policy, has
      made all of its writes. */
  ghost predicate OneCompletes(w: World, c: Contents, run: Run, m: Material, ops: seq<Op>, j: nat, attempt: nat,
                               now: int)
    requires j <= |ops|
  {
    var cps := ApplyAll(ops[..j], c).checkpoints;
    && SummaryKey(run, m) !in cps
    && (attempt > 0 || !PolicyFails(w, cps, run, m))
    && forall op <- MergeOps(w, cps, run, m, attempt, now) :: op in ops[j..]
  }

  // ---------------------------------------------------------------- the same writes, whoever makes them

  /** A write of merge leaves the detector checkpoints alone. */
  ghost predicate KeepsDetectors(op: Op) {
    op.Put? ==> !op.key.DetectorKey?
  }

  lemma {:induction false} SameDetectorsAfter(ops: seq<Op>, c: Contents)
    requires forall op <- ops :: KeepsDetectors(op)
    ensures SameDetectors(ApplyAll(ops, c).checkpoints, c.checkpoints)
  {
    if ops != [] {
      assert ops[|ops| - 1] in ops && forall op <- ops[..|ops| - 1] :: op in ops;
      SameDetectorsAfter(ops[..|ops| - 1], c);
    }
  }

  lemma FullOpsKeepDetectors(w: World, cps: Checkpoints, run: Run, m: Material)
    ensures forall op <- FullOps(w, cps, run, m) :: KeepsDetectors(op)
  {
    var full := FullOps(w, cps, run, m);
    forall op <- full
      ensures KeepsDetectors(op)
    {
      var i :| 0 <= i < |full| && full[i] == op;
      OnlyResultsArePut(w, cps, run, m, i);
    }
  }

  /** Without its timestamp every write of an attempt is one of the full writes. */
  lemma AttemptWritesAreFull(w: World, cps: Checkpoints, run: Run, m: Material, attempt: nat, now: int, op: Op)
    requires op in MergeOps(w, cps, run, m, attempt, now)
    ensures EraseOp(op) in FullOps(w, cps, run, m) && KeepsDetectors(op)
  {
    var ops := MergeOps(w, cps, run, m, attempt, now);
    OpsArePrefix(w, cps, run, m, attempt, now);
    FullOpsKeepDetectors(w, cps, run, m);
    var i :| 0 <= i < |ops| && ops[i] == op;
    assert EraseOps(ops)[i] == EraseOp(op) && FullOps(w, cps, run, m)[i] == EraseOp(op);
  }

  ghost predicate AreFull(w: World, cps: Checkpoints, run: Run, m: Material, ops: seq<Op>) {
    forall op <- ops :: EraseOp(op) in FullOps(w, cps, run, m) && KeepsDetectors(op)
  }

  /** In a race every write is one of the full writes for the store the race began with. */
  lemma {:induction false} RacersWriteTheSame(w: World, c: Contents, run: Run, m: Material, ops: seq<Op>, n: nat)
    requires Race(w, c, run, m, ops) && n <= |ops|
    ensures AreFull(w, c.checkpoints, run, m, ops[..n])
  {
    if n > 0 {
      RacersWriteTheSame(w, c, run, m, ops, n - 1);
      NextRacerWritesTheSame(w, c, run, m, ops, n - 1);
      OneMoreIsFull(w, c.checkpoints, run, m, ops[..n - 1], ops[n - 1]);
      assert ops[..n] == ops[..n - 1] + [ops[n - 1]];
    }
  }

  lemma OneMoreIsFull(w: World, cps: Checkpoints, run: Run, m: Material, ops: seq<Op>, op: Op)
    requires AreFull(w, cps, run, m, ops) && EraseOp(op) in FullOps(w, cps, run, m) && KeepsDetectors(op)
    ensures AreFull(w, cps, run, m, ops + [op])
  {
  }

  lemma NextRacerWritesTheSame(w: World, c: Contents, run: Run, m: Material, ops: seq<Op>, n: nat)
    requires n < |ops| && Race(w, c, run, m, ops) && AreFull(w, c.checkpoints, run, m, ops[..n])
    ensures EraseOp(ops[n]) in FullOps(w, c.checkpoints, run, m) && KeepsDetectors(ops[n])
  {
    assert WrittenBy(w, c, run, m, ops, n);
    var j: nat :| j <= n && OfAttempt(w, ApplyAll(ops[..j], c), run, m, ops[n]);
    PartKeepsDetectors(w, c.checkpoints, run, m, ops[..n], ops[..j]);
    SameDetectorsAfter(ops[..j], c);
    ReaderWritesTheSame(w, ApplyAll(ops[..j], c), c, run, m, ops[n]);
  }

  lemma PartKeepsDetectors(w: World, cps: Checkpoints, run: Run, m: Material, ops: seq<Op>, part: seq<Op>)
    requires AreFull(w, cps, run, m, ops) && part <= ops
    ensures forall op <- part :: KeepsDetectors(op)
  {
    assert forall op <- part :: op in ops;
  }

  lemma ReaderWritesTheSame(w: World, read: Contents, c: Contents, run: Run, m: Material, op: Op)
    requires OfAttempt(w, read, run, m, op) && SameDetectors(read.checkpoints, c.checkpoints)
    ensures EraseOp(op) in FullOps(w, c.checkpoints, run, m) && KeepsDetectors(op)
  {
    var attempt: nat, now :| op in MergeOps(w, read.checkpoints, run, m, attempt, now);
    AttemptWritesAreFull(w, read.checkpoints, run, m, attempt, now, op);
    SameOps(w, read.checkpoints, c.checkpoints, run, m, 1, 0);
  }

  // ---------------------------------------------------------------- writes of one merge commute

  /** Two writes to the same place write the same. */
  ghost predicate Agree(a: Op, b: Op) {
    match (a, b)
    case (Put(k, x), Put(l, y)) => k == l ==> x == y
    case (PutReview(i, x), PutReview(j, y)) => i == j ==> x == y
    case (Resolve(_, _, _, s), Resolve(_, _, _, t)) => s == t
    case _ => true
  }

  lemma Commute(a: Op, b: Op, c: Contents, generation: nat)
    requires Fits(a, generation) && Fits(b, generation) && Agree(a, b)
    ensures Apply(a, Apply(b, c)) == Apply(b, Apply(a, c))
  {
    match (a, b)
    case (Resolve(_, _, _, _), Resolve(_, _, _, _)) => ResolvesCommute(a, b, c.reviews);
    case (Resolve(_, _, _, _), PutReview(_, _)) => ResolveAndPutCommute(a, b, c);
    case (PutReview(_, _), Resolve(_, _, _, _)) => ResolveAndPutCommute(b, a, c);
    case _ =>
  }

  lemma ResolvesCommute(a: Op, b: Op, reviews: Reviews)
    requires a.Resolve? && b.Resolve? && a.generation == b.generation && a.now == b.now
    ensures ResolveAll(ResolveAll(reviews, b.runId, b.step, b.generation, b.now), a.runId, a.step, a.generation,
      a.now) ==
            ResolveAll(ResolveAll(reviews, a.runId, a.step, a.generation, a.now), b.runId, b.step, b.generation, b.now)
  {
  }

  lemma ResolveAndPutCommute(r: Op, p: Op, c: Contents)
    requires r.Resolve? && p.PutReview? && p.id.generation == r.generation
    ensures Apply(r, Apply(p, c)) == Apply(p, Apply(r, c))
  {
    assert Apply(r, Apply(p, c)).reviews == Apply(p, Apply(r, c)).reviews;
  }

  ghost predicate AllAgree(ops: seq<Op>, generation: nat) {
    && (forall op <- ops :: Fits(op, generation))
    && forall a <- ops, b <- ops :: Agree(a, b)
  }

  lemma {:induction false} OneMovesPast(op: Op, ops: seq<Op>, c: Contents, generation: nat)
    requires Fits(op, generation) && forall other <- ops :: Fits(other, generation) && Agree(op, other)
    ensures ApplyAll(ops, Apply(op, c)) == Apply(op, ApplyAll(ops, c))
  {
    if ops != [] {
      var before, last := ops[..|ops| - 1], ops[|ops| - 1];
      assert last in ops && forall other <- before :: other in ops;
      OneMovesPast(op, before, c, generation);
      Commute(op, last, ApplyAll(before, c), generation);
    }
  }

  lemma {:induction false} ListsCommute(a: seq<Op>, b: seq<Op>, c: Contents, generation: nat)
    requires forall op <- a :: Fits(op, generation)
    requires forall op <- b :: Fits(op, generation)
    requires forall x <- a, y <- b :: Agree(x, y)
    ensures ApplyAll(a, ApplyAll(b, c)) == ApplyAll(b, ApplyAll(a, c))
  {
    if a != [] {
      var before, last := a[..|a| - 1], a[|a| - 1];
      assert last in a && forall op <- before :: op in a;
      ListsCommute(before, b, c, generation);
      OneMovesPast(last, b, ApplyAll(before, c), generation);
    }
  }

  /** Lists of the same agreeing writes, in whatever order and however often, do the same. */
  lemma SameWritesSameEnd(a: seq<Op>, b: seq<Op>, c: Contents, generation: nat)
    requires AllAgree(a, generation) && forall op :: op in a <==> op in b
    ensures ApplyAll(a, c) == ApplyAll(b, c)
  {
    Absorbs(a, b, c, generation);
    Absorbs(b, a, c, generation);
    ListsCommute(a, b, c, generation);
  }

  lemma Absorbs(a: seq<Op>, b: seq<Op>, c: Contents, generation: nat)
    requires (forall op <- a :: Fits(op, generation)) && forall op <- b :: op in a
    ensures ApplyAll(b, ApplyAll(a, c)) == ApplyAll(a, c)
  {
    forall op <- b
      ensures Apply(op, ApplyAll(a, c)) == ApplyAll(a, c)
    {
      var i :| 0 <= i < |a| && a[i] == op;
      AllDone(a, c, generation, i);
    }
    RepeatChangesNothing(b, ApplyAll(a, c));
  }

  // ---------------------------------------------------------------- the full writes agree

  /** The review item of a check is the same wherever the check is planned. */
  lemma {:induction false} ReviewsAreOfTheirStep(cps: Checkpoints, run: Run, m: Material, k: nat)
    requires k <= |m.planned|
    ensures forall op <- ReviewOps(cps, run, m, k, 0) ::
      op.PutReview? && [op] == ProblemOps(run, op.id.step, Problem(cps, run, m, op.id.step), 0)
  {
    if k > 0 {
      ReviewsAreOfTheirStep(cps, run, m, k - 1);
    }
  }

  lemma {:induction false} ResolvesAreTimeless(run: Run, coverage: seq<Entry>, k: nat)
    requires k <= |coverage|
    ensures forall op <- ResolveOps(run, coverage, k, 0) :: op.Resolve? && op.now == 0
  {
    if k > 0 && run.generation != 0 {
      ResolvesAreTimeless(run, coverage, k - 1);
    }
  }

  /** What a write of the full list is, by where it writes. */
  ghost predicate Determined(w: World, cps: Checkpoints, run: Run, m: Material, op: Op) {
    match op
    case Put(_, _) => op in FinalOps(w, cps, run, m)
    case PutReview(id, _) => [op] == ProblemOps(run, id.step, Problem(cps, run, m, id.step), 0)
    case Resolve(_, _, _, now) => now == 0
  }

  lemma FullOpsAreDetermined(w: World, cps: Checkpoints, run: Run, m: Material, op: Op)
    requires op in FullOps(w, cps, run, m)
    ensures Determined(w, cps, run, m, op)
  {
    var k := FirstUnknown(w, m.planned);
    ReviewsAreOfTheirStep(cps, run, m, k);
    var coverage := Coverage(w, cps, run, m);
    ResolvesAreTimeless(run, coverage, |coverage|);
  }

  lemma DeterminedAgree(w: World, cps: Checkpoints, run: Run, m: Material, a: Op, b: Op)
    requires Determined(w, cps, run, m, a) && Determined(w, cps, run, m, b)
    ensures Agree(a, b)
  {
  }

  lemma FullOpsAgree(w: World, cps: Checkpoints, run: Run, m: Material)
    ensures AllAgree(FullOps(w, cps, run, m), run.generation)
  {
    var full := FullOps(w, cps, run, m);
    FullOpsFit(w, cps, run, m);
    forall a <- full, b <- full
      ensures Agree(a, b)
    {
      FullOpsAreDetermined(w, cps, run, m, a);
      FullOpsAreDetermined(w, cps, run, m, b);
      DeterminedAgree(w, cps, run, m, a, b);
    }
  }

  // ---------------------------------------------------------------- every race ends alike

  lemma {:induction false} KeyStays(ops: seq<Op>, c: Contents, key: Key)
    requires key in c.checkpoints
    ensures key in ApplyAll(ops, c).checkpoints
  {
    if ops != [] {
      KeyStays(ops[..|ops| - 1], c, key);
    }
  }

  /** Where one attempt makes all of its writes, the writes of the race are the full writes. */
  lemma RaceIsFull(w: World, c: Contents, run: Run, m: Material, ops: seq<Op>, j: nat, attempt: nat, now: int)
    requires Race(w, c, run, m, ops) && j <= |ops| && OneCompletes(w, c, run, m, ops, j, attempt, now)
    ensures forall op :: op in EraseOps(ops) <==> op in FullOps(w, c.checkpoints, run, m)
  {
    var full := FullOps(w, c.checkpoints, run, m);
    RacersWriteTheSame(w, c, run, m, ops, |ops|);
    assert ops[..|ops|] == ops;
    forall op <- EraseOps(ops)
      ensures op in full
    {
      var i :| 0 <= i < |ops| && EraseOps(ops)[i] == op;
      assert ops[i] in ops;
    }
    var read := ApplyAll(ops[..j], c);
    PartKeepsDetectors(w, c.checkpoints, run, m, ops, ops[..j]);
    SameDetectorsAfter(ops[..j], c);
    CompleteWritesAll(w, read, c, run, m, attempt, now);
    var all := MergeOps(w, read.checkpoints, run, m, attempt, now);
    forall op <- full
      ensures op in EraseOps(ops)
    {
      var i :| 0 <= i < |full| && full[i] == op;
      assert all[i] in ops[j..];
      var k :| 0 <= k < |ops| && ops[k] == all[i];
      assert EraseOps(ops)[k] == EraseOp(all[i]) == EraseOps(all)[i];
    }
  }

  lemma CompleteWritesAll(w: World, read: Contents, c: Contents, run: Run, m: Material, attempt: nat, now: int)
    requires SameDetectors(read.checkpoints, c.checkpoints)
    requires attempt > 0 || !PolicyFails(w, read.checkpoints, run, m)
    ensures EraseOps(MergeOps(w, read.checkpoints, run, m, attempt, now)) == FullOps(w, c.checkpoints, run, m)
    ensures |MergeOps(w, read.checkpoints, run, m, attempt, now)| == |FullOps(w, c.checkpoints, run, m)|
  {
    OpsArePrefix(w, read.checkpoints, run, m, attempt, now);
    SameOps(w, read.checkpoints, c.checkpoints, run, m, 1, 0);
  }

  /** Any number of attempts at once, their writes interleaved in any way and cut off anywhere, of
      which one makes all of its own: the store is as one complete attempt alone leaves it. */
  lemma RacesEndAlike(w: World, c: Contents, run: Run, m: Material, ops: seq<Op>, j: nat, attempt: nat, now: int,
                      only: Try)
    requires Race(w, c, run, m, ops) && j <= |ops| && OneCompletes(w, c, run, m, ops, j, attempt, now)
    requires Complete(w, c.checkpoints, run, m, only.attempt, only.budget)
    ensures Erase(ApplyAll(ops, c)) == Erase(Attempt(w, c, run, m, only.attempt, only.now, only.budget))
  {
    var full := FullOps(w, c.checkpoints, run, m);
    RaceIsFull(w, c, run, m, ops, j, attempt, now);
    FullOpsAgree(w, c.checkpoints, run, m);
    EraseApplyAll(ops, c);
    SameWritesSameEnd(full, EraseOps(ops), Erase(c), run.generation);
    if SummaryKey(run, m) in c.checkpoints {
      KeyStays(ops[..j], c, SummaryKey(run, m));
    }
    var n := AttemptIsPrefix(w, c, run, m, only.attempt, only.now, only.budget);
    assert full[..n] == full;
  }
}
