/** Merge is idempotent under crash and retry: attempts cut off after any number of their writes,
    followed by a complete one, leave what one uninterrupted attempt leaves, up to timestamps. */
module MergeRetry {
  import opened Json
  import opened Store
  import opened Merge

  // ---------------------------------------------------------------- forgetting timestamps

  function EraseReview(r: Review): Review {
    r.(createdAt := 0, resolvedAt := 0)
  }

  function Erase(c: Contents): Contents {
    c.(reviews := map id <- c.reviews :: EraseReview(c.reviews[id]))
  }

  function EraseOp(op: Op): Op {
    match op
    case Put(_, _) => op
    case PutReview(id, review) => PutReview(id, EraseReview(review))
    case Resolve(runId, step, generation, _) => Resolve(runId, step, generation, 0)
  }

  function EraseOps(ops: seq<Op>): (r: seq<Op>)
    ensures |r| == |ops| && forall i | 0 <= i < |ops| :: r[i] == EraseOp(ops[i])
  {
    seq(|ops|, i requires 0 <= i < |ops| => EraseOp(ops[i]))
  }

  lemma EraseApply(op: Op, c: Contents)
    ensures Erase(Apply(op, c)) == Apply(EraseOp(op), Erase(c))
  {
    assert Erase(Apply(op, c)).reviews == Apply(EraseOp(op), Erase(c)).reviews;
  }

  lemma {:induction false} EraseApplyAll(ops: seq<Op>, c: Contents)
    ensures Erase(ApplyAll(ops, c)) == ApplyAll(EraseOps(ops), Erase(c))
  {
    if ops != [] {
      EraseApplyAll(ops[..|ops| - 1], c);
      EraseApply(ops[|ops| - 1], ApplyAll(ops[..|ops| - 1], c));
      assert EraseOps(ops)[..|ops| - 1] == EraseOps(ops[..|ops| - 1]);
    }
  }

  // ---------------------------------------------------------------- what the writes depend on

  /** The detector checkpoints are the same. */
  ghost predicate SameDetectors(a: Checkpoints, b: Checkpoints) {
    forall key: Key | key.DetectorKey? :: (key in a <==> key in b) && (key in a ==> a[key] == b[key])
  }

  /** The checks lead to the same checkpoints. */
  ghost predicate SameLookups(a: Checkpoints, b: Checkpoints, m: Material) {
    forall c <- m.checks :: Lookup(a, c.checkpoint) == Lookup(b, c.checkpoint)
  }

  lemma SameDetectorsSameLookups(a: Checkpoints, b: Checkpoints, m: Material)
    requires SameDetectors(a, b)
    ensures SameLookups(a, b, m)
  {
    forall c <- m.checks
      ensures Lookup(a, c.checkpoint) == Lookup(b, c.checkpoint)
    {
      if c.checkpoint.Ref? {
        assert DetectorKey(c.checkpoint.contentHash, c.checkpoint.detector, c.checkpoint.fingerprint).DetectorKey?;
      }
    }
  }

  lemma SameProblem(a: Checkpoints, b: Checkpoints, run: Run, m: Material, name: string)
    requires SameLookups(a, b, m)
    ensures ValidBody(a, run, CheckFor(m.checks, name), name) == ValidBody(b, run, CheckFor(m.checks, name), name)
    ensures Problem(a, run, m, name) == Problem(b, run, m, name)
    ensures EntryOf(a, run, m, name) == EntryOf(b, run, m, name)
  {
    var check := CheckFor(m.checks, name);
    if check.Some? {
      assert Lookup(a, check.value.checkpoint) == Lookup(b, check.value.checkpoint);
    }
  }

  lemma {:induction false} SameUnion(a: Checkpoints, b: Checkpoints, run: Run, m: Material, k: nat, now: int)
    requires SameLookups(a, b, m) && k <= |m.planned|
    ensures UnionTo(a, run, m, k) == UnionTo(b, run, m, k)
    ensures ReviewOps(a, run, m, k, now) == ReviewOps(b, run, m, k, now)
  {
    if k > 0 {
      SameUnion(a, b, run, m, k - 1, now);
      SameProblem(a, b, run, m, m.planned[k - 1]);
    }
  }

  lemma SameCoverage(w: World, a: Checkpoints, b: Checkpoints, run: Run, m: Material)
    requires SameLookups(a, b, m)
    ensures Coverage(w, a, run, m) == Coverage(w, b, run, m)
    ensures ReportOf(w, a, run, m) == ReportOf(w, b, run, m)
  {
    CoverageAt(a, run, m, |m.planned|);
    CoverageAt(b, run, m, |m.planned|);
    forall i | 0 <= i < |m.planned|
      ensures CoverageTo(a, run, m, |m.planned|)[i] == CoverageTo(b, run, m, |m.planned|)[i]
    {
      SameProblem(a, b, run, m, m.planned[i]);
    }
    assert CoverageTo(a, run, m, |m.planned|) == CoverageTo(b, run, m, |m.planned|);
    SameUnion(a, b, run, m, |m.planned|, 0);
  }

  lemma SameOps(w: World, a: Checkpoints, b: Checkpoints, run: Run, m: Material, attempt: nat, now: int)
    requires SameDetectors(a, b)
    ensures MergeOps(w, a, run, m, attempt, now) == MergeOps(w, b, run, m, attempt, now)
  {
    SameEarlyOps(w, a, b, run, m, now);
    SameFinalOps(w, a, b, run, m, attempt);
  }

  lemma SameEarlyOps(w: World, a: Checkpoints, b: Checkpoints, run: Run, m: Material, now: int)
    requires SameDetectors(a, b)
    ensures EarlyOps(w, a, run, m, now) == EarlyOps(w, b, run, m, now)
  {
    SameDetectorsSameLookups(a, b, m);
    SameUnion(a, b, run, m, FirstUnknown(w, m.planned), now);
    SameCoverage(w, a, b, run, m);
  }

  lemma SameFinalOps(w: World, a: Checkpoints, b: Checkpoints, run: Run, m: Material, attempt: nat)
    requires SameDetectors(a, b)
    ensures FinalOps(w, a, run, m) == FinalOps(w, b, run, m)
    ensures WritesResults(w, a, run, m, attempt) == WritesResults(w, b, run, m, attempt)
  {
    SameDetectorsSameLookups(a, b, m);
    SameCoverage(w, a, b, run, m);
    assert SummaryOf(w, a, run, m) == SummaryOf(w, b, run, m);
  }

  // ---------------------------------------------------------------- the timeless writes

  lemma {:induction false} ReviewOpsTimeless(cps: Checkpoints, run: Run, m: Material, k: nat, now: int)
    requires k <= |m.planned|
    ensures EraseOps(ReviewOps(cps, run, m, k, now)) == ReviewOps(cps, run, m, k, 0)
  {
    if k > 0 {
      ReviewOpsTimeless(cps, run, m, k - 1, now);
      var a, b := ReviewOps(cps, run, m, k - 1, now),
        ProblemOps(run, m.planned[k - 1], Problem(cps, run, m, m.planned[k - 1]), now);
      EraseAppend(a, b);
      assert EraseOps(b) == ProblemOps(run, m.planned[k - 1], Problem(cps, run, m, m.planned[k - 1]), 0);
    }
  }

  lemma {:induction false} ResolveOpsTimeless(run: Run, coverage: seq<Entry>, k: nat, now: int)
    requires k <= |coverage|
    ensures EraseOps(ResolveOps(run, coverage, k, now)) == ResolveOps(run, coverage, k, 0)
  {
    if k > 0 && run.generation != 0 {
      ResolveOpsTimeless(run, coverage, k - 1, now);
      var a := ResolveOps(run, coverage, k - 1, now);
      EraseAppend(a, ResolveOps(run, coverage, k, now)[|a|..]);
      assert ResolveOps(run, coverage, k, now) == a + ResolveOps(run, coverage, k, now)[|a|..];
    }
  }

  lemma EraseAppend(a: seq<Op>, b: seq<Op>)
    ensures EraseOps(a + b) == EraseOps(a) + EraseOps(b)
  {
  }

  lemma EarlyOpsTimeless(w: World, cps: Checkpoints, run: Run, m: Material, now: int)
    ensures EraseOps(EarlyOps(w, cps, run, m, now)) == EarlyOps(w, cps, run, m, 0)
  {
    var k := FirstUnknown(w, m.planned);
    ReviewOpsTimeless(cps, run, m, k, now);
    if k == |m.planned| {
      var coverage := Coverage(w, cps, run, m);
      ResolveOpsTimeless(run, coverage, |coverage|, now);
      EraseAppend(ReviewOps(cps, run, m, k, now), ResolveOps(run, coverage, |coverage|, now));
    }
  }

  /** All the writes merge can make for these checkpoints, without timestamps. */
  function FullOps(w: World, cps: Checkpoints, run: Run, m: Material): seq<Op> {
    MergeOps(w, cps, run, m, 1, 0)
  }

  lemma OpsArePrefix(w: World, cps: Checkpoints, run: Run, m: Material, attempt: nat, now: int)
    ensures EraseOps(MergeOps(w, cps, run, m, attempt, now)) <= FullOps(w, cps, run, m)
    ensures |EraseOps(MergeOps(w, cps, run, m, attempt, now))| == |MergeOps(w, cps, run, m, attempt, now)|
    ensures attempt > 0 || !PolicyFails(w, cps, run, m) ==>
      EraseOps(MergeOps(w, cps, run, m, attempt, now)) == FullOps(w, cps, run, m)
  {
    EarlyOpsTimeless(w, cps, run, m, now);
    EraseAppend(EarlyOps(w, cps, run, m, now),
                if WritesResults(w, cps, run, m, attempt) then FinalOps(w, cps, run, m) else []);
  }

  /** An attempt, seen without timestamps, makes some prefix of them; a complete one makes all,
      unless it is a first attempt that found the policy engine failing. */
  lemma AttemptIsPrefix(w: World, c: Contents, run: Run, m: Material, attempt: nat, now: int, budget: nat)
    returns (n: nat)
    requires SummaryKey(run, m) !in c.checkpoints
    ensures n <= |FullOps(w, c.checkpoints, run, m)|
    ensures Erase(Attempt(w, c, run, m, attempt, now, budget)) ==
      ApplyAll(FullOps(w, c.checkpoints, run, m)[..n], Erase(c))
    ensures Complete(w, c.checkpoints, run, m, attempt, budget) ==> n == |FullOps(w, c.checkpoints, run, m)|
  {
    var ops := MergeOps(w, c.checkpoints, run, m, attempt, now);
    var full := FullOps(w, c.checkpoints, run, m);
    OpsArePrefix(w, c.checkpoints, run, m, attempt, now);
    n := Min(budget, |ops|);
    EraseApplyAll(ops[..n], c);
    assert EraseOps(ops[..n]) == full[..n];
  }

  /** Enough budget for every write, and not a first attempt that gives up on the policy. */
  ghost predicate Complete(w: World, cps: Checkpoints, run: Run, m: Material, attempt: nat, budget: nat) {
    && budget >= |FullOps(w, cps, run, m)|
    && (attempt > 0 || !PolicyFails(w, cps, run, m))
  }

  // ---------------------------------------------------------------- writes that are done stay done

  /** The writes of a merge concern its own generation. */
  ghost predicate Fits(op: Op, generation: nat) {
    match op
    case Put(_, _) => true
    case PutReview(id, _) => id.generation == generation
    case Resolve(_, _, g, _) => g == generation
  }

  lemma ApplyTwice(op: Op, c: Contents)
    ensures Apply(op, Apply(op, c)) == Apply(op, c)
  {
    if op.Resolve? {
      var once := Apply(op, c);
      assert ResolveAll(once.reviews, op.runId, op.step, op.generation, op.now) == once.reviews;
    }
  }

  lemma NothingToResolve(op: Op, c: Contents)
    requires op.Resolve?
    ensures Apply(op, c) == c <==>
      forall id <- c.reviews :: !Superseded(id, c.reviews[id], op.runId, op.step, op.generation)
  {
    if Apply(op, c) == c {
      forall id <- c.reviews
        ensures !Superseded(id, c.reviews[id], op.runId, op.step, op.generation)
      {
        assert ResolveAll(c.reviews, op.runId, op.step, op.generation, op.now)[id] == c.reviews[id];
      }
    }
    if forall id <- c.reviews :: !Superseded(id, c.reviews[id], op.runId, op.step, op.generation) {
      assert ResolveAll(c.reviews, op.runId, op.step, op.generation, op.now) == c.reviews;
    }
  }

  lemma DoneStaysDone(done: Op, op: Op, c: Contents, generation: nat)
    requires Fits(done, generation) && Fits(op, generation) && Apply(done, c) == c
    ensures Apply(done, Apply(op, c)) == Apply(op, c)
  {
    var after := Apply(op, c);
    match done
    case Put(key, body) => assert key in Apply(done, c).checkpoints;
    case PutReview(id, review) => assert id in Apply(done, c).reviews;
    case Resolve(_, _, _, _) =>
      NothingToResolve(done, c);
      NothingToResolve(done, after);
  }

  lemma {:induction false} DoneStaysDoneAll(done: Op, ops: seq<Op>, c: Contents, generation: nat)
    requires Fits(done, generation) && forall op <- ops :: Fits(op, generation)
    requires Apply(done, c) == c
    ensures Apply(done, ApplyAll(ops, c)) == ApplyAll(ops, c)
  {
    if ops != [] {
      DoneStaysDoneAll(done, ops[..|ops| - 1], c, generation);
      DoneStaysDone(done, ops[|ops| - 1], ApplyAll(ops[..|ops| - 1], c), generation);
    }
  }

  /** After a list of writes each of them is done. */
  lemma {:induction false} AllDone(ops: seq<Op>, c: Contents, generation: nat, i: nat)
    requires i < |ops| && forall op <- ops :: Fits(op, generation)
    ensures Apply(ops[i], ApplyAll(ops, c)) == ApplyAll(ops, c)
  {
    var last := |ops| - 1;
    ApplyTwice(ops[last], ApplyAll(ops[..last], c));
    if i < last {
      assert ops[..last][i] == ops[i];
      AllDone(ops[..last], c, generation, i);
      DoneStaysDone(ops[i], ops[last], ApplyAll(ops[..last], c), generation);
    }
  }

  lemma {:induction false} RepeatChangesNothing(ops: seq<Op>, c: Contents)
    requires forall op <- ops :: Apply(op, c) == c
    ensures ApplyAll(ops, c) == c
  {
    if ops != [] {
      RepeatChangesNothing(ops[..|ops| - 1], c);
      assert ops[|ops| - 1] in ops;
    }
  }

  /** A longer run of the same writes absorbs a shorter one before it, and the other way round. */
  lemma PrefixAbsorbed(ops: seq<Op>, j: nat, k: nat, c: Contents, generation: nat)
    requires j <= |ops| && k <= |ops| && forall op <- ops :: Fits(op, generation)
    ensures ApplyAll(ops[..k], ApplyAll(ops[..j], c)) == ApplyAll(ops[..if j < k then k else j], c)
  {
    var mid := ApplyAll(ops[..j], c);
    var n := Min(j, k);
    forall op <- ops[..n]
      ensures Apply(op, mid) == mid
    {
      var i :| 0 <= i < n && ops[..n][i] == op;
      assert ops[..j][i] == op;
      AllDone(ops[..j], c, generation, i);
    }
    RepeatChangesNothing(ops[..n], mid);
    if j < k {
      assert ops[..k] == ops[..j] + ops[j..k];
      ApplyAllAppend(ops[..j], ops[j..k], mid);
      ApplyAllAppend(ops[..j], ops[j..k], c);
    }
  }

  // ---------------------------------------------------------------- retries

  datatype Try = Try(attempt: nat, now: int, budget: nat)

  function AfterTries(w: World, c: Contents, run: Run, m: Material, tries: seq<Try>): Contents {
    if tries == [] then c
    else
      var t := tries[|tries| - 1];
      Attempt(w, AfterTries(w, c, run, m, tries[..|tries| - 1]), run, m, t.attempt, t.now, t.budget)
  }

  lemma {:induction false} FullOpsFit(w: World, cps: Checkpoints, run: Run, m: Material)
    ensures forall op <- FullOps(w, cps, run, m) :: Fits(op, run.generation)
  {
    var k := FirstUnknown(w, m.planned);
    ReviewOpsFit(cps, run, m, k);
    var coverage := Coverage(w, cps, run, m);
    ResolveOpsFit(run, coverage, |coverage|);
  }

  lemma {:induction false} ReviewOpsFit(cps: Checkpoints, run: Run, m: Material, k: nat)
    requires k <= |m.planned|
    ensures forall op <- ReviewOps(cps, run, m, k, 0) :: op.PutReview? && Fits(op, run.generation)
  {
    if k > 0 {
      ReviewOpsFit(cps, run, m, k - 1);
    }
  }

  lemma {:induction false} ResolveOpsFit(run: Run, coverage: seq<Entry>, k: nat)
    requires k <= |coverage|
    ensures forall op <- ResolveOps(run, coverage, k, 0) :: op.Resolve? && Fits(op, run.generation)
  {
    if k > 0 && run.generation != 0 {
      ResolveOpsFit(run, coverage, k - 1);
    }
  }

  /** Merge's writes never add or change a detector checkpoint, and the summary comes last. */
  lemma {:induction false} PrefixKeeps(w: World, cps: Checkpoints, run: Run, m: Material, n: nat, c: Contents)
    requires n <= |FullOps(w, cps, run, m)|
    ensures SameDetectors(ApplyAll(FullOps(w, cps, run, m)[..n], c).checkpoints, c.checkpoints)
    ensures n < |FullOps(w, cps, run, m)| && SummaryKey(run, m) !in c.checkpoints ==>
              SummaryKey(run, m) !in ApplyAll(FullOps(w, cps, run, m)[..n], c).checkpoints
  {
    if n > 0 {
      var full := FullOps(w, cps, run, m);
      PrefixKeeps(w, cps, run, m, n - 1, c);
      ApplyOneMore(full, n - 1, c);
      OnlyResultsArePut(w, cps, run, m, n - 1);
    }
  }

  lemma OnlyResultsArePut(w: World, cps: Checkpoints, run: Run, m: Material, i: nat)
    requires i < |FullOps(w, cps, run, m)|
    ensures var op := FullOps(w, cps, run, m)[i];
      op.Put? ==> !op.key.DetectorKey? && (i < |FullOps(w, cps, run, m)| - 1 ==> op.key != SummaryKey(run, m))
  {
    var early := EarlyOps(w, cps, run, m, 0);
    if i < |early| {
      var k := FirstUnknown(w, m.planned);
      ReviewOpsFit(cps, run, m, k);
      var coverage := Coverage(w, cps, run, m);
      ResolveOpsFit(run, coverage, |coverage|);
      assert FullOps(w, cps, run, m)[i] == early[i];
      assert early[i] in early;
    }
  }

  /** Whatever the attempts so far did, they made some prefix of the full writes. */
  lemma {:induction false} TriesArePrefix(w: World, c: Contents, run: Run, m: Material, tries: seq<Try>)
    returns (n: nat)
    requires SummaryKey(run, m) !in c.checkpoints
    ensures n <= |FullOps(w, c.checkpoints, run, m)|
    ensures Erase(AfterTries(w, c, run, m, tries)) == ApplyAll(FullOps(w, c.checkpoints, run, m)[..n], Erase(c))
  {
    var full := FullOps(w, c.checkpoints, run, m);
    if tries == [] {
      n := 0;
      assert full[..0] == [];
    } else {
      var before := tries[..|tries| - 1];
      var t := tries[|tries| - 1];
      var k := TriesArePrefix(w, c, run, m, before);
      var mid := AfterTries(w, c, run, m, before);
      PrefixKeeps(w, c.checkpoints, run, m, k, Erase(c));
      if SummaryKey(run, m) in mid.checkpoints {
        n := k;
      } else {
        var j := OneMoreTry(w, c, mid, run, m, t.attempt, t.now, t.budget, k);
        n := if k < j then j else k;
      }
    }
  }

  /** One more attempt on top of a prefix: the longer of the two. */
  lemma OneMoreTry(w: World, c: Contents, mid: Contents, run: Run, m: Material, attempt: nat, now: int, budget: nat,
                   k: nat) returns (j: nat)
    requires SummaryKey(run, m) !in c.checkpoints && SummaryKey(run, m) !in mid.checkpoints
    requires k <= |FullOps(w, c.checkpoints, run, m)|
    requires Erase(mid) == ApplyAll(FullOps(w, c.checkpoints, run, m)[..k], Erase(c))
    ensures j <= |FullOps(w, c.checkpoints, run, m)|
    ensures Erase(Attempt(w, mid, run, m, attempt, now, budget)) ==
            ApplyAll(FullOps(w, c.checkpoints, run, m)[..if k < j then j else k], Erase(c))
    ensures Complete(w, c.checkpoints, run, m, attempt, budget) ==> j == |FullOps(w, c.checkpoints, run, m)|
  {
    PrefixKeeps(w, c.checkpoints, run, m, k, Erase(c));
    SameOps(w, mid.checkpoints, c.checkpoints, run, m, 1, 0);
    SameDetectorsSameLookups(mid.checkpoints, c.checkpoints, m);
    SameCoverage(w, mid.checkpoints, c.checkpoints, run, m);
    j := AttemptIsPrefix(w, mid, run, m, attempt, now, budget);
    FullOpsFit(w, c.checkpoints, run, m);
    PrefixAbsorbed(FullOps(w, c.checkpoints, run, m), k, j, Erase(c), run.generation);
  }

  /** Crashes and retries leave no trace: any number of attempts cut off anywhere, then a complete
      one, end in the store that a single complete attempt ends in, up to timestamps. */
  lemma RetryIsIdempotent(w: World, c: Contents, run: Run, m: Material, tries: seq<Try>, last: Try, only: Try)
    requires Complete(w, c.checkpoints, run, m, last.attempt, last.budget)
    requires Complete(w, c.checkpoints, run, m, only.attempt, only.budget)
    ensures Erase(AfterTries(w, c, run, m, tries + [last])) ==
      Erase(Attempt(w, c, run, m, only.attempt, only.now, only.budget))
  {
    assert (tries + [last])[..|tries|] == tries;
    var mid := AfterTries(w, c, run, m, tries);
    if SummaryKey(run, m) in c.checkpoints {
      AlreadyMerged(w, c, run, m, tries);
    } else {
      var full := FullOps(w, c.checkpoints, run, m);
      var n := AttemptIsPrefix(w, c, run, m, only.attempt, only.now, only.budget);
      var k := TriesArePrefix(w, c, run, m, tries);
      PrefixKeeps(w, c.checkpoints, run, m, k, Erase(c));
      if SummaryKey(run, m) in mid.checkpoints {
        assert k == |full|;
      } else {
        var j := OneMoreTry(w, c, mid, run, m, last.attempt, last.now, last.budget, k);
      }
    }
  }

  lemma {:induction false} AlreadyMerged(w: World, c: Contents, run: Run, m: Material, tries: seq<Try>)
    requires SummaryKey(run, m) in c.checkpoints
    ensures AfterTries(w, c, run, m, tries) == c
  {
    if tries != [] {
      AlreadyMerged(w, c, run, m, tries[..|tries| - 1]);
    }
  }
}
