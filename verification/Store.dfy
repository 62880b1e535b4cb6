/** The durable store of one tenant: write-once checkpoints and write-once review items. */
module Store {
  import opened Json

  // ---------------------------------------------------------------- what is stored

  /** What Prepare makes of a request.  A run id and generation belong to one prepared source, so
      the whole value stands for them in the keys below. */
  datatype Run = Run(id: string, generation: nat, contentHash: string, reuse: ReuseKey)

  /** The material of the reuse digest. */
  datatype ReuseKey = ReuseKey(user: string, contentHash: string, context: string, fingerprint: string)

  /** Where a detector's result for a content hash is kept, or nothing. */
  datatype Ref = NoRef | Ref(contentHash: string, detector: string, fingerprint: string)

  /** One element of the checks passed to merge: the output of detect or incident. */
  datatype Check = Check(
    detector: string, status: string, checkpoint: Ref, cached: bool,
    reason: string, disposition: string, reviewId: Option<ReviewId>)

  datatype Material = Material(planned: seq<string>, skipped: seq<string>, checks: seq<Check>)

  /** Checkpoint keys.  The digests in the source's keys are injective here. */
  datatype Key =
    | DetectorKey(contentHash: string, detector: string, fingerprint: string)
    | ReportKey(run: Run, material: Material)
    | PolicyKey(run: Run, material: Material)
    | SummaryKey(run: Run, material: Material)
    | ResultKey(run: Run, inputs: Inputs)
    | CompletedKey(reuse: ReuseKey)

  /** The parts of the state that finalize's result depends on. */
  datatype Inputs = Inputs(merge: Option<Summary>, explain: Option<string>, failure: Option<string>)

  datatype Finding = Finding(id: string, body: Json)

  /** One line of the coverage: `findings` is None when no valid checkpoint backs it. */
  datatype Entry = Entry(
    check: string, status: string, findings: Option<nat>, cached: bool,
    reason: string, disposition: string, reviewId: Option<ReviewId>)

  datatype Summary = Summary(run: Run, material: Material, complete: bool, policyStatus: string, coverage: seq<Entry>)

  datatype Body =
    | DetectorBody(detector: string, contentHash: string, findings: seq<Finding>, error: Option<string>)
    | ReportBody(union: map<string, Json>, errors: set<string>)
    | PolicyBody(policyStatus: string, decisions: Json)
    | SummaryBody(summary: Summary)
    | ResultBody(result: Outcome)
    | PointerBody(resultRef: Key, runId: string)

  datatype Outcome = Outcome(
    status: string, reason: string, contentHash: string, coverage: seq<Entry>,
    findings: map<string, Json>, policyStatus: string, reusedFrom: Option<string>, runId: string, generation: nat)

  datatype ReviewId = ReviewId(runId: string, generation: nat, step: string)

  datatype Review = Review(
    error: string, reason: string, disposition: string, status: string,
    createdAt: int, resolvedBy: Option<nat>, resolvedAt: int)

  type Checkpoints = map<Key, Body>
  type Reviews = map<ReviewId, Review>

  datatype Contents = Contents(checkpoints: Checkpoints, reviews: Reviews)

  // ---------------------------------------------------------------- writes

  datatype Op =
    | Put(key: Key, body: Body)
    | PutReview(id: ReviewId, review: Review)
    | Resolve(runId: string, step: string, generation: nat, now: int)

  function PutOnce(c: Checkpoints, key: Key, body: Body): Checkpoints {
    if key in c then c else c[key := body]
  }

  predicate Superseded(id: ReviewId, review: Review, runId: string, step: string, generation: nat) {
    id.runId == runId && id.step == step && review.status == "open" && id.generation < generation
  }

  function Closed(review: Review, generation: nat, now: int): Review {
    review.(status := "resolved", resolvedBy := Some(generation), resolvedAt := now)
  }

  function ResolveAll(reviews: Reviews, runId: string, step: string, generation: nat, now: int): Reviews {
    map id <- reviews ::
      if Superseded(id, reviews[id], runId, step, generation) then Closed(reviews[id], generation, now) else reviews[id]
  }

  function Apply(op: Op, c: Contents): Contents {
    match op
    case Put(key, body) => c.(checkpoints := PutOnce(c.checkpoints, key, body))
    case PutReview(id, review) => if id in c.reviews then c else c.(reviews := c.reviews[id := review])
    case Resolve(runId, step, generation, now) => c.(reviews := ResolveAll(c.reviews, runId, step, generation, now))
  }

  function ApplyAll(ops: seq<Op>, c: Contents): Contents {
    if ops == [] then c else Apply(ops[|ops| - 1], ApplyAll(ops[..|ops| - 1], c))
  }

  // ---------------------------------------------------------------- the store

  /** The reviews while some of the rows are still to be looked at. */
  function ResolvedBut(before: Reviews, rows: set<ReviewId>, runId: string, step: string, generation: nat,
                       now: int): Reviews {
    map id <- before :: if id in rows then before[id] else ResolveAll(before, runId, step, generation, now)[id]
  }

  function SupersededBut(before: Reviews, rows: set<ReviewId>, runId: string, step: string,
                         generation: nat): set<ReviewId> {
    set id <- before | id !in rows && Superseded(id, before[id], runId, step, generation)
  }

  lemma OneMoreResolved(before: Reviews, rows: set<ReviewId>, id: ReviewId, runId: string, step: string,
                        generation: nat, now: int)
    requires id in rows && id in before
    ensures var closes, left := Superseded(id, before[id], runId, step, generation), rows - {id};
      var so := ResolvedBut(before, rows, runId, step, generation, now);
      && so[id] == before[id]
      && ResolvedBut(before, left, runId, step, generation, now) ==
         (if closes then so[id := Closed(before[id], generation, now)] else so)
      && |SupersededBut(before, left, runId, step, generation)| ==
         |SupersededBut(before, rows, runId, step, generation)| + if closes then 1 else 0
  {
    var was := SupersededBut(before, rows, runId, step, generation);
    var closes := Superseded(id, before[id], runId, step, generation);
    assert SupersededBut(before, rows - {id}, runId, step, generation) == if closes then was + {id} else was;
  }

  class PipelineStore {
    var checkpoints: Checkpoints
    var reviews: Reviews

    constructor ()
      ensures State() == Contents(map[], map[])
    {
      checkpoints, reviews := map[], map[];
    }

    function State(): Contents
      reads this
    {
      Contents(checkpoints, reviews)
    }

    method PutCheckpoint(key: Key, body: Body) returns (created: bool)
      modifies this
      ensures created <==> key !in old(checkpoints)
      ensures State() == Apply(Put(key, body), old(State()))
    {
      created := key !in checkpoints;
      if created {
        checkpoints := checkpoints[key := body];
      }
    }

    /** First writer wins: the answer is what the store holds from now on. */
    method WriteOnce(key: Key, body: Body) returns (stored: Body)
      modifies this
      ensures State() == Apply(Put(key, body), old(State()))
      ensures key in checkpoints && stored == checkpoints[key]
      ensures key in old(checkpoints) ==> stored == old(checkpoints)[key]
      ensures key !in old(checkpoints) ==> stored == body
    {
      var created := PutCheckpoint(key, body);
      stored := if created then body else checkpoints[key];
    }

    method PutReviewItem(id: ReviewId, review: Review) returns (created: bool)
      modifies this
      ensures created <==> id !in old(reviews)
      ensures State() == Apply(PutReview(id, review), old(State()))
    {
      created := id !in reviews;
      if created {
        reviews := reviews[id := review];
      }
    }

    /** Close the older items of a step; the answer counts them. */
    method ResolveReviews(runId: string, step: string, generation: nat, now: int) returns (resolved: nat)
      modifies this
      ensures State() == Apply(Resolve(runId, step, generation, now), old(State()))
      ensures resolved == |set id <- old(reviews) | Superseded(id, old(reviews)[id], runId, step, generation)|
    {
      resolved := 0;
      var rows := reviews.Keys;
      ghost var before := reviews;
      while rows != {}
        invariant rows <= before.Keys && checkpoints == old(checkpoints)
        invariant reviews == ResolvedBut(before, rows, runId, step, generation, now)
        invariant resolved == |SupersededBut(before, rows, runId, step, generation)|
        decreases |rows|
      {
        var id :| id in rows;
        OneMoreResolved(before, rows, id, runId, step, generation, now);
        rows := rows - {id};
        if Superseded(id, reviews[id], runId, step, generation) {
          reviews := reviews[id := Closed(reviews[id], generation, now)];
          resolved := resolved + 1;
        }
      }
      assert reviews == ResolveAll(before, runId, step, generation, now);
      assert SupersededBut(before, {}, runId, step, generation) ==
             set id <- before | Superseded(id, before[id], runId, step, generation);
    }
  }
}
