/** The merge step: coverage and findings from the checks, its writes, and why retrying it after
    a crash anywhere leaves what one uninterrupted attempt leaves. */
module Merge {
  import opened Json
  import opened Store

  // ---------------------------------------------------------------- one check

  /** Known detectors, and the policy engine's answer for a report. */
  datatype World = World(detectors: set<string>, policy: (Run, Body) -> Body)

  function CheckFor(checks: seq<Check>, name: string): (check: Option<Check>)
    ensures check.Some? ==> check.value in checks && check.value.detector == name
    ensures check.None? ==> forall c <- checks :: c.detector != name
  {
    if checks == [] then None
    else if checks[|checks| - 1].detector == name then Some(checks[|checks| - 1])
    else CheckFor(checks[..|checks| - 1], name)
  }

  function Lookup(cps: Checkpoints, ref: Ref): Option<Body> {
    match ref
    case NoRef => None
    case Ref(hash, detector, fingerprint) =>
      var key := DetectorKey(hash, detector, fingerprint);
      if key in cps then Some(cps[key]) else None
  }

  /** The checkpoint behind a check, when it is the named detector's result for this source. */
  function ValidBody(cps: Checkpoints, run: Run, check: Option<Check>, name: string): (body: Option<Body>)
    ensures body.Some? ==>
      body.value.DetectorBody? && body.value.detector == name && body.value.contentHash == run.contentHash
  {
    match check
    case None => None
    case Some(c) =>
      match Lookup(cps, c.checkpoint)
      case Some(DetectorBody(detector, hash, findings, error)) =>
        if detector == name && hash == run.contentHash
        then Some(DetectorBody(detector, hash, findings, error))
        else None
      case _ => None
  }

  /** Why merge itself records a review item for a planned check. */
  function Problem(cps: Checkpoints, run: Run, m: Material, name: string): Option<string> {
    var check := CheckFor(m.checks, name);
    if check.None? then Some("missing_result")
    else if check.value.checkpoint.Ref? && ValidBody(cps, run, check, name).None? then Some("checkpoint_missing")
    else None
  }

  predicate IsCode(text: string) {
    && 1 <= |text| <= 48
    && 'a' <= text[0] <= 'z'
    && forall c <- text :: 'a' <= c <= 'z' || '0' <= c <= '9' || c == '_'
  }

  function SafeCode(text: string): string {
    if IsCode(text) then text else "unexpected_error"
  }

  const DISPOSITIONS: set<string> := {"retry_exhausted", "human_review", "operator_action"}

  function EntryOf(cps: Checkpoints, run: Run, m: Material, name: string): Entry {
    match Problem(cps, run, m, name)
    case Some(reason) =>
      Entry(name, "incomplete", None, false, reason, "human_review", Some(ReviewId(run.id, run.generation, name)))
    case None =>
      var check := CheckFor(m.checks, name).value;
      var body := ValidBody(cps, run, Some(check), name);
      var findings := if body.Some? then Some(|body.value.findings|) else None;
      var cached := body.Some? && check.cached;
      if check.status == "succeeded" then Entry(name, "succeeded", findings, cached, "", "", None)
      else
        Entry(name, "incomplete", findings, cached, SafeCode(check.reason),
              if check.disposition in DISPOSITIONS then check.disposition else "human_review", check.reviewId)
  }

  // ---------------------------------------------------------------- the whole merge

  function CoverageTo(cps: Checkpoints, run: Run, m: Material, k: nat): (coverage: seq<Entry>)
    requires k <= |m.planned|
    ensures |coverage| == k
  {
    if k == 0 then [] else CoverageTo(cps, run, m, k - 1) + [EntryOf(cps, run, m, m.planned[k - 1])]
  }

  lemma {:induction false} CoverageAt(cps: Checkpoints, run: Run, m: Material, k: nat)
    requires k <= |m.planned|
    ensures forall i | 0 <= i < k :: CoverageTo(cps, run, m, k)[i] == EntryOf(cps, run, m, m.planned[i])
  {
    if k > 0 {
      CoverageAt(cps, run, m, k - 1);
    }
  }

  function NotApplicable(w: World, skipped: seq<string>): (entries: seq<Entry>)
    ensures forall e <- entries :: e.status == "not_applicable"
  {
    if skipped == [] then []
    else if skipped[0] in w.detectors then
      [Entry(skipped[0], "not_applicable", None, false, "", "", None)] + NotApplicable(w, skipped[1..])
    else NotApplicable(w, skipped[1..])
  }

  function Coverage(w: World, cps: Checkpoints, run: Run, m: Material): seq<Entry> {
    CoverageTo(cps, run, m, |m.planned|) + NotApplicable(w, m.skipped)
  }

  function Add(union: map<string, Json>, findings: seq<Finding>): (r: map<string, Json>)
    ensures forall id :: id in r <==> id in union || exists f <- findings :: f.id == id
  {
    if findings == [] then union
    else
      var last := findings[|findings| - 1];
      assert findings == findings[..|findings| - 1] + [last];
      Add(union, findings[..|findings| - 1])[last.id := last.body]
  }

  /** The findings of a check with a valid checkpoint join the union. */
  function AddBody(union: map<string, Json>, body: Option<Body>): map<string, Json>
    requires body.Some? ==> body.value.DetectorBody?
  {
    if body.Some? then Add(union, body.value.findings) else union
  }

  function UnionTo(cps: Checkpoints, run: Run, m: Material, k: nat): map<string, Json>
    requires k <= |m.planned|
  {
    if k == 0 then map[]
    else
      AddBody(UnionTo(cps, run, m, k - 1), ValidBody(cps, run, CheckFor(m.checks, m.planned[k - 1]), m.planned[k - 1]))
  }

  function Errors(coverage: seq<Entry>): set<string> {
    set e <- coverage | e.status == "incomplete" :: e.check + ": " + e.reason
  }

  function ReportOf(w: World, cps: Checkpoints, run: Run, m: Material): Body {
    ReportBody(UnionTo(cps, run, m, |m.planned|), Errors(Coverage(w, cps, run, m)))
  }

  function SummaryOf(w: World, cps: Checkpoints, run: Run, m: Material): Summary {
    var report := ReportOf(w, cps, run, m);
    var policy := w.policy(run, report);
    var status := if policy.PolicyBody? then policy.policyStatus else "error";
    Summary(run, m, report.errors == {}, status, Coverage(w, cps, run, m))
  }

  // ---------------------------------------------------------------- its writes

  function ReviewOps(cps: Checkpoints, run: Run, m: Material, k: nat, now: int): seq<Op>
    requires k <= |m.planned|
  {
    if k == 0 then []
    else
      var name := m.planned[k - 1];
      ReviewOps(cps, run, m, k - 1, now) + ProblemOps(run, name, Problem(cps, run, m, name), now)
  }

  function ProblemOps(run: Run, name: string, problem: Option<string>, now: int): seq<Op> {
    match problem
    case None => []
    case Some(reason) =>
      [PutReview(ReviewId(run.id, run.generation, name),
        Review("PipelineDefect", reason, "human_review", "open", now, None, 0))]
  }

  function ResolveOps(run: Run, coverage: seq<Entry>, k: nat, now: int): seq<Op>
    requires k <= |coverage|
  {
    if k == 0 || run.generation == 0 then []
    else
      ResolveOps(run, coverage, k - 1, now) +
      if coverage[k - 1].status == "succeeded" then [Resolve(run.id, coverage[k - 1].check, run.generation, now)]
        else []
  }

  function FirstUnknown(w: World, planned: seq<string>): (k: nat)
    ensures k <= |planned|
    ensures forall i | 0 <= i < k :: planned[i] in w.detectors
    ensures k < |planned| ==> planned[k] !in w.detectors
  {
    if planned == [] || planned[0] !in w.detectors then 0
    else
      assert forall i | 0 <= i < |planned[1..]| :: planned[1..][i] == planned[i + 1];
      1 + FirstUnknown(w, planned[1..])
  }

  /** The policy engine failed; on the first attempt the step gives up before writing results. */
  predicate PolicyFails(w: World, cps: Checkpoints, run: Run, m: Material) {
    SummaryOf(w, cps, run, m).policyStatus == "error"
  }

  function FinalOps(w: World, cps: Checkpoints, run: Run, m: Material): seq<Op> {
    var report := ReportOf(w, cps, run, m);
    [Put(ReportKey(run, m), report),
     Put(PolicyKey(run, m), w.policy(run, report)),
     Put(SummaryKey(run, m), SummaryBody(SummaryOf(w, cps, run, m)))]
  }

  /** The review items an attempt records and closes before it has a result. */
  function EarlyOps(w: World, cps: Checkpoints, run: Run, m: Material, now: int): seq<Op> {
    var k := FirstUnknown(w, m.planned);
    var reviews := ReviewOps(cps, run, m, k, now);
    if k < |m.planned| then reviews
    else
      var coverage := Coverage(w, cps, run, m);
      reviews + ResolveOps(run, coverage, |coverage|, now)
  }

  predicate WritesResults(w: World, cps: Checkpoints, run: Run, m: Material, attempt: nat) {
    FirstUnknown(w, m.planned) == |m.planned| && !(attempt == 0 && PolicyFails(w, cps, run, m))
  }

  /** Every write of an attempt that is not cut off, in order. */
  function MergeOps(w: World, cps: Checkpoints, run: Run, m: Material, attempt: nat, now: int): seq<Op> {
    EarlyOps(w, cps, run, m, now) + if WritesResults(w, cps, run, m, attempt) then FinalOps(w, cps, run, m) else []
  }

  datatype Merged = Merged(summary: Body) | Defect | Transient | Cut

  function Min(a: nat, b: nat): nat {
    if a < b then a else b
  }

  function Attempt(w: World, c: Contents, run: Run, m: Material, attempt: nat, now: int, budget: nat): Contents {
    if SummaryKey(run, m) in c.checkpoints then c
    else
      var ops := MergeOps(w, c.checkpoints, run, m, attempt, now);
      ApplyAll(ops[..Min(budget, |ops|)], c)
  }

  lemma {:induction false} ApplyOneMore(ops: seq<Op>, n: nat, c: Contents)
    requires n < |ops|
    ensures ApplyAll(ops[..n + 1], c) == Apply(ops[n], ApplyAll(ops[..n], c))
  {
    assert ops[..n + 1][..n] == ops[..n];
  }

  lemma {:induction false} ApplyAllAppend(a: seq<Op>, b: seq<Op>, c: Contents)
    ensures ApplyAll(a + b, c) == ApplyAll(b, ApplyAll(a, c))
  {
    if b == [] {
      assert a + b == a;
    } else {
      assert (a + b)[..|a + b| - 1] == a + b[..|b| - 1];
      ApplyAllAppend(a, b[..|b| - 1], c);
    }
  }

  lemma {:induction false} ReviewOpsGrow(cps: Checkpoints, run: Run, m: Material, j: nat, k: nat, now: int)
    requires j <= k <= |m.planned|
    ensures ReviewOps(cps, run, m, j, now) <= ReviewOps(cps, run, m, k, now)
  {
    if j < k {
      ReviewOpsGrow(cps, run, m, j, k - 1, now);
    }
  }

  lemma {:induction false} ResolveOpsGrow(run: Run, coverage: seq<Entry>, j: nat, k: nat, now: int)
    requires j <= k <= |coverage|
    ensures ResolveOps(run, coverage, j, now) <= ResolveOps(run, coverage, k, now)
  {
    if j < k {
      ResolveOpsGrow(run, coverage, j, k - 1, now);
    }
  }

  /** Record what is wrong with one check, unless the attempt is cut off first. */
  method RecordProblem(store: PipelineStore, run: Run, name: string, problem: Option<string>, now: int, left: nat)
    returns (writes: nat, cut: bool)
    modifies store
    ensures var ops := ProblemOps(run, name, problem, now);
      && cut == (left < |ops|)
      && writes == (if cut then 0 else |ops|) <= left
      && store.State() == (if cut then old(store.State()) else ApplyAll(ops, old(store.State())))
      && store.checkpoints == old(store.checkpoints)
  {
    writes, cut := 0, false;
    if problem.Some? {
      if left == 0 {
        return 0, true;
      }
      var review := Review("PipelineDefect", problem.value, "human_review", "open", now, None, 0);
      var _ := store.PutReviewItem(ReviewId(run.id, run.generation, name), review);
      writes := 1;
      ghost var ops := ProblemOps(run, name, problem, now);
      assert ops[..0] == [] && ops == [ops[0]];
      assert ApplyAll(ops, old(store.State())) == Apply(ops[0], ApplyAll(ops[..0], old(store.State())));
    }
  }

  /** What one more planned check makes the first loop write. */
  lemma OneMoreCheck(cps: Checkpoints, run: Run, m: Material, k: nat, now: int, c: Contents)
    requires k < |m.planned|
    ensures var name := m.planned[k]; var ops := ProblemOps(run, name, Problem(cps, run, m, name), now);
      && ReviewOps(cps, run, m, k + 1, now) == ReviewOps(cps, run, m, k, now) + ops
      && ApplyAll(ReviewOps(cps, run, m, k + 1, now), c) == ApplyAll(ops, ApplyAll(ReviewOps(cps, run, m, k, now), c))
  {
    var name := m.planned[k];
    ApplyAllAppend(ReviewOps(cps, run, m, k, now), ProblemOps(run, name, Problem(cps, run, m, name), now), c);
  }

  /** The first loop: coverage, findings and the reviews merge itself records.  It ends early at
      a planned check no detector is known for, or when the attempt is cut off. */
  method MergeChecks(store: PipelineStore, w: World, run: Run, m: Material, now: int, budget: nat)
    returns (end: nat, cut: bool, coverage: seq<Entry>, union: map<string, Json>, writes: nat)
    modifies store
    ensures end <= FirstUnknown(w, m.planned)
    ensures writes == |ReviewOps(old(store.checkpoints), run, m, end, now)| <= budget
    ensures store.State() == ApplyAll(ReviewOps(old(store.checkpoints), run, m, end, now), old(store.State()))
    ensures store.checkpoints == old(store.checkpoints)
    ensures cut ==>
      writes == budget && end < |m.planned| && Problem(old(store.checkpoints), run, m, m.planned[end]).Some?
                    && end < FirstUnknown(w, m.planned)
    ensures !cut ==> end == FirstUnknown(w, m.planned)
    ensures coverage == CoverageTo(old(store.checkpoints), run, m, end)
    ensures union == UnionTo(old(store.checkpoints), run, m, end)
  {
    ghost var cps := store.checkpoints;
    coverage, union, writes, end, cut := [], map[], 0, 0, false;
    while end < |m.planned| && m.planned[end] in w.detectors && !cut
      invariant end <= FirstUnknown(w, m.planned)
      invariant coverage == CoverageTo(cps, run, m, end) && union == UnionTo(cps, run, m, end)
      invariant writes == |ReviewOps(cps, run, m, end, now)| <= budget
      invariant store.State() == ApplyAll(ReviewOps(cps, run, m, end, now), old(store.State()))
        && store.checkpoints == cps
      invariant cut ==>
        writes == budget && end < FirstUnknown(w, m.planned) && Problem(cps, run, m, m.planned[end]).Some?
      decreases |m.planned| - end, !cut
    {
      KnownUntil(w, m.planned, end);
      var more;
      more, cut := RecordCheck(store, run, m, end, now, budget - writes, old(store.State()));
      if !cut {
        coverage, union := GatherCheck(store.checkpoints, run, m, end, coverage, union);
        writes, end := writes + more, end + 1;
      }
    }
    KnownUntil(w, m.planned, end);
  }

  lemma KnownUntil(w: World, planned: seq<string>, k: nat)
    requires k <= FirstUnknown(w, planned)
    ensures k < |planned| && planned[k] in w.detectors <==> k < FirstUnknown(w, planned)
    ensures k == |planned| ==> k == FirstUnknown(w, planned)
  {
  }

  /** The review item a planned check may need, unless the attempt is cut off before it. */
  method RecordCheck(store: PipelineStore, run: Run, m: Material, k: nat, now: int, left: nat, ghost start: Contents)
    returns (writes: nat, cut: bool)
    requires k < |m.planned| && store.State() == ApplyAll(ReviewOps(store.checkpoints, run, m, k, now), start)
    modifies store
    ensures store.checkpoints == old(store.checkpoints)
    ensures cut ==>
      store.State() == old(store.State()) && left == 0 && Problem(store.checkpoints, run, m, m.planned[k]).Some?
    ensures !cut ==>
      && writes <= left
      && |ReviewOps(store.checkpoints, run, m, k, now)| + writes == |ReviewOps(store.checkpoints, run, m, k + 1, now)|
      && store.State() == ApplyAll(ReviewOps(store.checkpoints, run, m, k + 1, now), start)
  {
    OneMoreCheck(store.checkpoints, run, m, k, now, start);
    writes, cut := RecordProblem(store, run, m.planned[k], Problem(store.checkpoints, run, m, m.planned[k]), now, left);
  }

  /** The entry and the findings of a planned check. */
  method GatherCheck(cps: Checkpoints, run: Run, m: Material, k: nat, coverage: seq<Entry>, union: map<string, Json>)
    returns (coverage': seq<Entry>, union': map<string, Json>)
    requires k < |m.planned| && coverage == CoverageTo(cps, run, m, k) && union == UnionTo(cps, run, m, k)
    ensures coverage' == CoverageTo(cps, run, m, k + 1) && union' == UnionTo(cps, run, m, k + 1)
  {
    var name := m.planned[k];
    coverage' := coverage + [EntryOf(cps, run, m, name)];
    union' := AddBody(union, ValidBody(cps, run, CheckFor(m.checks, name), name));
  }

  /** The second loop: a check that succeeded on a resumed generation closes its older items. */
  method ResolveOlder(store: PipelineStore, run: Run, coverage: seq<Entry>, now: int, budget: nat)
    returns (end: nat, writes: nat)
    modifies store
    ensures end <= |coverage|
    ensures writes == |ResolveOps(run, coverage, end, now)| <= budget
    ensures store.State() == ApplyAll(ResolveOps(run, coverage, end, now), old(store.State()))
    ensures store.checkpoints == old(store.checkpoints)
    ensures end < |coverage| ==> writes == budget && run.generation != 0 && coverage[end].status == "succeeded"
  {
    end, writes := 0, 0;
    if run.generation == 0 {
      return |coverage|, 0;
    }
    while end < |coverage|
      invariant end <= |coverage|
      invariant writes == |ResolveOps(run, coverage, end, now)| <= budget
      invariant store.State() == ApplyAll(ResolveOps(run, coverage, end, now), old(store.State()))
      invariant store.checkpoints == old(store.checkpoints)
    {
      if coverage[end].status == "succeeded" {
        if writes == budget {
          return;
        }
        var op := Resolve(run.id, coverage[end].check, run.generation, now);
        assert (ResolveOps(run, coverage, end, now) + [op])[..|ResolveOps(run, coverage, end, now)|] ==
          ResolveOps(run, coverage, end, now);
        var _ := store.ResolveReviews(run.id, coverage[end].check, run.generation, now);
        writes := writes + 1;
      } else {
        assert ResolveOps(run, coverage, end + 1, now) == ResolveOps(run, coverage, end, now);
      }
      end := end + 1;
    }
  }

  // ---------------------------------------------------------------- the step

  /** The writes of an attempt as far as it got. */
  ghost predicate GotTo(ops: seq<Op>, budget: nat, before: Contents, after: Contents) {
    after == ApplyAll(ops[..Min(budget, |ops|)], before)
  }

  lemma PrefixGotTo(ops: seq<Op>, part: seq<Op>, budget: nat, before: Contents)
    requires part <= ops && |part| <= budget && (|part| == budget || part == ops)
    ensures GotTo(ops, budget, before, ApplyAll(part, before)) && |part| == Min(budget, |ops|)
  {
    assert ops[..|part|] == part;
  }

  /** The last writes: report, policy and summary, each write-once. */
  method WriteResults(store: PipelineStore, run: Run, m: Material, report: Body, policy: Body, summary: Body, left: nat)
    returns (stored: Option<Body>)
    modifies store
    ensures GotTo([Put(ReportKey(run, m), report), Put(PolicyKey(run, m), policy), Put(SummaryKey(run, m), summary)],
                  left, old(store.State()), store.State())
    ensures stored.Some? <==> left >= 3
    ensures stored.Some? ==>
      SummaryKey(run, m) in store.checkpoints && stored.value == store.checkpoints[SummaryKey(run, m)]
  {
    ghost var c := store.State();
    ghost var ops := [Put(ReportKey(run, m), report), Put(PolicyKey(run, m), policy), Put(SummaryKey(run, m), summary)];
    assert ops[..0] == [];
    if left == 0 {
      return None;
    }
    var _ := store.WriteOnce(ReportKey(run, m), report);
    ApplyOneMore(ops, 0, c);
    if left == 1 {
      return None;
    }
    var _ := store.WriteOnce(PolicyKey(run, m), policy);
    ApplyOneMore(ops, 1, c);
    if left == 2 {
      return None;
    }
    var body := store.WriteOnce(SummaryKey(run, m), summary);
    ApplyOneMore(ops, 2, c);
    assert ops[..3] == ops;
    stored := Some(body);
  }

  lemma ReviewsComeFirst(w: World, cps: Checkpoints, run: Run, m: Material, now: int, end: nat)
    requires end <= FirstUnknown(w, m.planned)
    ensures var part := ReviewOps(cps, run, m, end, now);
      && part <= EarlyOps(w, cps, run, m, now)
      && (end == FirstUnknown(w, m.planned) < |m.planned| ==> part == EarlyOps(w, cps, run, m, now))
  {
    ReviewOpsGrow(cps, run, m, end, FirstUnknown(w, m.planned), now);
  }

  lemma ThenResolves(w: World, cps: Checkpoints, run: Run, m: Material, now: int, end: nat)
    requires FirstUnknown(w, m.planned) == |m.planned| && end <= |Coverage(w, cps, run, m)|
    ensures var coverage := Coverage(w, cps, run, m);
      var part := ReviewOps(cps, run, m, |m.planned|, now) + ResolveOps(run, coverage, end, now);
      && part <= EarlyOps(w, cps, run, m, now)
      && (end == |coverage| ==> part == EarlyOps(w, cps, run, m, now))
  {
    ResolveOpsGrow(run, Coverage(w, cps, run, m), end, |Coverage(w, cps, run, m)|, now);
  }

  /** Both loops. */
  method MergeEarly(store: PipelineStore, w: World, run: Run, m: Material, now: int, budget: nat)
    returns (stopped: Option<Merged>, coverage: seq<Entry>, union: map<string, Json>, writes: nat)
    modifies store
    ensures var ops := EarlyOps(w, old(store.checkpoints), run, m, now);
      && GotTo(ops, budget, old(store.State()), store.State())
      && writes == Min(budget, |ops|)
      && store.checkpoints == old(store.checkpoints)
      && (stopped == Some(Cut) ==> writes == budget)
      && (stopped == Some(Defect) ==> FirstUnknown(w, m.planned) < |m.planned| && writes == |ops|)
      && (stopped.None? ==>
            && FirstUnknown(w, m.planned) == |m.planned| && writes == |ops|
            && coverage == Coverage(w, old(store.checkpoints), run, m)
            && union == UnionTo(old(store.checkpoints), run, m, |m.planned|))
    ensures stopped.Some? ==> stopped.value == Cut || stopped.value == Defect
  {
    ghost var c, cps := store.State(), store.checkpoints;
    ghost var ops := EarlyOps(w, cps, run, m, now);
    var end, cut, planned, found, done := MergeChecks(store, w, run, m, now, budget);
    ghost var reviews := ReviewOps(cps, run, m, end, now);
    ReviewsComeFirst(w, cps, run, m, now, end);
    if cut || end < |m.planned| {
      PrefixGotTo(ops, reviews, budget, c);
      return Some(if cut then Cut else Defect), planned, found, done;
    }
    coverage, union := planned + NotApplicable(w, m.skipped), found;
    var resolved, more := ResolveOlder(store, run, coverage, now, budget - done);
    ghost var resolves := ResolveOps(run, coverage, resolved, now);
    ThenResolves(w, cps, run, m, now, resolved);
    ApplyAllAppend(reviews, resolves, c);
    PrefixGotTo(ops, reviews + resolves, budget, c);
    writes := done + more;
    stopped := if resolved < |coverage| then Some(Cut) else None;
  }

  lemma GotToBoth(early: seq<Op>, final: seq<Op>, budget: nat, c: Contents)
    requires |early| <= budget
    ensures GotTo(early + final, budget, c, ApplyAll(final[..Min(budget - |early|, |final|)], ApplyAll(early, c)))
  {
    var n := Min(budget - |early|, |final|);
    ApplyAllAppend(early, final[..n], c);
    assert early + final[..n] == (early + final)[..Min(budget, |early + final|)];
  }

  lemma GotToOnlyFirst(early: seq<Op>, final: seq<Op>, budget: nat, c: Contents, after: Contents)
    requires GotTo(early, budget, c, after) && (budget <= |early| || final == [])
    ensures GotTo(early + final, budget, c, after)
  {
    assert early[..Min(budget, |early|)] == (early + final)[..Min(budget, |early + final|)];
  }

  /** The merge step; `budget` is how many writes it makes before the worker dies. */
  method MergeStep(store: PipelineStore, w: World, run: Run, m: Material, attempt: nat, now: int, budget: nat)
    returns (outcome: Merged)
    modifies store
    ensures store.State() == Attempt(w, old(store.State()), run, m, attempt, now, budget)
    ensures outcome.Merged? ==>
      SummaryKey(run, m) in store.checkpoints && outcome.summary == store.checkpoints[SummaryKey(run, m)]
  {
    if SummaryKey(run, m) in store.checkpoints {
      return Merged(store.checkpoints[SummaryKey(run, m)]);
    }
    ghost var c, cps := store.State(), store.checkpoints;
    ghost var early := EarlyOps(w, cps, run, m, now);
    ghost var final := if WritesResults(w, cps, run, m, attempt) then FinalOps(w, cps, run, m) else [];
    var stopped, coverage, union, writes := MergeEarly(store, w, run, m, now, budget);
    if stopped.Some? {
      GotToOnlyFirst(early, final, budget, c, store.State());
      return stopped.value;
    }
    assert early[..|early|] == early;
    var report := ReportBody(union, Errors(coverage));
    var policy := w.policy(run, report);
    var policyStatus := if policy.PolicyBody? then policy.policyStatus else "error";
    var summary := Summary(run, m, report.errors == {}, policyStatus, coverage);
    if policyStatus == "error" && attempt == 0 {
      GotToOnlyFirst(early, final, budget, c, store.State());
      return Transient;
    }
    var stored := WriteResults(store, run, m, report, policy, SummaryBody(summary), budget - writes);
    GotToBoth(early, final, budget, c);
    outcome := if stored.Some? then Merged(stored.value) else Cut;
  }
}
