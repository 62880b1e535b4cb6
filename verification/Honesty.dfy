/** Honest outcomes over whole runs: what a stored result, a summary and a completed pointer
    stand for, however many workers write the store in whatever order. */
module Honesty {
  import opened Json
  import opened Store
  import opened Merge
  import opened MergeRetry

  // ---------------------------------------------------------------- the detect step

  datatype Scan = Scan(findings: seq<Finding>, error: Option<string>)

  const NOT_DEFECTS: set<string> := {"timeout", "io_error", "tool_unavailable"}

  /** A failing scan is stored only when it is a defect that still found something. */
  predicate Storable(scan: Scan) {
    scan.error.None? || (scan.findings != [] && scan.error.value !in NOT_DEFECTS)
  }

  function CheckOf(run: Run, name: string, fingerprint: string, body: Body, cached: bool): Check
    requires body.DetectorBody?
  {
    var ref := Ref(run.contentHash, name, fingerprint);
    match body.error
    case None => Check(name, "succeeded", ref, cached, "", "", None)
    case Some(error) => Check(name, "incomplete", ref, cached, error, "human_review",
      Some(ReviewId(run.id, run.generation, name)))
  }

  /** The check that detect returns for what the store holds. */
  ghost predicate DetectMade(cps: Checkpoints, run: Run, name: string, fingerprint: string, cached: bool,
                             check: Check) {
    var key := DetectorKey(run.contentHash, name, fingerprint);
    key in cps && cps[key].DetectorBody? && check == CheckOf(run, name, fingerprint, cps[key], cached)
  }

  /** None: the step failed and wrote nothing. */
  method Detect(store: PipelineStore, run: Run, name: string, fingerprint: string, scan: Scan, now: int)
    returns (check: Option<Check>)
    requires var key := DetectorKey(run.contentHash, name, fingerprint);
      key in store.checkpoints ==> IsDetectorBody(store.checkpoints[key], run.contentHash, name)
    modifies store
    ensures var key := DetectorKey(run.contentHash, name, fingerprint);
      store.checkpoints == (if Storable(scan) then
        PutOnce(old(store.checkpoints), key, DetectorBody(name, run.contentHash, scan.findings, scan.error))
                            else old(store.checkpoints))
    ensures check.Some? ==>
      DetectMade(store.checkpoints, run, name, fingerprint,
                 DetectorKey(run.contentHash, name, fingerprint) in old(store.checkpoints), check.value)
    ensures check.Some? <==> DetectorKey(run.contentHash, name, fingerprint) in store.checkpoints
    ensures check.Some? && check.value.status == "succeeded" ==>
      store.checkpoints[DetectorKey(run.contentHash, name, fingerprint)].error.None?
  {
    var key := DetectorKey(run.contentHash, name, fingerprint);
    var cached := key in store.checkpoints;
    if !cached {
      if !Storable(scan) {
        return None;
      }
    }
    var body := if cached then store.checkpoints[key]
      else DetectorBody(name, run.contentHash, scan.findings, scan.error);
    if !cached {
      body := store.WriteOnce(key, body);
    }
    if body.error.Some? {
      var _ := store.PutReviewItem(ReviewId(run.id, run.generation, name),
                                   Review("DetectorDefect", body.error.value, "human_review", "open", now, None, 0));
    }
    check := Some(CheckOf(run, name, fingerprint, body, cached));
  }

  ghost predicate IsDetectorBody(body: Body, contentHash: string, name: string) {
    body.DetectorBody? && body.detector == name && body.contentHash == contentHash
  }

  // ---------------------------------------------------------------- the incident step

  const RETRY_EXHAUSTED: set<string> :=
    {"TransientStepError", "DetectorTimeout", "States.Timeout", "States.HeartbeatTimeout", "Sandbox.Timedout",
     "Lambda.ServiceException", "Lambda.AWSLambdaException", "Lambda.SdkClientException",
     "Lambda.TooManyRequestsException"}

  const OPERATOR: set<string> := {"ToolUnavailable", "States.Permissions"}

  const STEP_ERRORS: set<string> :=
    {"TransientStepError", "DetectorTimeout", "DetectorDefect", "PipelineDefect", "UnexpectedStepError",
     "ToolUnavailable", "ScanRejected"}

  function Disposition(error: string): string {
    if error in RETRY_EXHAUSTED then "retry_exhausted"
    else if error in OPERATOR then "operator_action"
    else "human_review"
  }

  predicate IsErrorName(text: string) {
    && 1 <= |text| <= 64
    && ('A' <= text[0] <= 'Z' || 'a' <= text[0] <= 'z')
    && forall c <- text :: 'A' <= c <= 'Z' || 'a' <= c <= 'z' || '0' <= c <= '9' || c == '_' || c == '.'
  }

  function TextAt(value: Json, key: string): Option<string> {
    if value.Obj? && key in value.fields && value.fields[key].Str? then Some(value.fields[key].s) else None
  }

  function ErrorName(error: Json): string {
    match TextAt(error, "Error")
    case Some(name) => if IsErrorName(name) then name else "UnknownError"
    case None => "UnknownError"
  }

  /** The text in the cause of one of the steps' own errors; `parse` is None where the cause is not JSON. */
  function Message(error: Json, parse: string -> Option<Json>): Option<string> {
    match TextAt(error, "Cause")
    case None => None
    case Some(cause) =>
      if ErrorName(error) !in STEP_ERRORS then None
      else
        match parse(cause)
        case Some(parsed) => TextAt(parsed, "errorMessage")
        case None => Some(cause)
  }

  function ReasonOf(error: Json, parse: string -> Option<Json>): string {
    var name, message := ErrorName(error), Message(error, parse);
    if message.Some? && IsCode(message.value) then message.value
    else if name in {"States.Timeout", "Sandbox.Timedout", "DetectorTimeout"} then "timeout"
    else if name in RETRY_EXHAUSTED then "transient_failure"
    else if name in OPERATOR then "configuration_error"
    else "unexpected_error"
  }

  function IncidentCheck(run: Run, name: string, error: Json, parse: string -> Option<Json>): Check {
    Check(name, "incomplete", NoRef, false, ReasonOf(error, parse), Disposition(ErrorName(error)),
          Some(ReviewId(run.id, run.generation, name)))
  }

  /** The incident of one detector; None for a detector nobody knows. */
  method Incident(store: PipelineStore, known: set<string>, run: Run, name: string, error: Json,
                  parse: string -> Option<Json>, now: int)
    returns (check: Option<Check>)
    modifies store
    ensures store.checkpoints == old(store.checkpoints)
    ensures check == if name in known then Some(IncidentCheck(run, name, error, parse)) else None
    ensures store.State() ==
      (if name in known
       then Apply(PutReview(ReviewId(run.id, run.generation, name),
                            Review(ErrorName(error), ReasonOf(error, parse), Disposition(ErrorName(error)), "open",
                                   now, None, 0)),
                  old(store.State()))
       else old(store.State()))
  {
    if name !in known {
      return None;
    }
    var kind, reason := ErrorName(error), ReasonOf(error, parse);
    var _ := store.PutReviewItem(ReviewId(run.id, run.generation, name),
                                 Review(kind, reason, Disposition(kind), "open", now, None, 0));
    check := Some(IncidentCheck(run, name, error, parse));
  }

  datatype StepIncident = StepIncident(
    step: string, reason: string, error: string, disposition: string, reviewId: Option<ReviewId>)

  /** The incident of a failed step: `failed` is the first failure the state names, if any, and `run`
      the run as far as it is known.  Nothing of what was caught gets through but codes. */
  method IncidentOfStep(store: PipelineStore, run: Option<Run>, failed: Option<(string, Json)>,
                        parse: string -> Option<Json>, now: int)
    returns (r: StepIncident)
    modifies store
    ensures store.checkpoints == old(store.checkpoints)
    ensures r.step == (if failed.None? then "unknown" else if IsCode(failed.value.0) then failed.value.0
      else "unclassified")
    ensures var error := if failed.Some? then failed.value.1 else Null;
      r.error == ErrorName(error) && r.reason == ReasonOf(error, parse) && r.disposition == Disposition(r.error)
    ensures IsCode(r.step) && IsCode(r.reason) && r.disposition in DISPOSITIONS
    ensures r.reviewId == if run.Some? then Some(ReviewId(run.value.id, run.value.generation, r.step)) else None
    ensures store.State() ==
      (if run.Some?
       then Apply(PutReview(r.reviewId.value, Review(r.error, r.reason, r.disposition, "open", now, None, 0)),
                  old(store.State()))
       else old(store.State()))
  {
    var (name, error) := if failed.Some? then failed.value else ("unknown", Null);
    var step := if IsCode(name) then name else "unclassified";
    assert IsCode("unknown") && IsCode("unclassified");
    ReasonIsCode(error, parse);
    var kind, reason := ErrorName(error), ReasonOf(error, parse);
    r := StepIncident(step, reason, kind, Disposition(kind), None);
    if run.Some? {
      var id := ReviewId(run.value.id, run.value.generation, step);
      var _ := store.PutReviewItem(id, Review(kind, reason, Disposition(kind), "open", now, None, 0));
      r := r.(reviewId := Some(id));
    }
  }

  /** Whatever was caught, merge reports the incident as it is: an incomplete check, no findings, and
      the reason and the disposition of its review item, none of them replaced by a default. */
  lemma IncidentIsReported(cps: Checkpoints, run: Run, m: Material, name: string, error: Json,
                           parse: string -> Option<Json>)
    requires CheckFor(m.checks, name) == Some(IncidentCheck(run, name, error, parse))
    ensures EntryOf(cps, run, m, name) ==
      Entry(name, "incomplete", None, false, ReasonOf(error, parse), Disposition(ErrorName(error)),
            Some(ReviewId(run.id, run.generation, name)))
  {
    ReasonIsCode(error, parse);
  }

  lemma ReasonIsCode(error: Json, parse: string -> Option<Json>)
    ensures IsCode(ReasonOf(error, parse))
  {
    assert IsCode("timeout") && IsCode("transient_failure");
    assert IsCode("configuration_error") && IsCode("unexpected_error");
  }

  /** A check that can be trusted: a checkpoint it names is there, and success is backed by one
      without an error. */
  ghost predicate Genuine(cps: Checkpoints, check: Check) {
    && (check.checkpoint.Ref? ==>
         Lookup(cps, check.checkpoint).Some? && Lookup(cps, check.checkpoint).value.DetectorBody?)
    && (check.status == "succeeded" ==> check.checkpoint.Ref? && Lookup(cps, check.checkpoint).value.error.None?)
  }

  ghost predicate AllGenuine(cps: Checkpoints, m: Material) {
    forall c <- m.checks :: Genuine(cps, c)
  }

  /** What the two steps that make checks can return. */
  ghost predicate Made(cps: Checkpoints, check: Check) {
    || (exists run, name, fingerprint, cached :: DetectMade(cps, run, name, fingerprint, cached, check))
    || (exists run, name, error, parse :: check == IncidentCheck(run, name, error, parse))
  }

  /** Every check that detect or incident makes is genuine. */
  lemma MadeIsGenuine(cps: Checkpoints, check: Check)
    requires Made(cps, check)
    ensures Genuine(cps, check)
  {
  }

  // ---------------------------------------------------------------- the finalize step

  datatype Ending = Stopped(reason: string) | Reused | Assembled(summary: Summary)

  function Planned(coverage: seq<Entry>): (r: seq<Entry>)
    ensures forall e :: e in r <==> e in coverage && e.status != "not_applicable"
  {
    if coverage == [] then []
    else if coverage[0].status != "not_applicable" then [coverage[0]] + Planned(coverage[1..])
    else Planned(coverage[1..])
  }

  function Succeeded(entries: seq<Entry>): (r: seq<Entry>)
    ensures |r| <= |entries|
    ensures forall e :: e in r <==> e in entries && e.status == "succeeded"
    ensures |r| == |entries| <==> forall e <- entries :: e.status == "succeeded"
  {
    if entries == [] then []
    else if entries[0].status == "succeeded" then [entries[0]] + Succeeded(entries[1..])
    else Succeeded(entries[1..])
  }

  function StatusOf(coverage: seq<Entry>, policyStatus: string): (string, string) {
    var planned := Planned(coverage);
    var completed := Succeeded(planned);
    if planned != [] && completed == [] then ("failed", "no_checks_completed")
    else if |completed| < |planned| then ("partial", "incomplete_checks")
    else if policyStatus == "error" then ("partial", "policy_unavailable")
    else ("completed", "")
  }

  function Failed(run: Run, reason: string): Outcome {
    Outcome("failed", reason, run.contentHash, [], map[], "", None, run.id, run.generation)
  }

  /** None: an artifact the state names is missing. */
  function Assemble(cps: Checkpoints, run: Run, s: Summary): Option<Outcome> {
    var report, policy := ReportKey(s.run, s.material), PolicyKey(s.run, s.material);
    if report !in cps || policy !in cps || !cps[report].ReportBody? || !cps[policy].PolicyBody? then None
    else
      var (status, reason) := StatusOf(s.coverage, cps[policy].policyStatus);
      Some(Outcome(status, reason, run.contentHash, s.coverage, cps[report].union, cps[policy].policyStatus, None,
        run.id, run.generation))
  }

  function Reuse(cps: Checkpoints, run: Run): Outcome {
    var key := CompletedKey(run.reuse);
    if key !in cps || !cps[key].PointerBody? || cps[key].resultRef !in cps || !cps[cps[key].resultRef].ResultBody? then
      Failed(run, "reused_result_missing")
    else
      var previous := cps[cps[key].resultRef].result;
      previous.(reusedFrom := Some(previous.runId), runId := run.id, generation := run.generation)
  }

  function ResultFor(cps: Checkpoints, run: Run, ending: Ending): Option<Outcome> {
    match ending
    case Stopped(reason) => Some(Failed(run, reason))
    case Reused => Some(Reuse(cps, run))
    case Assembled(s) => Assemble(cps, run, s)
  }

  /** A completed result that is not itself a reuse gets the pointer for its reuse key. */
  method Finalize(store: PipelineStore, run: Run, ending: Ending, inputs: Inputs) returns (stored: Option<Outcome>)
    requires ResultKey(run, inputs) in store.checkpoints ==> store.checkpoints[ResultKey(run, inputs)].ResultBody?
    modifies store
    ensures store.reviews == old(store.reviews)
    ensures stored.None? <==> ResultFor(old(store.checkpoints), run, ending).None?
    ensures stored.None? ==> store.checkpoints == old(store.checkpoints)
    ensures stored.Some? ==>
      var wrote := PutOnce(old(store.checkpoints), ResultKey(run, inputs),
        ResultBody(ResultFor(old(store.checkpoints), run, ending).value));
      && wrote[ResultKey(run, inputs)] == ResultBody(stored.value)
      && store.checkpoints ==
         (if stored.value.status == "completed" && stored.value.reusedFrom.None?
          then PutOnce(wrote, CompletedKey(run.reuse), PointerBody(ResultKey(run, inputs), run.id)) else wrote)
  {
    var result := ResultFor(store.checkpoints, run, ending);
    if result.None? {
      return None;
    }
    var body := store.WriteOnce(ResultKey(run, inputs), ResultBody(result.value));
    if body.result.status == "completed" && body.result.reusedFrom.None? {
      var _ := store.PutCheckpoint(CompletedKey(run.reuse), PointerBody(ResultKey(run, inputs), run.id));
    }
    stored := Some(body.result);
  }

  // ---------------------------------------------------------------- what each checkpoint stands for

  /** The detector finished on this source without an error. */
  ghost predicate Clean(cps: Checkpoints, run: Run, m: Material, name: string) {
    var body := ValidBody(cps, run, CheckFor(m.checks, name), name);
    body.Some? && body.value.error.None?
  }

  /** The result rests on a merge of the same source in which every planned check finished, its
      findings are the union of their findings, and policy was evaluated. */
  ghost predicate Backed(w: World, cps: Checkpoints, origin: Run, m: Material, r: Outcome) {
    && origin.contentHash == r.contentHash
    && AllGenuine(cps, m)
    && SummaryKey(origin, m) in cps && PolicyKey(origin, m) in cps
    && cps[PolicyKey(origin, m)].PolicyBody? && cps[PolicyKey(origin, m)].policyStatus != "error"
    && r.coverage == Coverage(w, cps, origin, m)
    && r.findings == UnionTo(cps, origin, m, |m.planned|)
    && forall name <- m.planned :: Clean(cps, origin, m, name)
  }

  ghost predicate Honest(w: World, cps: Checkpoints, r: Outcome) {
    r.status == "completed" ==> exists origin, m :: Backed(w, cps, origin, m, r)
  }

  ghost predicate SummaryStands(w: World, cps: Checkpoints, run: Run, m: Material, s: Summary) {
    && AllGenuine(cps, m)
    && ReportKey(run, m) in cps && PolicyKey(run, m) in cps
    && s.run == run && s.material == m && s.coverage == Coverage(w, cps, run, m)
  }

  ghost predicate PointerStands(cps: Checkpoints, reuse: ReuseKey, ref: Key) {
    && ref in cps && cps[ref].ResultBody? && ref.ResultKey?
    && cps[ref].result.status == "completed" && cps[ref].result.contentHash == reuse.contentHash
  }

  ghost predicate Justified(w: World, cps: Checkpoints, key: Key, body: Body) {
    match key
    case DetectorKey(hash, name, _) => IsDetectorBody(body, hash, name)
    case ReportKey(run, m) => AllGenuine(cps, m) && body == ReportOf(w, cps, run, m)
    case PolicyKey(_, _) => body.PolicyBody?
    case SummaryKey(run, m) => body.SummaryBody? && SummaryStands(w, cps, run, m, body.summary)
    case ResultKey(run, _) => body.ResultBody? && body.result.contentHash == run.contentHash
      && Honest(w, cps, body.result)
    case CompletedKey(reuse) => body.PointerBody? && PointerStands(cps, reuse, body.resultRef)
  }

  ghost predicate AllJustified(w: World, cps: Checkpoints) {
    forall key <- cps :: Justified(w, cps, key, cps[key])
  }

  /** A run of the system so far: the store, the checks that were returned, and the summaries that
      merges returned. */
  datatype History = History(store: Checkpoints, checks: set<Check>, merged: set<Summary>)

  ghost predicate IsMerged(cps: Checkpoints, s: Summary) {
    var key := SummaryKey(s.run, s.material);
    key in cps && cps[key] == SummaryBody(s)
  }

  ghost predicate Inv(w: World, h: History) {
    && AllJustified(w, h.store)
    && (forall c <- h.checks :: Genuine(h.store, c))
    && (forall s <- h.merged :: IsMerged(h.store, s))
  }

  // ---------------------------------------------------------------- the store only grows

  ghost predicate Extends(a: Checkpoints, b: Checkpoints) {
    forall key <- a :: key in b && b[key] == a[key]
  }

  lemma OneGenuineGrows(a: Checkpoints, b: Checkpoints, c: Check)
    requires Extends(a, b) && Genuine(a, c)
    ensures Genuine(b, c)
  {
    if c.checkpoint.Ref? {
      assert DetectorKey(c.checkpoint.contentHash, c.checkpoint.detector, c.checkpoint.fingerprint) in a;
    }
  }

  lemma GenuineGrows(a: Checkpoints, b: Checkpoints, m: Material)
    requires Extends(a, b) && AllGenuine(a, m)
    ensures AllGenuine(b, m) && SameLookups(a, b, m)
  {
    forall c <- m.checks
      ensures Genuine(b, c) && Lookup(a, c.checkpoint) == Lookup(b, c.checkpoint)
    {
      assert Genuine(a, c);
      if c.checkpoint.Ref? {
        assert DetectorKey(c.checkpoint.contentHash, c.checkpoint.detector, c.checkpoint.fingerprint) in a;
      }
    }
  }

  lemma BackedGrows(w: World, a: Checkpoints, b: Checkpoints, origin: Run, m: Material, r: Outcome)
    requires Extends(a, b) && Backed(w, a, origin, m, r)
    ensures Backed(w, b, origin, m, r)
  {
    GenuineGrows(a, b, m);
    SameCoverage(w, a, b, origin, m);
    SameUnion(a, b, origin, m, |m.planned|, 0);
    forall name <- m.planned
      ensures Clean(b, origin, m, name)
    {
      assert Clean(a, origin, m, name);
      SameProblem(a, b, origin, m, name);
    }
  }

  lemma HonestGrows(w: World, a: Checkpoints, b: Checkpoints, r: Outcome)
    requires Extends(a, b) && Honest(w, a, r)
    ensures Honest(w, b, r)
  {
    if r.status == "completed" {
      var origin, m :| Backed(w, a, origin, m, r);
      BackedGrows(w, a, b, origin, m, r);
    }
  }

  lemma JustifiedGrows(w: World, a: Checkpoints, b: Checkpoints, key: Key, body: Body)
    requires Extends(a, b) && Justified(w, a, key, body)
    ensures Justified(w, b, key, body)
  {
    match key
    case ReportKey(run, m) => GenuineGrows(a, b, m); SameCoverage(w, a, b, run, m);
    case SummaryKey(run, m) => GenuineGrows(a, b, m); SameCoverage(w, a, b, run, m);
    case ResultKey(_, _) => HonestGrows(w, a, b, body.result);
    case _ =>
  }

  lemma PutKeepsJustified(w: World, cps: Checkpoints, key: Key, body: Body)
    requires AllJustified(w, cps) && Justified(w, PutOnce(cps, key, body), key, body)
    ensures AllJustified(w, PutOnce(cps, key, body)) && Extends(cps, PutOnce(cps, key, body))
  {
    var after := PutOnce(cps, key, body);
    forall k | k in cps
      ensures Justified(w, after, k, cps[k])
    {
      JustifiedGrows(w, cps, after, k, cps[k]);
    }
  }

  // ---------------------------------------------------------------- what the steps may do

  /** One visible thing a step does: a write, a check it returns, or a summary it passes on. */
  datatype Action = Write(key: Key, body: Body) | Return(check: Check) | PassOn(summary: Summary)

  function Do(h: History, a: Action): History {
    match a
    case Write(key, body) => h.(store := PutOnce(h.store, key, body))
    case Return(check) => h.(checks := h.checks + {check})
    case PassOn(summary) => h.(merged := h.merged + {summary})
  }

  /** What a step may do when the system is at `now`, from what it saw when it was at `seen`. */
  ghost predicate May(w: World, seen: History, now: History, a: Action) {
    match a
    case Write(key, body) => MayWrite(w, seen, now.store, key, body)
    case Return(check) => Made(seen.store, check)
    case PassOn(summary) => IsMerged(seen.store, summary)
  }

  /** Merge gets the checks that were returned. */
  ghost predicate Given(seen: History, m: Material) {
    forall c <- m.checks :: c in seen.checks
  }

  /** The writes of detect, merge and finalize. */
  ghost predicate MayWrite(w: World, seen: History, now: Checkpoints, key: Key, body: Body) {
    match key
    case DetectorKey(hash, name, _) => IsDetectorBody(body, hash, name)
    case ReportKey(run, m) => Given(seen, m) && body == ReportOf(w, seen.store, run, m)
    case PolicyKey(_, _) => body.PolicyBody?
    case SummaryKey(run, m) =>
      && Given(seen, m) && ReportKey(run, m) in now && PolicyKey(run, m) in now
      && body.SummaryBody? && body.summary.run == run && body.summary.material == m
      && body.summary.coverage == Coverage(w, seen.store, run, m)
    case ResultKey(run, _) =>
      exists ending :: EndsWith(seen, run, ending, body)
    case CompletedKey(reuse) =>
      exists run, inputs ::
        MayPoint(now, run, inputs) && reuse == run.reuse && body == PointerBody(ResultKey(run, inputs), run.id)
  }

  /** The summary that reaches finalize is one that merge returned for this run, and the run's reuse
      key is about its own source. */
  ghost predicate EndingIsReal(seen: History, run: Run, ending: Ending) {
    && run.reuse.contentHash == run.contentHash
    && (ending.Assembled? ==> ending.summary.run == run && ending.summary in seen.merged)
  }

  ghost predicate EndsWith(seen: History, run: Run, ending: Ending, body: Body) {
    && EndingIsReal(seen, run, ending)
    && ResultFor(seen.store, run, ending).Some?
    && body == ResultBody(ResultFor(seen.store, run, ending).value)
  }

  ghost predicate MayPoint(now: Checkpoints, run: Run, inputs: Inputs) {
    && run.reuse.contentHash == run.contentHash
    && ResultKey(run, inputs) in now && now[ResultKey(run, inputs)].ResultBody?
    && now[ResultKey(run, inputs)].result.status == "completed"
  }

  lemma SucceededIsClean(cps: Checkpoints, run: Run, m: Material, name: string)
    requires AllGenuine(cps, m) && EntryOf(cps, run, m, name).status == "succeeded"
    ensures Clean(cps, run, m, name)
  {
    var check := CheckFor(m.checks, name);
    assert check.Some? && Genuine(cps, check.value);
  }

  /** A completed status leaves no planned check behind. */
  lemma CompletedMeansAllClean(w: World, cps: Checkpoints, run: Run, m: Material, policyStatus: string)
    requires AllGenuine(cps, m) && StatusOf(Coverage(w, cps, run, m), policyStatus).0 == "completed"
    ensures policyStatus != "error" && forall name <- m.planned :: Clean(cps, run, m, name)
  {
    var coverage := Coverage(w, cps, run, m);
    forall name <- m.planned
      ensures Clean(cps, run, m, name)
    {
      var i :| 0 <= i < |m.planned| && m.planned[i] == name;
      CoverageAt(cps, run, m, |m.planned|);
      assert coverage[i] == EntryOf(cps, run, m, name);
      CompletedLeavesNone(coverage, policyStatus, coverage[i]);
      SucceededIsClean(cps, run, m, name);
    }
    CompletedLeavesNone(coverage, policyStatus, Entry("", "not_applicable", None, false, "", "", None));
  }

  lemma CompletedLeavesNone(coverage: seq<Entry>, policyStatus: string, e: Entry)
    requires StatusOf(coverage, policyStatus).0 == "completed"
    ensures policyStatus != "error"
    ensures e in coverage && e.status != "not_applicable" ==> e.status == "succeeded"
  {
    assert e in coverage && e.status != "not_applicable" ==> e in Planned(coverage);
  }

  lemma AssembledIsHonest(w: World, cps: Checkpoints, run: Run, s: Summary)
    requires AllJustified(w, cps) && s.run == run && IsMerged(cps, s) && Assemble(cps, run, s).Some?
    ensures Honest(w, cps, Assemble(cps, run, s).value)
  {
    var r, m := Assemble(cps, run, s).value, s.material;
    assert Justified(w, cps, SummaryKey(run, m), cps[SummaryKey(run, m)]);
    assert Justified(w, cps, ReportKey(run, m), cps[ReportKey(run, m)]);
    if r.status == "completed" {
      CompletedMeansAllClean(w, cps, run, m, cps[PolicyKey(run, m)].policyStatus);
      assert Backed(w, cps, run, m, r);
    }
  }

  /** Reuse copies a completed result of the same source, and so stays honest. */
  lemma ReusedIsHonest(w: World, cps: Checkpoints, run: Run)
    requires AllJustified(w, cps) && run.reuse.contentHash == run.contentHash
    ensures Honest(w, cps, Reuse(cps, run)) && Reuse(cps, run).contentHash == run.contentHash
  {
    var key := CompletedKey(run.reuse);
    if key in cps {
      assert Justified(w, cps, key, cps[key]);
      var ref := cps[key].resultRef;
      assert Justified(w, cps, ref, cps[ref]);
      var previous, r := cps[ref].result, Reuse(cps, run);
      var origin, m :| Backed(w, cps, origin, m, previous);
      assert Backed(w, cps, origin, m, r);
    }
  }

  ghost predicate Grows(a: History, b: History) {
    Extends(a.store, b.store) && a.checks <= b.checks && a.merged <= b.merged
  }

  lemma MayWriteIsJustified(w: World, seen: History, now: History, key: Key, body: Body)
    requires Inv(w, seen) && Inv(w, now) && Grows(seen, now) && MayWrite(w, seen, now.store, key, body)
    ensures Justified(w, now.store, key, body)
  {
    match key
    case ReportKey(run, m) => GenuineGrows(seen.store, now.store, m); SameCoverage(w, seen.store, now.store, run, m);
    case SummaryKey(run, m) => GenuineGrows(seen.store, now.store, m); SameCoverage(w, seen.store, now.store, run, m);
    case ResultKey(run, _) => ResultIsHonest(w, seen, run, body); HonestGrows(w, seen.store, now.store, body.result);
    case CompletedKey(reuse) =>
      var run, inputs :| MayPoint(now.store, run, inputs) && reuse == run.reuse
        && body == PointerBody(ResultKey(run, inputs), run.id);
      assert Justified(w, now.store, ResultKey(run, inputs), now.store[ResultKey(run, inputs)]);
    case _ =>
  }

  lemma ResultIsHonest(w: World, seen: History, run: Run, body: Body)
    requires Inv(w, seen)
    requires exists ending :: EndsWith(seen, run, ending, body)
    ensures body.ResultBody? && body.result.contentHash == run.contentHash && Honest(w, seen.store, body.result)
  {
    var ending :| EndsWith(seen, run, ending, body);
    if ending.Assembled? {
      AssembledIsHonest(w, seen.store, run, ending.summary);
    } else if ending.Reused? {
      ReusedIsHonest(w, seen.store, run);
    }
  }

  // ---------------------------------------------------------------- the steps do only that

  /** The write and the check of a detect step, whoever wrote the checkpoint first. */
  lemma DetectMay(w: World, h: History, run: Run, name: string, fingerprint: string, scan: Scan, cached: bool)
    requires Inv(w, h)
    ensures var key := DetectorKey(run.contentHash, name, fingerprint);
      var write := Write(key, DetectorBody(name, run.contentHash, scan.findings, scan.error));
      var after := Do(h, write);
      && May(w, h, h, write)
      && after.store[key].DetectorBody?
      && May(w, after, after, Return(CheckOf(run, name, fingerprint, after.store[key], cached)))
  {
    var key := DetectorKey(run.contentHash, name, fingerprint);
    var after := PutOnce(h.store, key, DetectorBody(name, run.contentHash, scan.findings, scan.error));
    assert key in h.store ==> Justified(w, h.store, key, h.store[key]);
    assert DetectMade(after, run, name, fingerprint, cached, CheckOf(run, name, fingerprint, after[key], cached));
  }

  lemma IncidentMay(w: World, h: History, run: Run, name: string, error: Json, parse: string -> Option<Json>)
    ensures May(w, h, h, Return(IncidentCheck(run, name, error, parse)))
  {
  }

  /** The result writes of a merge on the checks it was given, in their order, and the summary it
      then passes on. */
  lemma MergeMay(w: World, seen: History, now: History, run: Run, m: Material)
    requires Inv(w, seen) && Inv(w, now) && Grows(seen, now) && Given(seen, m)
    requires w.policy(run, ReportOf(w, seen.store, run, m)).PolicyBody?
    ensures var ops := FinalOps(w, seen.store, run, m);
      var one := Do(now, Write(ops[0].key, ops[0].body));
      var two := Do(one, Write(ops[1].key, ops[1].body));
      var three := Do(two, Write(ops[2].key, ops[2].body));
      && May(w, seen, now, Write(ops[0].key, ops[0].body))
      && May(w, seen, one, Write(ops[1].key, ops[1].body))
      && May(w, seen, two, Write(ops[2].key, ops[2].body))
      && three.store[SummaryKey(run, m)].SummaryBody?
      && May(w, three, three, PassOn(three.store[SummaryKey(run, m)].summary))
  {
    var ops := FinalOps(w, seen.store, run, m);
    var key := SummaryKey(run, m);
    assert key in now.store ==> Justified(w, now.store, key, now.store[key]);
  }

  /** The result of a finalize step, and the pointer it adds to what is then stored. */
  lemma FinalizeMay(w: World, h: History, run: Run, ending: Ending, inputs: Inputs)
    requires Inv(w, h) && EndingIsReal(h, run, ending) && ResultFor(h.store, run, ending).Some?
    ensures var key := ResultKey(run, inputs);
      var write := Write(key, ResultBody(ResultFor(h.store, run, ending).value));
      var after := Do(h, write);
      && May(w, h, h, write)
      && after.store[key].ResultBody?
      && (after.store[key].result.status == "completed" && after.store[key].result.reusedFrom.None? ==>
            May(w, after, after, Write(CompletedKey(run.reuse), PointerBody(key, run.id))))
  {
    var key := ResultKey(run, inputs);
    var after := PutOnce(h.store, key, ResultBody(ResultFor(h.store, run, ending).value));
    assert key in h.store ==> Justified(w, h.store, key, h.store[key]);
    assert EndsWith(h, run, ending, ResultBody(ResultFor(h.store, run, ending).value));
    assert after[key].result.status == "completed" ==> MayPoint(after, run, inputs);
  }

  // ---------------------------------------------------------------- whole runs

  /** Any number of workers, each doing what it may from something it saw earlier; a worker that
      crashes simply does no more. */
  ghost predicate Behaviour(w: World, states: seq<History>) {
    && states != [] && states[0] == History(map[], {}, {})
    && forall i: nat | 0 < i < |states| :: OneAction(w, states, i)
  }

  ghost predicate OneAction(w: World, states: seq<History>, i: nat)
    requires 0 < i < |states|
  {
    exists a, j: nat :: DidFrom(w, states, i, j, a)
  }

  /** Action i is this one, from what its worker saw after action j. */
  ghost predicate DidFrom(w: World, states: seq<History>, i: nat, j: nat, a: Action)
    requires 0 < i < |states|
  {
    j < i && May(w, states[j], states[i - 1], a) && states[i] == Do(states[i - 1], a)
  }

  /** What a step may do continues any run. */
  lemma OneMore(w: World, states: seq<History>, j: nat, a: Action)
    requires Behaviour(w, states) && j < |states| && May(w, states[j], states[|states| - 1], a)
    ensures Behaviour(w, states + [Do(states[|states| - 1], a)])
  {
    var more := states + [Do(states[|states| - 1], a)];
    forall i: nat | 0 < i < |more|
      ensures OneAction(w, more, i)
    {
      if i < |states| {
        assert OneAction(w, states, i);
        var b, k: nat :| DidFrom(w, states, i, k, b);
        assert DidFrom(w, more, i, k, b);
      } else {
        assert DidFrom(w, more, i, j, a);
      }
    }
  }

  lemma {:induction false} StatesGrow(w: World, states: seq<History>, i: nat, j: nat)
    requires Behaviour(w, states) && i <= j < |states|
    ensures Grows(states[i], states[j])
  {
    if i < j {
      StatesGrow(w, states, i, j - 1);
      assert OneAction(w, states, j);
    }
  }

  /** In every run every stored body is justified, every returned check is genuine, and every
      summary that was passed on is stored. */
  lemma {:induction false} AlwaysJustified(w: World, states: seq<History>, i: nat)
    requires Behaviour(w, states) && i < |states|
    ensures Inv(w, states[i])
  {
    if i > 0 {
      AlwaysJustified(w, states, i - 1);
      assert OneAction(w, states, i);
      var a, j: nat :| DidFrom(w, states, i, j, a);
      AlwaysJustified(w, states, j);
      StatesGrow(w, states, j, i - 1);
      ActionKeepsInv(w, states[j], states[i - 1], a);
    }
  }

  lemma ActionKeepsInv(w: World, seen: History, now: History, a: Action)
    requires Inv(w, seen) && Inv(w, now) && Grows(seen, now) && May(w, seen, now, a)
    ensures Inv(w, Do(now, a))
  {
    match a
    case Write(key, body) => WriteKeepsInv(w, seen, now, key, body);
    case Return(check) => MadeIsGenuine(seen.store, check); OneGenuineGrows(seen.store, now.store, check);
    case PassOn(summary) =>
  }

  lemma WriteKeepsInv(w: World, seen: History, now: History, key: Key, body: Body)
    requires Inv(w, seen) && Inv(w, now) && Grows(seen, now) && MayWrite(w, seen, now.store, key, body)
    ensures Inv(w, Do(now, Write(key, body)))
  {
    MayWriteIsJustified(w, seen, now, key, body);
    var after := PutOnce(now.store, key, body);
    assert Extends(now.store, after);
    JustifiedGrows(w, now.store, after, key, body);
    PutKeepsJustified(w, now.store, key, body);
    forall c <- now.checks
      ensures Genuine(after, c)
    {
      OneGenuineGrows(now.store, after, c);
    }
  }

  /** In every run: a stored result that says completed rests on a merge in which every planned
      check finished without an error and policy was evaluated. */
  lemma CompletedResultsAreHonest(w: World, states: seq<History>, i: nat, key: Key) returns (origin: Run, m: Material)
    requires Behaviour(w, states) && i < |states|
    requires key.ResultKey? && key in states[i].store && states[i].store[key].ResultBody?
      && states[i].store[key].result.status == "completed"
    ensures Backed(w, states[i].store, origin, m, states[i].store[key].result)
  {
    AlwaysJustified(w, states, i);
    assert Justified(w, states[i].store, key, states[i].store[key]);
    origin, m :| Backed(w, states[i].store, origin, m, states[i].store[key].result);
  }

  /** In every run: a completed pointer leads from then on to one and the same completed result of
      the source its key is about. */
  lemma PointersLeadToCompletedForever(w: World, states: seq<History>, i: nat, j: nat, reuse: ReuseKey)
    returns (origin: Run, m: Material)
    requires Behaviour(w, states) && i <= j < |states| && CompletedKey(reuse) in states[i].store
    ensures var key := CompletedKey(reuse);
      && key in states[j].store && states[j].store[key] == states[i].store[key] && states[j].store[key].PointerBody?
      && PointerStands(states[j].store, reuse, states[j].store[key].resultRef)
      && states[j].store[key].resultRef in states[i].store
      && states[j].store[states[j].store[key].resultRef] == states[i].store[states[i].store[key].resultRef]
      && Backed(w, states[j].store, origin, m, states[j].store[states[j].store[key].resultRef].result)
  {
    AlwaysJustified(w, states, i);
    StatesGrow(w, states, i, j);
    var key := CompletedKey(reuse);
    assert Justified(w, states[i].store, key, states[i].store[key]);
    var ref := states[i].store[key].resultRef;
    assert ref in states[i].store;
    origin, m := CompletedResultsAreHonest(w, states, j, ref);
  }

  /** A run that reuses never ends better than what it reuses: its result is completed exactly
      when a pointer for its own source is there. */
  lemma ReuseNeverUpgrades(w: World, states: seq<History>, i: nat, run: Run)
    requires Behaviour(w, states) && i < |states| && run.reuse.contentHash == run.contentHash
    ensures Reuse(states[i].store, run).status == "completed" <==> CompletedKey(run.reuse) in states[i].store
    ensures CompletedKey(run.reuse) !in states[i].store ==>
      Reuse(states[i].store, run) == Failed(run, "reused_result_missing")
  {
    AlwaysJustified(w, states, i);
    if CompletedKey(run.reuse) in states[i].store {
      assert Justified(w, states[i].store, CompletedKey(run.reuse), states[i].store[CompletedKey(run.reuse)]);
    }
  }

  // ---------------------------------------------------------------- a run that gets there

  /** Some run is at the one point and later, or then, at the other. */
  ghost predicate Leads(w: World, a: History, b: History) {
    exists states, i :: RunsFrom(w, states, i, a, b)
  }

  ghost predicate RunsFrom(w: World, states: seq<History>, i: nat, a: History, b: History) {
    Behaviour(w, states) && i < |states| && states[i] == a && states[|states| - 1] == b
  }

  lemma LeadsOn(w: World, seen: History, now: History, a: Action)
    requires Leads(w, seen, now) && May(w, seen, now, a)
    ensures Leads(w, seen, Do(now, a)) && Leads(w, Do(now, a), Do(now, a))
  {
    var states, i :| RunsFrom(w, states, i, seen, now);
    OneMore(w, states, i, a);
    var more := states + [Do(now, a)];
    assert RunsFrom(w, more, i, seen, Do(now, a)) && RunsFrom(w, more, |states|, Do(now, a), Do(now, a));
  }

  lemma LeadsToInv(w: World, a: History, b: History)
    requires Leads(w, a, b)
    ensures Inv(w, a) && Inv(w, b) && Grows(a, b)
  {
    var states, i :| RunsFrom(w, states, i, a, b);
    AlwaysJustified(w, states, i);
    AlwaysJustified(w, states, |states| - 1);
    StatesGrow(w, states, i, |states| - 1);
  }

  lemma StartLeads(w: World)
    ensures Leads(w, History(map[], {}, {}), History(map[], {}, {}))
  {
    var start := History(map[], {}, {});
    assert RunsFrom(w, [start], 0, start, start);
  }

  /** A detector's clean result, and the check that was returned for it. */
  lemma Detected(w: World, run: Run, name: string, fingerprint: string, findings: seq<Finding>)
    returns (h: History, check: Check)
    ensures Leads(w, h, h) && check in h.checks
    ensures h.store == map[DetectorKey(run.contentHash, name, fingerprint) :=
                           DetectorBody(name, run.contentHash, findings, None)]
    ensures check == Check(name, "succeeded", Ref(run.contentHash, name, fingerprint), false, "", "", None)
  {
    var start := History(map[], {}, {});
    StartLeads(w);
    LeadsToInv(w, start, start);
    DetectMay(w, start, run, name, fingerprint, Scan(findings, None), false);
    var key, body := DetectorKey(run.contentHash, name, fingerprint),
      DetectorBody(name, run.contentHash, findings, None);
    var written := Do(start, Write(key, body));
    LeadsOn(w, start, start, Write(key, body));
    check := CheckOf(run, name, fingerprint, body, false);
    LeadsOn(w, written, written, Return(check));
    h := Do(written, Return(check));
  }

  /** Report, policy and summary of these checks on top, and the summary passed on. */
  lemma Merged(w: World, h: History, run: Run, m: Material) returns (after: History)
    requires Leads(w, h, h) && Given(h, m) && (forall key <- h.store :: key.DetectorKey?)
    requires w.policy(run, ReportOf(w, h.store, run, m)).PolicyBody?
    ensures Leads(w, after, after)
    ensures var report := ReportOf(w, h.store, run, m); var s := SummaryOf(w, h.store, run, m);
      && s in after.merged
      && after.store == h.store[ReportKey(run, m) := report][PolicyKey(run, m) := w.policy(run, report)]
                               [SummaryKey(run, m) := SummaryBody(s)]
  {
    LeadsToInv(w, h, h);
    MergeMay(w, h, h, run, m);
    var ops := FinalOps(w, h.store, run, m);
    var one := Do(h, Write(ops[0].key, ops[0].body));
    LeadsOn(w, h, h, Write(ops[0].key, ops[0].body));
    var two := Do(one, Write(ops[1].key, ops[1].body));
    LeadsOn(w, h, one, Write(ops[1].key, ops[1].body));
    var three := Do(two, Write(ops[2].key, ops[2].body));
    LeadsOn(w, h, two, Write(ops[2].key, ops[2].body));
    LeadsOn(w, three, three, PassOn(SummaryOf(w, h.store, run, m)));
    after := Do(three, PassOn(SummaryOf(w, h.store, run, m)));
  }

  lemma CleanCheckCovers(w: World, cps: Checkpoints, run: Run, name: string, fingerprint: string,
                         findings: seq<Finding>)
    requires DetectorKey(run.contentHash, name, fingerprint) in cps
    requires cps[DetectorKey(run.contentHash, name, fingerprint)] == DetectorBody(name, run.contentHash, findings, None)
    ensures var check := Check(name, "succeeded", Ref(run.contentHash, name, fingerprint), false, "", "", None);
      var m := Material([name], [], [check]);
      && Coverage(w, cps, run, m) == [Entry(name, "succeeded", Some(|findings|), false, "", "", None)]
      && UnionTo(cps, run, m, 1) == Add(map[], findings)
  {
    var check := Check(name, "succeeded", Ref(run.contentHash, name, fingerprint), false, "", "", None);
    var m := Material([name], [], [check]);
    assert CheckFor(m.checks, name) == Some(check);
    assert EntryOf(cps, run, m, name) == Entry(name, "succeeded", Some(|findings|), false, "", "", None);
    assert CoverageTo(cps, run, m, 0) == [] && UnionTo(cps, run, m, 0) == map[];
  }

  /** The promises above are about something: where one detector is planned, finds what it finds and
      has no error, and policy is evaluated, some run ends with a completed result that has just
      these findings, and with the pointer of its reuse key. */
  lemma CleanScanCompletes(w: World, run: Run, name: string, fingerprint: string, findings: seq<Finding>,
                           inputs: Inputs)
    returns (h: History)
    requires name in w.detectors && run.reuse.contentHash == run.contentHash
    requires forall report :: w.policy(run, report).PolicyBody? && w.policy(run, report).policyStatus != "error"
    ensures Leads(w, h, h)
    ensures var key := ResultKey(run, inputs);
      && key in h.store && h.store[key].ResultBody?
      && h.store[key].result.status == "completed" && h.store[key].result.findings == Add(map[], findings)
      && CompletedKey(run.reuse) in h.store && h.store[CompletedKey(run.reuse)] == PointerBody(key, run.id)
  {
    var found, check := Detected(w, run, name, fingerprint, findings);
    var m := Material([name], [], [check]);
    CleanCheckCovers(w, found.store, run, name, fingerprint, findings);
    var merged := Merged(w, found, run, m);
    var s := SummaryOf(w, found.store, run, m);
    CleanStatus(s.coverage[0], merged.store[PolicyKey(run, m)].policyStatus);
    h := Finalized(w, merged, run, s, inputs);
  }

  /** A completed assembly stored, and the pointer to it. */
  lemma Finalized(w: World, h: History, run: Run, s: Summary, inputs: Inputs) returns (after: History)
    requires Leads(w, h, h) && EndingIsReal(h, run, Assembled(s))
    requires ResultKey(run, inputs) !in h.store && CompletedKey(run.reuse) !in h.store
    requires var r := Assemble(h.store, run, s); r.Some? && r.value.status == "completed" && r.value.reusedFrom.None?
    ensures Leads(w, after, after)
    ensures after.store == h.store[ResultKey(run, inputs) := ResultBody(Assemble(h.store, run, s).value)]
                                  [CompletedKey(run.reuse) := PointerBody(ResultKey(run, inputs), run.id)]
  {
    LeadsToInv(w, h, h);
    FinalizeMay(w, h, run, Assembled(s), inputs);
    var write := Write(ResultKey(run, inputs), ResultBody(Assemble(h.store, run, s).value));
    var mid := Do(h, write);
    LeadsOn(w, h, h, write);
    var point := Write(CompletedKey(run.reuse), PointerBody(ResultKey(run, inputs), run.id));
    LeadsOn(w, mid, mid, point);
    after := Do(mid, point);
  }

  lemma CleanStatus(e: Entry, policyStatus: string)
    requires e.status == "succeeded" && policyStatus != "error"
    ensures StatusOf([e], policyStatus) == ("completed", "")
  {
    assert [e][1..] == [];
    assert Planned([e]) == [e] && Succeeded([e]) == [e];
  }
}
