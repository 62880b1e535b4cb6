/** Validation of one model response for a batch of units. */
module Batches {
  import opened Json

  type Id = string

  const SYNTHESIS: Id := "SYNTHESIS"
  const MAX_BATCH: nat := 8

  /** The checks of one item: its schema, and the grounding and wording checks. */
  datatype Checks = Checks(schema: Json -> bool, semantic: (Id, Json) -> bool, synthesisSchema: Json -> bool,
                           synthesisSemantic: Json -> bool)

  predicate ValidItem(checks: Checks, id: Id, item: Json) {
    if id == SYNTHESIS then checks.synthesisSchema(item) && checks.synthesisSemantic(item)
    else checks.schema(item) && checks.semantic(id, item)
  }

  predicate IsBatch(payload: Json) {
    payload.Obj? && payload.fields.Keys == {"explanations", "synthesis"} && payload.fields["explanations"].Arr?
  }

  /** The group an explanation names, if it names one. */
  function GroupOf(item: Json): Option<Id> {
    if item.Obj? && "group_id" in item.fields && item.fields["group_id"].Str?
    then Some(item.fields["group_id"].s)
    else None
  }

  function Considered(payload: Json): seq<Json>
    requires IsBatch(payload)
  {
    var items := payload.fields["explanations"].items;
    if |items| <= 2 * MAX_BATCH then items else items[..2 * MAX_BATCH]
  }

  predicate NamesRequested(item: Json, requested: seq<Id>) {
    GroupOf(item).Some? && GroupOf(item).value in requested
  }

  // ---------------------------------------------------------------- what a batch says about a group

  datatype Verdict = Missing | Good(item: Json) | Bad

  /** After n items: a second explanation of a group spoils the first. */
  function VerdictOf(checks: Checks, items: seq<Json>, n: nat, id: Id): Verdict
    requires n <= |items|
  {
    if n == 0 then Missing
    else
      var before := VerdictOf(checks, items, n - 1, id);
      if GroupOf(items[n - 1]) != Some(id) then before
      else if before.Missing? && ValidItem(checks, id, items[n - 1]) then Good(items[n - 1])
      else Bad
  }

  /** The item at k is the only one among the first n that explains the group, and it passes. */
  ghost predicate OnlyGood(checks: Checks, items: seq<Json>, n: nat, id: Id, k: nat) {
    && k < n <= |items| && GroupOf(items[k]) == Some(id) && ValidItem(checks, id, items[k])
    && forall j | 0 <= j < n && j != k :: GroupOf(items[j]) != Some(id)
  }

  /** A group is good exactly when one item explains it and that item passes every check. */
  lemma {:induction false} GoodMeansExactlyOne(checks: Checks, items: seq<Json>, n: nat, id: Id)
    requires n <= |items|
    ensures VerdictOf(checks, items, n, id).Missing? <==> forall j | 0 <= j < n :: GroupOf(items[j]) != Some(id)
    ensures VerdictOf(checks, items, n, id).Good? <==> exists k: nat :: OnlyGood(checks, items, n, id, k)
    ensures VerdictOf(checks, items, n, id).Good? ==>
      exists k: nat :: OnlyGood(checks, items, n, id, k) && items[k] == VerdictOf(checks, items, n, id).item
  {
    if n > 0 {
      GoodMeansExactlyOne(checks, items, n - 1, id);
      var before := VerdictOf(checks, items, n - 1, id);
      if GroupOf(items[n - 1]) != Some(id) {
        forall k: nat
          ensures OnlyGood(checks, items, n, id, k) <==> OnlyGood(checks, items, n - 1, id, k)
        {
        }
        if before.Good? {
          var k: nat :| OnlyGood(checks, items, n - 1, id, k) && items[k] == before.item;
          assert OnlyGood(checks, items, n, id, k);
        }
      } else if before.Missing? && ValidItem(checks, id, items[n - 1]) {
        assert OnlyGood(checks, items, n, id, n - 1);
      } else {
        forall k: nat
          ensures !OnlyGood(checks, items, n, id, k)
        {
        }
      }
    }
  }

  // ---------------------------------------------------------------- the check

  datatype Result = Result(accepted: map<Id, Json>, violations: map<Id, seq<string>>)

  function Noted(violations: map<Id, seq<string>>, id: Id, code: string): map<Id, seq<string>> {
    violations[id := (if id in violations then violations[id] else []) + [code]]
  }

  predicate Rejected(violations: map<Id, seq<string>>, id: Id) {
    id in violations && violations[id] != []
  }

  /** Accepted and rejected agree with a verdict. */
  ghost predicate Reflects(r: Result, id: Id, v: Verdict) {
    && (id in r.accepted <==> v.Good?)
    && (v.Good? ==> r.accepted[id] == v.item)
    && (Rejected(r.violations, id) <==> v.Bad?)
  }

  ghost predicate Scanned(checks: Checks, items: seq<Json>, n: nat, requested: seq<Id>, seen: set<Id>, r: Result) {
    && n <= |items|
    && (forall id <- r.accepted :: id in requested)
    && (forall id | Rejected(r.violations, id) :: id in requested)
    && (forall id <- requested ::
          (id in seen <==> !VerdictOf(checks, items, n, id).Missing?)
            && Reflects(r, id, VerdictOf(checks, items, n, id)))
  }

  method ScanItem(checks: Checks, items: seq<Json>, n: nat, requested: seq<Id>, seen: set<Id>, r: Result)
    returns (seen': set<Id>, r': Result)
    requires n < |items| && NamesRequested(items[n], requested) && SYNTHESIS !in requested
    requires Scanned(checks, items, n, requested, seen, r)
    ensures Scanned(checks, items, n + 1, requested, seen', r')
  {
    var id := GroupOf(items[n]).value;
    seen' := seen + {id};
    if id in seen {
      r' := Result(r.accepted - {id}, Noted(r.violations, id, "DUPLICATE_GROUP"));
    } else if !checks.schema(items[n]) {
      r' := Result(r.accepted, Noted(r.violations, id, "SCHEMA"));
    } else if !checks.semantic(id, items[n]) {
      r' := Result(r.accepted, Noted(r.violations, id, "SEMANTIC"));
    } else {
      r' := Result(r.accepted[id := items[n]], r.violations);
    }
    forall other <- requested
      ensures Reflects(r', other, VerdictOf(checks, items, n + 1, other))
    {
      assert Reflects(r, other, VerdictOf(checks, items, n, other));
    }
  }

  function Targets(requested: seq<Id>, synthesis: bool): seq<Id> {
    requested + if synthesis then [SYNTHESIS] else []
  }

  /** An explanation of a group nobody asked for taints the whole batch. */
  ghost predicate Tainted(items: seq<Json>, requested: seq<Id>) {
    exists item <- items :: !NamesRequested(item, requested)
  }

  function SynthesisVerdict(checks: Checks, payload: Json): Verdict
    requires IsBatch(payload)
  {
    var synthesis := payload.fields["synthesis"];
    if synthesis != Null && ValidItem(checks, SYNTHESIS, synthesis) then Good(synthesis) else Bad
  }

  ghost predicate AcceptedIs(checks: Checks, payload: Json, requested: seq<Id>, synthesis: bool, id: Id, v: Verdict) {
    && IsBatch(payload)
    && !Tainted(Considered(payload), requested)
    && ((id in requested && v == VerdictOf(checks, Considered(payload), |Considered(payload)|, id))
        || (synthesis && id == SYNTHESIS && v == SynthesisVerdict(checks, payload)))
  }

  /** A unit is accepted exactly when the batch is well formed and untainted and its own item is
      good; every requested unit is either accepted or has a violation, never both. */
  method CheckExplanationBatch(checks: Checks, payload: Json, requested: seq<Id>, synthesis: bool) returns (r: Result)
    requires SYNTHESIS !in requested
    ensures forall id <- r.accepted ::
      AcceptedIs(checks, payload, requested, synthesis, id, Good(r.accepted[id]))
        && ValidItem(checks, id, r.accepted[id])
    ensures forall id, item | AcceptedIs(checks, payload, requested, synthesis, id, Good(item)) ::
      id in r.accepted && r.accepted[id] == item
    ensures forall id <- Targets(requested, synthesis) :: id in r.accepted <==> !Rejected(r.violations, id)
  {
    if !IsBatch(payload) {
      r := RejectAll(Targets(requested, synthesis));
      return;
    }
    var items := Considered(payload);
    var seen, tainted;
    seen, tainted, r := ScanAll(checks, items, requested);
    r := NoteMissing(checks, items, requested, seen, r);
    if synthesis {
      r := AddSynthesis(checks, payload, r);
    }
    if tainted {
      r := Taint(r, Targets(requested, synthesis));
    } else {
      forall id <- r.accepted
        ensures ValidItem(checks, id, r.accepted[id])
      {
        if id != SYNTHESIS {
          GoodMeansExactlyOne(checks, items, |items|, id);
        }
      }
    }
  }

  method ScanAll(checks: Checks, items: seq<Json>, requested: seq<Id>) returns (seen: set<Id>, tainted: bool, r: Result)
    requires SYNTHESIS !in requested
    ensures Scanned(checks, items, |items|, requested, seen, r)
    ensures tainted <==> Tainted(items, requested)
  {
    seen, tainted, r := {}, false, Result(map[], map[]);
    for n := 0 to |items|
      invariant Scanned(checks, items, n, requested, seen, r)
      invariant tainted <==> Tainted(items[..n], requested)
    {
      assert items[..n + 1] == items[..n] + [items[n]];
      if !NamesRequested(items[n], requested) {
        tainted := true;
        OtherGroup(checks, items, n, requested);
      } else {
        seen, r := ScanItem(checks, items, n, requested, seen, r);
      }
    }
    assert items[..|items|] == items;
  }

  lemma OtherGroup(checks: Checks, items: seq<Json>, n: nat, requested: seq<Id>)
    requires n < |items| && !NamesRequested(items[n], requested)
    ensures forall id <- requested :: VerdictOf(checks, items, n + 1, id) == VerdictOf(checks, items, n, id)
  {
  }

  method RejectAll(targets: seq<Id>) returns (r: Result)
    ensures r.accepted == map[] && forall id <- targets :: Rejected(r.violations, id)
  {
    var violations: map<Id, seq<string>> := map[];
    for k := 0 to |targets|
      invariant forall j | 0 <= j < k :: Rejected(violations, targets[j])
    {
      violations := Noted(violations, targets[k], "SCHEMA");
    }
    r := Result(map[], violations);
  }

  /** Accepted and rejected are the two sides of every verdict, a missing one being a rejection. */
  ghost predicate Decided(checks: Checks, items: seq<Json>, requested: seq<Id>, r: Result) {
    && (forall id <- r.accepted :: id in requested)
    && (forall id | Rejected(r.violations, id) :: id in requested)
    && (forall id <- requested ::
          var v := VerdictOf(checks, items, |items|, id);
          && (id in r.accepted <==> v.Good?) && (v.Good? ==> r.accepted[id] == v.item)
          && (id in r.accepted <==> !Rejected(r.violations, id)))
  }

  method NoteMissing(checks: Checks, items: seq<Json>, requested: seq<Id>, seen: set<Id>, r: Result)
    returns (r': Result)
    requires Scanned(checks, items, |items|, requested, seen, r)
    ensures Decided(checks, items, requested, r')
  {
    r' := r;
    for k := 0 to |requested|
      invariant r'.accepted == r.accepted
      invariant forall id :: Rejected(r'.violations, id) <==>
        Rejected(r.violations, id) || (id in requested[..k] && id !in seen)
    {
      assert requested[..k + 1] == requested[..k] + [requested[k]];
      if requested[k] !in seen {
        r' := Result(r'.accepted, Noted(r'.violations, requested[k], "MISSING_GROUP"));
      }
    }
    assert requested[..|requested|] == requested;
    forall id <- requested
      ensures id in r'.accepted <==> !Rejected(r'.violations, id)
    {
      assert Reflects(r, id, VerdictOf(checks, items, |items|, id));
    }
  }

  method AddSynthesis(checks: Checks, payload: Json, r: Result) returns (r': Result)
    requires IsBatch(payload) && SYNTHESIS !in r.accepted && !Rejected(r.violations, SYNTHESIS)
    ensures forall id | id != SYNTHESIS ::
      (id in r'.accepted <==> id in r.accepted) && (id in r.accepted ==> r'.accepted[id] == r.accepted[id])
      && (Rejected(r'.violations, id) <==> Rejected(r.violations, id))
    ensures Reflects(r', SYNTHESIS, SynthesisVerdict(checks, payload))
  {
    var synthesis := payload.fields["synthesis"];
    if synthesis == Null || !checks.synthesisSchema(synthesis) {
      r' := Result(r.accepted, Noted(r.violations, SYNTHESIS, "SCHEMA"));
    } else if !checks.synthesisSemantic(synthesis) {
      r' := Result(r.accepted, Noted(r.violations, SYNTHESIS, "SEMANTIC"));
    } else {
      r' := Result(r.accepted[SYNTHESIS := synthesis], r.violations);
    }
  }

  /** Nothing from a tainted batch is trusted. */
  method Taint(r: Result, targets: seq<Id>) returns (r': Result)
    requires forall id <- r.accepted :: id in targets
    requires forall id <- targets :: id in r.accepted <==> !Rejected(r.violations, id)
    ensures r'.accepted == map[] && forall id <- targets :: Rejected(r'.violations, id)
  {
    var left, violations := r.accepted.Keys, r.violations;
    while left != {}
      invariant left <= r.accepted.Keys
      invariant forall id <- targets :: id !in left ==> Rejected(violations, id)
      decreases |left|
    {
      var id :| id in left;
      left := left - {id};
      violations := Noted(violations, id, "UNREQUESTED_GROUP");
    }
    r' := Result(map[], violations);
  }
}
