/** The run record: generation-aware merges, the two ways they are stored, and why the optimistic
    one behaves like the serialized one under every interleaving. */
module RunState {
  import opened Json

  /** A run record, or the changes a step asks for; an absent key is None. */
  datatype Run = Run(
    generation: Option<int>, status: Option<string>, version: Option<int>, rest: map<string, Json>)

  const FINAL: set<string> := {"completed", "partial", "failed"}

  function Or(value: Option<int>, default: int): int {
    match value case Some(v) => v case None => default
  }

  function Generation(run: Run): int {
    Or(run.generation, 0)
  }

  function Version(run: Run): int {
    Or(run.version, 0)
  }

  predicate IsFinal(run: Run) {
    run.status.Some? && run.status.value in FINAL
  }

  function Override<T>(current: Option<T>, change: Option<T>): Option<T> {
    if change.Some? then change else current
  }

  /** None when the changes come from an older generation or would undo a final outcome. */
  function MergeRun(current: Run, changes: Run): Option<Run> {
    var generation := Or(changes.generation, Generation(current));
    if generation < Generation(current) then None
    else if generation == Generation(current) && IsFinal(current) && changes.status.Some?
      && changes.status.value in {"queued", "running"} then None
    else
      Some(Run(Override(current.generation, changes.generation), Override(current.status, changes.status),
               Some(Version(current) + 1), current.rest + changes.rest))
  }

  // ---------------------------------------------------------------- what a merge keeps

  /** (generation, is-final), ordered lexicographically. */
  predicate NotBehind(a: Run, b: Run) {
    Generation(a) < Generation(b) || (Generation(a) == Generation(b) && (IsFinal(a) ==> IsFinal(b)))
  }

  /** The changes take a final run out of its outcome with a status the guard does not know. */
  predicate UndoesOutcome(current: Run, changes: Run) {
    && IsFinal(current)
    && Or(changes.generation, Generation(current)) == Generation(current)
    && changes.status.Some?
    && changes.status.value !in FINAL + {"queued", "running"}
  }

  /** A merge raises the version by one, and goes back in (generation, is-final) exactly when it
      undoes an outcome. */
  lemma MergeIsMonotoneIff(current: Run, changes: Run)
    requires MergeRun(current, changes).Some?
    ensures var merged := MergeRun(current, changes).value;
      && Version(merged) == Version(current) + 1
      && Generation(merged) >= Generation(current)
      && (NotBehind(current, merged) <==> !UndoesOutcome(current, changes))
  {
  }

  /** Such changes exist: the guard only knows the two statuses a step starts with. */
  lemma UnknownStatusUndoes()
    ensures var current := Run(Some(0), Some("completed"), Some(3), map[]);
      var changes := Run(None, Some("archived"), None, map[]);
      && MergeRun(current, changes).Some?
      && !NotBehind(current, MergeRun(current, changes).value)
  {
  }

  /** Within a generation one outcome may replace another. */
  lemma OutcomesReplaceEachOther(current: Run, changes: Run)
    requires IsFinal(current) && IsFinal(changes) && changes.generation.None?
    ensures MergeRun(current, changes).Some? && MergeRun(current, changes).value.status == changes.status
  {
  }

  // ---------------------------------------------------------------- serialized updates

  type Key = (string, string)   // tenant, run

  /** The local store: each method is one immediate transaction. */
  class LocalRuns {
    var runs: map<Key, Run>

    constructor ()
      ensures runs == map[]
    {
      runs := map[];
    }

    method CreateRun(key: Key, run: Run) returns (created: bool)
      modifies this
      ensures created <==> key !in old(runs)
      ensures runs == if created then old(runs)[key := run] else old(runs)
    {
      created := key !in runs;
      if created {
        runs := runs[key := run];
      }
    }

    method GetRun(key: Key) returns (run: Option<Run>)
      ensures run == if key in runs then Some(runs[key]) else None
    {
      run := if key in runs then Some(runs[key]) else None;
    }

    method UpdateRun(key: Key, changes: Run) returns (merged: Option<Run>)
      modifies this
      ensures merged == if key in old(runs) then MergeRun(old(runs)[key], changes) else None
      ensures runs == if merged.Some? then old(runs)[key := merged.value] else old(runs)
    {
      merged := if key in runs then MergeRun(runs[key], changes) else None;
      if merged.Some? {
        runs := runs[key := merged.value];
      }
    }
  }

  // ---------------------------------------------------------------- optimistic updates

  type Id = nat

  const TRIES := 5

  /** One call of the optimistic update: between its reads and its conditional writes anything
      may happen. */
  datatype Call =
    | Reading(changes: Run, tries: nat)
    | Writing(changes: Run, tries: nat, seen: Run, merged: Run)
    | Returned(result: Option<Run>)
    | Conflict

  /** The stored item, the calls in flight, and (for the argument only) every record it has had. */
  datatype System = System(item: Option<Run>, calls: map<Id, Call>, history: seq<Run>)

  ghost predicate Init(s: System) {
    && (s.item.Some? ==> s.history == [s.item.value])
    && (s.item.None? ==> s.history == [])
    && s.calls == map[]
  }

  ghost predicate Begin(s: System, s': System, id: Id, changes: Run) {
    id !in s.calls && s' == s.(calls := s.calls[id := Reading(changes, 0)])
  }

  ghost predicate Create(s: System, s': System, run: Run) {
    s.item.None? && s' == s.(item := Some(run), history := [run])
  }

  function AfterRead(item: Option<Run>, changes: Run, tries: nat): Call {
    if item.None? then Returned(None)
    else
      match MergeRun(item.value, changes)
      case None => Returned(None)
      case Some(merged) => Writing(changes, tries, item.value, merged)
  }

  ghost predicate Read(s: System, s': System, id: Id) {
    && id in s.calls && s.calls[id].Reading?
    && s' == s.(calls := s.calls[id := AfterRead(s.item, s.calls[id].changes, s.calls[id].tries)])
  }

  /** The write is stored when the version is still the one that was read. */
  ghost predicate Write(s: System, s': System, id: Id) {
    && id in s.calls && s.calls[id].Writing?
    && var call := s.calls[id];
       if s.item.Some? && Version(s.item.value) == Version(call.seen) then
         s' == System(Some(call.merged), s.calls[id := Returned(Some(call.merged))], s.history + [call.merged])
       else
         s' == s.(calls := s.calls[id :=
           if call.tries + 1 < TRIES then Reading(call.changes, call.tries + 1) else Conflict])
  }

  /** A worker may also vanish between any two steps. */
  ghost predicate Vanish(s: System, s': System, id: Id) {
    id in s.calls && s' == s.(calls := s.calls - {id})
  }

  ghost predicate Next(s: System, s': System) {
    || (exists run :: Create(s, s', run))
    || (exists id, changes :: Begin(s, s', id, changes))
    || (exists id :: Read(s, s', id) || Write(s, s', id) || Vanish(s, s', id))
  }

  /** Versions in the history rise by exactly one, the item is its last record, and what a call
      has seen is one of its records. */
  ghost predicate Inv(s: System) {
    && (s.item.Some? <==> s.history != [])
    && (s.item.Some? ==> s.history[|s.history| - 1] == s.item.value)
    && (forall i | 0 < i < |s.history| :: Version(s.history[i]) == Version(s.history[i - 1]) + 1)
    && (forall id <- s.calls :: Informed(s.history, s.calls[id]))
  }

  ghost predicate Informed(history: seq<Run>, call: Call) {
    call.Writing? ==> MergeRun(call.seen, call.changes) == Some(call.merged) && call.seen in history
  }

  lemma {:induction false} VersionsCount(history: seq<Run>, i: nat)
    requires i < |history| && forall k | 0 < k < |history| :: Version(history[k]) == Version(history[k - 1]) + 1
    ensures Version(history[i]) == Version(history[0]) + i
  {
    if i > 0 {
      VersionsCount(history, i - 1);
    }
  }

  lemma InitInv(s: System)
    requires Init(s)
    ensures Inv(s)
  {
  }

  /** No ABA: a call that finds the version it read finds the record it read. */
  lemma SameVersionSameRecord(s: System, id: Id)
    requires Inv(s) && s.item.Some? && id in s.calls && s.calls[id].Writing?
    requires Version(s.item.value) == Version(s.calls[id].seen)
    ensures s.item.value == s.calls[id].seen
  {
    var i :| 0 <= i < |s.history| && s.history[i] == s.calls[id].seen;
    VersionsCount(s.history, i);
    VersionsCount(s.history, |s.history| - 1);
  }

  lemma NextKeepsInv(s: System, s': System)
    requires Inv(s) && Next(s, s')
    ensures Inv(s')
  {
    if run :| Create(s, s', run) {
    } else if id, changes :| Begin(s, s', id, changes) {
    } else {
      var id :| Read(s, s', id) || Write(s, s', id) || Vanish(s, s', id);
      if Write(s, s', id) {
        WriteKeepsInv(s, s', id);
      }
    }
  }

  lemma WriteKeepsInv(s: System, s': System, id: Id)
    requires Inv(s) && Write(s, s', id)
    ensures Inv(s')
  {
    if s'.history != s.history {
      SameVersionSameRecord(s, id);
      assert s'.history[|s.history| - 1] == s.item.value;
    }
    forall other <- s'.calls
      ensures Informed(s'.history, s'.calls[other])
    {
      assert other in s.calls && Informed(s.history, s.calls[other]);
    }
  }

  // ---------------------------------------------------------------- refinement

  /** What a caller can tell: the record and the answers. */
  datatype Answer = Pending(changes: Run) | Answered(result: Option<Run>) | GaveUp

  datatype Atomic = Atomic(item: Option<Run>, answers: map<Id, Answer>)

  function View(call: Call): Answer {
    match call
    case Reading(changes, _) => Pending(changes)
    case Writing(changes, _, _, _) => Pending(changes)
    case Returned(result) => Answered(result)
    case Conflict => GaveUp
  }

  function Abstract(s: System): Atomic {
    Atomic(s.item, map id | id in s.calls :: View(s.calls[id]))
  }

  /** One serialized update, as the local store performs it. */
  ghost predicate AtomicUpdate(a: Atomic, a': Atomic, id: Id) {
    && id in a.answers && a.answers[id].Pending?
    && var merged := if a.item.None? then None else MergeRun(a.item.value, a.answers[id].changes);
       && a'.answers == a.answers[id := Answered(merged)]
       && a'.item == if merged.Some? then merged else a.item
  }

  ghost predicate AtomicCreate(a: Atomic, a': Atomic) {
    a.item.None? && a'.item.Some? && a'.answers == a.answers
  }

  ghost predicate AtomicBegin(a: Atomic, a': Atomic, id: Id, changes: Run) {
    id !in a.answers && a' == a.(answers := a.answers[id := Pending(changes)])
  }

  /** A call gives up or vanishes without having changed anything. */
  ghost predicate AtomicDrop(a: Atomic, a': Atomic, id: Id) {
    && id in a.answers && a'.item == a.item
    && (a'.answers == a.answers - {id} || (a.answers[id].Pending? && a'.answers == a.answers[id := GaveUp]))
  }

  ghost predicate AtomicNext(a: Atomic, a': Atomic) {
    || a' == a
    || AtomicCreate(a, a')
    || (exists id, changes :: AtomicBegin(a, a', id, changes))
    || (exists id :: AtomicUpdate(a, a', id) || AtomicDrop(a, a', id))
  }

  /** Every step of the optimistic protocol is, to its callers, nothing or one serialized step. */
  lemma NextRefines(s: System, s': System)
    requires Inv(s) && Next(s, s')
    ensures AtomicNext(Abstract(s), Abstract(s'))
  {
    var a, a' := Abstract(s), Abstract(s');
    if run :| Create(s, s', run) {
      assert AtomicCreate(a, a');
    } else if id, changes :| Begin(s, s', id, changes) {
      assert a'.answers == a.answers[id := Pending(changes)];
      assert AtomicBegin(a, a', id, changes);
    } else {
      var id :| Read(s, s', id) || Write(s, s', id) || Vanish(s, s', id);
      if Vanish(s, s', id) {
        assert a'.answers == a.answers - {id};
        assert AtomicDrop(a, a', id);
      } else if Write(s, s', id) {
        WriteRefines(s, s', id);
      } else {
        ReadRefines(s, s', id);
      }
    }
  }

  lemma ReadRefines(s: System, s': System, id: Id)
    requires Read(s, s', id)
    ensures AtomicNext(Abstract(s), Abstract(s'))
  {
    var a, a' := Abstract(s), Abstract(s');
    assert a'.answers == a.answers[id := View(s'.calls[id])];
    if s'.calls[id].Returned? {
      assert AtomicUpdate(a, a', id);
    } else {
      assert a'.answers == a.answers;
    }
  }

  lemma WriteRefines(s: System, s': System, id: Id)
    requires Inv(s) && Write(s, s', id)
    ensures AtomicNext(Abstract(s), Abstract(s'))
  {
    var a, a' := Abstract(s), Abstract(s');
    assert a'.answers == a.answers[id := View(s'.calls[id])];
    if s'.calls[id].Returned? {
      SameVersionSameRecord(s, id);
      assert AtomicUpdate(a, a', id);
    } else if s'.calls[id].Conflict? {
      assert AtomicDrop(a, a', id);
    } else {
      assert a'.answers == a.answers;
    }
  }

  // ---------------------------------------------------------------- whole behaviours

  ghost predicate Behaviour(states: seq<System>) {
    states != [] && Init(states[0]) && forall i | 0 < i < |states| :: Next(states[i - 1], states[i])
  }

  lemma {:induction false} BehaviourInv(states: seq<System>, i: nat)
    requires Behaviour(states) && i < |states|
    ensures Inv(states[i])
  {
    if i == 0 {
      InitInv(states[0]);
    } else {
      BehaviourInv(states, i - 1);
      assert Next(states[i - 1], states[i]);
      NextKeepsInv(states[i - 1], states[i]);
    }
  }

  /** All behaviours refine the serialized store. */
  lemma OptimisticRefinesSerialized(states: seq<System>, i: nat)
    requires Behaviour(states) && 0 < i < |states|
    ensures AtomicNext(Abstract(states[i - 1]), Abstract(states[i]))
  {
    BehaviourInv(states, i - 1);
    assert Next(states[i - 1], states[i]);
    NextRefines(states[i - 1], states[i]);
  }

  /** The calls only carry statuses the guard knows. */
  ghost predicate KnownStatuses(s: System) {
    forall id <- s.calls :: (s.calls[id].Reading? || s.calls[id].Writing?) ==>
      s.calls[id].changes.status.Some? ==> s.calls[id].changes.status.value in FINAL + {"queued", "running"}
  }

  lemma StepIsMonotone(s: System, s': System)
    requires Inv(s) && Next(s, s') && s.item.Some? && KnownStatuses(s)
    ensures OnlyForward(s, s')
  {
    if s'.item != s.item {
      var id :| Write(s, s', id);
      SameVersionSameRecord(s, id);
      MergeIsMonotoneIff(s.item.value, s.calls[id].changes);
    }
  }

  lemma NotBehindTransitive(a: Run, b: Run, c: Run)
    requires NotBehind(a, b) && NotBehind(b, c)
    ensures NotBehind(a, c)
  {
  }

  /** Over any stretch of any behaviour: the version counts the writes, and (generation,
      is-final) never goes back. */
  lemma RecordNeverGoesBack(states: seq<System>, i: nat, j: nat)
    requires Behaviour(states) && i <= j < |states|
    requires states[i].item.Some? && forall k | i <= k < j :: KnownStatuses(states[k])
    ensures states[j].item.Some?
    ensures NotBehind(states[i].item.value, states[j].item.value)
    ensures Version(states[j].item.value) - Version(states[i].item.value) == Writes(states, i, j)
  {
    forall k | i < k <= j
      ensures OnlyForward(states[k - 1], states[k])
    {
      BehaviourStep(states, k);
      if states[k - 1].item.Some? {
        StepIsMonotone(states[k - 1], states[k]);
      }
    }
    StretchGoesForward(states, i, j);
  }

  /** A record that is there stays, and changes by one version without going back. */
  ghost predicate OnlyForward(s: System, s': System) {
    s.item.Some? ==>
      && s'.item.Some?
      && (s'.item == s.item
          || (Version(s'.item.value) == Version(s.item.value) + 1 && NotBehind(s.item.value, s'.item.value)))
  }

  lemma {:induction false} StretchGoesForward(states: seq<System>, i: nat, j: nat)
    requires i <= j < |states| && states[i].item.Some?
    requires forall k | i < k <= j :: OnlyForward(states[k - 1], states[k])
    ensures states[j].item.Some?
    ensures NotBehind(states[i].item.value, states[j].item.value)
    ensures Version(states[j].item.value) - Version(states[i].item.value) == Writes(states, i, j)
  {
    if i < j {
      StretchGoesForward(states, i, j - 1);
      assert OnlyForward(states[j - 1], states[j]);
      OneStepOn(states[i].item.value, states[j - 1], states[j]);
    }
  }

  lemma OneStepOn(first: Run, s: System, s': System)
    requires s.item.Some? && NotBehind(first, s.item.value) && OnlyForward(s, s')
    ensures NotBehind(first, s'.item.value)
    ensures Version(s'.item.value) == Version(s.item.value) + if s'.item == s.item then 0 else 1
  {
    NotBehindTransitive(first, s.item.value, s'.item.value);
  }

  lemma BehaviourStep(states: seq<System>, j: nat)
    requires Behaviour(states) && 0 < j < |states|
    ensures Inv(states[j - 1]) && Next(states[j - 1], states[j])
  {
    BehaviourInv(states, j - 1);
  }

  /** How many of the steps changed the record. */
  function Writes(states: seq<System>, i: nat, j: nat): nat
    requires i <= j < |states|
  {
    if i == j then 0 else Writes(states, i, j - 1) + if states[j].item == states[j - 1].item then 0 else 1
  }
}
