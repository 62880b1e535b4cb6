/** The three passes that explain a batch of units: a small-tier call, a large-tier call, and one
    corrective retry, over whatever the model answers. */
module Units {
  import opened Json
  import opened Batches

  // ---------------------------------------------------------------- tiers and routes

  datatype Tier = Deterministic | Small | Large

  function Rank(t: Tier): nat {
    match t case Deterministic => 0 case Small => 1 case Large => 2
  }

  /** Up one tier, the large tier being the ceiling. */
  function Escalate(t: Tier): (up: Tier)
    ensures Rank(up) >= Rank(t) && (t != Large ==> Rank(up) == Rank(t) + 1)
  {
    if Rank(t) >= Rank(Small) then Large else Small
  }

  // ---------------------------------------------------------------- one unit

  datatype Content =
    | Validated(item: Json, tier: Tier, cacheable: bool)
    | HumanReview
    | Degraded(reason: string)
    | Template

  /** A stored result: what was said, and the attempts it took. */
  datatype Entry = Entry(content: Content, attempts: nat)

  datatype Outcome = Accepted(item: Json) | Invalid | Refusal | Unavailable(reason: string)

  /** A unit while the passes run.  Kept for the statements only: `results` lists every assignment
      of its result, `answers` every outcome it got, and `corrected` counts the attempts that
      carried validation errors. */
  datatype Unit = Unit(
    tier: Tier, results: seq<Content>, attempts: nat, corrections: bool, corrected: nat, retried: bool,
    fallback: Option<Json>, answers: seq<Outcome>)

  function Fresh(tier: Tier): Unit {
    Unit(tier, [], 0, false, 0, false, None, [])
  }

  /** An unavailable call leaves no attempt. */
  function Attempted(u: Unit, o: Outcome): Unit {
    var v := u.(answers := u.answers + [o]);
    if o.Unavailable? then v
    else v.(attempts := u.attempts + 1, corrected := u.corrected + if u.corrections then 1 else 0)
  }

  predicate SomeAccepted(answers: seq<Outcome>) {
    exists o <- answers :: o.Accepted?
  }

  function Settle(u: Unit, content: Content): Unit {
    u.(results := u.results + [content])
  }

  const ESCALATE_TIER: set<string> :=
    {"needs_stronger_model", "conflicting_evidence", "insufficient_evidence", "possible_prompt_injection"}

  function Escalation(item: Json): string {
    if item.Obj? && "escalation" in item.fields && item.fields["escalation"].Str? then item.fields["escalation"].s
      else "none"
  }

  /** The small-tier call: the one retry of an invalid answer happens on the large tier. */
  function AfterSmall(u: Unit, o: Outcome): Unit {
    var v := Attempted(u, o);
    match o
    case Accepted(item) =>
      if Escalation(item) in ESCALATE_TIER then v.(fallback := Some(item), tier := Escalate(u.tier))
      else Settle(v, Validated(item, Small, true))
    case Invalid => v.(corrections := true, retried := true, tier := Escalate(u.tier))
    case Refusal => v.(tier := Escalate(u.tier))
    case Unavailable(reason) => Settle(v, Degraded(reason))
  }

  function Unresolved(u: Unit, o: Outcome): Unit {
    if u.fallback.Some? && !o.Refusal? then Settle(u, Validated(u.fallback.value, Small, !o.Unavailable?))
    else if o.Unavailable? then Settle(u, Degraded(o.reason))
    else Settle(u, HumanReview)
  }

  function AfterLarge(u: Unit, o: Outcome): Unit {
    var v := Attempted(u, o);
    if o.Accepted? then Settle(v, Validated(o.item, Large, true))
    else if o.Invalid? && !u.retried then v.(corrections := true, retried := true)
    else Unresolved(v, o)
  }

  function AfterRetry(u: Unit, o: Outcome): Unit {
    var v := Attempted(u, o);
    if o.Accepted? then Settle(v, Validated(o.item, Large, true)) else Unresolved(v, o)
  }

  predicate Settled(u: Unit) {
    u.results != []
  }

  // ---------------------------------------------------------------- model replies

  datatype Reply = Failure(reason: string) | Refused | Truncated | NoToolCall | ToolCall(payload: Json)

  /** One outcome for each unit of the batch; an accepted item passed the checks for that unit. */
  method CallExplain(checks: Checks, batch: seq<Id>, reply: Reply) returns (outcomes: map<Id, Outcome>)
    requires batch != []
    ensures forall id <- batch :: id in outcomes && Sound(checks, id, outcomes[id])
  {
    match reply {
      case Failure(reason) => outcomes := map id <- batch :: Unavailable(reason);
      case Refused => outcomes := map id <- batch :: Refusal;
      case Truncated => outcomes := map id <- batch :: Invalid;
      case NoToolCall => outcomes := map id <- batch :: Invalid;
      case ToolCall(payload) =>
        var groups := Groups(batch);
        var check := CheckExplanationBatch(checks, payload, groups, SYNTHESIS in batch);
        outcomes := map id <- batch :: if id in check.accepted then Accepted(check.accepted[id]) else Invalid;
    }
  }

  function Groups(batch: seq<Id>): (groups: seq<Id>)
    ensures SYNTHESIS !in groups
    ensures forall id :: id in groups <==> id in batch && id != SYNTHESIS
  {
    if batch == [] then []
    else if batch[0] == SYNTHESIS then Groups(batch[1..])
    else [batch[0]] + Groups(batch[1..])
  }

  ghost predicate Sound(checks: Checks, id: Id, o: Outcome) {
    o.Accepted? ==> ValidItem(checks, id, o.item)
  }

  // ---------------------------------------------------------------- batches

  function Weight(id: Id): nat {
    if id == SYNTHESIS then 2 else 1
  }

  function TotalWeight(ids: seq<Id>): nat {
    if ids == [] then 0 else Weight(ids[|ids| - 1]) + TotalWeight(ids[..|ids| - 1])
  }

  function Flatten(batches: seq<seq<Id>>): seq<Id> {
    if batches == [] then [] else Flatten(batches[..|batches| - 1]) + batches[|batches| - 1]
  }

  function Capacity(batchSize: int): nat {
    var capped := if batchSize < MAX_BATCH then batchSize else MAX_BATCH;
    if capped < 2 then 2 else capped
  }

  predicate TextBefore(a: string, b: string) {
    b != "" && (a == "" || a[0] < b[0] || (a[0] == b[0] && TextBefore(a[1..], b[1..])))
  }

  /** The synthesis before every group, and groups by their ids. */
  predicate Precedes(a: Id, b: Id) {
    if a == SYNTHESIS then b != SYNTHESIS else b != SYNTHESIS && TextBefore(a, b)
  }

  predicate InOrder(ids: seq<Id>) {
    forall i, j | 0 <= i < j < |ids| :: !Precedes(ids[j], ids[i])
  }

  lemma {:induction false} TextsAreOrdered(a: string, b: string, c: string)
    ensures !(TextBefore(a, b) && TextBefore(b, a))
    ensures !TextBefore(b, a) && !TextBefore(c, b) ==> !TextBefore(c, a)
  {
    if a != "" && b != "" {
      TextsAreOrdered(a[1..], b[1..], if c != "" then c[1..] else "");
    }
  }

  function InsertId(id: Id, ids: seq<Id>): (r: seq<Id>)
    ensures multiset(r) == multiset(ids) + multiset{id}
  {
    if ids == [] then [id]
    else
      var last, rest := ids[|ids| - 1], ids[..|ids| - 1];
      assert ids == rest + [last];
      if Precedes(id, last) then InsertId(id, rest) + [last] else ids + [id]
  }

  function SortIds(ids: seq<Id>): (r: seq<Id>)
    ensures multiset(r) == multiset(ids)
  {
    if ids == [] then []
    else
      assert ids == ids[..|ids| - 1] + [ids[|ids| - 1]];
      InsertId(ids[|ids| - 1], SortIds(ids[..|ids| - 1]))
  }

  lemma {:induction false} InsertKeepsOrder(id: Id, ids: seq<Id>)
    requires InOrder(ids)
    ensures InOrder(InsertId(id, ids))
  {
    if ids != [] {
      var last, rest := ids[|ids| - 1], ids[..|ids| - 1];
      if Precedes(id, last) {
        InsertKeepsOrder(id, rest);
        forall x <- InsertId(id, rest)
          ensures !Precedes(last, x)
        {
          assert x in multiset(rest) + multiset{id};
          TextsAreOrdered(id, last, x);
        }
      } else {
        forall i | 0 <= i < |ids|
          ensures !Precedes(id, ids[i])
        {
          TextsAreOrdered(ids[i], last, id);
        }
      }
    }
  }

  lemma {:induction false} SortIdsOrders(ids: seq<Id>)
    ensures InOrder(SortIds(ids))
  {
    if ids != [] {
      SortIdsOrders(ids[..|ids| - 1]);
      InsertKeepsOrder(ids[|ids| - 1], SortIds(ids[..|ids| - 1]));
    }
  }

  /** The units in order, cut into consecutive batches that are not empty and not too heavy; none is
      lost or repeated. */
  method Chunks(ids: seq<Id>, batchSize: int) returns (batches: seq<seq<Id>>)
    ensures multiset(Flatten(batches)) == multiset(ids) && InOrder(Flatten(batches))
    ensures forall batch <- batches :: batch != [] && TotalWeight(batch) <= Capacity(batchSize)
  {
    SortIdsOrders(ids);
    batches := Cut(SortIds(ids), batchSize);
  }

  predicate AllFit(batches: seq<seq<Id>>, batchSize: int) {
    forall batch <- batches :: batch != [] && TotalWeight(batch) <= Capacity(batchSize)
  }

  ghost predicate CutTo(batches: seq<seq<Id>>, batch: seq<Id>, weight: nat, done: seq<Id>, batchSize: int) {
    && Flatten(batches) + batch == done && AllFit(batches, batchSize)
    && weight == TotalWeight(batch) <= Capacity(batchSize)
  }

  method Cut(ids: seq<Id>, batchSize: int) returns (batches: seq<seq<Id>>)
    ensures Flatten(batches) == ids && AllFit(batches, batchSize)
  {
    batches := [];
    var batch: seq<Id>, weight: nat := [], 0;
    for i := 0 to |ids|
      invariant CutTo(batches, batch, weight, ids[..i], batchSize)
    {
      var cost := Weight(ids[i]);
      if batch != [] && weight + cost > Capacity(batchSize) {
        CutClosed(batches, batch, weight, ids[..i], batchSize);
        batches, batch, weight := batches + [batch], [], 0;
      }
      assert ids[..i + 1] == ids[..i] + [ids[i]];
      CutGrown(batches, batch, weight, ids[..i], batchSize, ids[i]);
      batch, weight := batch + [ids[i]], weight + cost;
    }
    assert ids[..|ids|] == ids;
    if batch != [] {
      CutClosed(batches, batch, weight, ids, batchSize);
      batches := batches + [batch];
    }
  }

  lemma CutClosed(batches: seq<seq<Id>>, batch: seq<Id>, weight: nat, done: seq<Id>, batchSize: int)
    requires CutTo(batches, batch, weight, done, batchSize) && batch != []
    ensures CutTo(batches + [batch], [], 0, done, batchSize)
  {
    CloseBatch(batches, batch, batchSize);
  }

  lemma CutGrown(batches: seq<seq<Id>>, batch: seq<Id>, weight: nat, done: seq<Id>, batchSize: int, id: Id)
    requires CutTo(batches, batch, weight, done, batchSize)
    requires batch == [] || weight + Weight(id) <= Capacity(batchSize)
    ensures CutTo(batches, batch + [id], weight + Weight(id), done + [id], batchSize)
  {
    OneHeavier(batch, id);
  }

  lemma OneHeavier(batch: seq<Id>, id: Id)
    ensures TotalWeight(batch + [id]) == TotalWeight(batch) + Weight(id)
  {
    assert (batch + [id])[..|batch|] == batch;
  }

  lemma CloseBatch(batches: seq<seq<Id>>, batch: seq<Id>, batchSize: int)
    requires AllFit(batches, batchSize) && batch != [] && TotalWeight(batch) <= Capacity(batchSize)
    ensures AllFit(batches + [batch], batchSize) && Flatten(batches + [batch]) == Flatten(batches) + batch
  {
    FlattenOneMore(batches, batch);
  }

  lemma FlattenOneMore(batches: seq<seq<Id>>, batch: seq<Id>)
    ensures Flatten(batches + [batch]) == Flatten(batches) + batch
  {
    assert (batches + [batch])[..|batches|] == batches;
  }

  predicate Distinct(ids: seq<Id>) {
    forall i, j | 0 <= i < j < |ids| :: ids[i] != ids[j]
  }

  /** The ids of a tier, in order. */
  function OfTier(tiers: map<Id, Tier>, ids: seq<Id>, tier: Tier): (r: seq<Id>)
    requires forall id <- ids :: id in tiers
    ensures forall id :: id in r <==> id in ids && tiers[id] == tier
    ensures Distinct(ids) ==> Distinct(r)
    decreases |ids|
  {
    if ids == [] then []
    else
      var before := OfTier(tiers, ids[..|ids| - 1], tier);
      if tiers[ids[|ids| - 1]] == tier then before + [ids[|ids| - 1]] else before
  }

  // ---------------------------------------------------------------- invariants of the passes

  ghost predicate HonestContent(checks: Checks, id: Id, c: Content) {
    c.Validated? ==> ValidItem(checks, id, c.item)
  }

  /** What may be in the cache under the key of a unit. */
  ghost predicate HonestEntry(checks: Checks, id: Id, e: Entry) {
    HonestContent(checks, id, e.content) && e.attempts <= 3 && (e.content.Validated? || e.content.HumanReview?)
  }

  ghost predicate Honest(checks: Checks, id: Id, u: Unit) {
    && (forall c <- u.results :: HonestContent(checks, id, c))
    && (u.fallback.Some? ==> ValidItem(checks, id, u.fallback.value))
  }

  /** Before the large pass: at most one attempt so far, none with corrections. */
  ghost predicate ReadyForLarge(u: Unit) {
    && u.results == [] && u.tier == Large && u.attempts <= 1 && u.corrected == 0
    && (u.corrections ==> u.retried)
    && (u.fallback.Some? <==> SomeAccepted(u.answers))
  }

  ghost predicate ReadyForRetry(u: Unit) {
    && u.results == [] && u.tier == Large && u.attempts <= 2 && u.corrected == 0 && u.retried
    && (u.fallback.Some? <==> SomeAccepted(u.answers))
  }

  /** What is promised of a unit that is through: one result, at most three attempts, at most one
      of them with corrections, no lower tier.  It ends validated just when some answer was
      accepted and the last one was no refusal, and degraded just when no answer was accepted and
      the last call was unavailable. */
  ghost predicate Through(u: Unit, was: Tier) {
    && |u.results| == 1
    && u.attempts <= 3 && u.corrected <= 1
    && Rank(u.tier) >= Rank(was)
    && u.answers != []
    && var last := u.answers[|u.answers| - 1];
    && (u.results[0].Validated? <==> SomeAccepted(u.answers) && !last.Refusal?)
    && (u.results[0].Degraded? <==> !SomeAccepted(u.answers) && last.Unavailable?)
    && !u.results[0].Template?
  }

  lemma OneMoreAnswer(answers: seq<Outcome>, o: Outcome)
    ensures SomeAccepted(answers + [o]) <==> SomeAccepted(answers) || o.Accepted?
  {
    assert forall a <- answers :: a in answers + [o];
    assert o in answers + [o];
  }

  lemma SmallStep(checks: Checks, id: Id, o: Outcome)
    requires Sound(checks, id, o)
    ensures var u := AfterSmall(Fresh(Small), o);
      Honest(checks, id, u) && (if Settled(u) then Through(u, Small) else ReadyForLarge(u))
  {
    OneMoreAnswer([], o);
  }

  lemma LargeStep(checks: Checks, id: Id, u: Unit, was: Tier, o: Outcome)
    requires Sound(checks, id, o) && Honest(checks, id, u) && ReadyForLarge(u)
    ensures var v := AfterLarge(u, o);
      Honest(checks, id, v) && (if Settled(v) then Through(v, was) else ReadyForRetry(v))
  {
    OneMoreAnswer(u.answers, o);
  }

  lemma RetryStep(checks: Checks, id: Id, u: Unit, was: Tier, o: Outcome)
    requires Sound(checks, id, o) && Honest(checks, id, u) && ReadyForRetry(u)
    ensures var v := AfterRetry(u, o);
      Honest(checks, id, v) && Settled(v) && Through(v, was)
  {
    OneMoreAnswer(u.answers, o);
  }

  // ---------------------------------------------------------------- the passes

  datatype Pass = SmallPass | LargePass | RetryPass

  function After(pass: Pass, u: Unit, o: Outcome): Unit {
    match pass
    case SmallPass => AfterSmall(u, o)
    case LargePass => AfterLarge(u, o)
    case RetryPass => AfterRetry(u, o)
  }

  /** A unit that is still to be handled by a pass, by the tier it came with. */
  ghost predicate Ready(pass: Pass, u: Unit, was: Tier) {
    match pass
    case SmallPass => u == Fresh(Small) && was == Small
    case LargePass => ReadyForLarge(u)
    case RetryPass => ReadyForRetry(u)
  }

  /** A unit that a pass has handled: through, or ready for the next pass. */
  ghost predicate Handled(pass: Pass, u: Unit, was: Tier) {
    if Settled(u) then Through(u, was)
    else
      match pass
      case SmallPass => ReadyForLarge(u)
      case LargePass => ReadyForRetry(u)
      case RetryPass => false
  }

  lemma PassStep(checks: Checks, pass: Pass, id: Id, u: Unit, was: Tier, o: Outcome)
    requires Sound(checks, id, o) && Honest(checks, id, u) && Ready(pass, u, was)
    ensures Honest(checks, id, After(pass, u, o)) && Handled(pass, After(pass, u, o), was)
  {
    match pass
    case SmallPass => SmallStep(checks, id, o);
    case LargePass => LargeStep(checks, id, u, was, o);
    case RetryPass => RetryStep(checks, id, u, was, o);
  }

  ghost predicate AllReady(pass: Pass, units: map<Id, Unit>, was: map<Id, Tier>, ids: seq<Id>) {
    forall id <- ids :: id in units && id in was && Ready(pass, units[id], was[id])
  }

  ghost predicate AllHandled(pass: Pass, units: map<Id, Unit>, was: map<Id, Tier>, ids: seq<Id>) {
    forall id <- ids :: id in units && id in was && Handled(pass, units[id], was[id])
  }

  /** Nothing changed but these units. */
  ghost predicate SameOff(before: map<Id, Unit>, after: map<Id, Unit>, ids: seq<Id>) {
    before.Keys == after.Keys && forall id <- before :: id !in ids ==> after[id] == before[id]
  }

  lemma OneMoreHandled(pass: Pass, was: map<Id, Tier>, start: map<Id, Unit>, before: map<Id, Unit>,
                       after: map<Id, Unit>, ids: seq<Id>, id: Id)
    requires AllHandled(pass, before, was, ids) && SameOff(start, before, ids) && id !in ids && id in was
      && id in before
    requires id in after && after == before[id := after[id]] && Handled(pass, after[id], was[id])
    ensures AllHandled(pass, after, was, ids + [id]) && SameOff(start, after, ids + [id])
  {
    assert forall x :: x in ids + [id] <==> x in ids || x == id;
  }

  lemma StillReady(pass: Pass, was: map<Id, Tier>, start: map<Id, Unit>, now: map<Id, Unit>, done: seq<Id>, id: Id)
    requires SameOff(start, now, done) && id !in done && id in start && id in was && Ready(pass, start[id], was[id])
    ensures id in now && Ready(pass, now[id], was[id])
  {
  }

  lemma EscalatedAreReady(was: map<Id, Tier>, before: map<Id, Unit>, after: map<Id, Unit>,
                          small: seq<Id>, large: seq<Id>, escalated: seq<Id>)
    requires Distinct(small + large) && Distinct(escalated) && AllReady(LargePass, before, was, large)
    requires AllHandled(SmallPass, after, was, small) && SameOff(before, after, small)
    requires forall id :: id in escalated <==> id in small && !Settled(after[id])
    ensures Distinct(large + escalated) && AllReady(LargePass, after, was, large + escalated)
  {
    EscalatedAreDistinct(small, large, escalated);
    DistinctParts(small, large);
    forall id <- large
      ensures id in after && Ready(LargePass, after[id], was[id])
    {
      StillReady(LargePass, was, before, after, small, id);
    }
  }

  lemma RetriesAreReady(was: map<Id, Tier>, units: map<Id, Unit>, ids: seq<Id>, retry: seq<Id>)
    requires AllHandled(LargePass, units, was, ids)
    requires forall id :: id in retry <==> id in ids && !Settled(units[id])
    ensures AllReady(RetryPass, units, was, retry)
  {
  }

  /** A pass over what the pass before left open leaves everything handled by one or the other. */
  lemma SettledStay(pass: Pass, was: map<Id, Tier>, before: map<Id, Unit>, after: map<Id, Unit>, ids: seq<Id>,
                    next: seq<Id>)
    requires AllHandled(pass, before, was, ids) && SameOff(before, after, next)
    requires forall id <- ids :: !Settled(before[id]) ==> id in next
    ensures forall id <- ids :: id !in next ==> id in after && Through(after[id], was[id])
  {
  }

  lemma AllAreThrough(was: map<Id, Tier>, first: map<Id, Unit>, second: map<Id, Unit>, third: map<Id, Unit>,
                      small: seq<Id>, large: seq<Id>, escalated: seq<Id>, retry: seq<Id>)
    requires AllHandled(SmallPass, first, was, small) && SameOff(first, second, large + escalated)
    requires AllHandled(LargePass, second, was, large + escalated) && SameOff(second, third, retry)
    requires AllHandled(RetryPass, third, was, retry) && Distinct(small + large)
    requires forall id :: id in escalated <==> id in small && !Settled(first[id])
    requires forall id :: id in retry <==> id in large + escalated && !Settled(second[id])
    ensures forall id <- small + large :: id in third && id in was && Through(third[id], was[id])
  {
    SettledStay(SmallPass, was, first, second, small, large + escalated);
    SettledStay(LargePass, was, second, third, large + escalated, retry);
    forall id <- small + large
      ensures id in third && id in was && Through(third[id], was[id])
    {
      if id in retry {
        assert Handled(RetryPass, third[id], was[id]);
      } else if id !in large + escalated {
        assert id in small && third[id] == second[id];
      }
    }
  }

  lemma OthersStay(start: map<Id, Unit>, first: map<Id, Unit>, second: map<Id, Unit>, third: map<Id, Unit>,
                   small: seq<Id>, large: seq<Id>, escalated: seq<Id>, retry: seq<Id>)
    requires SameOff(start, first, small) && SameOff(first, second, large + escalated) && SameOff(second, third, retry)
    requires (forall id <- escalated :: id in small) && forall id <- retry :: id in large + escalated
    ensures SameOff(start, third, small + large)
  {
  }

  lemma PartIsReady(pass: Pass, was: map<Id, Tier>, start: map<Id, Unit>, now: map<Id, Unit>,
                    ids: seq<Id>, done: seq<Id>, part: seq<Id>)
    requires AllReady(pass, start, was, ids) && SameOff(start, now, done)
    requires forall id <- part :: id in ids && id !in done
    ensures AllReady(pass, now, was, part)
  {
  }

  lemma PartIsHandled(pass: Pass, was: map<Id, Tier>, start: map<Id, Unit>, before: map<Id, Unit>, after: map<Id, Unit>,
                      done: seq<Id>, part: seq<Id>)
    requires AllHandled(pass, before, was, done) && SameOff(start, before, done)
    requires AllHandled(pass, after, was, part) && SameOff(before, after, part)
    ensures AllHandled(pass, after, was, done + part) && SameOff(start, after, done + part)
  {
    forall id <- done
      ensures id in after && Handled(pass, after[id], was[id])
    {
      assert id in part || after[id] == before[id];
    }
    assert forall id :: id in done + part <==> id in done || id in part;
  }

  /** The units being explained, by id, the content put into the cache, and the number of calls
      made so far.  `replies` is whatever the provider and the budget answer, call by call. */
  class Passes {
    const checks: Checks
    const batchSize: int
    const replies: nat -> Reply
    const was: map<Id, Tier>
    var units: map<Id, Unit>
    var cache: map<Id, Entry>
    var calls: nat

    constructor (checks: Checks, batchSize: int, replies: nat -> Reply, routes: map<Id, Tier>, cache: map<Id, Entry>)
      ensures this.checks == checks && was == routes && this.cache == cache
      ensures units == map id <- routes :: Fresh(routes[id])
    {
      this.checks, this.batchSize, this.replies, was := checks, batchSize, replies, routes;
      units := map id <- routes :: Fresh(routes[id]);
      this.cache, calls := cache, 0;
    }

    ghost predicate CacheHonest()
      reads this
    {
      forall id <- cache :: HonestEntry(checks, id, cache[id])
    }

    ghost predicate Valid()
      reads this
    {
      && units.Keys == was.Keys
      && (forall id <- units :: Honest(checks, id, units[id]))
      && CacheHonest()
    }

    /** Put a settled result into the cache, where the first one stays; degraded ones are not kept. */
    method Remember(id: Id, content: Content, attempts: nat)
      requires CacheHonest() && HonestContent(checks, id, content) && attempts <= 3 && !content.Template?
      modifies this`cache
      ensures CacheHonest()
      ensures cache == if id !in old(cache) && !content.Degraded? && (content.Validated? ==> content.cacheable)
                       then old(cache)[id := Entry(content, attempts)] else old(cache)
    {
      if id !in cache && !content.Degraded? && (content.Validated? ==> content.cacheable) {
        cache := cache[id := Entry(content, attempts)];
      }
    }

    method HandleOne(pass: Pass, id: Id, o: Outcome)
      requires Valid() && id in units && Ready(pass, units[id], was[id]) && Sound(checks, id, o)
      modifies this`units, this`cache
      ensures Valid() && units == old(units)[id := After(pass, old(units)[id], o)]
      ensures Handled(pass, units[id], was[id])
      ensures calls == old(calls)
    {
      PassStep(checks, pass, id, units[id], was[id], o);
      units := units[id := After(pass, units[id], o)];
      if Settled(units[id]) {
        assert units[id].results[0] in units[id].results;
        Remember(id, units[id].results[0], units[id].attempts);
      }
    }

    method HandleBatch(pass: Pass, batch: seq<Id>)
      requires Valid() && batch != [] && Distinct(batch) && AllReady(pass, units, was, batch)
      modifies this
      ensures Valid()
      ensures AllHandled(pass, units, was, batch) && SameOff(old(units), units, batch)
    {
      var outcomes := CallExplain(checks, batch, replies(calls));
      calls := calls + 1;
      for i := 0 to |batch|
        invariant Valid()
        invariant AllHandled(pass, units, was, batch[..i]) && SameOff(old(units), units, batch[..i])
      {
        var id := batch[i];
        assert id in batch && id !in batch[..i];
        assert batch[..i + 1] == batch[..i] + [id];
        ghost var before := units;
        StillReady(pass, was, old(units), units, batch[..i], id);
        HandleOne(pass, id, outcomes[id]);
        OneMoreHandled(pass, was, old(units), before, units, batch[..i], id);
      }
      assert batch[..|batch|] == batch;
    }

    /** One pass over a list of units, batch by batch. */
    method RunPass(pass: Pass, ids: seq<Id>)
      requires Valid() && Distinct(ids) && AllReady(pass, units, was, ids)
      modifies this
      ensures Valid()
      ensures AllHandled(pass, units, was, ids) && SameOff(old(units), units, ids)
    {
      var batches := Chunks(ids, batchSize);
      ghost var sorted := Flatten(batches);
      SameUnits(ids, sorted);
      for b := 0 to |batches|
        invariant Valid()
        invariant AllHandled(pass, units, was, Flatten(batches[..b]))
          && SameOff(old(units), units, Flatten(batches[..b]))
      {
        assert batches[..b + 1] == batches[..b] + [batches[b]];
        FlattenOneMore(batches[..b], batches[b]);
        FlattenPrefix(batches, b + 1);
        DistinctPart(Flatten(batches[..b]), batches[b], sorted);
        assert batches[b] in batches;
        ghost var before := units;
        PartIsReady(pass, was, old(units), units, sorted, Flatten(batches[..b]), batches[b]);
        HandleBatch(pass, batches[b]);
        PartIsHandled(pass, was, old(units), before, units, Flatten(batches[..b]), batches[b]);
      }
      assert batches[..|batches|] == batches;
    }

    /** Everything, in the source's order: small units, then large ones with what the first pass
        escalated, then the corrective retries.  Each unit ends with exactly one result, after at
        most three attempts of which at most one carried corrections, no lower than its tier; and
        every validated content, in a result or in the cache, passed the checks for that unit. */
    method ExplainPasses(small: seq<Id>, large: seq<Id>)
      requires Valid() && Distinct(small + large)
      requires forall id <- small :: id in units && was[id] == Small && units[id] == Fresh(Small)
      requires forall id <- large :: id in units && was[id] == Large && units[id] == Fresh(Large)
      modifies this
      ensures Valid()
      ensures forall id <- small + large :: Through(units[id], was[id])
      ensures forall id <- units :: id !in small + large ==> units[id] == old(units)[id]
    {
      DistinctParts(small, large);
      assert AllReady(SmallPass, units, was, small) && AllReady(LargePass, units, was, large);
      RunPass(SmallPass, small);
      ghost var first := units;
      var escalated := Unsettled(small);
      EscalatedAreReady(was, old(units), units, small, large, escalated);
      RunPass(LargePass, large + escalated);
      ghost var second := units;
      var retry := Unsettled(large + escalated);
      RetriesAreReady(was, units, large + escalated, retry);
      RunPass(RetryPass, retry);
      AllAreThrough(was, first, second, units, small, large, escalated, retry);
      OthersStay(old(units), first, second, units, small, large, escalated, retry);
    }

    /** Everything a worker resolves alone: templates for units routed to no model or when there is
        none, the cache unless a refresh is wanted, and the passes for the rest. */
    method Resolve(ids: seq<Id>, provider: bool, refresh: bool)
      requires Valid() && Distinct(ids)
      requires forall id <- ids :: id in units && units[id] == Fresh(was[id])
      modifies this
      ensures Valid()
      ensures var desk := Desk(was, old(cache), provider, refresh);
        && (forall id <- ids :: if NeedsModel(desk, id) then Through(units[id], was[id])
             else units[id] == Answered(desk, id))
        && (forall id <- ids :: |units[id].results| == 1 && units[id].attempts <= 3)
        && (forall id <- units :: id !in ids ==> units[id] == old(units)[id])
    {
      ghost var desk, before := Desk(was, cache, provider, refresh), units;
      var needed := Dispatch(ids, provider, refresh);
      DispatchIsHonest(checks, desk, before, ids);
      ghost var between := units;
      ExplainNeeded(needed);
      forall id <- ids
        ensures if NeedsModel(desk, id) then Through(units[id], was[id]) else units[id] == Answered(desk, id)
        ensures |units[id].results| == 1 && units[id].attempts <= 3
      {
        assert id in units;
        if !NeedsModel(desk, id) {
          assert units[id] == between[id];
        }
      }
    }

    method Dispatch(ids: seq<Id>, provider: bool, refresh: bool) returns (needed: seq<Id>)
      requires forall id <- ids :: id in was
      modifies this`units
      ensures needed == NeededOf(Desk(was, cache, provider, refresh), ids)
      ensures units == AnswerAll(Desk(was, cache, provider, refresh), old(units), ids)
    {
      var desk := Desk(was, cache, provider, refresh);
      needed := [];
      for i := 0 to |ids|
        invariant needed == NeededOf(desk, ids[..i]) && units == AnswerAll(desk, old(units), ids[..i])
      {
        assert ids[..i + 1][..i] == ids[..i];
        if NeedsModel(desk, ids[i]) {
          needed := needed + [ids[i]];
        } else {
          units := units[ids[i] := Answered(desk, ids[i])];
        }
      }
      assert ids[..|ids|] == ids;
    }

    method ExplainNeeded(needed: seq<Id>)
      requires Valid() && Distinct(needed)
      requires forall id <- needed :: id in units && was[id] != Deterministic && units[id] == Fresh(was[id])
      modifies this
      ensures Valid()
      ensures forall id <- needed :: Through(units[id], was[id])
      ensures forall id <- units :: id !in needed ==> units[id] == old(units)[id]
    {
      var small, large := OfTier(was, needed, Small), OfTier(was, needed, Large);
      DistinctUnion(small, large);
      ExplainPasses(small, large);
      assert forall id <- needed :: id in small + large;
    }

    /** The units of a list without a result yet, in order. */
    method Unsettled(ids: seq<Id>) returns (left: seq<Id>)
      requires Distinct(ids) && forall id <- ids :: id in units
      ensures Distinct(left)
      ensures forall id :: id in left <==> id in ids && !Settled(units[id])
    {
      left := [];
      for i := 0 to |ids|
        invariant Distinct(left)
        invariant forall id :: id in left <==> id in ids[..i] && !Settled(units[id])
      {
        assert ids[..i + 1] == ids[..i] + [ids[i]] && ids[i] !in ids[..i];
        if !Settled(units[ids[i]]) {
          left := left + [ids[i]];
        }
      }
      assert ids[..|ids|] == ids;
    }
  }

  /** What decides whether a unit needs the model. */
  datatype Desk = Desk(tiers: map<Id, Tier>, cache: map<Id, Entry>, provider: bool, refresh: bool)

  predicate NeedsModel(desk: Desk, id: Id)
    requires id in desk.tiers
  {
    desk.tiers[id] != Deterministic && desk.provider && (desk.refresh || id !in desk.cache)
  }

  /** A unit that needs no model call. */
  function Answered(desk: Desk, id: Id): Unit
    requires id in desk.tiers && !NeedsModel(desk, id)
  {
    var u := Fresh(desk.tiers[id]);
    if u.tier == Deterministic || !desk.provider then Settle(u, Template)
    else Settle(u, desk.cache[id].content).(attempts := desk.cache[id].attempts)
  }

  function NeededOf(desk: Desk, ids: seq<Id>): (needed: seq<Id>)
    requires forall id <- ids :: id in desk.tiers
    ensures forall id :: id in needed <==> id in ids && NeedsModel(desk, id)
    ensures Distinct(ids) ==> Distinct(needed)
    decreases |ids|
  {
    if ids == [] then []
    else
      var before, id := NeededOf(desk, ids[..|ids| - 1]), ids[|ids| - 1];
      if NeedsModel(desk, id) then before + [id] else before
  }

  function AnswerAll(desk: Desk, units: map<Id, Unit>, ids: seq<Id>): map<Id, Unit>
    requires forall id <- ids :: id in desk.tiers
    decreases |ids|
  {
    if ids == [] then units
    else
      var before, id := AnswerAll(desk, units, ids[..|ids| - 1]), ids[|ids| - 1];
      if NeedsModel(desk, id) then before else before[id := Answered(desk, id)]
  }

  lemma {:induction false} EveryoneIsDispatched(desk: Desk, units: map<Id, Unit>, ids: seq<Id>)
    requires forall id <- ids :: id in desk.tiers && id in units
    ensures var after := AnswerAll(desk, units, ids);
      && after.Keys == units.Keys
      && forall id <- units :: after[id] == if id in ids && !NeedsModel(desk, id) then Answered(desk, id) else units[id]
    decreases |ids|
  {
    if ids != [] {
      EveryoneIsDispatched(desk, units, ids[..|ids| - 1]);
    }
  }

  lemma AnsweredIsHonest(checks: Checks, desk: Desk, id: Id)
    requires id in desk.tiers && !NeedsModel(desk, id)
    requires id in desk.cache ==> HonestEntry(checks, id, desk.cache[id])
    ensures var u := Answered(desk, id); Honest(checks, id, u) && |u.results| == 1 && u.attempts <= 3
  {
  }

  lemma DispatchIsHonest(checks: Checks, desk: Desk, units: map<Id, Unit>, ids: seq<Id>)
    requires forall id <- ids :: id in desk.tiers && id in units
    requires forall id <- units :: Honest(checks, id, units[id])
    requires forall id <- desk.cache :: HonestEntry(checks, id, desk.cache[id])
    ensures var after := AnswerAll(desk, units, ids);
      && after.Keys == units.Keys
      && (forall id <- after :: Honest(checks, id, after[id]))
      && (forall id <- units :: after[id] == if id in ids && !NeedsModel(desk, id) then Answered(desk, id)
           else units[id])
      && (forall id <- ids :: !NeedsModel(desk, id) ==> |after[id].results| == 1 && after[id].attempts <= 3)
  {
    EveryoneIsDispatched(desk, units, ids);
    forall id <- ids | !NeedsModel(desk, id)
      ensures var u := Answered(desk, id); Honest(checks, id, u) && |u.results| == 1 && u.attempts <= 3
    {
      AnsweredIsHonest(checks, desk, id);
    }
  }

  lemma {:induction false} FlattenPrefix(batches: seq<seq<Id>>, b: nat)
    requires b <= |batches|
    ensures Flatten(batches[..b]) <= Flatten(batches)
    decreases |batches| - b
  {
    if b < |batches| {
      assert batches[..b + 1] == batches[..b] + [batches[b]];
      FlattenOneMore(batches[..b], batches[b]);
      FlattenPrefix(batches, b + 1);
    } else {
      assert batches[..b] == batches;
    }
  }

  lemma DistinctPart(before: seq<Id>, part: seq<Id>, ids: seq<Id>)
    requires Distinct(ids) && before + part <= ids
    ensures Distinct(part) && (forall id <- part :: id in ids && id !in before)
  {
    forall i | 0 <= i < |part|
      ensures part[i] == ids[|before| + i]
    {
    }
    forall i | 0 <= i < |before|
      ensures before[i] == ids[i]
    {
    }
  }

  lemma {:induction false} CountedOnce(ids: seq<Id>, id: Id)
    requires Distinct(ids)
    ensures multiset(ids)[id] <= 1
  {
    if ids != [] {
      var before, last := ids[..|ids| - 1], ids[|ids| - 1];
      assert ids == before + [last];
      CountedOnce(before, id);
      if id == last {
        assert last !in before;
        assert last !in multiset(before);
      }
    }
  }

  lemma CountedTwice(ids: seq<Id>, i: nat, j: nat)
    requires i < j < |ids|
    ensures ids[i] == ids[j] ==> multiset(ids)[ids[i]] >= 2
  {
    assert ids == ids[..i] + [ids[i]] + ids[i + 1..j] + [ids[j]] + ids[j + 1..];
  }

  /** Another order of the same units. */
  lemma SameUnits(a: seq<Id>, b: seq<Id>)
    requires Distinct(a) && multiset(a) == multiset(b)
    ensures Distinct(b) && forall id :: id in a <==> id in b
  {
    forall i, j | 0 <= i < j < |b|
      ensures b[i] != b[j]
    {
      CountedOnce(a, b[i]);
      CountedTwice(b, i, j);
    }
    assert forall id :: id in a <==> id in multiset(a);
    assert forall id :: id in b <==> id in multiset(b);
  }

  lemma DistinctParts(a: seq<Id>, b: seq<Id>)
    requires Distinct(a + b)
    ensures Distinct(a) && Distinct(b) && forall id <- a :: id !in b
  {
    DistinctPart([], a, a + b);
    DistinctPart(a, b, a + b);
  }

  lemma DistinctUnion(a: seq<Id>, b: seq<Id>)
    requires Distinct(a) && Distinct(b) && forall id <- a :: id !in b
    ensures Distinct(a + b)
  {
    var all := a + b;
    forall i, j | 0 <= i < j < |all|
      ensures all[i] != all[j]
    {
      if j < |a| {
        assert a[i] != a[j];
      } else if i < |a| {
        assert all[i] in a && all[j] in b;
      } else {
        assert b[i - |a|] != b[j - |a|];
      }
    }
  }

  lemma EscalatedAreDistinct(small: seq<Id>, large: seq<Id>, escalated: seq<Id>)
    requires Distinct(small + large) && Distinct(escalated) && forall id <- escalated :: id in small
    ensures Distinct(large + escalated)
  {
    DistinctParts(small, large);
    DistinctUnion(large, escalated);
  }
}
