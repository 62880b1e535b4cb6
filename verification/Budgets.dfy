/** The per-run model budget: reservations, the circuit breaker, and what holds over every
    interleaving of the calls that use it.  Money is exact. */
module Budgets {
  import opened Json

  // ---------------------------------------------------------------- prices

  datatype Price = Price(input: real, output: real)

  const PRICES: map<string, Price> := map[
    "claude-haiku-4-5" := Price(1.0, 5.0),
    "claude-sonnet-5" := Price(2.0, 10.0),
    "claude-opus-5" := Price(5.0, 25.0),
    "claude-opus-4-8" := Price(5.0, 25.0)]

  const HIGHEST := Price(5.0, 25.0)

  const PREFIX := "anthropic."

  function PriceOf(model: string, provider: string): (p: Price)
    ensures 0.0 <= p.input <= HIGHEST.input && 0.0 <= p.output <= HIGHEST.output
  {
    if provider == "ollama" then Price(0.0, 0.0)
    else
      var base := if PREFIX <= model then model[|PREFIX|..] else model;
      if base in PRICES then PRICES[base] else HIGHEST
  }

  function WorstCase(model: string, estimated: nat, maxTokens: nat, provider: string): real {
    var p := PriceOf(model, provider);
    (estimated as real * p.input + maxTokens as real * p.output) / 1000000.0
  }

  datatype Response = Response(model: string, input: nat, output: nat, cacheRead: nat, cacheWrite: nat)

  function CostOf(r: Response, provider: string): real {
    var p := PriceOf(r.model, provider);
    (r.input as real * p.input + r.cacheRead as real * p.input * 0.1 + r.cacheWrite as real * p.input * 1.25
     + r.output as real * p.output) / 1000000.0
  }

  lemma Scale(n: real, m: real, price: real, cap: real)
    requires 0.0 <= n <= m && 0.0 <= price <= cap
    ensures 0.0 <= n * price <= m * cap
  {
    assert n * price <= m * price && m * price <= m * cap;
  }

  lemma WorstCaseIsNonNegative(model: string, estimated: nat, maxTokens: nat, provider: string)
    ensures WorstCase(model, estimated, maxTokens, provider) >= 0.0
  {
    var p := PriceOf(model, provider);
    assert estimated as real * p.input >= 0.0 && maxTokens as real * p.output >= 0.0;
  }

  lemma CostIsNonNegative(r: Response, provider: string)
    ensures CostOf(r, provider) >= 0.0
  {
    var p := PriceOf(r.model, provider);
    assert r.input as real * p.input >= 0.0 && r.output as real * p.output >= 0.0;
    assert r.cacheRead as real * p.input >= 0.0 && r.cacheWrite as real * p.input >= 0.0;
  }

  /** When a response stays within its reservation: it comes from a model that is no dearer, its
      weighted input is within the estimate and its output within the limit. */
  lemma WithinReservation(model: string, estimated: nat, maxTokens: nat, r: Response, provider: string)
    requires PriceOf(r.model, provider).input <= PriceOf(model, provider).input
    requires PriceOf(r.model, provider).output <= PriceOf(model, provider).output
    requires r.input as real + r.cacheRead as real * 0.1 + r.cacheWrite as real * 1.25 <= estimated as real
    requires r.output <= maxTokens
    ensures CostOf(r, provider) <= WorstCase(model, estimated, maxTokens, provider)
  {
    var p, q := PriceOf(model, provider), PriceOf(r.model, provider);
    var weighted := r.input as real + r.cacheRead as real * 0.1 + r.cacheWrite as real * 1.25;
    Scale(weighted, estimated as real, q.input, p.input);
    Scale(r.output as real, maxTokens as real, q.output, p.output);
    assert weighted * q.input ==
           r.input as real * q.input + r.cacheRead as real * q.input * 0.1 + r.cacheWrite as real * q.input * 1.25;
  }

  // ---------------------------------------------------------------- the ledger

  datatype Budget = Budget(maxCalls: nat, maxCost: real, maxInput: nat, maxOutput: nat, threshold: nat)

  predicate ValidBudget(b: Budget) {
    b.maxCost >= 0.0 && b.threshold >= 1
  }

  datatype Figures = Figures(
    calls: nat, input: nat, output: nat, cost: real, reserved: real, consecutive: nat, circuit: Option<string>)

  const EMPTY := Figures(0, 0, 0, 0.0, 0.0, 0, None)

  const TRANSIENT: set<string> := {"throttled", "overloaded", "unavailable", "timeout"}

  function Freed(reserved: real, amount: real): real {
    if reserved - amount < 0.0 then 0.0 else reserved - amount
  }

  predicate Over(l: Figures, b: Budget, worst: real, estimated: nat, maxTokens: nat) {
    || l.calls + 1 > b.maxCalls
    || l.cost + l.reserved + worst > b.maxCost
    || l.input + estimated > b.maxInput
    || l.output + maxTokens > b.maxOutput
  }

  /** The ledger after a reservation was asked for, and the amount if it was granted. */
  function Reserved(l: Figures, b: Budget, worst: real, estimated: nat, maxTokens: nat)
    : (Figures, Result<real, string>)
  {
    if l.circuit.Some? then (l, Err(l.circuit.value))
    else if Over(l, b, worst, estimated, maxTokens) then
      (l.(circuit := Some("budget_exhausted")), Err("budget_exhausted"))
    else (l.(reserved := l.reserved + worst, calls := l.calls + 1), Ok(worst))
  }

  function Released(l: Figures, amount: real): Figures {
    l.(reserved := Freed(l.reserved, amount))
  }

  function Recorded(l: Figures, r: Response, amount: real, cost: real): Figures {
    l.(reserved := Freed(l.reserved, amount), input := l.input + r.input, output := l.output + r.output,
       cost := l.cost + cost, consecutive := 0)
  }

  function FailureRecorded(l: Figures, b: Budget, kind: string, amount: real): Figures {
    var freed := l.(reserved := Freed(l.reserved, amount));
    if kind !in TRANSIENT then freed.(circuit := Some("provider_" + kind))
    else
      var counted := freed.(consecutive := l.consecutive + 1);
      if counted.consecutive >= b.threshold then counted.(circuit := Some("provider_unavailable")) else counted
  }

  /** The mutable ledger; every method is one critical section of its lock. */
  class Ledger {
    const budget: Budget
    var calls: nat
    var input: nat
    var output: nat
    var cost: real
    var reserved: real
    var consecutive: nat
    var circuit: Option<string>

    constructor (budget: Budget)
      ensures this.budget == budget && State() == EMPTY
    {
      this.budget := budget;
      calls, input, output, cost, reserved, consecutive, circuit := 0, 0, 0, 0.0, 0.0, 0, None;
    }

    function State(): Figures
      reads this
    {
      Figures(calls, input, output, cost, reserved, consecutive, circuit)
    }

    method Reserve(model: string, estimated: nat, maxTokens: nat, provider: string) returns (r: Result<real, string>)
      modifies this
      ensures (State(), r) == Reserved(old(State()), budget, WorstCase(model, estimated, maxTokens, provider),
        estimated, maxTokens)
    {
      var worst := WorstCase(model, estimated, maxTokens, provider);
      if circuit.Some? {
        return Err(circuit.value);
      }
      if calls + 1 > budget.maxCalls || cost + reserved + worst > budget.maxCost
         || input + estimated > budget.maxInput || output + maxTokens > budget.maxOutput {
        circuit := Some("budget_exhausted");
        return Err("budget_exhausted");
      }
      reserved := reserved + worst;
      calls := calls + 1;
      r := Ok(worst);
    }

    method Release(amount: real)
      modifies this
      ensures State() == Released(old(State()), amount)
    {
      reserved := Freed(reserved, amount);
    }

    method Record(response: Response, amount: real, provider: string)
      modifies this
      ensures State() == Recorded(old(State()), response, amount, CostOf(response, provider))
    {
      reserved := Freed(reserved, amount);
      input := input + response.input;
      output := output + response.output;
      cost := cost + CostOf(response, provider);
      consecutive := 0;
    }

    method RecordFailure(kind: string, amount: real)
      modifies this
      ensures State() == FailureRecorded(old(State()), budget, kind, amount)
    {
      reserved := Freed(reserved, amount);
      if kind !in TRANSIENT {
        circuit := Some("provider_" + kind);
        return;
      }
      consecutive := consecutive + 1;
      if consecutive >= budget.threshold {
        circuit := Some("provider_unavailable");
      }
    }
  }

  // ---------------------------------------------------------------- all interleavings

  /** The ledger, the reservations of the calls in flight, and how much recorded costs have
      exceeded their reservations. */
  datatype System = System(l: Figures, pending: seq<real>, excess: real)

  function Total(amounts: seq<real>): real {
    if amounts == [] then 0.0 else amounts[0] + Total(amounts[1..])
  }

  function Without(amounts: seq<real>, i: nat): seq<real>
    requires i < |amounts|
  {
    amounts[..i] + amounts[i + 1..]
  }

  lemma {:induction false} TotalAppend(amounts: seq<real>, x: real)
    ensures Total(amounts + [x]) == Total(amounts) + x
  {
    if amounts != [] {
      assert (amounts + [x])[1..] == amounts[1..] + [x];
      TotalAppend(amounts[1..], x);
    }
  }

  lemma {:induction false} TotalWithout(amounts: seq<real>, i: nat)
    requires i < |amounts|
    ensures Total(Without(amounts, i)) == Total(amounts) - amounts[i]
  {
    if i == 0 {
      assert Without(amounts, 0) == amounts[1..];
    } else {
      assert Without(amounts, i)[1..] == Without(amounts[1..], i - 1);
      TotalWithout(amounts[1..], i - 1);
    }
  }

  lemma {:induction false} TotalNonNegative(amounts: seq<real>)
    requires forall x <- amounts :: x >= 0.0
    ensures Total(amounts) >= 0.0
  {
    if amounts != [] {
      assert amounts[0] in amounts && forall x <- amounts[1..] :: x in amounts;
      TotalNonNegative(amounts[1..]);
    }
  }

  /** A call reserves, releases, records a response, or records a failure; i is its reservation. */
  datatype Event =
    | Ask(model: string, estimated: nat, maxTokens: nat, provider: string)
    | Give(i: nat)
    | Answer(i: nat, response: Response, provider: string)
    | Fault(i: nat, kind: string)

  ghost predicate Possible(s: System, e: Event) {
    e.Ask? || e.i < |s.pending|
  }

  function Step(s: System, b: Budget, e: Event): System
    requires Possible(s, e)
  {
    match e
    case Ask(model, estimated, maxTokens, provider) =>
      var (l, r) := Reserved(s.l, b, WorstCase(model, estimated, maxTokens, provider), estimated, maxTokens);
      System(l, if r.Ok? then s.pending + [r.value] else s.pending, s.excess)
    case Give(i) => System(Released(s.l, s.pending[i]), Without(s.pending, i), s.excess)
    case Answer(i, response, provider) =>
      var cost := CostOf(response, provider);
      System(Recorded(s.l, response, s.pending[i], cost), Without(s.pending, i),
             s.excess + if cost > s.pending[i] then cost - s.pending[i] else 0.0)
    case Fault(i, kind) => System(FailureRecorded(s.l, b, kind, s.pending[i]), Without(s.pending, i), s.excess)
  }

  ghost predicate Inv(s: System, b: Budget) {
    && (forall x <- s.pending :: x >= 0.0)
    && s.l.reserved == Total(s.pending)
    && s.l.calls <= b.maxCalls
    && s.l.cost >= 0.0 && s.excess >= 0.0
    && s.l.cost + s.l.reserved <= b.maxCost + s.excess
    && (s.l.circuit.None? ==> s.l.consecutive < b.threshold)
  }

  lemma FreeOne(s: System, b: Budget, i: nat)
    requires Inv(s, b) && i < |s.pending|
    ensures Freed(s.l.reserved, s.pending[i]) == Total(Without(s.pending, i)) == s.l.reserved - s.pending[i]
    ensures forall x <- Without(s.pending, i) :: x >= 0.0
    ensures s.pending[i] >= 0.0
  {
    TotalWithout(s.pending, i);
    assert s.pending[i] in s.pending;
    forall x <- Without(s.pending, i)
      ensures x in s.pending
    {
    }
    TotalNonNegative(Without(s.pending, i));
  }

  lemma StepKeepsInv(s: System, b: Budget, e: Event)
    requires ValidBudget(b) && Inv(s, b) && Possible(s, e)
    ensures Inv(Step(s, b, e), b)
  {
    match e
    case Ask(model, estimated, maxTokens, provider) =>
      WorstCaseIsNonNegative(model, estimated, maxTokens, provider);
      TotalAppend(s.pending, WorstCase(model, estimated, maxTokens, provider));
    case Give(i) => FreeOne(s, b, i);
    case Answer(i, response, provider) =>
      CostIsNonNegative(response, provider);
      FreeOne(s, b, i);
    case Fault(i, _) => FreeOne(s, b, i);
  }

  ghost predicate Plays(s: System, b: Budget, events: seq<Event>)
    decreases |events|
  {
    events == [] || (Possible(s, events[0]) && Plays(Step(s, b, events[0]), b, events[1..]))
  }

  ghost function Played(s: System, b: Budget, events: seq<Event>): System
    requires Plays(s, b, events)
    decreases |events|
  {
    if events == [] then s else Played(Step(s, b, events[0]), b, events[1..])
  }

  lemma {:induction false} PlayedKeepsInv(s: System, b: Budget, events: seq<Event>)
    requires ValidBudget(b) && Inv(s, b) && Plays(s, b, events)
    ensures Inv(Played(s, b, events), b)
    decreases |events|
  {
    if events != [] {
      StepKeepsInv(s, b, events[0]);
      PlayedKeepsInv(Step(s, b, events[0]), b, events[1..]);
    }
  }

  /** However the calls interleave: the reserved amount is exactly what is outstanding, the calls
      stay within their limit, and spent plus reserved exceeds the budget by no more than the
      recorded costs exceeded their own reservations, so not at all if none did. */
  lemma BudgetHolds(b: Budget, events: seq<Event>)
    requires ValidBudget(b) && Plays(System(EMPTY, [], 0.0), b, events)
    ensures var s := Played(System(EMPTY, [], 0.0), b, events);
      && s.l.reserved == Total(s.pending)
      && s.l.calls <= b.maxCalls
      && s.l.cost + s.l.reserved <= b.maxCost + s.excess
  {
    PlayedKeepsInv(System(EMPTY, [], 0.0), b, events);
  }

  ghost predicate NoneExceeds(s: System, b: Budget, events: seq<Event>)
    requires Plays(s, b, events)
    decreases |events|
  {
    events == [] ||
    ((events[0].Answer? ==> CostOf(events[0].response, events[0].provider) <= s.pending[events[0].i])
      && NoneExceeds(Step(s, b, events[0]), b, events[1..]))
  }

  lemma {:induction false} NoExcess(s: System, b: Budget, events: seq<Event>)
    requires Plays(s, b, events) && NoneExceeds(s, b, events)
    ensures Played(s, b, events).excess == s.excess
    decreases |events|
  {
    if events != [] {
      NoExcess(Step(s, b, events[0]), b, events[1..]);
    }
  }

  lemma BudgetIsNeverExceeded(b: Budget, events: seq<Event>)
    requires ValidBudget(b) && Plays(System(EMPTY, [], 0.0), b, events)
    requires NoneExceeds(System(EMPTY, [], 0.0), b, events)
    ensures var s := Played(System(EMPTY, [], 0.0), b, events); s.l.cost + Total(s.pending) <= b.maxCost
  {
    BudgetHolds(b, events);
    NoExcess(System(EMPTY, [], 0.0), b, events);
  }

  /** An open circuit stays open and admits nothing: no later call is counted or reserved. */
  lemma {:induction false} OpenStaysOpen(s: System, b: Budget, events: seq<Event>)
    requires s.l.circuit.Some? && Plays(s, b, events)
    ensures var after := Played(s, b, events);
      && after.l.circuit.Some?
      && after.l.calls == s.l.calls
      && |after.pending| <= |s.pending|
    decreases |events|
  {
    if events != [] {
      OpenStaysOpen(Step(s, b, events[0]), b, events[1..]);
    }
  }
}
