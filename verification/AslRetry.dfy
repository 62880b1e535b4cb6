/** Retriers and catchers: which one an error selects, and the loop that retries a state. */
module AslRetry {
  import opened Json
  import opened AslPaths
  import opened AslSyntax

  // ---------------------------------------------------------------- selection

  const UNCATCHABLE: set<string> := {"States.Runtime", "States.DataLimitExceeded"}

  predicate Matches(errors: seq<string>, name: string) {
    && name !in UNCATCHABLE
    && exists error <- errors ::
         error == STATES_ALL || error == name || (error == "States.TaskFailed" && name != "States.Timeout")
  }

  /** The first handler whose error list matches. */
  function FirstMatch(lists: seq<seq<string>>, name: string): (index: Option<nat>)
    ensures index.Some? ==>
      && index.value < |lists| && Matches(lists[index.value], name)
      && forall i | 0 <= i < index.value :: !Matches(lists[i], name)
    ensures index.None? ==> forall i | 0 <= i < |lists| :: !Matches(lists[i], name)
  {
    if lists == [] then None
    else if Matches(lists[0], name) then Some(0)
    else
      match FirstMatch(lists[1..], name)
      case Some(i) =>
        assert forall j | 1 <= j <= i + 1 :: lists[j] == lists[1..][j - 1];
        Some(i + 1)
      case None =>
        assert forall j | 1 <= j < |lists| :: lists[j] == lists[1..][j - 1];
        None
  }

  function RetryLists(retry: seq<Retrier>): (lists: seq<seq<string>>)
    ensures |lists| == |retry| && forall i | 0 <= i < |retry| :: lists[i] == retry[i].errors
  {
    if retry == [] then [] else RetryLists(retry[..|retry| - 1]) + [retry[|retry| - 1].errors]
  }

  function CatchLists(catchers: seq<Catcher>): (lists: seq<seq<string>>)
    ensures |lists| == |catchers| && forall i | 0 <= i < |catchers| :: lists[i] == catchers[i].errors
  {
    if catchers == [] then [] else CatchLists(catchers[..|catchers| - 1]) + [catchers[|catchers| - 1].errors]
  }

  function FirstRetrier(retry: seq<Retrier>, name: string): Option<nat> {
    FirstMatch(RetryLists(retry), name)
  }

  function FirstCatcher(catchers: seq<Catcher>, name: string): Option<nat> {
    FirstMatch(CatchLists(catchers), name)
  }

  /** What an attempt did.  Crash is a Python exception that is not a StatesError. */
  datatype Outcome<+T> = Return(value: T) | Raise(error: StatesError) | Crash {
    predicate IsFailure() {
      !Return?
    }
    function PropagateFailure<U>(): Outcome<U>
      requires !Return?
    {
      if Raise? then Raise(error) else Crash
    }
    function Extract(): T
      requires Return?
    {
      value
    }
  }

  datatype Decision = Retry(index: nat) | Catch(catcher: nat) | GiveUp

  function Decide(retry: seq<Retrier>, catchers: seq<Catcher>, counters: seq<nat>, name: string): (d: Decision)
    requires |counters| == |retry|
    ensures d.Retry? ==> d.index < |retry| && counters[d.index] < retry[d.index].maxAttempts
    ensures d.Catch? ==> d.catcher < |catchers|
  {
    var i := FirstRetrier(retry, name);
    if i.Some? && counters[i.value] < retry[i.value].maxAttempts then Retry(i.value)
    else
      match FirstCatcher(catchers, name)
      case Some(j) => Catch(j)
      case None => GiveUp
  }

  // ---------------------------------------------------------------- budgets

  function Max(a: int, b: int): int {
    if a < b then b else a
  }

  function Sum(counters: seq<nat>): nat {
    if counters == [] then 0 else counters[0] + Sum(counters[1..])
  }

  lemma {:induction false} SumStep(counters: seq<nat>, i: nat)
    requires i < |counters|
    ensures Sum(counters[i := counters[i] + 1]) == Sum(counters) + 1
  {
    if i == 0 {
      assert counters[0 := counters[0] + 1][1..] == counters[1..];
    } else {
      assert counters[i := counters[i] + 1][1..] == counters[1..][i - 1 := counters[i] + 1];
      SumStep(counters[1..], i - 1);
    }
  }

  function TotalAttempts(retry: seq<Retrier>): nat {
    if retry == [] then 0 else Max(0, retry[0].maxAttempts) + TotalAttempts(retry[1..])
  }

  ghost predicate WithinCaps(retry: seq<Retrier>, counters: seq<nat>) {
    |counters| == |retry| && forall i | 0 <= i < |retry| :: counters[i] <= Max(0, retry[i].maxAttempts)
  }

  lemma {:induction false} SumWithinCaps(retry: seq<Retrier>, counters: seq<nat>)
    requires WithinCaps(retry, counters)
    ensures Sum(counters) <= TotalAttempts(retry)
  {
    if retry != [] {
      assert WithinCaps(retry[1..], counters[1..]);
      SumWithinCaps(retry[1..], counters[1..]);
    }
  }

  function Power(base: real, n: nat): real {
    if n == 0 then 1.0 else base * Power(base, n - 1)
  }

  function Capped(interval: real, factor: real, maxDelay: Option<real>): real {
    var delay := interval * factor;
    if maxDelay.Some? && maxDelay.value < delay then maxDelay.value else delay
  }

  /** The delay before the (n+1)-th use of a retrier, without jitter. */
  function Backoff(r: Retrier, n: nat): real {
    Capped(r.interval, Power(r.rate, n), r.maxDelay)
  }

  /** What the random function draws. */
  type Fraction = r: real | 0.0 <= r <= 1.0

  function Delay(r: Retrier, n: nat, random: Fraction): real {
    if r.jitter == "FULL" then Backoff(r, n) * random else Backoff(r, n)
  }

  /** What a delay can cost at most: a negative one is never slept. */
  function Wait(r: Retrier, n: nat): real {
    if Backoff(r, n) < 0.0 then 0.0 else Backoff(r, n)
  }

  /** The longest sleep the first n uses of a retrier can cost. */
  function BackoffSum(r: Retrier, n: nat): real {
    if n == 0 then 0.0 else BackoffSum(r, n - 1) + Wait(r, n - 1)
  }

  function SleepOf(retry: seq<Retrier>, counters: seq<nat>): real
    requires |counters| == |retry|
  {
    if retry == [] then 0.0 else BackoffSum(retry[0], counters[0]) + SleepOf(retry[1..], counters[1..])
  }

  function Caps(retry: seq<Retrier>): seq<nat> {
    seq(|retry|, i requires 0 <= i < |retry| => Max(0, retry[i].maxAttempts))
  }

  lemma DelayIsPaid(r: Retrier, n: nat, random: Fraction)
    ensures Delay(r, n, random) <= Wait(r, n)
  {
    Scaled(Backoff(r, n), random);
  }

  lemma Scaled(delay: real, random: Fraction)
    ensures delay * random <= if delay < 0.0 then 0.0 else delay
  {
    if delay >= 0.0 {
      ScaleReal(delay, random);
    } else {
      ScaleReal(-delay, random);
      assert -delay * random == -(delay * random);
    }
  }

  /** A retrier that never asks for a negative sleep, read off its fields. */
  predicate Sleepable(r: Retrier) {
    r.maxAttempts <= 0 ||
    (&& r.interval >= 0.0 && (r.maxDelay.Some? ==> r.maxDelay.value >= 0.0)
     && (r.maxAttempts == 1 || r.interval == 0.0 || r.rate >= 0.0))
  }

  lemma {:induction false} PowerNonNegative(base: real, n: nat)
    requires base >= 0.0
    ensures Power(base, n) >= 0.0
  {
    if n > 0 {
      PowerNonNegative(base, n - 1);
      ScaleReal(base, Power(base, n - 1));
    }
  }

  /** A retrier is Sleepable exactly when none of its uses, whatever the jitter, asks for a negative
      sleep. */
  lemma SleepableIff(r: Retrier)
    ensures Sleepable(r) <==>
      forall n: nat, random: Fraction | n < r.maxAttempts :: Delay(r, n, random) >= 0.0
  {
    if Sleepable(r) {
      forall n: nat, random: Fraction | n < r.maxAttempts
        ensures Delay(r, n, random) >= 0.0
      {
        SleepableDelay(r, n, random);
      }
    } else {
      assert Power(r.rate, 0) == 1.0 && Power(r.rate, 1) == r.rate * 1.0;
      if Delay(r, 0, 1.0) >= 0.0 {
        assert Backoff(r, 0) == Backoff(r, 0) * 1.0 >= 0.0;
        assert r.interval > 0.0 && r.rate < 0.0 && r.maxAttempts > 1;
        ScaleReal(r.interval, -r.rate);
        assert r.interval * -r.rate == -(r.interval * r.rate);
        NotZero(r.interval, r.rate);
        assert Backoff(r, 1) == Backoff(r, 1) * 1.0;
        assert Delay(r, 1, 1.0) < 0.0;
      }
    }
  }

  lemma NotZero(a: real, b: real)
    requires a > 0.0 && b < 0.0
    ensures a * b < 0.0
  {
  }

  lemma SleepableDelay(r: Retrier, n: nat, random: Fraction)
    requires Sleepable(r) && n < r.maxAttempts
    ensures Delay(r, n, random) >= 0.0
  {
    var factor := Power(r.rate, n);
    if r.interval == 0.0 {
      assert r.interval * factor == 0.0;
    } else if n == 0 {
      assert r.interval * factor == r.interval;
    } else {
      PowerNonNegative(r.rate, n);
      ScaleReal(r.interval, factor);
    }
    ScaleReal(Backoff(r, n), random);
  }

  lemma ScaleReal(a: real, b: real)
    requires a >= 0.0 && b >= 0.0
    ensures a * b >= 0.0
    ensures b <= 1.0 ==> a * b <= a
  {
    if b <= 1.0 {
      assert a * (1.0 - b) >= 0.0;
      assert a * (1.0 - b) == a - a * b;
    }
  }

  lemma {:induction false} BackoffSumMonotone(r: Retrier, n: nat, m: nat)
    requires n <= m
    ensures BackoffSum(r, n) <= BackoffSum(r, m)
  {
    if n < m {
      BackoffSumMonotone(r, n, m - 1);
    }
  }

  lemma {:induction false} SleepMonotone(retry: seq<Retrier>, a: seq<nat>, b: seq<nat>)
    requires |a| == |b| == |retry|
    requires forall i | 0 <= i < |a| :: a[i] <= b[i]
    ensures SleepOf(retry, a) <= SleepOf(retry, b)
  {
    if retry != [] {
      BackoffSumMonotone(retry[0], a[0], b[0]);
      SleepMonotone(retry[1..], a[1..], b[1..]);
    }
  }

  lemma {:induction false} SleepStep(retry: seq<Retrier>, counters: seq<nat>, i: nat)
    requires |counters| == |retry| && i < |retry|
    ensures SleepOf(retry, counters[i := counters[i] + 1]) == SleepOf(retry, counters) + Wait(retry[i], counters[i])
  {
    if i == 0 {
      assert counters[0 := counters[0] + 1][1..] == counters[1..];
    } else {
      assert counters[i := counters[i] + 1][1..] == counters[1..][i - 1 := counters[i] + 1];
      SleepStep(retry[1..], counters[1..], i - 1);
    }
  }

  /** One more use of retrier i: one retry, and a sleep its geometric sum pays for. */
  lemma RetryStep(retry: seq<Retrier>, counters: seq<nat>, i: nat, random: Fraction, slept: real)
    requires |counters| == |retry| && i < |retry|
    requires slept <= SleepOf(retry, counters)
    ensures Sum(counters[i := counters[i] + 1]) == Sum(counters) + 1
    ensures slept + Delay(retry[i], counters[i], random) <= SleepOf(retry, counters[i := counters[i] + 1])
  {
    DelayIsPaid(retry[i], counters[i], random);
    SumStep(counters, i);
    SleepStep(retry, counters, i);
  }

  lemma WithinBudgets(retry: seq<Retrier>, counters: seq<nat>)
    requires WithinCaps(retry, counters)
    ensures Sum(counters) <= TotalAttempts(retry)
    ensures SleepOf(retry, counters) <= SleepOf(retry, Caps(retry))
  {
    SumWithinCaps(retry, counters);
    SleepMonotone(retry, counters, Caps(retry));
  }

  // ---------------------------------------------------------------- the loop

  /** How many of the first k attempts raised an error that selects retrier i. */
  ghost function Uses<T>(retry: seq<Retrier>, attempt: nat -> Outcome<T>, i: nat, k: nat): nat {
    if k == 0 then 0
    else
      Uses(retry, attempt, i, k - 1) +
      if attempt(k - 1).Raise? && FirstRetrier(retry, attempt(k - 1).error.name) == Some(i) then 1 else 0
  }

  /** Attempt k is not followed by another one: it did not raise, its error selects no retrier,
      or the retrier it selects has been used up by the attempts before. */
  ghost predicate Stops<T>(retry: seq<Retrier>, attempt: nat -> Outcome<T>, k: nat) {
    attempt(k).Raise? ==>
      var i := FirstRetrier(retry, attempt(k).error.name);
      i.None? || Uses(retry, attempt, i.value, k) >= retry[i.value].maxAttempts
  }

  /** The two errors that always fail the execution: an attempt that raises one is the last,
      and no catcher takes it. */
  lemma UncatchableIsFinal<T>(retry: seq<Retrier>, catchers: seq<Catcher>, attempt: nat -> Outcome<T>, k: nat)
    requires attempt(k).Raise? && attempt(k).error.name in UNCATCHABLE
    ensures Stops(retry, attempt, k)
    ensures FirstCatcher(catchers, attempt(k).error.name).None?
  {
  }

  ghost predicate CountersAre<T>(retry: seq<Retrier>, attempt: nat -> Outcome<T>, counters: seq<nat>, k: nat) {
    |counters| == |retry| && forall i: nat | i < |retry| :: counters[i] == Uses(retry, attempt, i, k)
  }

  /** The counters decide as the attempts so far say they should. */
  lemma DecideByUses<T>(retry: seq<Retrier>, catchers: seq<Catcher>, attempt: nat -> Outcome<T>, counters: seq<nat>,
                        k: nat)
    requires CountersAre(retry, attempt, counters, k) && attempt(k).Raise?
    ensures var e := attempt(k).error;
      match Decide(retry, catchers, counters, e.name)
      case Retry(i) => !Stops(retry, attempt, k) && CountersAre(retry, attempt, counters[i := counters[i] + 1], k + 1)
      case Catch(j) => Stops(retry, attempt, k) && FirstCatcher(catchers, e.name) == Some(j)
      case GiveUp => Stops(retry, attempt, k) && FirstCatcher(catchers, e.name).None?
  {
  }

  /** After attempt k another one is due, but `sleep` does not take the delay before it. */
  ghost predicate Refuses<T>(retry: seq<Retrier>, attempt: nat -> Outcome<T>, random: nat -> Fraction, k: nat) {
    && !Stops(retry, attempt, k)
    && var i := FirstRetrier(retry, attempt(k).error.name).value;
       Delay(retry[i], Uses(retry, attempt, i, k), random(k)) < 0.0
  }

  /** Retriers whose fields keep every delay non-negative are never refused a sleep. */
  lemma SleepableIsNeverRefused<T>(retry: seq<Retrier>, attempt: nat -> Outcome<T>, random: nat -> Fraction, k: nat)
    requires forall r <- retry :: Sleepable(r)
    ensures !Refuses(retry, attempt, random, k)
  {
    if !Stops(retry, attempt, k) {
      var i := FirstRetrier(retry, attempt(k).error.name).value;
      assert retry[i] in retry;
      SleepableDelay(retry[i], Uses(retry, attempt, i, k), random(k));
    }
  }

  /** Escaped: by an exception of the attempt, or of the sleep, that is not a StatesError. */
  datatype Handled<+T> =
    | Finished(value: T)
    | Caught(error: StatesError, catcher: nat)
    | Failed(error: StatesError)
    | Escaped

  /** The counters tell all the retries, and their sleeps pay for what was slept. */
  ghost predicate Paid(retry: seq<Retrier>, counters: seq<nat>, retries: nat, slept: real) {
    WithinCaps(retry, counters) && retries == Sum(counters) && 0.0 <= slept <= SleepOf(retry, counters)
  }

  lemma PayForOne(retry: seq<Retrier>, counters: seq<nat>, retries: nat, slept: real, i: nat, random: Fraction)
    requires Paid(retry, counters, retries, slept)
    requires i < |retry| && counters[i] < retry[i].maxAttempts
    ensures var delay := Delay(retry[i], counters[i], random);
      Paid(retry, counters[i := counters[i] + 1], retries + 1, if delay < 0.0 then slept else slept + delay)
    ensures retries < TotalAttempts(retry)
  {
    RetryStep(retry, counters, i, random, slept);
    SleepStep(retry, counters, i);
    WithinBudgets(retry, counters[i := counters[i] + 1]);
  }

  ghost predicate GoesOnBefore<T>(retry: seq<Retrier>, attempt: nat -> Outcome<T>, random: nat -> Fraction, n: nat) {
    forall k: nat | k < n :: !Stops(retry, attempt, k) && !Refuses(retry, attempt, random, k)
  }

  /** What attempt k ends in, after how many retries. */
  ghost predicate Ends<T>(
      retry: seq<Retrier>, catchers: seq<Catcher>, attempt: nat -> Outcome<T>, random: nat -> Fraction,
      k: nat, o: Handled<T>, retries: nat)
  {
    if Refuses(retry, attempt, random, k) then o == Escaped && retries == k + 1
    else Stops(retry, attempt, k) && o == Settled(catchers, attempt(k)) && retries == k
  }

  lemma GoesOnOneMore<T>(retry: seq<Retrier>, attempt: nat -> Outcome<T>, random: nat -> Fraction, n: nat)
    requires GoesOnBefore(retry, attempt, random, n)
    ensures !Stops(retry, attempt, n) && !Refuses(retry, attempt, random, n) ==>
      GoesOnBefore(retry, attempt, random, n + 1)
  {
  }

  /** What is made of the last attempt. */
  function Settled<T>(catchers: seq<Catcher>, last: Outcome<T>): Handled<T> {
    match last
    case Return(v) => Finished(v)
    case Crash => Escaped
    case Raise(e) =>
      match FirstCatcher(catchers, e.name)
      case Some(j) => Caught(e, j)
      case None => Failed(e)
  }

  /** After so many attempts: settled by the last of them, or about to make the next one. */
  ghost predicate Underway<T>(
      retry: seq<Retrier>, catchers: seq<Catcher>, attempt: nat -> Outcome<T>, random: nat -> Fraction,
      attempts: nat, settled: Option<Handled<T>>, counters: seq<nat>, retries: nat, slept: real)
  {
    && Paid(retry, counters, retries, slept) && CountersAre(retry, attempt, counters, retries)
    && match settled
       case None => retries == attempts && GoesOnBefore(retry, attempt, random, attempts)
       case Some(o) =>
         && attempts >= 1 && GoesOnBefore(retry, attempt, random, attempts - 1)
         && Ends(retry, catchers, attempt, random, attempts - 1, o, retries)
  }

  /** Attempt k settles the matter, or a retrier is used and the wait before the next one slept. */
  method HandleAttempt<T>(
      retry: seq<Retrier>, catchers: seq<Catcher>, attempt: nat -> Outcome<T>, random: nat -> Fraction,
      counters: seq<nat>, k: nat, slept: real)
    returns (settled: Option<Handled<T>>, counters': seq<nat>, retries: nat, slept': real)
    requires Underway(retry, catchers, attempt, random, k, None, counters, k, slept)
    ensures Underway(retry, catchers, attempt, random, k + 1, settled, counters', retries, slept')
    ensures k <= TotalAttempts(retry) && (settled.None? ==> k < TotalAttempts(retry))
  {
    WithinBudgets(retry, counters);
    GoesOnOneMore(retry, attempt, random, k);
    counters', retries, slept' := counters, k, slept;
    match attempt(k) {
      case Return(v) =>
        settled := Some(Finished(v));
      case Crash =>
        settled := Some(Escaped);
      case Raise(e) =>
        DecideByUses(retry, catchers, attempt, counters, k);
        match Decide(retry, catchers, counters, e.name) {
          case Retry(i) =>
            PayForOne(retry, counters, k, slept, i, random(k));
            var delay := Delay(retry[i], counters[i], random(k));
            counters' := counters[i := counters[i] + 1];
            retries := k + 1;
            if delay < 0.0 {
              settled := Some(Escaped);
            } else {
              slept', settled := slept + delay, None;
            }
          case Catch(j) =>
            settled := Some(Caught(e, j));
          case GiveUp =>
            settled := Some(Failed(e));
        }
    }
  }

  /** `attempt(k)` is what attempt k does, whatever is attempted; `random(k)` the jitter drawn
      after it.  The loop ends at the first attempt that Stops or is refused its sleep, no later
      than the retriers allow, and never sleeps longer than their capped geometric sums. */
  method WithHandlers<T>(retry: seq<Retrier>, catchers: seq<Catcher>, attempt: nat -> Outcome<T>,
                         random: nat -> Fraction)
    returns (outcome: Handled<T>, attempts: nat, retries: nat, counters: seq<nat>, slept: real)
    ensures 1 <= attempts <= 1 + TotalAttempts(retry)
    ensures GoesOnBefore(retry, attempt, random, attempts - 1)
    ensures Ends(retry, catchers, attempt, random, attempts - 1, outcome, retries)
    ensures retries == Sum(counters) <= TotalAttempts(retry) && CountersAre(retry, attempt, counters, retries)
    ensures 0.0 <= slept <= SleepOf(retry, Caps(retry))
    ensures (forall r <- retry :: Sleepable(r)) ==> (outcome.Escaped? <==> attempt(attempts - 1).Crash?)
  {
    var settled;
    settled, attempts, retries, counters, slept := UntilSettled(retry, catchers, attempt, random);
    Concluded(retry, catchers, attempt, random, attempts, Some(settled), counters, retries, slept);
    outcome := settled;
  }

  method UntilSettled<T>(retry: seq<Retrier>, catchers: seq<Catcher>, attempt: nat -> Outcome<T>,
                         random: nat -> Fraction)
    returns (outcome: Handled<T>, attempts: nat, retries: nat, counters: seq<nat>, slept: real)
    ensures Underway(retry, catchers, attempt, random, attempts, Some(outcome), counters, retries, slept)
  {
    counters := seq(|retry|, i => 0);
    NothingTried(retry, catchers, attempt, random, counters);
    attempts, retries, slept := 0, 0, 0.0;
    var settled := None;
    while settled.None?
      invariant Underway(retry, catchers, attempt, random, attempts, settled, counters, retries, slept)
      decreases settled.None?, TotalAttempts(retry) - attempts
    {
      settled, counters, retries, slept := HandleAttempt(retry, catchers, attempt, random, counters, attempts, slept);
      attempts := attempts + 1;
    }
    outcome := settled.value;
  }

  lemma NothingTried<T>(
      retry: seq<Retrier>, catchers: seq<Catcher>, attempt: nat -> Outcome<T>, random: nat -> Fraction,
      counters: seq<nat>)
    requires |counters| == |retry| && forall i | 0 <= i < |counters| :: counters[i] == 0
    ensures Underway(retry, catchers, attempt, random, 0, None, counters, 0, 0.0)
  {
    SumZeros(retry, counters);
  }

  lemma Concluded<T>(
      retry: seq<Retrier>, catchers: seq<Catcher>, attempt: nat -> Outcome<T>, random: nat -> Fraction,
      attempts: nat, settled: Option<Handled<T>>, counters: seq<nat>, retries: nat, slept: real)
    requires settled.Some? && Underway(retry, catchers, attempt, random, attempts, settled, counters, retries, slept)
    ensures 1 <= attempts <= 1 + TotalAttempts(retry)
    ensures GoesOnBefore(retry, attempt, random, attempts - 1)
    ensures Ends(retry, catchers, attempt, random, attempts - 1, settled.value, retries)
    ensures retries == Sum(counters) <= TotalAttempts(retry) && CountersAre(retry, attempt, counters, retries)
    ensures 0.0 <= slept <= SleepOf(retry, Caps(retry))
    ensures (forall r <- retry :: Sleepable(r)) ==> (settled.value.Escaped? <==> attempt(attempts - 1).Crash?)
  {
    WithinBudgets(retry, counters);
    if forall r <- retry :: Sleepable(r) {
      SleepableIsNeverRefused(retry, attempt, random, attempts - 1);
    }
  }

  lemma {:induction false} SumZeros(retry: seq<Retrier>, counters: seq<nat>)
    requires |counters| == |retry| && forall i | 0 <= i < |counters| :: counters[i] == 0
    ensures Sum(counters) == 0 && SleepOf(retry, counters) == 0.0
  {
    if counters != [] {
      SumZeros(retry[1..], counters[1..]);
    }
  }
}
