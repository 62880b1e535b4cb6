/** Type soundness: an accepted definition never looks up a state, a resource, an operator or a
    transition that is not there, in any reachable configuration, whatever the payload and the
    tasks.  There are two holes: a Fail state whose CausePath is null, and a retrier that asks for
    a negative sleep. */
module AslSoundness {
  import opened Json
  import opened AslPaths
  import opened AslSyntax
  import opened AslRetry
  import opened AslRun

  // ---------------------------------------------------------------- invariant

  /** Nothing in the configuration is broken or refers to a missing state, and the retry
      counters are within their caps and add up to the retry count. */
  ghost predicate Intact(m: Machine, c: Config)
    decreases c
  {
    match c
    case Entering(state, _, _) => state in m.states
    case Trying(state, _, _, counters, retries) => InsideWork(m, state, counters, retries)
    case Mapping(state, _, _, counters, retries, _, items, subs) =>
      && InsideWork(m, state, counters, retries)
      && m.states[state].Map?
      && |subs| == |items|
      && forall sub <- subs :: Intact(m.states[state].processor, sub)
    case Broken => false
    case _ => true
  }

  ghost predicate InsideWork(m: Machine, state: string, counters: seq<nat>, retries: nat) {
    && state in m.states && IsWork(m.states[state])
    && WithinCaps(m.states[state].work.retry, counters)
    && retries == Sum(counters)
  }

  /** The attempt failed, and the delay before the next one is negative. */
  predicate SleepRefused(env: Env, work: Work, addr: seq<nat>, c: Config, o: Outcome<Json>)
    requires Busy(c)
  {
    && o.Raise? && |c.counters| == |work.retry|
    && var d := Decide(work.retry, work.catchers, c.counters, o.error.name);
       d.Retry? && Delay(work.retry[d.index], c.counters[d.index], env.random(addr + [c.tick, c.retries])) < 0.0
  }

  /** An attempt that is over in one step and is refused its sleep. */
  predicate TryCrashes(state: State, env: Env, context: Context, addr: seq<nat>, c: Config)
    requires c.Trying?
  {
    var inside := StateContext(context, c.state, c.retries);
    match state
    case Task(work, resource, parameters, _) =>
      SleepRefused(env, work, addr, c,
        TaskAttempt(env, work, resource, parameters, inside, addr + [c.tick, c.retries], c.data))
    case Map(work, itemsPath, _, _, _) =>
      var found := MapItems(work, itemsPath, inside, c.data);
      !found.Return? && SleepRefused(env, work, addr, c, found.PropagateFailure())
    case _ => false
  }

  /** The moving configuration enters, in time, a Fail state whose CausePath is null, or its attempt
      fails and is refused the sleep before the next one. */
  ghost predicate CrashPoint(m: Machine, env: Env, context: Context, addr: seq<nat>, c: Config, choice: seq<nat>)
    decreases choice
  {
    match c
    case Entering(state, _, tick) =>
      !env.expired(addr + [tick]) && state in m.states && NullCause(m.states[state])
    case Trying(state, _, _, _, _) =>
      state in m.states && TryCrashes(m.states[state], env, context, addr, c)
    case Mapping(state, _, tick, _, retries, _, items, subs) =>
      && state in m.states && m.states[state].Map?
      && if choice == []
         then SleepRefused(env, m.states[state].work, addr, c, MapAttempt(m.states[state].work, context, c))
         else
           var i := choice[0];
           && i < |subs| && i < |items|
           && CrashPoint(m.states[state].processor, env,
                ItemContext(StateContext(context, state, retries), i, items[i]),
                         addr + [tick, retries, i], subs[i], choice[1..])
    case _ => false
  }

  /** No state with a null CausePath and no retrier that can ask for a negative sleep, anywhere, item
      processors included. */
  predicate CrashFree(m: Machine) {
    forall name <- m.states ::
      && !NullCause(m.states[name])
      && (IsWork(m.states[name]) ==> forall r <- m.states[name].work.retry :: Sleepable(r))
      && (m.states[name].Map? ==> CrashFree(m.states[name].processor))
  }

  // ---------------------------------------------------------------- payloads and rules

  lemma {:induction false} ResolveNeverCrashes(t: Template, data: Json, context: Context)
    requires ValidTemplate(t)
    ensures !Resolve(t, data, context).Crash?
    decreases t, 1
  {
    if t.Fields? {
      forall e <- t.entries
        ensures !ResolveEntry(e, data, context).Crash?
      {
        if !IsDynamic(e.key) {
          ResolveNeverCrashes(e.template, data, context);
        }
      }
      EntriesNeverCrash(t.entries, data, context);
    }
  }

  lemma {:induction false} EntriesNeverCrash(entries: seq<Entry>, data: Json, context: Context)
    requires forall e <- entries :: !ResolveEntry(e, data, context).Crash?
    ensures !ResolveEntries(entries, data, context).Crash?
  {
    if entries != [] {
      EntriesNeverCrash(entries[..|entries| - 1], data, context);
    }
  }

  lemma {:induction false} EvalNeverCrashes(rule: Rule, top: bool, data: Json, context: Context)
    requires ValidRule(rule, top) && TypedRule(rule)
    ensures !Eval(rule, data, context).Crash?
  {
    match rule.form
    case And(rules) => RulesNeverCrash(rules, data, context);
    case Or(rules) => RulesNeverCrash(rules, data, context);
    case Not(r) => EvalNeverCrashes(r, false, data, context);
    case Mixed(_) =>
    case Compare(_, _) => CompareNeverCrashes(rule, top, data, context);
  }

  lemma CompareNeverCrashes(rule: Rule, top: bool, data: Json, context: Context)
    requires ValidRule(rule, top) && TypedRule(rule) && rule.form.Compare?
    ensures !Eval(rule, data, context).Crash?
  {
    var ops := rule.form.ops;
    var op :| op in OPERATORS && ops.Keys == {op};
    assert op in ops && TypedOperand(op, ops[op]);
    assert forall other <- ops :: other == op;
  }

  lemma {:induction false} RulesNeverCrash(rules: seq<Rule>, data: Json, context: Context)
    requires forall r <- rules :: ValidRule(r, false) && TypedRule(r)
    ensures !EvalAll(rules, data, context).Crash? && !EvalAny(rules, data, context).Crash?
  {
    if rules != [] {
      EvalNeverCrashes(rules[0], false, data, context);
      RulesNeverCrash(rules[1..], data, context);
    }
  }

  lemma {:induction false} TargetIsKnown(rules: seq<Rule>, default: Option<string>, data: Json, context: Context,
                                         names: set<string>)
    requires forall r <- rules :: ValidRule(r, true) && TypedRule(r) && r.next.value in names
    requires default.Some? ==> default.value in names
    ensures var t := Target(rules, default, data, context); !t.Crash? && (t.Return? ==> t.value in names)
  {
    if rules != [] {
      EvalNeverCrashes(rules[0], true, data, context);
      TargetIsKnown(rules[1..], default, data, context, names);
    }
  }

  // ---------------------------------------------------------------- handlers

  lemma HandleIntactIff(m: Machine, env: Env, addr: seq<nat>, c: Config, o: Outcome<Json>)
    requires Busy(c) && InsideWork(m, c.state, c.counters, c.retries) && !o.Crash?
    requires var work := m.states[c.state].work;
      ValidFlow(work.flow, m.states.Keys) && ValidCatchers(work.catchers, m.states.Keys)
    ensures var work := m.states[c.state].work;
      Intact(m, HandleAt(env, work, addr, c, o)) <==> !SleepRefused(env, work, addr, c, o)
  {
    var work := m.states[c.state].work;
    if o.Raise? {
      if Decide(work.retry, work.catchers, c.counters, o.error.name).Retry? {
        RetriedIntactIff(m, env, addr, c, o.error);
      } else {
        UnretriedIsIntact(m, env, addr, c, o.error);
      }
    } else {
      AdvanceIsIntact(m, work.flow, o, c.tick);
    }
  }

  lemma RetriedIntactIff(m: Machine, env: Env, addr: seq<nat>, c: Config, e: StatesError)
    requires Busy(c) && InsideWork(m, c.state, c.counters, c.retries)
    requires var work := m.states[c.state].work; Decide(work.retry, work.catchers, c.counters, e.name).Retry?
    ensures var work := m.states[c.state].work;
      Intact(m, HandleAt(env, work, addr, c, Raise(e))) <==> !SleepRefused(env, work, addr, c, Raise(e))
  {
    var work := m.states[c.state].work;
    OneMoreUse(work.retry, c.counters, Decide(work.retry, work.catchers, c.counters, e.name).index);
  }

  lemma UnretriedIsIntact(m: Machine, env: Env, addr: seq<nat>, c: Config, e: StatesError)
    requires Busy(c) && InsideWork(m, c.state, c.counters, c.retries)
    requires var work := m.states[c.state].work;
      ValidCatchers(work.catchers, m.states.Keys) && !Decide(work.retry, work.catchers, c.counters, e.name).Retry?
    ensures Intact(m, HandleAt(env, m.states[c.state].work, addr, c, Raise(e)))
  {
    var work := m.states[c.state].work;
    var d := Decide(work.retry, work.catchers, c.counters, e.name);
    if d.Catch? {
      FallbackIsIntact(m, work.catchers, d.catcher, c.data, c.tick, e);
    }
  }

  lemma OneMoreUse(retry: seq<Retrier>, counters: seq<nat>, i: nat)
    requires WithinCaps(retry, counters) && i < |retry| && counters[i] < retry[i].maxAttempts
    ensures WithinCaps(retry, counters[i := counters[i] + 1])
      && Sum(counters[i := counters[i] + 1]) == Sum(counters) + 1
  {
    SumStep(counters, i);
  }

  lemma FallbackIsIntact(m: Machine, catchers: seq<Catcher>, j: nat, data: Json, tick: nat, e: StatesError)
    requires ValidCatchers(catchers, m.states.Keys) && j < |catchers|
    ensures Intact(m, Fallback(catchers[j], data, tick, e))
  {
  }

  lemma AdvanceIsIntact(m: Machine, flow: Flow, o: Outcome<Json>, tick: nat)
    requires ValidFlow(flow, m.states.Keys) && !o.Crash?
    ensures Intact(m, Advance(flow, o, tick))
  {
  }

  lemma DeliverNeverCrashes(work: Work, data: Json, result: Outcome<Json>, context: Context)
    requires ValidTemplateOption(work.selector) && !result.Crash?
    ensures !Deliver(work, data, result, context).Crash?
  {
    if result.Return? && work.selector.Some? {
      ResolveNeverCrashes(work.selector.value, result.value, context);
    }
  }

  lemma TaskNeverCrashes(env: Env, state: State, names: set<string>, context: Context, addr: seq<nat>, data: Json)
    requires state.Task? && ValidState(state, names, env.resources)
    ensures !TaskAttempt(env, state.work, state.resource, state.parameters, context, addr, data).Crash?
  {
    var effective := Select(data, state.work.io.inputPath, context);
    if effective.Return? && state.parameters.Some? {
      ResolveNeverCrashes(state.parameters.value, effective.value, context);
    }
    DeliverNeverCrashes(state.work, data,
      TaskOutcome(env, state.work, state.resource, state.parameters, context, addr, data), context);
  }

  lemma IterationIsIntact(processor: Machine, resources: set<string>, itemSelector: Option<Template>,
                          effective: Json, item: Json, index: nat, inside: Context)
    requires ValidMachine(processor, resources, false) && ValidTemplateOption(itemSelector)
    ensures Intact(processor, Iteration(processor, itemSelector, effective, item, index, inside))
  {
    if itemSelector.Some? {
      ResolveNeverCrashes(itemSelector.value, effective, ItemContext(inside, index, item));
    }
  }

  // ---------------------------------------------------------------- gathering a map

  lemma {:induction false} GatherNeverCrashes(subs: seq<Config>)
    requires forall sub <- subs :: sub.Done? || sub.Raised?
    ensures !Gather(subs).Crash?
  {
    if subs != [] {
      GatherNeverCrashes(subs[1..]);
    }
  }

  /** The result of a map whose iterations are over: every output in item order, or the error of
      the first failing item. */
  lemma {:induction false} GatherIsInItemOrder(subs: seq<Config>)
    requires forall sub <- subs :: sub.Done? || sub.Raised?
    ensures (forall sub <- subs :: sub.Done?) <==> Gather(subs).Return?
    ensures Gather(subs).Return? ==>
      && |Gather(subs).value| == |subs|
      && forall i | 0 <= i < |subs| :: subs[i].Done? && Gather(subs).value[i] == subs[i].output
    ensures !Gather(subs).Return? ==>
      exists i | 0 <= i < |subs| ::
        && subs[i].Raised? && Gather(subs) == Raise(subs[i].error)
        && forall j | 0 <= j < i :: subs[j].Done?
  {
    if subs != [] {
      GatherIsInItemOrder(subs[1..]);
      GatherNeverCrashes(subs[1..]);
      if subs[0].Done? && !Gather(subs[1..]).Return? {
        var i :| 0 <= i < |subs[1..]| && subs[1..][i].Raised? && Gather(subs[1..]) == Raise(subs[1..][i].error)
                 && forall j | 0 <= j < i :: subs[1..][j].Done?;
        assert subs[i + 1] == subs[1..][i];
        forall j | 0 <= j < i + 1
          ensures subs[j].Done?
        {
          if j > 0 { assert subs[j] == subs[1..][j - 1]; }
        }
      } else if subs[0].Raised? {
        assert subs[0] in subs;
      }
    }
  }

  // ---------------------------------------------------------------- steps

  lemma PassNeverCrashes(state: State, context: Context, data: Json)
    requires state.Pass? && ValidTemplateOption(state.parameters)
    ensures !PassData(state.io, state.parameters, state.result, state.resultPath, context, data).Crash?
  {
    var effective := Select(data, state.io.inputPath, context);
    if effective.Return? && state.parameters.Some? {
      ResolveNeverCrashes(state.parameters.value, effective.value, context);
    }
  }

  lemma ChoiceIsKnown(state: State, names: set<string>, resources: set<string>, context: Context, data: Json)
    requires state.Choice? && ValidState(state, names, resources) && TypedState(state)
    ensures var o := ChoiceData(state.io, state.rules, state.default, context, data);
      !o.Crash? && (o.Return? ==> o.value.0 in names)
  {
    var effective := Select(data, state.io.inputPath, context);
    if effective.Return? {
      TargetIsKnown(state.rules, state.default, effective.value, context, names);
    }
  }

  lemma EnterChoiceStep(m: Machine, env: Env, context: Context, addr: seq<nat>, c: Config)
    requires c.Entering? && c.state in m.states && m.states[c.state].Choice?
    requires ValidState(m.states[c.state], m.states.Keys, env.resources) && TypedState(m.states[c.state])
    ensures Intact(m, Enter(m, env, context, addr, c))
  {
    ChoiceIsKnown(m.states[c.state], m.states.Keys, env.resources, context, c.data);
  }

  lemma EnterPassStep(m: Machine, env: Env, context: Context, addr: seq<nat>, c: Config)
    requires c.Entering? && c.state in m.states && m.states[c.state].Pass?
    requires ValidState(m.states[c.state], m.states.Keys, env.resources)
    ensures Intact(m, Enter(m, env, context, addr, c))
  {
    var state := m.states[c.state];
    PassNeverCrashes(state, context, c.data);
    var o := PassData(state.io, state.parameters, state.result, state.resultPath, context, c.data);
    AdvanceIsIntact(m, state.flow, o, c.tick);
  }

  lemma EnterWorkStep(m: Machine, env: Env, context: Context, addr: seq<nat>, c: Config)
    requires c.Entering? && c.state in m.states && IsWork(m.states[c.state])
    ensures Intact(m, Enter(m, env, context, addr, c))
  {
    ZeroCounters(m.states[c.state].work.retry);
  }

  lemma EnterStep(m: Machine, env: Env, top: bool, context: Context, addr: seq<nat>, c: Config)
    requires ValidMachine(m, env.resources, top) && TypedMachine(m)
    requires c.Entering? && Intact(m, c)
    ensures Intact(m, Enter(m, env, context, addr, c)) <==> !CrashPoint(m, env, context, addr, c, [])
  {
    var state := m.states[c.state];
    assert ValidState(state, m.states.Keys, env.resources) && TypedState(state);
    if state.Choice? {
      EnterChoiceStep(m, env, context, addr, c);
    } else if state.Pass? {
      EnterPassStep(m, env, context, addr, c);
    } else if IsWork(state) {
      EnterWorkStep(m, env, context, addr, c);
    } else {
      EnterLastStep(m, env, context, addr, c);
    }
  }

  lemma EnterLastStep(m: Machine, env: Env, context: Context, addr: seq<nat>, c: Config)
    requires c.Entering? && c.state in m.states && (m.states[c.state].Succeed? || m.states[c.state].Fail?)
    ensures Intact(m, Enter(m, env, context, addr, c)) <==> !CrashPoint(m, env, context, addr, c, [])
  {
  }

  lemma ZeroCounters(retry: seq<Retrier>)
    ensures WithinCaps(retry, seq(|retry|, i => 0)) && Sum(seq(|retry|, i => 0)) == 0
  {
    SumZeros(retry, seq(|retry|, i => 0));
  }

  lemma AttemptStep(m: Machine, env: Env, top: bool, context: Context, addr: seq<nat>, c: Config)
    requires ValidMachine(m, env.resources, top)
    requires c.Trying? && Intact(m, c)
    ensures Intact(m, Attempt(m, env, context, addr, c)) <==> !CrashPoint(m, env, context, addr, c, [])
  {
    var state := m.states[c.state];
    assert ValidState(state, m.states.Keys, env.resources);
    if state.Task? {
      AttemptTaskStep(m, env, context, addr, c);
    } else {
      AttemptMapStep(m, env, context, addr, c);
    }
  }

  lemma AttemptTaskStep(m: Machine, env: Env, context: Context, addr: seq<nat>, c: Config)
    requires c.Trying? && Intact(m, c)
    requires m.states[c.state].Task? && ValidState(m.states[c.state], m.states.Keys, env.resources)
    ensures Intact(m, Attempt(m, env, context, addr, c)) <==> !CrashPoint(m, env, context, addr, c, [])
  {
    var state := m.states[c.state];
    var inside, at := StateContext(context, c.state, c.retries), addr + [c.tick, c.retries];
    TaskNeverCrashes(env, state, m.states.Keys, inside, at, c.data);
    HandleIntactIff(m, env, addr, c,
      TaskAttempt(env, state.work, state.resource, state.parameters, inside, at, c.data));
  }

  lemma AttemptMapStep(m: Machine, env: Env, context: Context, addr: seq<nat>, c: Config)
    requires c.Trying? && Intact(m, c)
    requires m.states[c.state].Map? && ValidState(m.states[c.state], m.states.Keys, env.resources)
    ensures Intact(m, Attempt(m, env, context, addr, c)) <==> !CrashPoint(m, env, context, addr, c, [])
  {
    var state := m.states[c.state];
    var inside := StateContext(context, c.state, c.retries);
    var found := MapItems(state.work, state.itemsPath, inside, c.data);
    if found.Return? {
      var (effective, items) := found.value;
      forall i: nat | i < |items|
        ensures Intact(state.processor, Iteration(state.processor, state.itemSelector, effective, items[i], i, inside))
      {
        IterationIsIntact(state.processor, env.resources, state.itemSelector, effective, items[i], i, inside);
      }
    } else {
      HandleIntactIff(m, env, addr, c, found.PropagateFailure());
    }
  }

  lemma JoinStep(m: Machine, env: Env, top: bool, context: Context, addr: seq<nat>, c: Config)
    requires ValidMachine(m, env.resources, top)
    requires c.Mapping? && Intact(m, c) && forall sub <- c.subs :: Terminal(sub)
    ensures Intact(m, Join(env, m.states[c.state].work, context, addr, c)) <==>
      !CrashPoint(m, env, context, addr, c, [])
  {
    assert ValidState(m.states[c.state], m.states.Keys, env.resources);
    var work := m.states[c.state].work;
    GatherNeverCrashes(c.subs);
    DeliverNeverCrashes(work, c.data, MapResult(c.subs), StateContext(context, c.state, c.retries));
    HandleIntactIff(m, env, addr, c, MapAttempt(work, context, c));
  }

  /** One step of an intact configuration, at any depth, leaves it intact unless the part that
      moves is at a crash point. */
  lemma {:induction false} StepIntactIff(
      m: Machine, env: Env, top: bool, context: Context, addr: seq<nat>, c: Config, choice: seq<nat>)
    requires ValidMachine(m, env.resources, top) && TypedMachine(m)
    requires Intact(m, c) && Enabled(c, choice)
    ensures Intact(m, Step(m, env, context, addr, c, choice)) <==> !CrashPoint(m, env, context, addr, c, choice)
    decreases choice
  {
    match c
    case Entering(_, _, _) => EnterStep(m, env, top, context, addr, c);
    case Trying(_, _, _, _, _) => AttemptStep(m, env, top, context, addr, c);
    case Mapping(state, _, tick, _, retries, _, items, subs) =>
      assert ValidState(m.states[state], m.states.Keys, env.resources) && TypedState(m.states[state]);
      if choice == [] {
        JoinStep(m, env, top, context, addr, c);
      } else {
        var i, processor := choice[0], m.states[state].processor;
        var inside, at := ItemContext(StateContext(context, state, retries), i, items[i]), addr + [tick, retries, i];
        StepIntactIff(processor, env, false, inside, at, subs[i], choice[1..]);
        OneSubMoves(m, c, i, Step(processor, env, inside, at, subs[i], choice[1..]));
      }
    case _ =>
  }

  /** A map stays intact exactly when the iteration that moved did. */
  lemma OneSubMoves(m: Machine, c: Config, i: nat, sub: Config)
    requires c.Mapping? && Intact(m, c) && i < |c.subs|
    ensures Intact(m, c.(subs := c.subs[i := sub])) <==> Intact(m.states[c.state].processor, sub)
  {
    var after := c.subs[i := sub];
    assert after[i] == sub && forall s <- after :: s == sub || s in c.subs;
  }

  lemma {:induction false} CrashFreeHasNoCrashPoint(
      m: Machine, env: Env, context: Context, addr: seq<nat>, c: Config, choice: seq<nat>)
    requires CrashFree(m) && Intact(m, c)
    ensures !CrashPoint(m, env, context, addr, c, choice)
    decreases choice
  {
    match c
    case Trying(state, _, _, _, _) =>
      NeverRefused(env, m.states[state].work, addr, c);
    case Mapping(state, _, tick, _, retries, _, items, subs) =>
      if choice == [] {
        NeverRefused(env, m.states[state].work, addr, c);
      } else if choice[0] < |subs| {
        var i := choice[0];
        CrashFreeHasNoCrashPoint(m.states[state].processor, env,
          ItemContext(StateContext(context, state, retries), i, items[i]),
                                 addr + [tick, retries, i], subs[i], choice[1..]);
      }
    case _ =>
  }

  lemma NeverRefused(env: Env, work: Work, addr: seq<nat>, c: Config)
    requires Busy(c) && forall r <- work.retry :: Sleepable(r)
    ensures forall o :: !SleepRefused(env, work, addr, c, o)
  {
    forall i: nat, n: nat, u: Fraction | i < |work.retry| && n < work.retry[i].maxAttempts
      ensures Delay(work.retry[i], n, u) >= 0.0
    {
      assert work.retry[i] in work.retry;
      SleepableDelay(work.retry[i], n, u);
    }
  }

  // ---------------------------------------------------------------- progress

  /** The leftmost running configuration. */
  function Leftmost(c: Config): (choice: seq<nat>)
    requires !Terminal(c)
    ensures Enabled(c, choice)
  {
    if !c.Mapping? then []
    else
      match FirstRunning(c.subs)
      case None => []
      case Some(i) => [i] + Leftmost(c.subs[i])
  }

  function FirstRunning(subs: seq<Config>): (index: Option<nat>)
    ensures index.Some? ==> index.value < |subs| && !Terminal(subs[index.value])
    ensures index.None? <==> forall sub <- subs :: Terminal(sub)
  {
    if subs == [] then None
    else if !Terminal(subs[0]) then Some(0)
    else
      assert subs == [subs[0]] + subs[1..];
      match FirstRunning(subs[1..]) case Some(i) => Some(i + 1) case None => None
  }

  // ---------------------------------------------------------------- whole runs

  /** Every schedule of an accepted crash-free definition, from every payload and
      for all task behaviour, stays intact; so it has an output, has raised a StatesError, or
      can move on. */
  lemma {:induction false} RunsAreIntact(
      m: Machine, env: Env, top: bool, context: Context, addr: seq<nat>, c: Config, schedule: seq<seq<nat>>)
    requires ValidMachine(m, env.resources, top) && TypedMachine(m) && CrashFree(m)
    requires Intact(m, c) && Runs(m, env, context, addr, c, schedule)
    ensures var after := After(m, env, context, addr, c, schedule);
      Intact(m, after) && (after.Done? || after.Raised? || Enabled(after, Leftmost(after)))
    decreases |schedule|
  {
    if schedule != [] {
      StepIntactIff(m, env, top, context, addr, c, schedule[0]);
      CrashFreeHasNoCrashPoint(m, env, context, addr, c, schedule[0]);
      RunsAreIntact(m, env, top, context, addr, Step(m, env, context, addr, c, schedule[0]), schedule[1..]);
    }
  }

  lemma TypeSoundness(m: Machine, env: Env, context: Context, payload: Json, schedule: seq<seq<nat>>)
    requires ValidMachine(m, env.resources, true) && TypedMachine(m) && CrashFree(m)
    requires Runs(m, env, context, [], Start(m, payload), schedule)
    ensures var after := After(m, env, context, [], Start(m, payload), schedule);
      Intact(m, after) && (after.Done? || after.Raised? || Enabled(after, Leftmost(after)))
  {
    RunsAreIntact(m, env, true, context, [], Start(m, payload), schedule);
  }

  /** While a state is being attempted, at most its retriers' attempts have been used up. */
  lemma RetriesAreBounded(m: Machine, c: Config)
    requires Intact(m, c) && Busy(c)
    ensures c.retries <= TotalAttempts(m.states[c.state].work.retry)
  {
    SumWithinCaps(m.states[c.state].work.retry, c.counters);
  }

  /** Without the condition it fails: this definition loads, and its first step is a Python
      exception that is not a StatesError. */
  lemma NullCauseBreaks(env: Env, context: Context, payload: Json)
    requires !env.expired([0])
    ensures var m := Machine(Some("Stop"), map["Stop" := Fail(Some("Error"), "", NullPath, {})], None, None, {});
      && ValidMachine(m, env.resources, true) && TypedMachine(m)
      && Enabled(Start(m, payload), [])
      && Step(m, env, context, [], Start(m, payload), []) == Broken
  {
    var m := Machine(Some("Stop"), map["Stop" := Fail(Some("Error"), "", NullPath, {})], None, None, {});
    assert [] + [0] == [0];
    assert ValidState(m.states["Stop"], m.states.Keys, env.resources);
  }

  /** A task that may be tried again, by the only retrier. */
  function RetriedTask(r: Retrier, resource: string): Machine {
    Machine(Some("Work"),
      map["Work" :=
            Task(Work(Io(Absent, Absent), None, Absent, [r], [], Flow(None, true)), "${" + resource + "}", None, {})],
      None, None, {})
  }

  /** Nor is every retrier sound: a definition whose interval is negative loads, and after the first
      failure of its task the sleep is a ValueError. */
  lemma NegativeIntervalBreaks(env: Env, context: Context, payload: Json, r: Retrier, name: string, cause: string)
    requires r.errors == [STATES_ALL] && r.extra == {} && r.jitter == "NONE" && r.maxAttempts > 0 && r.interval < 0.0
    requires "Fn" in env.resources && !env.expired([0]) && !env.tooLarge(payload)
    requires env.invoke("Fn", payload, [0, 0]) == Exception(name, cause) && name !in UNCATCHABLE
    ensures var m := RetriedTask(r, "Fn");
      && ValidMachine(m, env.resources, true) && TypedMachine(m) && !NullCause(m.states["Work"]) && !CrashFree(m)
      && Runs(m, env, context, [], Start(m, payload), [[], []])
      && After(m, env, context, [], Start(m, payload), [[], []]) == Broken
  {
    var m := RetriedTask(r, "Fn");
    RetriedTaskIsValid(env, r);
    var entered := Step(m, env, context, [], Start(m, payload), []);
    assert [] + [0] == [0] && [] + [0, 0] == [0, 0];
    assert entered == Trying("Work", payload, 0, seq(1, i => 0), 0);
    assert Matches(r.errors, name) by { assert STATES_ALL in r.errors; }
    assert Backoff(r, 0) < 0.0 by { assert Power(r.rate, 0) == 1.0; }
    assert Step(m, env, context, [], entered, []) == Broken;
    var schedule: seq<seq<nat>> := [[], []];
    assert schedule[1..] == [[]];
  }

  lemma RetriedTaskIsValid(env: Env, r: Retrier)
    requires r.errors == [STATES_ALL] && r.extra == {} && r.jitter == "NONE" && "Fn" in env.resources
    ensures var m := RetriedTask(r, "Fn");
      && ValidMachine(m, env.resources, true) && TypedMachine(m) && !NullCause(m.states["Work"])
      && (CrashFree(m) ==> Sleepable(r))
  {
    var m := RetriedTask(r, "Fn");
    PlaceholderOfFn();
    assert ValidState(m.states["Work"], m.states.Keys, env.resources);
    assert m.states["Work"].work.retry == [r] && r in [r];
  }

  lemma PlaceholderOfFn()
    ensures Placeholder("${" + "Fn" + "}") == Some("Fn")
  {
    assert "${" + "Fn" + "}" == "${Fn}";
    assert "${Fn}"[2..4] == "Fn";
  }
}
