/** The interpreter as a step system.  A configuration is one `_run` of a machine; while a Map
    state is being attempted it holds the configurations of its iterations, each running the
    item processor.  A choice names the running configuration that moves next, so a sequence of
    choices is one interleaving of the iterations at every depth. */
module AslRun {
  import opened Json
  import opened AslPaths
  import opened AslSyntax
  import opened AslRetry

  // ---------------------------------------------------------------- the world outside

  /** What an invocation of a task does; every address is used by one invocation. */
  datatype TaskResult = Output(value: Json) | Exception(name: string, cause: string) | TimedOut

  datatype Env = Env(
    resources: set<string>,
    invoke: (string, Json, seq<nat>) -> TaskResult,
    tooLarge: Json -> bool,          // over 256 KiB once encoded
    expired: seq<nat> -> bool,       // the execution's deadline has passed
    random: seq<nat> -> Fraction)    // the jitter of the delay after an attempt

  // ---------------------------------------------------------------- payloads

  type Context = map<string, Json>

  function Lift<T>(r: Result<T, StatesError>): Outcome<T> {
    match r case Ok(v) => Return(v) case Err(e) => Raise(e)
  }

  function Runtime<T>(cause: string): Outcome<T> {
    Raise(StatesError("States.Runtime", cause))
  }

  /** An absent path selects `$`, a null one the empty object. */
  function Select(data: Json, field: PathField, context: Context): Outcome<Json> {
    match field
    case Absent => Return(data)
    case NullPath => Return(Obj(map[]))
    case At(path) =>
      match ReadPath(path, data, Obj(context))
      case Some(v) => Return(v)
      case None => Runtime("The JSONPath " + path + " could not be found")
  }

  function ResolveEntry(e: Entry, data: Json, context: Context): Outcome<(string, Json)> {
    if IsDynamic(e.key) then
      if !(e.template.Leaf? && e.template.value.Str?) then Crash
      else
        match ReadPath(e.template.value.s, data, Obj(context))
        case Some(v) => Return((e.key[..|e.key| - 2], v))
        case None => Runtime("The JSONPath " + e.template.value.s + " could not be found in the input")
    else
      var value :- Resolve(e.template, data, context);
      Return((e.key, value))
  }

  function ResolveEntries(entries: seq<Entry>, data: Json, context: Context): Outcome<map<string, Json>> {
    if entries == [] then Return(map[])
    else
      var fields :- ResolveEntries(entries[..|entries| - 1], data, context);
      var entry :- ResolveEntry(entries[|entries| - 1], data, context);
      Return(fields[entry.0 := entry.1])
  }

  function Resolve(t: Template, data: Json, context: Context): Outcome<Json> {
    match t
    case Leaf(value) => Return(value)
    case Fields(entries) =>
      var fields :- ResolveEntries(entries, data, context);
      Return(Obj(fields))
  }

  function ResolveOr(t: Option<Template>, data: Json, context: Context): Outcome<Json> {
    match t case Some(template) => Resolve(template, data, context) case None => Return(data)
  }

  // ---------------------------------------------------------------- choice rules

  function EvalAll(rules: seq<Rule>, data: Json, context: Context): Outcome<bool> {
    if rules == [] then Return(true)
    else
      match Eval(rules[0], data, context)
      case Return(true) => EvalAll(rules[1..], data, context)
      case other => other
  }

  function EvalAny(rules: seq<Rule>, data: Json, context: Context): Outcome<bool> {
    if rules == [] then Return(false)
    else
      match Eval(rules[0], data, context)
      case Return(false) => EvalAny(rules[1..], data, context)
      case other => other
  }

  /** A Mixed rule, a missing variable, an unknown operator and an operand a comparison cannot
      take are Python exceptions. */
  function Eval(rule: Rule, data: Json, context: Context): Outcome<bool> {
    match rule.form
    case And(rules) => EvalAll(rules, data, context)
    case Or(rules) => EvalAny(rules, data, context)
    case Not(r) =>
      (match Eval(r, data, context)
       case Return(b) => Return(!b)
       case other => other)
    case Mixed(_) => Crash
    case Compare(variable, ops) =>
      if variable.None? then Crash
      else
        var found := ReadPath(variable.value, data, Obj(context));
        if "IsPresent" in ops then Return(Bool(found.Some?) == ops["IsPresent"])
        else if found.None? then Runtime("Invalid path " + variable.value)
        else if "IsNull" in ops then Return(Bool(found.value.Null?) == ops["IsNull"])
        else Compares(found.value, ops)
  }

  function Compares(value: Json, ops: map<string, Json>): Outcome<bool> {
    if "StringEquals" in ops then Return(value.Str? && value == ops["StringEquals"])
    else if "BooleanEquals" in ops then Return(value.Bool? && value == ops["BooleanEquals"])
    else if "NumericEquals" in ops then Numeric(value, ops["NumericEquals"], (a, b) => a == b)
    else if "NumericGreaterThan" in ops then Numeric(value, ops["NumericGreaterThan"], (a, b) => a > b)
    else if "NumericLessThan" in ops then Numeric(value, ops["NumericLessThan"], (a, b) => a < b)
    else Crash
  }

  function Numeric(value: Json, expected: Json, compare: (real, real) -> bool): Outcome<bool> {
    if !IsNumber(value) then Return(false)
    else if !IsNumber(expected) then Crash
    else Return(compare(AsReal(value), AsReal(expected)))
  }

  /** The first rule that holds names the next state; otherwise the default does. */
  function Target(rules: seq<Rule>, default: Option<string>, data: Json, context: Context): Outcome<string> {
    if rules == [] then
      match default
      case Some(name) => Return(name)
      case None => Raise(StatesError("States.NoChoiceMatched", "matched no rule"))
    else
      var holds :- Eval(rules[0], data, context);
      if !holds then Target(rules[1..], default, data, context)
      else if rules[0].next.Some? then Return(rules[0].next.value)
      else Crash
  }

  // ---------------------------------------------------------------- configurations

  datatype Config =
    | Entering(state: string, data: Json, tick: nat)
    | Trying(state: string, data: Json, tick: nat, counters: seq<nat>, retries: nat)
    | Mapping(state: string, data: Json, tick: nat, counters: seq<nat>, retries: nat,
              effective: Json, items: seq<Json>, subs: seq<Config>)
    | Done(output: Json)
    | Raised(error: StatesError)
    | Broken

  predicate Terminal(c: Config) {
    c.Done? || c.Raised? || c.Broken?
  }

  predicate Busy(c: Config) {
    c.Trying? || c.Mapping?
  }

  function Start(m: Machine, payload: Json): Config {
    if m.startAt.Some? then Entering(m.startAt.value, payload, 0) else Broken
  }

  function Finish(o: Outcome<Json>): Config {
    match o
    case Return(v) => Done(v)
    case Raise(e) => Raised(e)
    case Crash => Broken
  }

  /** Go on with the data after a state: stop, or enter the next state. */
  function Advance(flow: Flow, data: Outcome<Json>, tick: nat): Config {
    match data
    case Raise(e) => Raised(e)
    case Crash => Broken
    case Return(v) =>
      if flow.end then Done(v)
      else if flow.next.Some? then Entering(flow.next.value, v, tick + 1)
      else Broken
  }

  function StateContext(context: Context, state: string, retries: nat): Context {
    context["State" := Obj(map["Name" := Str(state), "RetryCount" := Int(retries)])]
  }

  function ItemContext(context: Context, index: nat, item: Json): Context {
    (context - {"State"})["Map" := Obj(map["Item" := Obj(map["Index" := Int(index), "Value" := item])])]
  }

  // ---------------------------------------------------------------- one step

  /** Entering a state. */
  function Enter(m: Machine, env: Env, context: Context, addr: seq<nat>, c: Config): Config
    requires c.Entering?
  {
    if env.expired(addr + [c.tick]) then Raised(StatesError("States.Timeout", "execution timed out"))
    else if c.state !in m.states then Broken
    else
      match m.states[c.state]
      case Succeed(io, _) => Finish(SelectTwice(c.data, io, context))
      case Fail(error, cause, causePath, _) =>
        var name := if error.Some? then error.value else "States.Fail";
        (match causePath
         case Absent => Raised(StatesError(name, cause))
         case NullPath => Broken
         case At(path) =>
           var found := ReadPath(path, c.data, Obj(context));
           Raised(StatesError(name, if found.Some? && found.value.Str? then found.value.s else "")))
      case Choice(io, rules, default, _) => EnterChoice(ChoiceData(io, rules, default, context, c.data), c.tick)
      case Pass(io, parameters, result, resultPath, flow, _) =>
        Advance(flow, PassData(io, parameters, result, resultPath, context, c.data), c.tick)
      case Unsupported(_) => Broken
      case Task(work, _, _, _) => Trying(c.state, c.data, c.tick, seq(|work.retry|, i => 0), 0)
      case Map(work, _, _, _, _) => Trying(c.state, c.data, c.tick, seq(|work.retry|, i => 0), 0)
  }

  function SelectTwice(data: Json, io: Io, context: Context): Outcome<Json> {
    var effective :- Select(data, io.inputPath, context);
    Select(effective, io.outputPath, context)
  }

  function ChoiceData(io: Io, rules: seq<Rule>, default: Option<string>, context: Context,
                      data: Json): Outcome<(string, Json)> {
    var effective :- Select(data, io.inputPath, context);
    var target :- Target(rules, default, effective, context);
    var output :- Select(effective, io.outputPath, context);
    Return((target, output))
  }

  function EnterChoice(o: Outcome<(string, Json)>, tick: nat): Config {
    match o
    case Return((target, output)) => Entering(target, output, tick + 1)
    case Raise(e) => Raised(e)
    case Crash => Broken
  }

  function PassData(io: Io, parameters: Option<Template>, result: Option<Json>, resultPath: PathField,
                    context: Context, data: Json): Outcome<Json> {
    var effective :- Select(data, io.inputPath, context);
    var made :- if parameters.Some? then Resolve(parameters.value, effective, context)
                else Return(if result.Some? then result.value else effective);
    var written :- Lift(ApplyResultPath(data, made, resultPath));
    Select(written, io.outputPath, context)
  }

  function Invoke(env: Env, resource: string, payload: Json, addr: seq<nat>): Outcome<Json> {
    var name := Placeholder(resource);
    if name.None? || name.value !in env.resources then Crash
    else if env.tooLarge(payload) then Raise(StatesError("States.DataLimitExceeded", "task input exceeds 256 KiB"))
    else
      match env.invoke(name.value, payload, addr)
      case TimedOut => Raise(StatesError("States.Timeout", "task timed out"))
      case Exception(error, cause) => Raise(StatesError(error, cause))
      case Output(value) =>
        if env.tooLarge(value) then Raise(StatesError("States.DataLimitExceeded", "task output exceeds 256 KiB"))
        else Return(value)
  }

  /** From the result of the work to the data after the state. */
  function Deliver(work: Work, data: Json, result: Outcome<Json>, context: Context): Outcome<Json> {
    var made :- result;
    var selected :- ResolveOr(work.selector, made, context);
    var written :- Lift(ApplyResultPath(data, selected, work.resultPath));
    Select(written, work.io.outputPath, context)
  }

  /** What the handlers of a Task or Map state make of an attempt.  `sleep` raises a ValueError on a
      negative delay. */
  function Handle(
      work: Work, state: string, data: Json, tick: nat, counters: seq<nat>, retries: nat, random: Fraction,
      o: Outcome<Json>): Config
  {
    match o
    case Return(_) => Advance(work.flow, o, tick)
    case Crash => Broken
    case Raise(e) =>
      if |counters| != |work.retry| then Broken
      else
        match Decide(work.retry, work.catchers, counters, e.name)
        case Retry(i) =>
          if Delay(work.retry[i], counters[i], random) < 0.0 then Broken
          else Trying(state, data, tick, counters[i := counters[i] + 1], retries + 1)
        case GiveUp => Raised(e)
        case Catch(j) => Fallback(work.catchers[j], data, tick, e)
  }

  /** The error becomes data, and the catcher's state the next one. */
  function Fallback(catcher: Catcher, data: Json, tick: nat, e: StatesError): Config {
    match ApplyResultPath(data, Obj(map["Error" := Str(e.name), "Cause" := Str(e.cause)]), catcher.resultPath)
    case Err(failure) => Raised(failure)
    case Ok(written) => if catcher.next.Some? then Entering(catcher.next.value, written, tick + 1) else Broken
  }

  /** Starting an attempt: a task runs to its end, a map starts its iterations. */
  function Attempt(m: Machine, env: Env, context: Context, addr: seq<nat>, c: Config): Config
    requires c.Trying?
  {
    if c.state !in m.states then Broken
    else
      var inside := StateContext(context, c.state, c.retries);
      match m.states[c.state]
      case Task(work, resource, parameters, _) =>
        HandleAt(env, work, addr, c,
          TaskAttempt(env, work, resource, parameters, inside, addr + [c.tick, c.retries], c.data))
      case Map(work, itemsPath, itemSelector, processor, _) =>
        (match MapItems(work, itemsPath, inside, c.data)
         case Return((effective, items)) =>
           Mapping(c.state, c.data, c.tick, c.counters, c.retries, effective, items,
                   seq(|items|, i requires 0 <= i < |items| =>
                     Iteration(processor, itemSelector, effective, items[i], i, inside)))
         case failure =>
           HandleAt(env, work, addr, c, failure.PropagateFailure()))
      case _ => Broken
  }

  /** The handlers, with the configuration and the jitter of its address. */
  function HandleAt(env: Env, work: Work, addr: seq<nat>, c: Config, o: Outcome<Json>): Config
    requires Busy(c)
  {
    Handle(work, c.state, c.data, c.tick, c.counters, c.retries, env.random(addr + [c.tick, c.retries]), o)
  }

  /** One attempt of a task, from its input to the data after the state. */
  function TaskAttempt(env: Env, work: Work, resource: string, parameters: Option<Template>,
                       inside: Context, addr: seq<nat>, data: Json): Outcome<Json> {
    Deliver(work, data, TaskOutcome(env, work, resource, parameters, inside, addr, data), inside)
  }

  function TaskOutcome(env: Env, work: Work, resource: string, parameters: Option<Template>,
                       inside: Context, addr: seq<nat>, data: Json): Outcome<Json> {
    var effective :- Select(data, work.io.inputPath, inside);
    var payload :- ResolveOr(parameters, effective, inside);
    Invoke(env, resource, payload, addr)
  }

  /** The effective input of a map and the items in it. */
  function MapItems(work: Work, itemsPath: PathField, inside: Context, data: Json): Outcome<(Json, seq<Json>)> {
    var effective :- Select(data, work.io.inputPath, inside);
    var selected :- Select(effective, itemsPath, inside);
    if selected.Arr? then Return((effective, selected.items))
    else Runtime("ItemsPath must select an array")
  }

  function Iteration(processor: Machine, itemSelector: Option<Template>, effective: Json, item: Json, index: nat,
                     inside: Context): Config {
    match itemSelector
    case None => Start(processor, item)
    case Some(template) =>
      match Resolve(template, effective, ItemContext(inside, index, item))
      case Return(payload) => Start(processor, payload)
      case Raise(e) => Raised(e)
      case Crash => Broken
  }

  /** The futures are read in item order: an exception that is not a StatesError leaves at once,
      otherwise the error of the first failing item is raised after all of them. */
  function Gather(subs: seq<Config>): Outcome<seq<Json>> {
    if subs == [] then Return([])
    else if subs[0].Done? then
      var rest :- Gather(subs[1..]);
      Return([subs[0].output] + rest)
    else if subs[0].Raised? && !Gather(subs[1..]).Crash? then Raise(subs[0].error)
    else Crash
  }

  function MapResult(subs: seq<Config>): Outcome<Json> {
    var results :- Gather(subs);
    Return(Arr(results))
  }

  /** What the iterations of a map, once over, come to. */
  function MapAttempt(work: Work, context: Context, c: Config): Outcome<Json>
    requires c.Mapping?
  {
    Deliver(work, c.data, MapResult(c.subs), StateContext(context, c.state, c.retries))
  }

  function Join(env: Env, work: Work, context: Context, addr: seq<nat>, c: Config): Config
    requires c.Mapping?
  {
    HandleAt(env, work, addr, c, MapAttempt(work, context, c))
  }

  /** The choice names something that can move. */
  predicate Enabled(c: Config, choice: seq<nat>) {
    match c
    case Entering(_, _, _) => choice == []
    case Trying(_, _, _, _, _) => choice == []
    case Mapping(_, _, _, _, _, _, _, subs) =>
      if forall sub <- subs :: Terminal(sub) then choice == []
      else choice != [] && choice[0] < |subs| && Enabled(subs[choice[0]], choice[1..])
    case _ => false
  }

  function Step(m: Machine, env: Env, context: Context, addr: seq<nat>, c: Config, choice: seq<nat>): Config
    requires Enabled(c, choice)
    decreases choice
  {
    match c
    case Entering(_, _, _) => Enter(m, env, context, addr, c)
    case Trying(_, _, _, _, _) => Attempt(m, env, context, addr, c)
    case Mapping(state, data, tick, counters, retries, effective, items, subs) =>
      if state !in m.states || !m.states[state].Map? then Broken
      else if choice == [] then Join(env, m.states[state].work, context, addr, c)
      else
        var i := choice[0];
        var inside := StateContext(context, state, retries);
        var item := if i < |items| then items[i] else Null;
        c.(subs := subs[i := Step(m.states[state].processor, env, ItemContext(inside, i, item),
                                  addr + [tick, retries, i], subs[i], choice[1..])])
    case _ => c
  }

  /** Every choice of the schedule is enabled when its turn comes. */
  predicate Runs(m: Machine, env: Env, context: Context, addr: seq<nat>, c: Config, schedule: seq<seq<nat>>)
    decreases |schedule|
  {
    schedule == [] ||
    (Enabled(c, schedule[0]) &&
     Runs(m, env, context, addr, Step(m, env, context, addr, c, schedule[0]), schedule[1..]))
  }

  function After(m: Machine, env: Env, context: Context, addr: seq<nat>, c: Config, schedule: seq<seq<nat>>): Config
    requires Runs(m, env, context, addr, c, schedule)
    decreases |schedule|
  {
    if schedule == [] then c
    else After(m, env, context, addr, Step(m, env, context, addr, c, schedule[0]), schedule[1..])
  }
}
