/** State machine definitions and the load-time check that accepts or rejects them. */
module AslSyntax {
  import opened Json
  import opened AslPaths

  // ---------------------------------------------------------------- definitions

  /** A payload template.  A leaf is any JSON value but an object; the entries of an object keep
      their order, because a later entry overwrites an earlier one with the same resolved key. */
  datatype Template = Leaf(value: Json) | Fields(entries: seq<Entry>)

  datatype Entry = Entry(key: string, template: Template)

  /** A choice rule: one of the three combinators alone, or a variable with the other keys as
      operators.  A rule that has a combinator next to any key but Next is Mixed. */
  datatype Rule = Rule(next: Option<string>, form: Form)

  datatype Form =
    | And(rules: seq<Rule>)
    | Or(rules: seq<Rule>)
    | Not(rule: Rule)
    | Compare(variable: Option<string>, ops: map<string, Json>)
    | Mixed(keys: set<string>)

  /** `extra` here and below: the keys outside the supported ones for this kind of object. */
  datatype Retrier = Retrier(
    errors: seq<string>, interval: real, maxAttempts: int, rate: real, maxDelay: Option<real>,
    jitter: string, extra: set<string>)

  datatype Catcher = Catcher(
    errors: seq<string>, next: Option<string>, resultPath: PathField, extra: set<string>)

  datatype Flow = Flow(next: Option<string>, end: bool)

  datatype Io = Io(inputPath: PathField, outputPath: PathField)

  /** What a Task and a Map state have in common. */
  datatype Work = Work(
    io: Io, selector: Option<Template>, resultPath: PathField,
    retry: seq<Retrier>, catchers: seq<Catcher>, flow: Flow)

  datatype State =
    | Task(work: Work, resource: string, parameters: Option<Template>, extra: set<string>)
    | Map(work: Work, itemsPath: PathField, itemSelector: Option<Template>, processor: Machine, extra: set<string>)
    | Choice(io: Io, rules: seq<Rule>, default: Option<string>, extra: set<string>)
    | Pass(io: Io, parameters: Option<Template>, result: Option<Json>, resultPath: PathField, flow: Flow,
      extra: set<string>)
    | Succeed(io: Io, extra: set<string>)
    | Fail(error: Option<string>, cause: string, causePath: PathField, extra: set<string>)
    | Unsupported(kind: string)

  datatype Machine = Machine(
    startAt: Option<string>, states: map<string, State>,
    timeout: Option<real>, mode: Option<string>, extra: set<string>)

  // ---------------------------------------------------------------- acceptance

  const DYNAMIC := ".$"

  predicate IsDynamic(key: string) {
    |key| >= 2 && key[|key| - 2..] == DYNAMIC
  }

  predicate ValidTemplate(t: Template) {
    match t
    case Leaf(Arr(items)) => forall item <- items :: !item.Arr? && !item.Obj?
    case Leaf(value) => !value.Obj?
    case Fields(entries) =>
      forall e <- entries ::
        if IsDynamic(e.key) then e.template.Leaf? && e.template.value.Str? && IsPath(e.template.value.s)
        else ValidTemplate(e.template)
  }

  const COMPARISONS: set<string> :=
    {"StringEquals", "BooleanEquals", "NumericEquals", "NumericGreaterThan", "NumericLessThan"}

  const OPERATORS: set<string> := COMPARISONS + {"IsPresent", "IsNull"}

  predicate ValidRule(rule: Rule, top: bool) {
    && rule.next.Some? == top
    && match rule.form
       case And(rules) => forall r <- rules :: ValidRule(r, false)
       case Or(rules) => forall r <- rules :: ValidRule(r, false)
       case Not(r) => ValidRule(r, false)
       case Compare(variable, ops) =>
         && variable.Some? && IsPath(variable.value)
         && exists op <- OPERATORS :: ops.Keys == {op}
       case Mixed(_) => false
  }

  /** The operands have the type of their operator. */
  ghost predicate TypedRule(rule: Rule) {
    match rule.form
    case And(rules) => forall r <- rules :: TypedRule(r)
    case Or(rules) => forall r <- rules :: TypedRule(r)
    case Not(r) => TypedRule(r)
    case Compare(_, ops) => forall op <- ops :: TypedOperand(op, ops[op])
    case Mixed(_) => true
  }

  ghost predicate TypedOperand(op: string, operand: Json) {
    && (op in {"IsPresent", "IsNull", "BooleanEquals"} ==> operand.Bool?)
    && (op in {"NumericEquals", "NumericGreaterThan", "NumericLessThan"} ==> IsNumber(operand))
    && (op == "StringEquals" ==> operand.Str?)
  }

  const STATES_ALL := "States.ALL"

  predicate AllIsAloneAndLast(errors: seq<string>, index: nat, count: nat) {
    STATES_ALL in errors ==> |errors| == 1 && index == count - 1
  }

  predicate ValidRetriers(retry: seq<Retrier>) {
    forall i | 0 <= i < |retry| ::
      && retry[i].extra == {}
      && retry[i].errors != []
      && AllIsAloneAndLast(retry[i].errors, i, |retry|)
      && retry[i].jitter in {"FULL", "NONE"}
  }

  predicate ValidCatchers(catchers: seq<Catcher>, names: set<string>) {
    forall i | 0 <= i < |catchers| ::
      && catchers[i].extra == {}
      && catchers[i].errors != []
      && AllIsAloneAndLast(catchers[i].errors, i, |catchers|)
      && catchers[i].next.Some? && catchers[i].next.value in names
      && ValidReferenceField(catchers[i].resultPath)
  }

  predicate ValidField(field: PathField) {
    field.At? ==> IsPath(field.path)
  }

  predicate ValidReferenceField(field: PathField) {
    field.At? ==> IsReferencePath(field.path)
  }

  predicate ValidTemplateOption(t: Option<Template>) {
    t.Some? ==> ValidTemplate(t.value)
  }

  /** Exactly one of Next and End, and a Next that names a state. */
  predicate ValidFlow(flow: Flow, names: set<string>) {
    flow.next.Some? != flow.end && (flow.next.Some? ==> flow.next.value in names)
  }

  predicate ValidIo(io: Io) {
    ValidField(io.inputPath) && ValidField(io.outputPath)
  }

  predicate ValidWork(work: Work, names: set<string>) {
    && ValidIo(work.io)
    && ValidTemplateOption(work.selector)
    && ValidReferenceField(work.resultPath)
    && ValidRetriers(work.retry)
    && ValidCatchers(work.catchers, names)
    && ValidFlow(work.flow, names)
  }

  predicate IsAlphanumeric(name: string) {
    && name != "" && IsLetter(name[0])
    && forall c <- name :: IsLetter(c) || IsDigit(c)
  }

  /** The name inside `${...}`, when the whole text has that form. */
  function Placeholder(text: string): Option<string> {
    if |text| > 3 && text[..2] == "${" && text[|text| - 1] == '}' && IsAlphanumeric(text[2..|text| - 1])
    then Some(text[2..|text| - 1]) else None
  }

  predicate ValidState(state: State, names: set<string>, resources: set<string>) {
    match state
    case Task(work, resource, parameters, extra) =>
      && extra == {} && ValidWork(work, names) && ValidTemplateOption(parameters)
      && Placeholder(resource).Some? && Placeholder(resource).value in resources
    case Map(work, itemsPath, itemSelector, processor, extra) =>
      && extra == {} && ValidWork(work, names)
      && ValidField(itemsPath) && ValidTemplateOption(itemSelector)
      && (processor.mode.Some? ==> processor.mode.value == "INLINE")
      && ValidMachine(processor, resources, false)
    case Choice(io, rules, default, extra) =>
      && extra == {} && ValidIo(io) && rules != []
      && (default.Some? ==> default.value in names)
      && forall rule <- rules :: ValidRule(rule, true) && rule.next.value in names
    case Pass(io, parameters, _, resultPath, flow, extra) =>
      && extra == {} && ValidIo(io) && ValidTemplateOption(parameters)
      && ValidReferenceField(resultPath) && ValidFlow(flow, names)
    case Succeed(io, extra) =>
      extra == {} && ValidIo(io)
    case Fail(_, _, causePath, extra) =>
      extra == {} && ValidField(causePath)
    case Unsupported(_) =>
      false
  }

  /** The definition loads: `top` is the outermost machine, the others are item processors. */
  predicate ValidMachine(m: Machine, resources: set<string>, top: bool) {
    && m.extra == {}
    && (if top then m.mode.None? else m.timeout.None?)
    && m.startAt.Some? && m.startAt.value in m.states
    && forall name <- m.states :: ValidState(m.states[name], m.states.Keys, resources)
  }

  // ---------------------------------------------------------------- side conditions

  ghost predicate TypedState(state: State) {
    match state
    case Map(_, _, _, processor, _) => TypedMachine(processor)
    case Choice(_, rules, _, _) => forall rule <- rules :: TypedRule(rule)
    case _ => true
  }

  ghost predicate TypedMachine(m: Machine) {
    forall name <- m.states :: TypedState(m.states[name])
  }

  predicate IsWork(state: State) {
    state.Task? || state.Map?
  }

  /** A Fail state whose CausePath is present and null. */
  predicate NullCause(state: State) {
    state.Fail? && state.causePath.NullPath?
  }
}
