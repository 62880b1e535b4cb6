/** The output contracts' schema subset: a declarative meaning, the validator that enforces it,
    and the copy without the keywords the API rejects. */
module Schemas {
  import opened Json

  datatype Kind = Untyped | Integer | Number | Boolean | NullKind

  datatype Property = Property(name: string, schema: Schema)

  /** A schema with `anyOf` uses nothing else; the others are split by their type. */
  datatype Schema =
    | AnyOf(options: seq<Schema>)
    | Text(choices: Option<seq<Json>>, minLength: nat, maxLength: Option<nat>, pattern: Option<string>)
    | List(choices: Option<seq<Json>>, items: Schema, minItems: nat, maxItems: Option<nat>)
    | Object(choices: Option<seq<Json>>, properties: seq<Property>, required: seq<string>, closed: bool)
    | Scalar(kind: Kind, choices: Option<seq<Json>>)

  const UNBOUNDED: nat := 1000000000

  function Bound(limit: Option<nat>): nat {
    match limit case Some(n) => n case None => UNBOUNDED
  }

  // ---------------------------------------------------------------- meaning

  /** The number a value is to Python's `==`; booleans count as 0 and 1. */
  function Numeral(j: Json): Option<real> {
    match j
    case Bool(b) => Some(if b then 1.0 else 0.0)
    case Int(i) => Some(i as real)
    case Float(r) => Some(r)
    case _ => None
  }

  /** Python's equality of decoded JSON. */
  predicate Equal(a: Json, b: Json) {
    if Numeral(a).Some? then Numeral(a) == Numeral(b)
    else
      match a
      case Arr(xs) => b.Arr? && |b.items| == |xs| && forall i | 0 <= i < |xs| :: Equal(xs[i], b.items[i])
      case Obj(f) => b.Obj? && b.fields.Keys == f.Keys && forall k <- f :: k in b.fields && Equal(f[k], b.fields[k])
      case _ => a == b
  }

  predicate Chosen(choices: Option<seq<Json>>, value: Json) {
    choices.Some? ==> exists c <- choices.value :: Equal(c, value)
  }

  predicate OfKind(kind: Kind, value: Json) {
    match kind
    case Untyped => true
    case Integer => value.Int?
    case Number => value.Int? || value.Float?
    case Boolean => value.Bool?
    case NullKind => value.Null?
  }

  /** How texts are judged: whether a pattern matches the whole text, and which characters are
      whitespace. */
  datatype Texts = Texts(matches: (string, string) -> bool, space: char -> bool) {
    predicate Blank(text: string) {
      forall c <- text :: space(c)
    }
  }

  /** The value is an instance of the schema. */
  predicate Satisfies(schema: Schema, value: Json, texts: Texts) {
    match schema
    case AnyOf(options) => exists option <- options :: Satisfies(option, value, texts)
    case Scalar(kind, choices) => OfKind(kind, value) && Chosen(choices, value)
    case Text(choices, minLength, maxLength, pattern) =>
      && value.Str? && Chosen(choices, value)
      && minLength <= |value.s| <= Bound(maxLength)
      && (minLength > 0 ==> !texts.Blank(value.s))
      && (pattern.Some? ==> texts.matches(pattern.value, value.s))
    case List(choices, items, minItems, maxItems) =>
      && value.Arr? && Chosen(choices, value)
      && minItems <= |value.items| <= Bound(maxItems)
      && forall item <- value.items :: Satisfies(items, item, texts)
    case Object(choices, properties, required, closed) =>
      && value.Obj? && Chosen(choices, value)
      && (forall name <- required :: name in value.fields)
      && (closed ==> forall name <- value.fields :: Declared(properties, name))
      && forall p <- properties | p.name in value.fields :: Satisfies(p.schema, value.fields[p.name], texts)
  }

  // ---------------------------------------------------------------- the validator

  datatype Step = Field(name: string) | Item(index: nat)

  datatype Problem =
    | NoShapeMatches | WrongType | NotAnOption | TooShortOrBlank | TooLong | InvalidFormat
    | WrongItemCount | MissingField(name: string) | UnexpectedField(name: string)

  datatype Error = Error(path: seq<Step>, problem: Problem)

  /** What a call adds to the shared list: nothing at the limit, and below it nothing exactly when
      the value is valid. */
  ghost predicate Extended(before: seq<Error>, after: seq<Error>, limit: nat, valid: bool) {
    && before <= after
    && (|before| >= limit ==> after == before)
    && (|before| < limit ==> (after == before <==> valid))
  }

  method Validate(schema: Schema, value: Json, limit: nat, texts: Texts) returns (errors: seq<Error>)
    ensures limit > 0 ==> (errors == [] <==> Satisfies(schema, value, texts))
    ensures limit == 0 ==> errors == []
    decreases schema, 2
  {
    errors := ValidateInto(schema, value, [], [], limit, texts);
  }

  method ValidateInto(schema: Schema, value: Json, path: seq<Step>, before: seq<Error>, limit: nat, texts: Texts)
    returns (errors: seq<Error>)
    ensures Extended(before, errors, limit, Satisfies(schema, value, texts))
    decreases schema, 1
  {
    errors := before;
    if |errors| >= limit {
      return;
    }
    match schema {
      case AnyOf(options) =>
        for i := 0 to |options|
          invariant errors == before
          invariant forall k | 0 <= k < i :: !Satisfies(options[k], value, texts)
        {
          var found := Validate(options[i], value, limit, texts);
          if found == [] {
            return;
          }
        }
        errors := errors + [Error(path, NoShapeMatches)];
      case Scalar(kind, choices) =>
        if !OfKind(kind, value) {
          errors := errors + [Error(path, WrongType)];
          return;
        }
        errors := CheckChoices(choices, value, path, errors);
      case Text(choices, minLength, maxLength, pattern) =>
        if !value.Str? {
          errors := errors + [Error(path, WrongType)];
          return;
        }
        errors := CheckChoices(choices, value, path, errors);
        if |value.s| < minLength || (texts.Blank(value.s) && minLength != 0) {
          errors := errors + [Error(path, TooShortOrBlank)];
        }
        if |value.s| > Bound(maxLength) {
          errors := errors + [Error(path, TooLong)];
        }
        if pattern.Some? && !texts.matches(pattern.value, value.s) {
          errors := errors + [Error(path, InvalidFormat)];
        }
      case List(choices, items, minItems, maxItems) =>
        if !value.Arr? {
          errors := errors + [Error(path, WrongType)];
          return;
        }
        errors := CheckChoices(choices, value, path, errors);
        errors := ValidateItems(schema, value, path, errors, limit, texts);
      case Object(choices, properties, required, closed) =>
        if !value.Obj? {
          errors := errors + [Error(path, WrongType)];
          return;
        }
        errors := CheckChoices(choices, value, path, errors);
        errors := CheckRequired(required, value.fields, path, errors);
        if closed {
          errors := CheckUnexpected(properties, value.fields, path, errors);
        }
        errors := ValidateProperties(schema, value.fields, path, errors, limit, texts);
    }
  }

  method CheckChoices(choices: Option<seq<Json>>, value: Json, path: seq<Step>, before: seq<Error>)
    returns (errors: seq<Error>)
    ensures before <= errors && (errors == before <==> Chosen(choices, value))
  {
    errors := if Chosen(choices, value) then before else before + [Error(path, NotAnOption)];
  }

  /** Items beyond the maximum are not looked at: the count is an error already. */
  method ValidateItems(schema: Schema, value: Json, path: seq<Step>, before: seq<Error>, limit: nat, texts: Texts)
    returns (errors: seq<Error>)
    requires schema.List? && value.Arr?
    ensures before <= errors
    ensures |before| < limit ==> (errors == before <==>
      && schema.minItems <= |value.items| <= Bound(schema.maxItems)
      && forall item <- value.items :: Satisfies(schema.items, item, texts))
    decreases schema, 0
  {
    errors := before;
    if !(schema.minItems <= |value.items| <= Bound(schema.maxItems)) {
      errors := errors + [Error(path, WrongItemCount)];
    }
    var n := if schema.maxItems.Some? && schema.maxItems.value < |value.items| then schema.maxItems.value
      else |value.items|;
    for i := 0 to n
      invariant before <= errors
      invariant |before| < limit ==> (errors == before <==>
        && schema.minItems <= |value.items| <= Bound(schema.maxItems)
        && forall k | 0 <= k < i :: Satisfies(schema.items, value.items[k], texts))
    {
      errors := ValidateInto(schema.items, value.items[i], path + [Item(i)], errors, limit, texts);
    }
    if n == |value.items| {
      assert forall item <- value.items :: exists k | 0 <= k < n :: value.items[k] == item;
    }
  }

  predicate Declared(properties: seq<Property>, name: string) {
    exists p <- properties :: p.name == name
  }

  method CheckRequired(required: seq<string>, fields: map<string, Json>, path: seq<Step>, before: seq<Error>)
    returns (errors: seq<Error>)
    ensures before <= errors
    ensures errors == before <==> forall name <- required :: name in fields
  {
    errors := before;
    for i := 0 to |required|
      invariant before <= errors
      invariant errors == before <==> forall k | 0 <= k < i :: required[k] in fields
    {
      if required[i] !in fields {
        errors := errors + [Error(path, MissingField(required[i]))];
      }
    }
  }

  method CheckUnexpected(properties: seq<Property>, fields: map<string, Json>, path: seq<Step>, before: seq<Error>)
    returns (errors: seq<Error>)
    ensures before <= errors
    ensures errors == before <==> forall name <- fields :: Declared(properties, name)
  {
    errors := before;
    var names := fields.Keys;
    while names != {}
      invariant names <= fields.Keys
      invariant before <= errors
      invariant errors == before <==> forall name <- fields :: name in names || Declared(properties, name)
      decreases |names|
    {
      var name :| name in names;
      names := names - {name};
      if !Declared(properties, name) {
        errors := errors + [Error(path, UnexpectedField(name))];
      }
    }
  }

  method ValidateProperties(schema: Schema, fields: map<string, Json>, path: seq<Step>, before: seq<Error>, limit: nat,
                            texts: Texts)
    returns (errors: seq<Error>)
    requires schema.Object?
    ensures before <= errors
    ensures |before| < limit ==> (errors == before <==>
      forall p <- schema.properties | p.name in fields :: Satisfies(p.schema, fields[p.name], texts))
    decreases schema, 0
  {
    errors := before;
    for i := 0 to |schema.properties|
      invariant before <= errors
      invariant |before| < limit ==> (errors == before <==>
        forall k | 0 <= k < i :: schema.properties[k].name in fields ==>
          Satisfies(schema.properties[k].schema, fields[schema.properties[k].name], texts))
    {
      var p := schema.properties[i];
      assert p in schema.properties;
      if p.name in fields {
        errors := ValidateInto(p.schema, fields[p.name], path + [Field(p.name)], errors, limit, texts);
      }
    }
  }

  // ---------------------------------------------------------------- the API's copy

  const STRIPPED: set<string> := {"minLength", "maxLength", "pattern", "minItems", "maxItems", "minimum", "maximum"}

  /** Enumerated values go through the same copy: an object among them loses such keys. */
  function ApiValue(j: Json): Json {
    match j
    case Obj(f) => Obj(map k | k in f && k !in STRIPPED :: ApiValue(f[k]))
    case Arr(items) => Arr(seq(|items|, i requires 0 <= i < |items| => ApiValue(items[i])))
    case _ => j
  }

  function ApiChoices(choices: Option<seq<Json>>): Option<seq<Json>> {
    match choices
    case None => None
    case Some(values) => Some(seq(|values|, i requires 0 <= i < |values| => ApiValue(values[i])))
  }

  /** The properties are a map in the document too, so one that is named like a stripped keyword
      disappears with its schema. */
  function ApiProperties(properties: seq<Property>): (r: seq<Property>)
    ensures forall p <- r :: p.name !in STRIPPED && exists q <- properties ::
      q.name == p.name && p.schema == ApiSchema(q.schema)
    ensures forall q <- properties :: q.name !in STRIPPED ==> Property(q.name, ApiSchema(q.schema)) in r
  {
    if properties == [] then []
    else
      var rest := ApiProperties(properties[1..]);
      if properties[0].name in STRIPPED then rest
      else [Property(properties[0].name, ApiSchema(properties[0].schema))] + rest
  }

  function ApiSchema(schema: Schema): Schema {
    match schema
    case AnyOf(options) => AnyOf(seq(|options|, i requires 0 <= i < |options| => ApiSchema(options[i])))
    case Scalar(kind, choices) => Scalar(kind, ApiChoices(choices))
    case Text(choices, _, _, _) => Text(ApiChoices(choices), 0, None, None)
    case List(choices, items, _, _) => List(ApiChoices(choices), ApiSchema(items), 0, None)
    case Object(choices, properties, required, closed) =>
      Object(ApiChoices(choices), ApiProperties(properties), required, closed)
  }

  // ---------------------------------------------------------------- what the copy means

  /** No object inside has a key that is stripped. */
  predicate Clean(j: Json) {
    match j
    case Obj(f) => forall k <- f :: k !in STRIPPED && Clean(f[k])
    case Arr(items) => forall item <- items :: Clean(item)
    case _ => true
  }

  /** Equal, but for keys of the first value that are stripped. */
  predicate Alike(a: Json, b: Json) {
    if Numeral(a).Some? then Numeral(a) == Numeral(b)
    else
      match a
      case Arr(xs) => b.Arr? && |b.items| == |xs| && forall i | 0 <= i < |xs| :: Alike(xs[i], b.items[i])
      case Obj(f) => b.Obj? && b.fields.Keys == f.Keys - STRIPPED && forall k <- f :: k in b.fields ==>
        Alike(f[k], b.fields[k])
      case _ => a == b
  }

  lemma {:induction false} ApiValueIsAlike(a: Json, b: Json)
    ensures Equal(ApiValue(a), b) <==> Alike(a, b)
  {
    match a
    case Arr(xs) =>
      if b.Arr? && |b.items| == |xs| {
        forall i | 0 <= i < |xs|
          ensures Equal(ApiValue(a).items[i], b.items[i]) <==> Alike(xs[i], b.items[i])
        {
          ApiValueIsAlike(xs[i], b.items[i]);
        }
      }
    case Obj(f) =>
      assert ApiValue(a).fields.Keys == f.Keys - STRIPPED;
      if b.Obj? && b.fields.Keys == f.Keys - STRIPPED {
        forall k | k in f && k in b.fields
          ensures Equal(ApiValue(a).fields[k], b.fields[k]) <==> Alike(f[k], b.fields[k])
        {
          ApiValueIsAlike(f[k], b.fields[k]);
        }
      }
    case _ =>
  }

  /** An equal value is alike exactly when it has no key that is stripped. */
  lemma {:induction false} EqualIsAlikeIff(a: Json, b: Json)
    requires Equal(a, b)
    ensures Alike(a, b) <==> Clean(b)
  {
    match a
    case Arr(xs) =>
      forall i | 0 <= i < |xs|
        ensures Alike(xs[i], b.items[i]) <==> Clean(b.items[i])
      {
        EqualIsAlikeIff(xs[i], b.items[i]);
      }
    case Obj(f) =>
      forall k | k in f
        ensures Alike(f[k], b.fields[k]) <==> Clean(b.fields[k])
      {
        EqualIsAlikeIff(f[k], b.fields[k]);
      }
    case _ =>
  }

  lemma {:induction false} AlikeIsClean(a: Json, b: Json)
    requires Alike(a, b)
    ensures Clean(b)
  {
    match a
    case Arr(xs) =>
      forall i | 0 <= i < |xs|
        ensures Clean(b.items[i])
      {
        AlikeIsClean(xs[i], b.items[i]);
      }
    case Obj(f) =>
      forall k | k in b.fields
        ensures Clean(b.fields[k])
      {
        AlikeIsClean(f[k], b.fields[k]);
      }
    case _ =>
  }

  predicate AlikeChosen(choices: Option<seq<Json>>, value: Json) {
    choices.Some? ==> exists c <- choices.value :: Alike(c, value)
  }

  lemma ApiChoicesIff(choices: Option<seq<Json>>, value: Json)
    ensures Chosen(ApiChoices(choices), value) <==> AlikeChosen(choices, value)
  {
    if choices.Some? {
      var api := ApiChoices(choices).value;
      forall i | 0 <= i < |api|
        ensures Equal(api[i], value) <==> Alike(choices.value[i], value)
      {
        ApiValueIsAlike(choices.value[i], value);
      }
      if Chosen(ApiChoices(choices), value) {
        var i :| 0 <= i < |api| && Equal(api[i], value);
        assert choices.value[i] in choices.value;
      }
      if AlikeChosen(choices, value) {
        var i :| 0 <= i < |choices.value| && Alike(choices.value[i], value);
        assert api[i] in api;
      }
    }
  }

  /** A listed value stays listed exactly when it has no key that is stripped. */
  lemma ListedStaysIff(choices: Option<seq<Json>>, value: Json)
    requires Chosen(choices, value)
    ensures AlikeChosen(choices, value) <==> (choices.Some? ==> Clean(value))
  {
    if choices.Some? {
      var c :| c in choices.value && Equal(c, value);
      EqualIsAlikeIff(c, value);
      if AlikeChosen(choices, value) {
        var d :| d in choices.value && Alike(d, value);
        AlikeIsClean(d, value);
      }
    }
  }

  /** What the API's copy asks for, read off the original schema: lengths and patterns are gone,
      and so are properties named like a stripped keyword. */
  predicate Loose(schema: Schema, value: Json) {
    match schema
    case AnyOf(options) => exists option <- options :: Loose(option, value)
    case Scalar(kind, choices) => OfKind(kind, value) && AlikeChosen(choices, value)
    case Text(choices, _, _, _) => value.Str? && AlikeChosen(choices, value) && |value.s| <= UNBOUNDED
    case List(choices, items, _, _) =>
      && value.Arr? && AlikeChosen(choices, value) && |value.items| <= UNBOUNDED
      && forall item <- value.items :: Loose(items, item)
    case Object(choices, properties, required, closed) =>
      && value.Obj? && AlikeChosen(choices, value)
      && (forall name <- required :: name in value.fields)
      && (closed ==> forall name <- value.fields :: Declared(properties, name) && name !in STRIPPED)
      && forall p <- properties | p.name in value.fields && p.name !in STRIPPED :: Loose(p.schema, value.fields[p.name])
  }

  /** The copy accepts a value, valid or not, exactly when the original asks for it loosely. */
  lemma {:induction false} ApiMeaning(schema: Schema, value: Json, texts: Texts)
    ensures Satisfies(ApiSchema(schema), value, texts) <==> Loose(schema, value)
    decreases schema
  {
    match schema
    case AnyOf(options) =>
      forall i | 0 <= i < |options|
        ensures Satisfies(ApiSchema(schema).options[i], value, texts) <==> Loose(options[i], value)
      {
        assert options[i] in options;
        ApiMeaning(options[i], value, texts);
      }
      AnyApiOption(options, value, texts);
    case Scalar(_, choices) => ApiChoicesIff(choices, value);
    case Text(choices, _, _, _) => ApiChoicesIff(choices, value);
    case List(choices, items, _, _) =>
      ApiChoicesIff(choices, value);
      if value.Arr? {
        forall item <- value.items
          ensures Satisfies(ApiSchema(items), item, texts) <==> Loose(items, item)
        {
          ApiMeaning(items, item, texts);
        }
      }
    case Object(choices, properties, _, _) =>
      if value.Obj? {
        forall q <- properties | q.name in value.fields
          ensures Satisfies(ApiSchema(q.schema), value.fields[q.name], texts) <==> Loose(q.schema, value.fields[q.name])
        {
          ApiMeaning(q.schema, value.fields[q.name], texts);
        }
        ApiObjectMeaning(schema, value, texts);
      }
  }

  lemma AnyApiOption(options: seq<Schema>, value: Json, texts: Texts)
    requires forall i | 0 <= i < |options| ::
      Satisfies(ApiSchema(AnyOf(options)).options[i], value, texts) <==> Loose(options[i], value)
    ensures Satisfies(ApiSchema(AnyOf(options)), value, texts) <==> exists option <- options :: Loose(option, value)
  {
    var api := ApiSchema(AnyOf(options)).options;
    if option :| option in api && Satisfies(option, value, texts) {
      var i :| 0 <= i < |api| && api[i] == option;
      assert options[i] in options;
    }
    if option :| option in options && Loose(option, value) {
      var i :| 0 <= i < |options| && options[i] == option;
      assert api[i] in api;
    }
  }

  lemma ApiObjectMeaning(schema: Schema, value: Json, texts: Texts)
    requires schema.Object? && value.Obj?
    requires forall q <- schema.properties | q.name in value.fields ::
      Satisfies(ApiSchema(q.schema), value.fields[q.name], texts) <==> Loose(q.schema, value.fields[q.name])
    ensures Satisfies(ApiSchema(schema), value, texts) <==> Loose(schema, value)
  {
    var Object(choices, properties, required, closed) := schema;
    ApiChoicesIff(choices, value);
    ApiClosedIff(properties, value.fields);
    ApiPropertiesMean(properties, value.fields, texts);
    SatisfiesInParts(ApiChoices(choices), ApiProperties(properties), required, closed, value, texts);
    LooseInParts(choices, properties, required, closed, value);
  }

  predicate Closes(closed: bool, properties: seq<Property>, fields: map<string, Json>) {
    closed ==> forall name <- fields :: Declared(properties, name)
  }

  predicate ClosesLoosely(closed: bool, properties: seq<Property>, fields: map<string, Json>) {
    closed ==> forall name <- fields :: Declared(properties, name) && name !in STRIPPED
  }

  predicate AllSatisfied(properties: seq<Property>, fields: map<string, Json>, texts: Texts) {
    forall p <- properties | p.name in fields :: Satisfies(p.schema, fields[p.name], texts)
  }

  predicate AllLoose(properties: seq<Property>, fields: map<string, Json>) {
    forall p <- properties | p.name in fields && p.name !in STRIPPED :: Loose(p.schema, fields[p.name])
  }

  lemma SatisfiesInParts(choices: Option<seq<Json>>, properties: seq<Property>, required: seq<string>, closed: bool,
                         value: Json, texts: Texts)
    requires value.Obj?
    ensures Satisfies(Object(choices, properties, required, closed), value, texts) <==>
      && Chosen(choices, value) && (forall name <- required :: name in value.fields)
      && Closes(closed, properties, value.fields) && AllSatisfied(properties, value.fields, texts)
  {
  }

  lemma LooseInParts(choices: Option<seq<Json>>, properties: seq<Property>, required: seq<string>, closed: bool,
                     value: Json)
    requires value.Obj?
    ensures Loose(Object(choices, properties, required, closed), value) <==>
      && AlikeChosen(choices, value) && (forall name <- required :: name in value.fields)
      && ClosesLoosely(closed, properties, value.fields) && AllLoose(properties, value.fields)
  {
  }

  lemma ApiClosedIff(properties: seq<Property>, fields: map<string, Json>)
    ensures forall closed :: Closes(closed, ApiProperties(properties), fields) <==>
      ClosesLoosely(closed, properties, fields)
  {
    ApiDeclares(properties);
  }

  lemma ApiPropertiesMean(properties: seq<Property>, fields: map<string, Json>, texts: Texts)
    requires forall q <- properties | q.name in fields ::
      Satisfies(ApiSchema(q.schema), fields[q.name], texts) <==> Loose(q.schema, fields[q.name])
    ensures AllSatisfied(ApiProperties(properties), fields, texts) <==> AllLoose(properties, fields)
  {
    ApiPropertiesIff(properties, fields, texts);
  }

  lemma ApiDeclares(properties: seq<Property>)
    ensures forall name :: Declared(ApiProperties(properties), name) <==>
      Declared(properties, name) && name !in STRIPPED
  {
    forall name | Declared(properties, name) && name !in STRIPPED
      ensures Declared(ApiProperties(properties), name)
    {
      var p :| p in properties && p.name == name;
      assert Property(p.name, ApiSchema(p.schema)) in ApiProperties(properties);
    }
  }

  /** The kept properties are satisfied exactly when their copies are. */
  lemma ApiPropertiesIff(properties: seq<Property>, fields: map<string, Json>, texts: Texts)
    ensures (forall p <- ApiProperties(properties) | p.name in fields ::
      Satisfies(p.schema, fields[p.name], texts)) <==>
            (forall q <- properties | q.name in fields && q.name !in STRIPPED ::
              Satisfies(ApiSchema(q.schema), fields[q.name], texts))
  {
    if forall p <- ApiProperties(properties) | p.name in fields :: Satisfies(p.schema, fields[p.name], texts) {
      forall q <- properties | q.name in fields && q.name !in STRIPPED
        ensures Satisfies(ApiSchema(q.schema), fields[q.name], texts)
      {
        var p := Property(q.name, ApiSchema(q.schema));
        assert p in ApiProperties(properties);
        assert Satisfies(p.schema, fields[p.name], texts);
      }
    }
  }

  // ---------------------------------------------------------------- which valid values it accepts

  /** What a valid value needs to survive the copying: no stripped key in a value that is listed or
      in an object that a closed schema describes, and nothing longer than the implied bound.  Below
      alternatives, some alternative has to ask for the value loosely. */
  predicate Survives(schema: Schema, value: Json) {
    match schema
    case AnyOf(options) => exists option <- options :: Loose(option, value)
    case Scalar(_, choices) => choices.Some? ==> Clean(value)
    case Text(_, _, _, _) => value.Str? ==> |value.s| <= UNBOUNDED
    case List(choices, items, _, _) =>
      && (choices.Some? ==> Clean(value))
      && (value.Arr? ==> |value.items| <= UNBOUNDED && forall item <- value.items :: Survives(items, item))
    case Object(choices, properties, _, closed) =>
      && (choices.Some? ==> Clean(value))
      && (value.Obj? ==>
            && (closed ==> forall name <- value.fields :: name !in STRIPPED)
            && forall p <- properties | p.name in value.fields && p.name !in STRIPPED ::
                 Survives(p.schema, value.fields[p.name]))
  }

  /** For every schema, exactly which valid values the API's copy still accepts. */
  lemma ApiAcceptsIff(schema: Schema, value: Json, texts: Texts)
    requires Satisfies(schema, value, texts)
    ensures Satisfies(ApiSchema(schema), value, texts) <==> Survives(schema, value)
  {
    ApiMeaning(schema, value, texts);
    LooseIffSurvives(schema, value, texts);
  }

  lemma {:induction false} LooseIffSurvives(schema: Schema, value: Json, texts: Texts)
    requires Satisfies(schema, value, texts)
    ensures Loose(schema, value) <==> Survives(schema, value)
    decreases schema
  {
    match schema
    case AnyOf(_) =>
    case Scalar(_, choices) => ListedStaysIff(choices, value);
    case Text(choices, _, _, _) => ListedStaysIff(choices, value);
    case List(choices, items, _, _) =>
      ListedStaysIff(choices, value);
      forall item <- value.items
        ensures Loose(items, item) <==> Survives(items, item)
      {
        LooseIffSurvives(items, item, texts);
      }
    case Object(choices, properties, _, _) =>
      ListedStaysIff(choices, value);
      forall q <- properties | q.name in value.fields
        ensures Loose(q.schema, value.fields[q.name]) <==> Survives(q.schema, value.fields[q.name])
      {
        LooseIffSurvives(q.schema, value.fields[q.name], texts);
      }
  }

  /** Schemas all of whose valid values survive: no property, and no key inside a listed value, is
      named like a stripped keyword, and no explicit limit is above the implied one. */
  predicate Strippable(schema: Schema) {
    match schema
    case AnyOf(options) => forall option <- options :: Strippable(option)
    case Scalar(_, choices) => CleanChoices(choices)
    case Text(_, _, maxLength, _) => Bound(maxLength) <= UNBOUNDED
    case List(choices, items, _, maxItems) => CleanChoices(choices) && Strippable(items) && Bound(maxItems) <= UNBOUNDED
    case Object(choices, properties, _, _) =>
      CleanChoices(choices) && forall p <- properties :: p.name !in STRIPPED && Strippable(p.schema)
  }

  predicate CleanChoices(choices: Option<seq<Json>>) {
    choices.Some? ==> forall c <- choices.value :: Clean(c)
  }

  lemma {:induction false} EqualIsClean(a: Json, b: Json)
    requires Equal(a, b) && Clean(a)
    ensures Clean(b)
  {
    match a
    case Arr(xs) =>
      forall i | 0 <= i < |xs|
        ensures Clean(b.items[i])
      {
        EqualIsClean(xs[i], b.items[i]);
      }
    case Obj(f) =>
      forall k | k in f
        ensures Clean(b.fields[k])
      {
        EqualIsClean(f[k], b.fields[k]);
      }
    case _ =>
  }

  lemma CleanStaysListed(choices: Option<seq<Json>>, value: Json)
    requires CleanChoices(choices) && Chosen(choices, value)
    ensures AlikeChosen(choices, value)
  {
    if choices.Some? {
      var c :| c in choices.value && Equal(c, value);
      EqualIsClean(c, value);
      EqualIsAlikeIff(c, value);
    }
  }

  /** Everything valid stays valid for the API. */
  lemma ApiAcceptsMore(schema: Schema, value: Json, texts: Texts)
    requires Strippable(schema) && Satisfies(schema, value, texts)
    ensures Satisfies(ApiSchema(schema), value, texts)
  {
    ApiMeaning(schema, value, texts);
    ValidIsLoose(schema, value, texts);
  }

  lemma {:induction false} ValidIsLoose(schema: Schema, value: Json, texts: Texts)
    requires Strippable(schema) && Satisfies(schema, value, texts)
    ensures Loose(schema, value)
    decreases schema
  {
    match schema
    case AnyOf(options) =>
      var option :| option in options && Satisfies(option, value, texts);
      ValidIsLoose(option, value, texts);
    case Scalar(_, choices) => CleanStaysListed(choices, value);
    case Text(choices, _, _, _) =>
      ListedStaysIff(choices, value);
    case List(choices, items, _, _) =>
      CleanStaysListed(choices, value);
      forall item <- value.items
        ensures Loose(items, item)
      {
        ValidIsLoose(items, item, texts);
      }
    case Object(choices, properties, _, _) =>
      CleanStaysListed(choices, value);
      forall q <- properties | q.name in value.fields
        ensures Loose(q.schema, value.fields[q.name])
      {
        ValidIsLoose(q.schema, value.fields[q.name], texts);
      }
  }

  /** A closed object schema with a property named `pattern`: the value is valid, and the API's
      copy refuses it. */
  lemma StrippedNameIsRefused(texts: Texts)
    ensures var schema := Object(None, [Property("pattern", Scalar(Boolean, None))], [], true);
      var value := Obj(map["pattern" := Bool(true)]);
      && Satisfies(schema, value, texts)
      && !Satisfies(ApiSchema(schema), value, texts)
  {
    var p := Property("pattern", Scalar(Boolean, None));
    var schema := Object(None, [p], [], true);
    var value := Obj(map["pattern" := Bool(true)]);
    assert p in schema.properties && Declared(schema.properties, "pattern");
    ApiAcceptsIff(schema, value, texts);
    assert "pattern" in value.fields;
  }

  /** A schema without any property whose only listed value has a key named `pattern`: that value
      is valid, and the API's copy lists another one. */
  lemma StrippedKeyIsRefused(texts: Texts)
    ensures var value := Obj(map["pattern" := Int(1)]); var schema := Scalar(Untyped, Some([value]));
      && Satisfies(schema, value, texts)
      && !Satisfies(ApiSchema(schema), value, texts)
  {
    var value := Obj(map["pattern" := Int(1)]);
    var schema := Scalar(Untyped, Some([value]));
    assert Equal(value, value) && value in schema.choices.value;
    assert "pattern" in value.fields;
    ApiAcceptsIff(schema, value, texts);
  }

  /** An explicit limit above the one the validator implies: a text between the two is valid, and by
      the same validator not valid for the copy. */
  lemma LongTextIsRefused(texts: Texts, value: string)
    requires |value| == UNBOUNDED + 1
    ensures var schema := Text(None, 0, Some(UNBOUNDED + 1), None);
      && Satisfies(schema, Str(value), texts)
      && !Satisfies(ApiSchema(schema), Str(value), texts)
  {
    ApiAcceptsIff(Text(None, 0, Some(UNBOUNDED + 1), None), Str(value), texts);
  }
}
