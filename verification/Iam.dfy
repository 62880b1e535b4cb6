/** The conservative subset proof for identity policies, and what it proves. */
module Iam {
  import opened Json
  import opened Glob

  // ---------------------------------------------------------------- accepted policies

  datatype Statement = Statement(actions: seq<string>, resources: seq<string>)

  function Get(fields: map<string, Json>, key: string): Json {
    if key in fields then fields[key] else Null
  }

  predicate NonEmptyStrings(items: seq<Json>) {
    forall item <- items :: item.Str? && item.s != ""
  }

  function Strings(items: seq<Json>): (r: seq<string>)
    requires NonEmptyStrings(items)
    ensures |r| == |items| && forall i | 0 <= i < |items| :: r[i] == items[i].s
  {
    seq(|items|, i requires 0 <= i < |items| => assert items[i] in items; items[i].s)
  }

  function Values(value: Json): (r: Result<seq<string>, string>)
    ensures r.Ok? ==> r.value != []
  {
    if value.Str? && value.s != "" then Ok([value.s])
    else if value.Arr? && value.items != [] && NonEmptyStrings(value.items) then Ok(Strings(value.items))
    else Err("expected non-empty string or string array")
  }

  const STATEMENT_KEYS: set<string> := {"Sid", "Effect", "Action", "Resource"}
  const POLICY_KEYS: set<string> := {"Version", "Id", "Statement"}
  const VERSION: Json := Str("2012-10-17")

  function OneStatement(item: Json): Result<Statement, string> {
    if !item.Obj? || !(item.fields.Keys <= STATEMENT_KEYS) then
      Err("Condition/NotAction/NotResource/Principal require AWS review")
    else if Get(item.fields, "Effect") != Str("Allow") then Err("Deny semantics require AWS review")
    else
      match (Values(Get(item.fields, "Action")), Values(Get(item.fields, "Resource")))
      case (Err(e), _) => Err(e)
      case (Ok(_), Err(e)) => Err(e)
      case (Ok(actions), Ok(resources)) => Ok(Statement(actions, resources))
  }

  function AllStatements(items: seq<Json>): (r: Result<seq<Statement>, string>)
    ensures r.Ok? <==> forall i | 0 <= i < |items| :: OneStatement(items[i]).Ok?
    ensures r.Ok? ==> |r.value| == |items| && forall i | 0 <= i < |items| :: OneStatement(items[i]) == Ok(r.value[i])
  {
    if items == [] then Ok([])
    else
      match OneStatement(items[0])
      case Err(e) => Err(e)
      case Ok(first) =>
        assert forall i | 0 <= i < |items[1..]| :: items[1..][i] == items[i + 1];
        match AllStatements(items[1..])
        case Err(e) => Err(e)
        case Ok(rest) => Ok([first] + rest)
  }

  /** The statements of an accepted policy: Allow statements without conditions. */
  function Statements(policy: Json): Result<seq<Statement>, string> {
    if !policy.Obj? || !(policy.fields.Keys <= POLICY_KEYS) then Err("unsupported policy document")
    else if Get(policy.fields, "Version") != VERSION then Err("unsupported policy version")
    else
      var value := Get(policy.fields, "Statement");
      var items := if value.Obj? then [value] else if value.Arr? then value.items else [];
      if !(1 <= |items| <= 100) then Err("expected 1–100 statements")
      else AllStatements(items)
  }

  // ---------------------------------------------------------------- meaning

  predicate ActionMatches(pattern: string, action: string) {
    Matches(Lower(pattern), Lower(action))
  }

  predicate ResourceMatches(vars: string -> string, pattern: string, resource: string) {
    Matches(Instantiate(vars, pattern), resource)
  }

  predicate Grants(s: Statement, vars: string -> string, action: string, resource: string) {
    && (exists a <- s.actions :: ActionMatches(a, action))
    && (exists r <- s.resources :: ResourceMatches(vars, r, resource))
  }

  /** The request is allowed when the variables have these values. */
  predicate Allows(statements: seq<Statement>, vars: string -> string, action: string, resource: string) {
    exists s <- statements :: Grants(s, vars, action, resource)
  }

  /** Everything the second policy allows, the first one allows, whatever the variables are. */
  ghost predicate Contains(before: seq<Statement>, after: seq<Statement>) {
    forall vars: string -> string, action: string, resource: string ::
      Allows(after, vars, action, resource) ==> Allows(before, vars, action, resource)
  }

  // ---------------------------------------------------------------- the subset rule

  /** Whether one written value is covered by another, in the letters it is given. */
  predicate CoveredText(candidate: string, existing: string) {
    || candidate == existing
    || existing == "*"
    || (!HasAny(candidate, UNPROVABLE_CANDIDATE) && !HasAny(existing, UNPROVABLE_EXISTING)
        && Matches(existing, candidate))
  }

  predicate Covered(candidate: string, existing: string, action: bool) {
    if action then CoveredText(Lower(candidate), Lower(existing)) else CoveredText(candidate, existing)
  }

  predicate PairCovered(action: string, resource: string, s: Statement) {
    && (exists a <- s.actions :: Covered(action, a, true))
    && (exists r <- s.resources :: Covered(resource, r, false))
  }

  datatype Check = Safe | Expansion | Inconclusive(reason: string)

  predicate AllCovered(was: seq<Statement>, now: seq<Statement>) {
    forall s <- now, a <- s.actions, r <- s.resources :: exists existing <- was :: PairCovered(a, r, existing)
  }

  function CheckNoExpansion(before: Json, after: Json): Check {
    match (Statements(before), Statements(after))
    case (Err(e), _) => Inconclusive(e)
    case (Ok(_), Err(e)) => Inconclusive(e)
    case (Ok(was), Ok(now)) => if AllCovered(was, now) then Safe else Expansion
  }

  // ---------------------------------------------------------------- soundness

  lemma CoveredActionSound(candidate: string, existing: string, action: string)
    requires Covered(candidate, existing, true) && ActionMatches(candidate, action)
    ensures ActionMatches(existing, action)
  {
    StarMatchesAll(Lower(action));
    if !HasAny(Lower(candidate), UNPROVABLE_CANDIDATE) {
      ExactMatch(Lower(candidate), Lower(action));
    }
  }

  lemma NoDollarNoPlaceholder(text: string, chars: set<char>)
    requires '$' in chars && !HasAny(text, chars)
    ensures !HasPlaceholder(text)
  {
    forall i | 0 <= i < |text| - 1
      ensures text[i] != '$'
    {
      assert text[i] in text;
    }
  }

  lemma CoveredResourceSound(candidate: string, existing: string, vars: string -> string, resource: string)
    requires Covered(candidate, existing, false) && ResourceMatches(vars, candidate, resource)
    ensures ResourceMatches(vars, existing, resource)
  {
    if candidate == existing {
    } else if existing == "*" {
      NoPlaceholderNoChange(vars, "*");
      StarMatchesAll(resource);
    } else {
      NoDollarNoPlaceholder(candidate, UNPROVABLE_CANDIDATE);
      NoDollarNoPlaceholder(existing, UNPROVABLE_EXISTING);
      NoPlaceholderNoChange(vars, candidate);
      NoPlaceholderNoChange(vars, existing);
      ExactMatch(candidate, resource);
    }
  }

  lemma AllCoveredSound(was: seq<Statement>, now: seq<Statement>)
    requires AllCovered(was, now)
    ensures Contains(was, now)
  {
    forall vars: string -> string, action: string, resource: string | Allows(now, vars, action, resource)
      ensures Allows(was, vars, action, resource)
    {
      var s :| s in now && Grants(s, vars, action, resource);
      var a :| a in s.actions && ActionMatches(a, action);
      var r :| r in s.resources && ResourceMatches(vars, r, resource);
      var existing :| existing in was && PairCovered(a, r, existing);
      var a' :| a' in existing.actions && Covered(a, a', true);
      var r' :| r' in existing.resources && Covered(r, r', false);
      CoveredActionSound(a, a', action);
      CoveredResourceSound(r, r', vars, resource);
      assert Grants(existing, vars, action, resource);
    }
  }

  /** A safe answer means what it says: no request is allowed by the new policy only. */
  lemma SafeMeansContained(before: Json, after: Json)
    requires CheckNoExpansion(before, after).Safe?
    ensures Statements(before).Ok? && Statements(after).Ok?
    ensures Contains(Statements(before).value, Statements(after).value)
  {
    AllCoveredSound(Statements(before).value, Statements(after).value);
  }

  // ---------------------------------------------------------------- completeness on exact policies

  predicate ExactStatement(s: Statement) {
    && (forall a <- s.actions :: !HasAny(a, UNPROVABLE_CANDIDATE))
    && (forall r <- s.resources :: !HasAny(r, UNPROVABLE_CANDIDATE))
  }

  predicate PlainPatterns(s: Statement) {
    && (forall a <- s.actions :: !HasAny(a, UNPROVABLE_EXISTING))
    && (forall r <- s.resources :: !HasAny(r, UNPROVABLE_EXISTING))
  }

  lemma MatchedExactIsCovered(action: string, resource: string, vars: string -> string, s: Statement)
    requires !HasAny(action, UNPROVABLE_CANDIDATE) && !HasAny(resource, UNPROVABLE_CANDIDATE)
    requires PlainPatterns(s) && Grants(s, vars, action, resource)
    ensures PairCovered(action, resource, s)
  {
    var a :| a in s.actions && ActionMatches(a, action);
    var r :| r in s.resources && ResourceMatches(vars, r, resource);
    LowerKeeps(action, UNPROVABLE_CANDIDATE);
    LowerKeeps(a, UNPROVABLE_EXISTING);
    assert Covered(action, a, true);
    NoDollarNoPlaceholder(r, UNPROVABLE_EXISTING);
    NoPlaceholderNoChange(vars, r);
    assert Covered(resource, r, false);
  }

  lemma ExactPairIsAllowed(s: Statement, action: string, resource: string, vars: string -> string)
    requires ExactStatement(s) && action in s.actions && resource in s.resources
    ensures Grants(s, vars, action, resource)
  {
    LowerKeeps(action, WILDCARDS);
    assert !HasAny(action, WILDCARDS) && !HasAny(resource, WILDCARDS) by {
      assert !HasAny(action, UNPROVABLE_CANDIDATE) && !HasAny(resource, UNPROVABLE_CANDIDATE);
    }
    ExactMatch(Lower(action), Lower(action));
    NoDollarNoPlaceholder(resource, UNPROVABLE_CANDIDATE);
    NoPlaceholderNoChange(vars, resource);
    ExactMatch(resource, resource);
    assert ActionMatches(action, action) && ResourceMatches(vars, resource, resource);
  }

  /** For accepted policies whose new values are exact and whose old patterns use nothing but
      `*` and `?`, the check decides containment: safe if and only if contained. */
  lemma SafeIffContained(before: Json, after: Json)
    requires Statements(before).Ok? && forall s <- Statements(before).value :: PlainPatterns(s)
    requires Statements(after).Ok? && forall s <- Statements(after).value :: ExactStatement(s)
    ensures CheckNoExpansion(before, after).Safe? <==> Contains(Statements(before).value, Statements(after).value)
    ensures CheckNoExpansion(before, after).Expansion? <==> !Contains(Statements(before).value, Statements(after).value)
  {
    var was, now := Statements(before).value, Statements(after).value;
    if AllCovered(was, now) {
      AllCoveredSound(was, now);
    }
    if Contains(was, now) {
      ContainedExactIsCovered(was, now);
    }
  }

  lemma ContainedExactIsCovered(was: seq<Statement>, now: seq<Statement>)
    requires forall s <- was :: PlainPatterns(s)
    requires forall s <- now :: ExactStatement(s)
    requires Contains(was, now)
    ensures AllCovered(was, now)
  {
    var vars: string -> string := name => "";
    forall s <- now, a <- s.actions, r <- s.resources
      ensures exists existing <- was :: PairCovered(a, r, existing)
    {
      ExactPairIsAllowed(s, a, r, vars);
      assert Allows(now, vars, a, r);
      assert Allows(was, vars, a, r);
      var existing :| existing in was && Grants(existing, vars, a, r);
      assert !HasAny(a, UNPROVABLE_CANDIDATE) && !HasAny(r, UNPROVABLE_CANDIDATE);
      MatchedExactIsCovered(a, r, vars, existing);
    }
  }

  /** With a wildcard in the new policy the check is only sound: whatever `s3:get*` matches `s3:*`
      matches too, and still the one does not cover the other; so for every such pair. */
  lemma WildcardCandidateIsRefused(prefix: string, rest: string)
    requires prefix != "" && !HasAny(prefix, WILDCARDS) && HasAny(rest, UNPROVABLE_CANDIDATE)
    requires Lower(prefix + rest) == prefix + rest && Lower(prefix + "*") == prefix + "*"
    ensures forall action: string :: ActionMatches(prefix + rest, action) ==> ActionMatches(prefix + "*", action)
    ensures prefix + rest != prefix + "*" ==> !Covered(prefix + rest, prefix + "*", true)
  {
    forall action: string | ActionMatches(prefix + rest, action)
      ensures ActionMatches(prefix + "*", action)
    {
      var x := Lower(action);
      PrefixOfPattern(prefix, rest, x);
      StarMatchesAll(x[|prefix|..]);
      PrefixToPattern(prefix, "*", x);
    }
    var c :| c in rest && c in UNPROVABLE_CANDIDATE;
    assert c in prefix + rest && |prefix + "*"| > 1;
  }

  lemma {:induction false} PrefixOfPattern(prefix: string, rest: string, text: string)
    requires !HasAny(prefix, WILDCARDS) && Matches(prefix + rest, text)
    ensures prefix <= text && Matches(rest, text[|prefix|..])
  {
    if prefix == "" {
      assert prefix + rest == rest && text[0..] == text;
    } else {
      assert prefix[0] in prefix && !HasAny(prefix[1..], WILDCARDS);
      assert (prefix + rest)[1..] == prefix[1..] + rest;
      PrefixOfPattern(prefix[1..], rest, text[1..]);
    }
  }

  lemma {:induction false} PrefixToPattern(prefix: string, rest: string, text: string)
    requires !HasAny(prefix, WILDCARDS) && prefix <= text && Matches(rest, text[|prefix|..])
    ensures Matches(prefix + rest, text)
  {
    if prefix == "" {
      assert prefix + rest == rest && text[0..] == text;
    } else {
      assert prefix[0] in prefix && !HasAny(prefix[1..], WILDCARDS);
      assert (prefix + rest)[1..] == prefix[1..] + rest;
      PrefixToPattern(prefix[1..], rest, text[1..]);
    }
  }

  // ---------------------------------------------------------------- policies from reviewed operations

  datatype Operation = Operation(action: string, resource: string)

  const FORBIDDEN_IN_OPERATION: set<char> := {'*', '?', '$', '{', '}', '[', ']', '\n', '\r'}

  predicate ReviewedOperation(op: Operation) {
    && ':' in op.action
    && "arn:" <= op.resource
    && !HasAny(op.action + op.resource, FORBIDDEN_IN_OPERATION)
  }

  function OperationStatement(op: Operation): Json {
    Obj(map["Effect" := Str("Allow"), "Action" := Str(op.action), "Resource" := Str(op.resource)])
  }

  function PolicyOf(statements: seq<Json>): Json {
    Obj(map["Version" := VERSION, "Statement" := Arr(statements)])
  }

  method PolicyFromEvidence(operations: seq<Operation>) returns (r: Result<Json, string>)
    ensures r.Ok? <==> 1 <= |operations| <= 100 && forall op <- operations :: ReviewedOperation(op)
    ensures r.Ok? ==> r.value == EvidencePolicy(operations)
  {
    if operations == [] || |operations| > 100 {
      return Err("Provide 1–100 reviewed action/resource operations");
    }
    var result: seq<Json> := [];
    for k := 0 to |operations|
      invariant |result| == k && forall i | 0 <= i < k ::
        ReviewedOperation(operations[i]) && result[i] == OperationStatement(operations[i])
    {
      if !ReviewedOperation(operations[k]) {
        return Err("Exact action and ARN required; wildcards and variables are unsupported");
      }
      result := result + [OperationStatement(operations[k])];
    }
    assert result == seq(|operations|, i requires 0 <= i < |operations| => OperationStatement(operations[i]));
    r := Ok(PolicyOf(result));
  }

  function EvidencePolicy(operations: seq<Operation>): Json {
    PolicyOf(seq(|operations|, i requires 0 <= i < |operations| => OperationStatement(operations[i])))
  }

  /** The policy is accepted, exact, and allows the reviewed operations and nothing else. */
  lemma EvidencePolicyIsExact(operations: seq<Operation>)
    requires 1 <= |operations| <= 100 && forall op <- operations :: ReviewedOperation(op)
    ensures var accepted := Statements(EvidencePolicy(operations));
      && accepted.Ok?
      && (forall s <- accepted.value :: ExactStatement(s))
      && forall vars: string -> string, action: string, resource: string ::
           Allows(accepted.value, vars, action, resource) <==>
           exists op <- operations :: Lower(op.action) == Lower(action) && op.resource == resource
  {
    var policy := EvidencePolicy(operations);
    var items := policy.fields["Statement"].items;
    forall i | 0 <= i < |items|
      ensures OneStatement(items[i]) == Ok(Statement([operations[i].action], [operations[i].resource]))
    {
      OperationIsAccepted(operations[i]);
    }
    OperationsAreExact(operations, Statements(policy).value);
  }

  lemma OperationsAreExact(operations: seq<Operation>, accepted: seq<Statement>)
    requires |accepted| == |operations| && forall op <- operations :: ReviewedOperation(op)
    requires forall i | 0 <= i < |accepted| ::
      accepted[i] == Statement([operations[i].action], [operations[i].resource])
    ensures forall s <- accepted :: ExactStatement(s)
    ensures forall vars: string -> string, action: string, resource: string ::
      Allows(accepted, vars, action, resource) <==>
      exists op <- operations :: Lower(op.action) == Lower(action) && op.resource == resource
  {
    forall i | 0 <= i < |accepted|
      ensures ExactStatement(accepted[i])
    {
      OperationIsAccepted(operations[i]);
    }
    forall vars: string -> string, action: string, resource: string
      ensures Allows(accepted, vars, action, resource) <==>
              exists op <- operations :: Lower(op.action) == Lower(action) && op.resource == resource
    {
      forall i | 0 <= i < |operations|
        ensures Grants(accepted[i], vars, action, resource) <==>
                Lower(operations[i].action) == Lower(action) && operations[i].resource == resource
      {
        OperationGrants(operations[i], vars, action, resource);
      }
      if op :| op in operations && Lower(op.action) == Lower(action) && op.resource == resource {
        var i :| 0 <= i < |operations| && operations[i] == op;
        assert accepted[i] in accepted;
      }
    }
  }

  lemma OperationIsAccepted(op: Operation)
    requires ReviewedOperation(op)
    ensures OneStatement(OperationStatement(op)) == Ok(Statement([op.action], [op.resource]))
    ensures ExactStatement(Statement([op.action], [op.resource]))
  {
    forall c | c in op.action || c in op.resource
      ensures c !in FORBIDDEN_IN_OPERATION
    {
      assert c in op.action + op.resource;
    }
  }

  lemma OperationGrants(op: Operation, vars: string -> string, action: string, resource: string)
    requires ReviewedOperation(op)
    ensures Grants(Statement([op.action], [op.resource]), vars, action, resource) <==>
            Lower(op.action) == Lower(action) && op.resource == resource
  {
    OperationIsAccepted(op);
    var s := Statement([op.action], [op.resource]);
    assert op.action in s.actions && op.resource in s.resources;
    assert !HasAny(op.action, WILDCARDS) && !HasAny(op.resource, WILDCARDS);
    LowerKeeps(op.action, WILDCARDS);
    ExactMatch(Lower(op.action), Lower(action));
    NoDollarNoPlaceholder(op.resource, UNPROVABLE_CANDIDATE);
    NoPlaceholderNoChange(vars, op.resource);
    ExactMatch(op.resource, resource);
    assert ActionMatches(op.action, action) <==> Lower(op.action) == Lower(action);
  }

  /** Requests that differ only in the letter case of the action get the same answer. */
  lemma CaseDoesNotMatter(statements: seq<Statement>, vars: string -> string, a: string, b: string, resource: string)
    requires Lower(a) == Lower(b) && Allows(statements, vars, a, resource)
    ensures Allows(statements, vars, b, resource)
  {
    var s :| s in statements && Grants(s, vars, a, resource);
    var pattern :| pattern in s.actions && ActionMatches(pattern, a);
    assert ActionMatches(pattern, b);
    assert Grants(s, vars, b, resource);
  }

  /** The subset check of a proposal decides exactly whether the original policy already allows
      every reviewed operation. */
  lemma EvidenceIsSafeIff(before: Json, operations: seq<Operation>)
    requires Statements(before).Ok? && forall s <- Statements(before).value :: PlainPatterns(s)
    requires 1 <= |operations| <= 100 && forall op <- operations :: ReviewedOperation(op)
    ensures CheckNoExpansion(before, EvidencePolicy(operations)).Safe? <==>
            forall op <- operations, vars: string -> string ::
              Allows(Statements(before).value, vars, op.action, op.resource)
  {
    EvidencePolicyIsExact(operations);
    var was, now := Statements(before).value, Statements(EvidencePolicy(operations)).value;
    SafeIffContained(before, EvidencePolicy(operations));
    if Contains(was, now) {
      forall op <- operations, vars: string -> string
        ensures Allows(was, vars, op.action, op.resource)
      {
        assert Allows(now, vars, op.action, op.resource);
      }
    }
    if forall op <- operations, vars: string -> string :: Allows(was, vars, op.action, op.resource) {
      forall vars: string -> string, action: string, resource: string | Allows(now, vars, action, resource)
        ensures Allows(was, vars, action, resource)
      {
        var op :| op in operations && Lower(op.action) == Lower(action) && op.resource == resource;
        CaseDoesNotMatter(was, vars, op.action, action, resource);
      }
    }
  }
}
