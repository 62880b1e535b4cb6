/** Proposals for a narrower identity policy and their read-only validation. */
module Remediation {
  import opened Json
  import opened Glob
  import opened Iam
  import opened PolicyDocuments

  /** Everything a proposal is about, without its identity.  A proposal file is decoded without a look
      at its types; the replacement is the one field for which that matters, because what the others
      hold is compared or refused. */
  datatype Body = Body(
    sourceHash: string, target: string, beforeHash: string, replacement: Json, diff: string,
    policyVersion: string, environment: string, tenant: string)

  datatype Proposal = Proposal(id: string, body: Body)

  /** What reading a text as YAML leads to.  Raised stands for every exception that the validation
      does not handle; PyYAML's own errors, which derive from `Exception` alone, are of this kind. */
  datatype Parsed = Document(fields: map<string, Json>) | Refused | Raised

  /** What the literal boto3 calls need, or why the Python files cannot be read: a `SyntaxError`, or
      the `MemoryError` of a file that is nested too deeply. */
  datatype Required = Needs(actions: seq<string>) | Unparsable | TooComplex

  /** The scanned tree and the functions around it.  A file that is no UTF-8 is one that is refused. */
  datatype World = World(
    contentHash: string,
    files: map<string, string>,
    required: Required,
    partial: bool,
    bytes: string -> nat,
    parse: string -> Parsed,
    serialize: (Json, string) -> string,
    diff: (string, string, string) -> string,
    hash: string -> string,
    canonical: Body -> string,
    classes: (string, string) -> bool,
    version: string,
    permits: (string, string, string) -> bool)

  const MAX_DOCUMENT: nat := 2 * 1024 * 1024

  /** `load_document`; `bytes` is the length of the UTF-8 encoding, and what has no encoding raises an
      `AttributeError`. */
  function Load(w: World, value: Json): Parsed {
    if !value.Str? then Raised else if w.bytes(value.s) > MAX_DOCUMENT then Refused else w.parse(value.s)
  }

  function LoadFile(w: World, target: string): Parsed
    requires target in w.files
  {
    Load(w, Str(w.files[target]))
  }

  /** The last part of a path, which is where a suffix can be. */
  function FileName(path: string): string {
    if '/' !in path then path else FileName(path[1..])
  }

  /** The suffix from the last dot on; a dot at either end of the name does not start one. */
  function SuffixOf(path: string): string {
    var name := FileName(path);
    if name == "" then "" else LastDot(name[1..])
  }

  function LastDot(rest: string): string {
    if |rest| <= 1 then ""
    else if rest[0] == '.' && '.' !in rest[1..] then Lower(rest)
    else LastDot(rest[1..])
  }

  const SUFFIXES: set<string> := {".json", ".yaml", ".yml"}

  /** Some action of the policy matches. */
  predicate GrantedBy(policy: seq<Statement>, action: string, classes: (string, string) -> bool) {
    exists s <- policy, a <- s.actions :: Fnmatch(Lower(action), Lower(a), classes)
  }

  function Missing(required: seq<string>, policy: seq<Statement>,
                   classes: (string, string) -> bool): (missing: seq<string>)
    ensures missing == [] <==> forall a <- required :: GrantedBy(policy, a, classes)
  {
    if required == [] then []
    else if GrantedBy(policy, required[0], classes) then Missing(required[1..], policy, classes)
    else [required[0]] + Missing(required[1..], policy, classes)
  }

  /** The policy is accepted and grants what the code calls. */
  predicate CoversCode(w: World, policy: Json) {
    && w.required.Needs? && Statements(policy).Ok?
    && Missing(w.required.actions, Statements(policy).value, w.classes) == []
  }

  // ---------------------------------------------------------------- proposing

  /** The replacement text is the document with its identity policy replaced by a contained one. */
  ghost predicate ReplacesIdentity(w: World, document: map<string, Json>, selector: Selector, policy: Json,
                                   candidate: Json, suffix: string, text: Json) {
    && IsIdentityPolicy(document, selector, policy)
    && CheckNoExpansion(policy, candidate).Safe?
    && CoversCode(w, candidate)
    && ReplacePolicy(Obj(document), selector, candidate).Some?
    && text == Str(w.serialize(ReplacePolicy(Obj(document), selector, candidate).value, suffix))
  }

  ghost predicate Proposes(w: World, target: string, operations: seq<Operation>, tenant: string, environment: string,
                           p: Proposal) {
    && w.permits(tenant, environment, w.contentHash)
    && target in w.files && SuffixOf(target) in SUFFIXES
    && 1 <= |operations| <= 100 && (forall op <- operations :: ReviewedOperation(op))
    && p.id == w.hash(w.canonical(p.body))
    && p.body.replacement.Str?
    && p.body == Body(w.contentHash, target, w.hash(w.files[target]), p.body.replacement,
                      w.diff(target, w.files[target], p.body.replacement.s), w.version, environment, tenant)
    && LoadFile(w, target).Document?
    && exists selector, policy ::
         ReplacesIdentity(w, LoadFile(w, target).fields, selector, policy, EvidencePolicy(operations),
           SuffixOf(target), p.body.replacement)
  }

  method ProposeIam(w: World, target: string, operations: seq<Operation>, tenant: string, environment: string)
    returns (r: Result<Proposal, string>)
    ensures r.Ok? ==> Proposes(w, target, operations, tenant, environment, r.value)
    ensures r.Err? ==> forall p :: !Proposes(w, target, operations, tenant, environment, p)
  {
    if !w.permits(tenant, environment, w.contentHash) {
      return Err("denied");
    }
    if target !in w.files {
      return Err("Target must be a relative file inside the repository");
    }
    if SuffixOf(target) !in SUFFIXES {
      return Err("JSON or SAM YAML required");
    }
    var evidence := PolicyFromEvidence(operations);
    if evidence.Err? {
      return Err(evidence.error);
    }
    var candidate := evidence.value;
    var loaded := LoadFile(w, target);
    if !loaded.Document? {
      return Err("document_must_be_object");
    }
    var document := loaded.fields;
    var identity := IdentityPolicy(document);
    if identity.Err? {
      return Err("exactly_one_inline_identity_policy_required");
    }
    var (selector, policy) := identity.value;
    UniqueIdentity(document, selector, policy);
    if !CheckNoExpansion(policy, candidate).Safe? {
      return Err("expansion or inconclusive");
    }
    if !CoversCode(w, candidate) {
      return Err("candidate_policy_missing_code_actions");
    }
    SelectorReads(document, selector, policy);
    PutSucceeds(Obj(document), selector, candidate);
    var text := w.serialize(ReplacePolicy(Obj(document), selector, candidate).value, SuffixOf(target));
    var body := Body(w.contentHash, target, w.hash(w.files[target]), Str(text), w.diff(target, w.files[target], text),
                     w.version, environment, tenant);
    assert ReplacesIdentity(w, document, selector, policy, candidate, SuffixOf(target), Str(text));
    r := Ok(Proposal(w.hash(w.canonical(body)), body));
  }

  lemma UniqueIdentity(document: map<string, Json>, selector: Selector, policy: Json)
    requires IsIdentityPolicy(document, selector, policy)
    ensures forall s, p | IsIdentityPolicy(document, s, p) :: s == selector && p == policy
  {
    forall s, p | IsIdentityPolicy(document, s, p)
      ensures s == selector && p == policy
    {
      IdentityIsUnique(document, s, p, selector, policy);
    }
  }

  // ---------------------------------------------------------------- validating

  /** The documents differ at most in the identity policy, and that is contained in the old one. */
  ghost predicate OnlyNarrowed(original: map<string, Json>, candidate: map<string, Json>,
                               selector: Selector, policy: Json, candidatePolicy: Json) {
    && IsIdentityPolicy(original, selector, policy)
    && IsIdentityPolicy(candidate, selector, candidatePolicy)
    && ReplacePolicy(Obj(original), selector, candidatePolicy) == Some(Obj(candidate))
    && CheckNoExpansion(policy, candidatePolicy).Safe?
  }

  ghost predicate OnlyPolicyChanged(w: World, original: map<string, Json>, candidate: map<string, Json>,
                                    selector: Selector, policy: Json, candidatePolicy: Json) {
    OnlyNarrowed(original, candidate, selector, policy, candidatePolicy) && CoversCode(w, candidatePolicy)
  }

  ghost predicate Integrity(w: World, p: Proposal, tenant: string, environment: string) {
    && w.hash(w.canonical(p.body)) == p.id
    && p.body.policyVersion == w.version
    && p.body.tenant == tenant && p.body.environment == environment
    && w.contentHash == p.body.sourceHash
    && p.body.target in w.files && w.hash(w.files[p.body.target]) == p.body.beforeHash
  }

  ghost predicate Validates(w: World, p: Proposal, tenant: string, environment: string) {
    && Integrity(w, p, tenant, environment)
    && LoadFile(w, p.body.target).Document? && Load(w, p.body.replacement).Document?
    && exists selector, policy, candidatePolicy ::
         OnlyPolicyChanged(w, LoadFile(w, p.body.target).fields, Load(w, p.body.replacement).fields, selector,
           policy, candidatePolicy)
  }

  datatype Validation = Validation(validated: bool, checks: seq<string>, error: string)

  function Rejected(checks: seq<string>, error: string): Validation {
    Validation(false, checks, error)
  }

  /** What is wrong with the proposal before any document is read. */
  method CheckIntegrity(w: World, p: Proposal, tenant: string, environment: string) returns (error: Option<string>)
    ensures error.None? <==> Integrity(w, p, tenant, environment)
  {
    if w.hash(w.canonical(p.body)) != p.id {
      return Some("proposal_integrity_mismatch");
    }
    if p.body.policyVersion != w.version {
      return Some("policy_version_changed");
    }
    if p.body.tenant != tenant || p.body.environment != environment {
      return Some("tenant_or_environment_mismatch");
    }
    if w.contentHash != p.body.sourceHash {
      return Some("source_changed_rescan_required");
    }
    if p.body.target !in w.files {
      return Some("Validation rejected");
    }
    if w.hash(w.files[p.body.target]) != p.body.beforeHash {
      return Some("patch_precondition_failed");
    }
    return None;
  }

  const INTEGRITY := "source_and_proposal_integrity"
  const SUBSET := "static_iam_subset"
  const SYNTAX := "python_syntax_without_execution"

  function CoverageCheck(w: World): string {
    if w.partial then "code_actions_estimate_partial" else "code_actions_covered"
  }

  /** Where an exception comes from that leaves the validation. */
  datatype Escape = FromReading | FromSearching | FromParsingPython

  /** The search for the identity policy of this document raises an `AttributeError`. */
  predicate SearchRaises(document: map<string, Json>) {
    "Statement" !in document && !OnlyObjectsAreAsked(document)
  }

  ghost predicate HasIdentity(document: map<string, Json>) {
    exists selector, policy :: IsIdentityPolicy(document, selector, policy)
  }

  /** The first search that fails raises, or the Python files are looked at and are too complex. */
  ghost predicate ComparisonEscapes(w: World, original: map<string, Json>, candidate: map<string, Json>,
                                    escape: Escape) {
    match escape
    case FromReading => false
    case FromSearching => SearchRaises(original) || (HasIdentity(original) && SearchRaises(candidate))
    case FromParsingPython =>
      && w.required.TooComplex?
      && exists selector, policy, candidatePolicy ::
           OnlyNarrowed(original, candidate, selector, policy, candidatePolicy)
  }

  function SearchFailed(error: Failure): Result<Validation, Escape> {
    match error
    case NotExactlyOne => Ok(Rejected([INTEGRITY], "exactly_one_inline_identity_policy_required"))
    case TypeError => Ok(Rejected([INTEGRITY], "Validation rejected"))
    case AttributeError => Err(FromSearching)
  }

  /** The two documents after the integrity check; an error is an exception that leaves the validation. */
  method CompareDocuments(w: World, original: map<string, Json>, candidate: map<string, Json>)
    returns (r: Result<Validation, Escape>)
    ensures forall escape :: r == Err(escape) <==> ComparisonEscapes(w, original, candidate, escape)
    ensures r.Ok? && r.value.validated <==> exists selector, policy, candidatePolicy ::
      OnlyPolicyChanged(w, original, candidate, selector, policy, candidatePolicy)
    ensures r.Ok? && r.value.validated ==> r.value.checks == [INTEGRITY, SUBSET, SYNTAX, CoverageCheck(w)]
    ensures r.Ok? ==> r.value.checks != []
  {
    var found := IdentityPolicy(original);
    if found.Err? {
      return SearchFailed(found.error);
    }
    var candidateFound := IdentityPolicy(candidate);
    if candidateFound.Err? {
      return SearchFailed(candidateFound.error);
    }
    var (selector, policy) := found.value;
    var candidatePolicy := candidateFound.value.1;
    OneComparison(w, original, candidate, selector, policy, candidateFound.value.0, candidatePolicy);
    if selector != candidateFound.value.0
      || ReplacePolicy(Obj(original), selector, candidatePolicy) != Some(Obj(candidate)) {
      return Ok(Rejected([INTEGRITY], "non_iam_changes_rejected"));
    }
    if !CheckNoExpansion(policy, candidatePolicy).Safe? {
      return Ok(Rejected([INTEGRITY], "iam_not_safe"));
    }
    r := CheckCode(w, candidatePolicy);
  }

  /** Where both searches find something, there is one pair of policies to compare. */
  lemma OneComparison(w: World, original: map<string, Json>, candidate: map<string, Json>, selector: Selector,
                      policy: Json, candidateSelector: Selector, candidatePolicy: Json)
    requires IsIdentityPolicy(original, selector, policy)
    requires IsIdentityPolicy(candidate, candidateSelector, candidatePolicy)
    requires !SearchRaises(original) && !SearchRaises(candidate)
    ensures var narrowed := OnlyNarrowed(original, candidate, selector, policy, candidatePolicy);
      && (forall escape :: ComparisonEscapes(w, original, candidate, escape) <==>
            escape.FromParsingPython? && w.required.TooComplex? && narrowed)
      && ((exists s, p, q :: OnlyPolicyChanged(w, original, candidate, s, p, q)) <==>
            narrowed && CoversCode(w, candidatePolicy))
      && (narrowed ==> selector == candidateSelector)
  {
    NarrowedIffThese(original, candidate, selector, policy, candidateSelector, candidatePolicy);
    ChangedIffThese(w, original, candidate, selector, policy, candidateSelector, candidatePolicy);
    EscapesIffNarrowed(w, original, candidate);
  }

  lemma EscapesIffNarrowed(w: World, original: map<string, Json>, candidate: map<string, Json>)
    requires !SearchRaises(original) && !SearchRaises(candidate)
    ensures forall escape :: ComparisonEscapes(w, original, candidate, escape) <==>
      escape.FromParsingPython? && w.required.TooComplex?
      && exists s, p, q :: OnlyNarrowed(original, candidate, s, p, q)
  {
  }

  lemma OnlyThese(original: map<string, Json>, candidate: map<string, Json>, selector: Selector, policy: Json,
                  candidateSelector: Selector, candidatePolicy: Json, s: Selector, p: Json, q: Json)
    requires IsIdentityPolicy(original, selector, policy)
    requires IsIdentityPolicy(candidate, candidateSelector, candidatePolicy)
    requires OnlyNarrowed(original, candidate, s, p, q)
    ensures s == selector == candidateSelector && p == policy && q == candidatePolicy
  {
    IdentityIsUnique(original, s, p, selector, policy);
    IdentityIsUnique(candidate, s, q, candidateSelector, candidatePolicy);
  }

  lemma NarrowedIffThese(original: map<string, Json>, candidate: map<string, Json>, selector: Selector, policy: Json,
                         candidateSelector: Selector, candidatePolicy: Json)
    requires IsIdentityPolicy(original, selector, policy)
    requires IsIdentityPolicy(candidate, candidateSelector, candidatePolicy)
    ensures (exists s, p, q :: OnlyNarrowed(original, candidate, s, p, q)) <==>
      OnlyNarrowed(original, candidate, selector, policy, candidatePolicy)
    ensures OnlyNarrowed(original, candidate, selector, policy, candidatePolicy) ==> selector == candidateSelector
  {
    if s, p, q :| OnlyNarrowed(original, candidate, s, p, q) {
      OnlyThese(original, candidate, selector, policy, candidateSelector, candidatePolicy, s, p, q);
    }
  }

  lemma ChangedIffThese(w: World, original: map<string, Json>, candidate: map<string, Json>, selector: Selector,
                        policy: Json, candidateSelector: Selector, candidatePolicy: Json)
    requires IsIdentityPolicy(original, selector, policy)
    requires IsIdentityPolicy(candidate, candidateSelector, candidatePolicy)
    ensures (exists s, p, q :: OnlyPolicyChanged(w, original, candidate, s, p, q)) <==>
      OnlyPolicyChanged(w, original, candidate, selector, policy, candidatePolicy)
  {
    if s, p, q :| OnlyPolicyChanged(w, original, candidate, s, p, q) {
      OnlyThese(original, candidate, selector, policy, candidateSelector, candidatePolicy, s, p, q);
    }
  }

  /** The Python files of the tree against a policy that narrows the original. */
  method CheckCode(w: World, policy: Json) returns (r: Result<Validation, Escape>)
    ensures r.Err? <==> w.required.TooComplex?
    ensures r.Err? ==> r.error == FromParsingPython
    ensures r.Ok? ==> (r.value.validated <==> CoversCode(w, policy)) && r.value.checks != []
    ensures r.Ok? && r.value.validated ==> r.value.checks == [INTEGRITY, SUBSET, SYNTAX, CoverageCheck(w)]
  {
    match w.required {
      case TooComplex =>
        r := Err(FromParsingPython);
      case Unparsable =>
        r := Ok(Rejected([INTEGRITY, SUBSET], "Validation rejected"));
      case Needs(_) =>
        if !CoversCode(w, policy) {
          return Ok(Rejected([INTEGRITY, SUBSET, SYNTAX], "candidate_policy_missing_code_actions"));
        }
        r := Ok(Validation(true, [INTEGRITY, SUBSET, SYNTAX, CoverageCheck(w)], ""));
    }
  }

  /** Where the exception comes from that leaves the validation of this proposal: reading the target,
      or the replacement once the target was read, or comparing them once both were. */
  ghost predicate ValidationEscapes(w: World, p: Proposal, tenant: string, environment: string, escape: Escape) {
    && Integrity(w, p, tenant, environment)
    && match (LoadFile(w, p.body.target), Load(w, p.body.replacement))
       case (Raised, _) => escape == FromReading
       case (Document(_), Raised) => escape == FromReading
       case (Document(original), Document(candidate)) => ComparisonEscapes(w, original, candidate, escape)
       case _ => false
  }

  method ValidateProposal(w: World, p: Proposal, tenant: string, environment: string)
    returns (r: Result<Validation, Escape>)
    ensures forall escape :: r == Err(escape) <==> ValidationEscapes(w, p, tenant, environment, escape)
    ensures r.Ok? && r.value.validated <==> Validates(w, p, tenant, environment)
    ensures r.Ok? ==> (r.value.checks != [] <==> Integrity(w, p, tenant, environment))
    ensures r.Ok? && r.value.validated ==> r.value.checks == [INTEGRITY, SUBSET, SYNTAX, CoverageCheck(w)]
  {
    var problem := CheckIntegrity(w, p, tenant, environment);
    if problem.Some? {
      return Ok(Rejected([], problem.value));
    }
    var original := LoadFile(w, p.body.target);
    if original.Raised? {
      return Err(FromReading);
    }
    if original.Refused? {
      return Ok(Rejected([INTEGRITY], "Validation rejected"));
    }
    var candidate := Load(w, p.body.replacement);
    if candidate.Raised? {
      return Err(FromReading);
    }
    if candidate.Refused? {
      return Ok(Rejected([INTEGRITY], "Validation rejected"));
    }
    r := CompareDocuments(w, original.fields, candidate.fields);
  }

  // ---------------------------------------------------------------- inputs that escape

  /** A proposal of anything for anything there: its identity is the digest of its own fields. */
  function SelfSigned(w: World, target: string, replacement: Json, tenant: string, environment: string): Proposal
    requires target in w.files
  {
    var body := Body(w.contentHash, target, w.hash(w.files[target]), replacement, "", w.version, environment, tenant);
    Proposal(w.hash(w.canonical(body)), body)
  }

  /** A replacement that is no text, or is text that YAML cannot read, for any target that loads. */
  lemma UnreadableReplacementEscapes(w: World, target: string, replacement: Json, tenant: string, environment: string)
    requires target in w.files && LoadFile(w, target).Document?
    requires replacement.Str? ==> w.bytes(replacement.s) <= MAX_DOCUMENT && w.parse(replacement.s).Raised?
    ensures var p := SelfSigned(w, target, replacement, tenant, environment);
      ValidationEscapes(w, p, tenant, environment, FromReading) && !Validates(w, p, tenant, environment)
  {
  }

  /** A target that YAML cannot read, whatever is proposed for it. */
  lemma UnreadableTargetEscapes(w: World, target: string, replacement: Json, tenant: string, environment: string)
    requires target in w.files && w.bytes(w.files[target]) <= MAX_DOCUMENT && w.parse(w.files[target]).Raised?
    ensures var p := SelfSigned(w, target, replacement, tenant, environment);
      ValidationEscapes(w, p, tenant, environment, FromReading) && !Validates(w, p, tenant, environment)
  {
  }

  /** A target whose resources are a list, for any replacement that loads. */
  lemma ListOfResourcesEscapes(w: World, target: string, replacement: Json, items: seq<Json>, tenant: string,
                               environment: string)
    requires target in w.files && LoadFile(w, target) == Document(map["Resources" := Arr(items)])
    requires Load(w, replacement).Document?
    ensures var p := SelfSigned(w, target, replacement, tenant, environment);
      ValidationEscapes(w, p, tenant, environment, FromSearching) && !Validates(w, p, tenant, environment)
  {
    var document: map<string, Json> := map["Resources" := Arr(items)];
    assert SearchRaises(document);
    assert !HasIdentity(document);
  }

  // ---------------------------------------------------------------- what they promise together

  /** Parsing the text that the replaced document is written as gives that document. */
  ghost predicate WritesBack(w: World, target: string, operations: seq<Operation>)
    requires target in w.files && LoadFile(w, target).Document?
  {
    var document, candidate := LoadFile(w, target).fields, EvidencePolicy(operations);
    forall selector, policy | IsIdentityPolicy(document, selector, policy) ::
      var replaced := ReplacePolicy(Obj(document), selector, candidate);
      replaced.Some? && replaced.value.Obj? ==>
        w.parse(w.serialize(replaced.value, SuffixOf(target))) == Document(replaced.value.fields)
  }

  /** A proposal made on a tree validates on that tree if and only if its replacement is not longer
      than what can be loaded. */
  lemma ProposalValidatesIff(w: World, target: string, operations: seq<Operation>, tenant: string, environment: string,
                             p: Proposal)
    requires Proposes(w, target, operations, tenant, environment, p) && WritesBack(w, target, operations)
    ensures Validates(w, p, tenant, environment) <==> w.bytes(p.body.replacement.s) <= MAX_DOCUMENT
  {
    if w.bytes(p.body.replacement.s) <= MAX_DOCUMENT {
      LoadedProposalValidates(w, target, operations, tenant, environment, p);
    }
  }

  lemma LoadedProposalValidates(w: World, target: string, operations: seq<Operation>, tenant: string,
                                environment: string, p: Proposal)
    requires Proposes(w, target, operations, tenant, environment, p) && WritesBack(w, target, operations)
    requires w.bytes(p.body.replacement.s) <= MAX_DOCUMENT
    ensures Validates(w, p, tenant, environment)
  {
    var candidate := EvidencePolicy(operations);
    var document := LoadFile(w, target).fields;
    var selector, policy :|
      ReplacesIdentity(w, document, selector, policy, candidate, SuffixOf(target), p.body.replacement);
    PutThenFind(document, selector, policy, candidate);
    var replaced := ReplacePolicy(Obj(document), selector, candidate).value;
    assert Load(w, p.body.replacement) == Document(replaced.fields);
    assert OnlyPolicyChanged(w, document, replaced.fields, selector, policy, candidate);
  }

  /** A document of a role that allows just these operations, beside anything else. */
  function RoleDocument(rest: map<string, Json>, operations: seq<Operation>): map<string, Json> {
    var policy := Obj(map["PolicyDocument" := EvidencePolicy(operations)]);
    var role := Obj(map["Type" := ROLE, "Properties" := Obj(map["Policies" := Arr([policy])])]);
    rest["Resources" := Obj(map["Role" := role])]
  }

  /** Such proposals are made: a document that can be loaded, and whose policy is replaced by an
      equal one, is proposed however long the new text is, and over the limit it does not validate. */
  lemma LongReplacementIsRejected(w: World, target: string, rest: map<string, Json>, operations: seq<Operation>,
                                  tenant: string, environment: string) returns (p: Proposal)
    requires "Statement" !in rest && 1 <= |operations| <= 100 && forall op <- operations :: ReviewedOperation(op)
    requires w.permits(tenant, environment, w.contentHash) && w.required == Needs([])
    requires target in w.files && SuffixOf(target) in SUFFIXES
    requires LoadFile(w, target) == Document(RoleDocument(rest, operations))
    requires w.bytes(w.serialize(Obj(RoleDocument(rest, operations)), SuffixOf(target))) > MAX_DOCUMENT
    ensures Proposes(w, target, operations, tenant, environment, p) && !Validates(w, p, tenant, environment)
  {
    var document, suffix := RoleDocument(rest, operations), SuffixOf(target);
    var selector, policy := InlineSelector("Role", 0), EvidencePolicy(operations);
    RoleDocumentIsFound(rest, operations);
    SamePolicyIsSafe(operations);
    FindThenPut(document, selector, policy);
    var text := w.serialize(Obj(document), suffix);
    var body := Body(w.contentHash, target, w.hash(w.files[target]), Str(text), w.diff(target, w.files[target], text),
                     w.version, environment, tenant);
    p := Proposal(w.hash(w.canonical(body)), body);
    assert ReplacesIdentity(w, document, selector, policy, policy, suffix, Str(text));
  }

  lemma RoleDocumentIsFound(rest: map<string, Json>, operations: seq<Operation>)
    requires "Statement" !in rest
    ensures IsIdentityPolicy(RoleDocument(rest, operations), InlineSelector("Role", 0), EvidencePolicy(operations))
  {
    var document := RoleDocument(rest, operations);
    var role := Resources(document)["Role"];
    assert Resources(document).Keys == {"Role"};
    assert Policies(role) == [Obj(map["PolicyDocument" := EvidencePolicy(operations)])];
    assert IsOnlyInline(document, "Role", 0);
  }

  lemma SamePolicyIsSafe(operations: seq<Operation>)
    requires 1 <= |operations| <= 100 && forall op <- operations :: ReviewedOperation(op)
    ensures Statements(EvidencePolicy(operations)).Ok?
    ensures CheckNoExpansion(EvidencePolicy(operations), EvidencePolicy(operations)).Safe?
  {
    EvidencePolicyIsExact(operations);
    var accepted := Statements(EvidencePolicy(operations)).value;
    forall s <- accepted, a <- s.actions, r <- s.resources
      ensures exists existing <- accepted :: PairCovered(a, r, existing)
    {
      assert PairCovered(a, r, s) by {
        assert Covered(a, a, true) && Covered(r, r, false);
      }
    }
  }

  /** A validated proposal changes the policy and nothing else, allows no request that the
      original does not, and grants every action the code is known to call. */
  lemma ValidatedOnlyNarrows(w: World, p: Proposal, tenant: string, environment: string)
    returns (selector: Selector, policy: Json, candidatePolicy: Json)
    requires Validates(w, p, tenant, environment)
    ensures IsIdentityPolicy(LoadFile(w, p.body.target).fields, selector, policy)
    ensures IsIdentityPolicy(Load(w, p.body.replacement).fields, selector, candidatePolicy)
    ensures forall other: Selector | !(selector <= other) && !(other <= selector) ::
      Read(Obj(Load(w, p.body.replacement).fields), other) == Read(Obj(LoadFile(w, p.body.target).fields), other)
    ensures Statements(policy).Ok? && Statements(candidatePolicy).Ok?
    ensures Contains(Statements(policy).value, Statements(candidatePolicy).value)
    ensures w.required.Needs? && forall a <- w.required.actions ::
      GrantedBy(Statements(candidatePolicy).value, a, w.classes)
  {
    var original, candidate := LoadFile(w, p.body.target).fields, Load(w, p.body.replacement).fields;
    selector, policy, candidatePolicy :| OnlyPolicyChanged(w, original, candidate, selector, policy, candidatePolicy);
    SelectorReads(original, selector, policy);
    forall other: Selector | !(selector <= other) && !(other <= selector)
      ensures Read(Obj(candidate), other) == Read(Obj(original), other)
    {
      PutKeepsTheRest(Obj(original), selector, candidatePolicy, other);
    }
    SafeMeansContained(policy, candidatePolicy);
  }
}
