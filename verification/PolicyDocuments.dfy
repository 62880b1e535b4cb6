/** Finding the one inline identity policy of a document and putting another in its place. */
module PolicyDocuments {
  import opened Json
  import opened Iam

  datatype Part = Key(name: string) | Index(i: nat)

  type Selector = seq<Part>

  /** The value a path of keys and indexes leads to. */
  function Read(j: Json, path: Selector): Option<Json> {
    if path == [] then Some(j)
    else
      match path[0]
      case Key(name) => if j.Obj? && name in j.fields then Read(j.fields[name], path[1..]) else None
      case Index(i) => if j.Arr? && i < |j.items| then Read(j.items[i], path[1..]) else None
  }

  /** The document with the value there replaced; the walk fails where a step is missing. */
  function ReplacePolicy(j: Json, path: Selector, policy: Json): Option<Json> {
    if path == [] then Some(policy)
    else
      match path[0]
      case Key(name) =>
        if !j.Obj? || (name !in j.fields && |path| > 1) then None
        else if |path| == 1 then Some(Obj(j.fields[name := policy]))
        else
          (match ReplacePolicy(j.fields[name], path[1..], policy)
           case None => None
           case Some(inner) => Some(Obj(j.fields[name := inner])))
      case Index(i) =>
        if !j.Arr? || i >= |j.items| then None
        else
          (match ReplacePolicy(j.items[i], path[1..], policy)
           case None => None
           case Some(inner) => Some(Arr(j.items[i := inner])))
  }

  // ---------------------------------------------------------------- lens laws

  lemma {:induction false} PutSucceeds(j: Json, path: Selector, policy: Json)
    requires Read(j, path).Some?
    ensures ReplacePolicy(j, path, policy).Some?
    ensures Read(ReplacePolicy(j, path, policy).value, path) == Some(policy)
    decreases path
  {
    if path != [] {
      var child := if path[0].Key? then j.fields[path[0].name] else j.items[path[0].i];
      PutSucceeds(child, path[1..], policy);
      if |path| == 1 {
        assert path[1..] == [];
      }
    }
  }

  lemma {:induction false} PutBackIsIdentity(j: Json, path: Selector)
    requires Read(j, path).Some?
    ensures ReplacePolicy(j, path, Read(j, path).value) == Some(j)
    decreases path
  {
    if path != [] {
      var child := if path[0].Key? then j.fields[path[0].name] else j.items[path[0].i];
      PutBackIsIdentity(child, path[1..]);
      if |path| == 1 {
        assert path[1..] == [];
      }
      if path[0].Key? {
        assert j.fields[path[0].name := child] == j.fields;
      } else {
        assert j.items[path[0].i := child] == j.items;
      }
    }
  }

  lemma {:induction false} SecondPutWins(j: Json, path: Selector, first: Json, second: Json)
    requires Read(j, path).Some?
    ensures ReplacePolicy(j, path, first).Some?
    ensures ReplacePolicy(ReplacePolicy(j, path, first).value, path, second) == ReplacePolicy(j, path, second)
    decreases path
  {
    PutSucceeds(j, path, first);
    if path != [] {
      var child := if path[0].Key? then j.fields[path[0].name] else j.items[path[0].i];
      SecondPutWins(child, path[1..], first, second);
      PutSucceeds(child, path[1..], second);
      if |path| == 1 {
        assert path[1..] == [];
      }
      var a, b := ReplacePolicy(child, path[1..], first).value, ReplacePolicy(child, path[1..], second).value;
      if path[0].Key? {
        assert j.fields[path[0].name := a][path[0].name := b] == j.fields[path[0].name := b];
      } else {
        assert j.items[path[0].i := a][path[0].i := b] == j.items[path[0].i := b];
      }
    }
  }

  /** Nothing off the selector changes. */
  lemma {:induction false} PutKeepsTheRest(j: Json, path: Selector, policy: Json, other: Selector)
    requires Read(j, path).Some? && !(path <= other) && !(other <= path)
    ensures ReplacePolicy(j, path, policy).Some?
    ensures Read(ReplacePolicy(j, path, policy).value, other) == Read(j, other)
    decreases path
  {
    PutSucceeds(j, path, policy);
    var child := if path[0].Key? then j.fields[path[0].name] else j.items[path[0].i];
    if path[0] == other[0] {
      assert path == [path[0]] + path[1..] && other == [other[0]] + other[1..];
      PutKeepsTheRest(child, path[1..], policy, other[1..]);
    }
  }

  // ---------------------------------------------------------------- the identity policy

  /** The exceptions of the search; the first is the `ValueError` it raises itself. */
  datatype Failure = NotExactlyOne | AttributeError | TypeError

  const ROLE: Json := Str("AWS::IAM::Role")

  function Field(j: Json, key: string): Option<Json> {
    if j.Obj? && key in j.fields then Some(j.fields[key]) else None
  }

  /** `document.get("Resources", {})`. */
  function Resources(document: map<string, Json>): map<string, Json> {
    if "Resources" in document && document["Resources"].Obj? then document["Resources"].fields else map[]
  }

  function Policies(resource: Json): seq<Json> {
    if Field(resource, "Type") != Some(ROLE) then []
    else
      match Field(resource, "Properties")
      case None => []
      case Some(properties) =>
        match Field(properties, "Policies")
        case Some(Arr(items)) => items
        case _ => []
  }

  /** A method of `dict` is called on objects only. */
  predicate OnlyObjectsAreAsked(document: map<string, Json>) {
    && ("Resources" in document ==> document["Resources"].Obj?)
    && forall name <- Resources(document) ::
         var resource := Resources(document)[name];
         && resource.Obj?
         && (Field(resource, "Type") == Some(ROLE) && "Properties" in resource.fields ==>
              resource.fields["Properties"].Obj?)
  }

  const DOCUMENT := "PolicyDocument"

  predicate Mentions(text: string) {
    exists i | 0 <= i <= |text| - |DOCUMENT| :: text[i..][..|DOCUMENT|] == DOCUMENT
  }

  /** Python can look for the key in the value, and takes out nothing but what an object has there. */
  predicate Searchable(j: Json) {
    match j
    case Obj(_) => true
    case Str(text) => !Mentions(text)
    case Arr(items) => Str(DOCUMENT) !in items
    case _ => false
  }

  /** The value can be iterated over, and whatever comes is searchable: the items of a list, the
      characters of a text, the keys of an object. */
  predicate Iterable(j: Json) {
    match j
    case Arr(items) => forall p <- items :: Searchable(p)
    case Str(_) => true
    case Obj(fields) => forall key <- fields :: !Mentions(key)
    case _ => false
  }

  /** The search meets no shape that makes Python raise another exception. */
  predicate WellShaped(document: map<string, Json>) {
    && OnlyObjectsAreAsked(document)
    && forall name <- Resources(document) ::
         var resource := Resources(document)[name];
         Field(resource, "Type") == Some(ROLE) && "Properties" in resource.fields ==>
           "Policies" in resource.fields["Properties"].fields ==>
             Iterable(resource.fields["Properties"].fields["Policies"])
  }

  predicate IsInline(document: map<string, Json>, name: string, i: nat) {
    && name in Resources(document)
    && i < |Policies(Resources(document)[name])|
    && Field(Policies(Resources(document)[name])[i], "PolicyDocument").Some?
  }

  function InlineSelector(name: string, i: nat): Selector {
    [Key("Resources"), Key(name), Key("Properties"), Key("Policies"), Index(i), Key("PolicyDocument")]
  }

  /** A document that is a policy is its own identity policy; otherwise there has to be exactly
      one inline policy. */
  ghost predicate IsIdentityPolicy(document: map<string, Json>, selector: Selector, policy: Json) {
    if "Statement" in document then selector == [] && policy == Obj(document)
    else
      && WellShaped(document)
      && exists name, i: nat :: IsOnlyInline(document, name, i)
           && selector == InlineSelector(name, i)
           && policy == Policies(Resources(document)[name])[i].fields["PolicyDocument"]
  }

  ghost predicate IsOnlyInline(document: map<string, Json>, name: string, i: nat) {
    IsInline(document, name, i) && forall name', i': nat :: IsInline(document, name', i') ==> name' == name && i' == i
  }

  ghost predicate Inlines(policies: seq<Json>, found: seq<nat>) {
    && (forall k | 0 <= k < |found| :: found[k] < |policies| && Field(policies[found[k]], "PolicyDocument").Some?)
    && (forall k, l | 0 <= k < l < |found| :: found[k] < found[l])
    && forall i: nat | i < |policies| && Field(policies[i], "PolicyDocument").Some? :: i in found
  }

  /** The inner loop: the policies of one role that carry a document. */
  method InlinePolicies(policies: seq<Json>) returns (found: seq<nat>)
    ensures Inlines(policies, found)
  {
    found := [];
    for i := 0 to |policies|
      invariant forall k | 0 <= k < |found| :: found[k] < i && Field(policies[found[k]], "PolicyDocument").Some?
      invariant forall k, l | 0 <= k < l < |found| :: found[k] < found[l]
      invariant forall j: nat | j < i && Field(policies[j], "PolicyDocument").Some? :: j in found
    {
      if Field(policies[i], "PolicyDocument").Some? {
        found := found + [i];
      }
    }
  }

  /** The list holds each inline policy of these resources once. */
  ghost predicate Lists(document: map<string, Json>, found: seq<(string, nat)>, names: set<string>) {
    && (forall k | 0 <= k < |found| :: IsInline(document, found[k].0, found[k].1) && found[k].0 in names)
    && (forall k, l | 0 <= k < l < |found| :: found[k] != found[l])
    && forall n, j: nat | IsInline(document, n, j) && n in names :: (n, j) in found
  }

  function Tagged(name: string, indexes: seq<nat>): seq<(string, nat)> {
    seq(|indexes|, k requires 0 <= k < |indexes| => (name, indexes[k]))
  }

  lemma ListsOneMore(document: map<string, Json>, found: seq<(string, nat)>, names: set<string>, name: string,
                     indexes: seq<nat>)
    requires Lists(document, found, names) && name in Resources(document) && name !in names
    requires Inlines(Policies(Resources(document)[name]), indexes)
    ensures Lists(document, found + Tagged(name, indexes), names + {name})
  {
    var all := found + Tagged(name, indexes);
    forall j: nat | IsInline(document, name, j)
      ensures (name, j) in all
    {
      assert j in indexes;
      var k :| 0 <= k < |indexes| && indexes[k] == j;
      assert all[|found| + k] == (name, j);
    }
    forall n, j: nat | IsInline(document, n, j) && n in names
      ensures (n, j) in all
    {
      assert (n, j) in found;
    }
  }

  method IdentityPolicy(document: map<string, Json>) returns (r: Result<(Selector, Json), Failure>)
    ensures r.Ok? ==> IsIdentityPolicy(document, r.value.0, r.value.1)
    ensures r.Err? ==> forall selector, policy :: !IsIdentityPolicy(document, selector, policy)
    ensures r == Err(AttributeError) <==> "Statement" !in document && !OnlyObjectsAreAsked(document)
    ensures r == Err(TypeError) <==> "Statement" !in document && OnlyObjectsAreAsked(document) && !WellShaped(document)
  {
    if "Statement" in document {
      return Ok(([], Obj(document)));
    }
    if !OnlyObjectsAreAsked(document) {
      return Err(AttributeError);
    }
    if !WellShaped(document) {
      return Err(TypeError);
    }
    var found: seq<(string, nat)> := [];
    var names := Resources(document).Keys;
    assert Resources(document).Keys - names == {};
    while names != {}
      invariant names <= Resources(document).Keys
      invariant Lists(document, found, Resources(document).Keys - names)
      decreases |names|
    {
      var name :| name in names;
      var indexes := InlinePolicies(Policies(Resources(document)[name]));
      ListsOneMore(document, found, Resources(document).Keys - names, name, indexes);
      assert Resources(document).Keys - names + {name} == Resources(document).Keys - (names - {name});
      found := found + Tagged(name, indexes);
      names := names - {name};
    }
    assert Resources(document).Keys - names == Resources(document).Keys;
    OneFound(document, found);
    if |found| != 1 {
      return Err(NotExactlyOne);
    }
    var (name, i) := found[0];
    r := Ok((InlineSelector(name, i), Policies(Resources(document)[name])[i].fields["PolicyDocument"]));
  }

  lemma OneFound(document: map<string, Json>, found: seq<(string, nat)>)
    requires Lists(document, found, Resources(document).Keys)
    ensures |found| == 1 ==> IsOnlyInline(document, found[0].0, found[0].1)
    ensures |found| != 1 ==> forall name, i: nat :: !IsOnlyInline(document, name, i)
  {
    if |found| == 1 {
      forall name, i: nat | IsInline(document, name, i)
        ensures (name, i) == found[0]
      {
        assert (name, i) in found;
      }
    } else {
      forall name, i: nat | IsInline(document, name, i)
        ensures !IsOnlyInline(document, name, i)
      {
        assert (name, i) in found;
        assert found[0] != found[1];
      }
    }
  }

  lemma IdentityIsUnique(document: map<string, Json>, a: Selector, p: Json, b: Selector, q: Json)
    requires IsIdentityPolicy(document, a, p) && IsIdentityPolicy(document, b, q)
    ensures a == b && p == q
  {
  }

  /** The selector leads to the policy. */
  lemma SelectorReads(document: map<string, Json>, selector: Selector, policy: Json)
    requires IsIdentityPolicy(document, selector, policy)
    ensures Read(Obj(document), selector) == Some(policy)
  {
    if "Statement" !in document {
      var name, i: nat :| IsOnlyInline(document, name, i) && selector == InlineSelector(name, i)
        && policy == Policies(Resources(document)[name])[i].fields["PolicyDocument"];
      InlineReads(document, name, i);
    }
  }

  lemma InlineReads(document: map<string, Json>, name: string, i: nat)
    requires WellShaped(document) && IsInline(document, name, i)
    ensures Read(Obj(document), InlineSelector(name, i)) ==
      Some(Policies(Resources(document)[name])[i].fields["PolicyDocument"])
  {
    var resource := Resources(document)[name];
    var properties := resource.fields["Properties"];
    var s := InlineSelector(name, i);
    assert s[5..] == [s[5]] && s[5..][1..] == [];
    assert s[4..][1..] == s[5..];
    assert s[3..][1..] == s[4..];
    assert s[2..][1..] == s[3..];
    assert s[1..][1..] == s[2..];
    var p := Policies(resource)[i];
    assert Read(p, s[5..]) == Some(p.fields["PolicyDocument"]);
    assert Read(properties.fields["Policies"], s[4..]) == Read(p, s[5..]);
    assert Read(properties, s[3..]) == Read(properties.fields["Policies"], s[4..]);
    assert Read(resource, s[2..]) == Read(properties, s[3..]);
    assert Read(Obj(Resources(document)), s[1..]) == Read(resource, s[2..]);
  }

  // ---------------------------------------------------------------- replacing it

  function PutInline(document: map<string, Json>, name: string, i: nat, policy: Json): map<string, Json>
    requires WellShaped(document) && IsInline(document, name, i)
  {
    var resource := Resources(document)[name];
    var properties := resource.fields["Properties"];
    var policies := properties.fields["Policies"].items;
    var entry := Obj(policies[i].fields["PolicyDocument" := policy]);
    document["Resources" := Obj(Resources(document)[name :=
      Obj(resource.fields["Properties" := Obj(properties.fields["Policies" := Arr(policies[i := entry])])])])]
  }

  lemma InlineReplace(document: map<string, Json>, name: string, i: nat, policy: Json)
    requires WellShaped(document) && IsInline(document, name, i)
    ensures ReplacePolicy(Obj(document), InlineSelector(name, i), policy) ==
      Some(Obj(PutInline(document, name, i, policy)))
  {
    var resource := Resources(document)[name];
    var properties := resource.fields["Properties"];
    var policies := properties.fields["Policies"].items;
    var s := InlineSelector(name, i);
    assert s[4..][1..] == s[5..];
    assert s[3..][1..] == s[4..];
    assert s[2..][1..] == s[3..];
    assert s[1..][1..] == s[2..];
    var entry := Obj(policies[i].fields["PolicyDocument" := policy]);
    assert ReplacePolicy(policies[i], s[5..], policy) == Some(entry);
    assert ReplacePolicy(Arr(policies), s[4..], policy) == Some(Arr(policies[i := entry]));
    var inner := Obj(properties.fields["Policies" := Arr(policies[i := entry])]);
    assert ReplacePolicy(properties, s[3..], policy) == Some(inner);
    assert ReplacePolicy(resource, s[2..], policy) == Some(Obj(resource.fields["Properties" := inner]));
    assert ReplacePolicy(document["Resources"], s[1..], policy) ==
           Some(Obj(Resources(document)[name := Obj(resource.fields["Properties" := inner])]));
  }

  lemma PutInlineKeepsInlines(document: map<string, Json>, name: string, i: nat, policy: Json)
    requires WellShaped(document) && IsInline(document, name, i)
    ensures var put := PutInline(document, name, i, policy);
      && WellShaped(put)
      && Policies(Resources(put)[name]) ==
           Policies(Resources(document)[name])[i :=
             Obj(Policies(Resources(document)[name])[i].fields["PolicyDocument" := policy])]
      && forall n, j: nat :: IsInline(put, n, j) <==> IsInline(document, n, j)
  {
    var put := PutInline(document, name, i, policy);
    var was, now := Resources(document)[name], Resources(put)[name];
    var policies := was.fields["Properties"].fields["Policies"].items;
    var entry := Obj(policies[i].fields["PolicyDocument" := policy]);
    assert now.fields["Properties"].fields["Policies"].items == policies[i := entry];
    assert Field(now, "Type") == Field(was, "Type");
    assert Policies(now) == policies[i := entry] && Policies(was) == policies;
    forall p <- policies[i := entry]
      ensures Searchable(p)
    {
      assert p == entry || p in policies;
    }
    forall n | n in Resources(put) && n != name
      ensures Resources(put)[n] == Resources(document)[n]
    {
    }
  }

  /** The put-get law: after the replacement the identity policy is the new one, at the same
      selector.  A document that is itself the policy needs a new policy with statements. */
  lemma PutThenFind(document: map<string, Json>, selector: Selector, was: Json, policy: Json)
    requires IsIdentityPolicy(document, selector, was)
    requires selector == [] ==> policy.Obj? && "Statement" in policy.fields
    ensures var put := ReplacePolicy(Obj(document), selector, policy);
      put.Some? && put.value.Obj? && IsIdentityPolicy(put.value.fields, selector, policy)
  {
    if "Statement" !in document {
      var name, i: nat :| IsOnlyInline(document, name, i) && selector == InlineSelector(name, i)
        && was == Policies(Resources(document)[name])[i].fields["PolicyDocument"];
      InlineReplace(document, name, i, policy);
      PutInlineKeepsInlines(document, name, i, policy);
      var put := PutInline(document, name, i, policy);
      assert IsOnlyInline(put, name, i);
    }
  }

  /** The get-put law: putting the identity policy back changes nothing. */
  lemma FindThenPut(document: map<string, Json>, selector: Selector, policy: Json)
    requires IsIdentityPolicy(document, selector, policy)
    ensures ReplacePolicy(Obj(document), selector, policy) == Some(Obj(document))
  {
    SelectorReads(document, selector, policy);
    PutBackIsIdentity(Obj(document), selector);
  }
}
