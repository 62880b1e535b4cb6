/** Restricting a generated policy to what the replaced one already reaches: covered pairs are
    looked for, but what is kept is every kept action with every kept resource. */
module Scope {
  import opened Json
  import opened Glob
  import opened Iam
  import opened LeastPrivilege

  /** Some statement of the replaced policy covers both the action and the resource. */
  predicate Reached(was: seq<map<string, Json>>, a: string, r: string) {
    exists item <- was :: PairCovered(a, r, Statement(Listed(item, "Action"), Listed(item, "Resource")))
  }

  /** Which pairs are reached. */
  type Reach = (string, string) -> bool

  function Reaches(was: seq<map<string, Json>>): Reach {
    (a: string, r: string) => Reached(was, a, r)
  }

  /** The action is reached with some of the resources. */
  predicate ActionKept(reach: Reach, a: string, resources: seq<string>) {
    exists r <- resources :: reach(a, r)
  }

  predicate ResourceKept(reach: Reach, actions: seq<string>, r: string) {
    exists a <- actions :: reach(a, r)
  }

  function KeptActions(reach: Reach, actions: seq<string>, resources: seq<string>): (kept: seq<string>)
    ensures forall a :: a in kept <==> a in actions && ActionKept(reach, a, resources)
  {
    if actions == [] then []
    else
      var rest := KeptActions(reach, actions[1..], resources);
      if ActionKept(reach, actions[0], resources) then [actions[0]] + rest else rest
  }

  function KeptResources(reach: Reach, actions: seq<string>, resources: seq<string>): (kept: seq<string>)
    ensures forall r :: r in kept <==> r in resources && ResourceKept(reach, actions, r)
  {
    if resources == [] then []
    else
      var rest := KeptResources(reach, actions, resources[1..]);
      if ResourceKept(reach, actions, resources[0]) then [resources[0]] + rest else rest
  }

  predicate ReachesSome(reach: Reach, item: map<string, Json>) {
    exists a <- Listed(item, "Action") :: ActionKept(reach, a, Listed(item, "Resource"))
  }

  lemma SomeAreKept(reach: Reach, item: map<string, Json>)
    requires ReachesSome(reach, item)
    ensures KeptActions(reach, Listed(item, "Action"), Listed(item, "Resource")) != []
    ensures KeptResources(reach, Listed(item, "Action"), Listed(item, "Resource")) != []
  {
    var actions, resources := Listed(item, "Action"), Listed(item, "Resource");
    var a :| a in actions && ActionKept(reach, a, resources);
    var r :| r in resources && reach(a, r);
    assert a in KeptActions(reach, actions, resources) && r in KeptResources(reach, actions, resources);
  }

  function Scoped(reach: Reach, item: map<string, Json>): map<string, Json>
    requires ReachesSome(reach, item)
  {
    var actions, resources := Listed(item, "Action"), Listed(item, "Resource");
    SomeAreKept(reach, item);
    var kept, left := KeptActions(reach, actions, resources), KeptResources(reach, actions, resources);
    item["Action" := Pack(kept)]["Resource" := Pack(left)]
  }

  function ScopedAll(reach: Reach, items: seq<map<string, Json>>): seq<map<string, Json>> {
    if items == [] then []
    else
      var last := items[|items| - 1];
      ScopedAll(reach, items[..|items| - 1]) + if ReachesSome(reach, last) then [Scoped(reach, last)] else []
  }

  /** The actions some generated statement lists without any reached resource beside them. */
  function OutsideOf(reach: Reach, items: seq<map<string, Json>>): set<string> {
    set item <- items, a <- Listed(item, "Action") |
      a !in KeptActions(reach, Listed(item, "Action"), Listed(item, "Resource")) :: a
  }

  predicate ReadableWhenUsed(items: seq<map<string, Json>>) {
    forall item <- items ::
      && ValueList(Get(item, "Action")).Some?
      && (Listed(item, "Action") != [] ==> ValueList(Get(item, "Resource")).Some?)
  }

  function Objs(items: seq<map<string, Json>>): (r: seq<Json>)
    ensures |r| == |items| && forall i | 0 <= i < |items| :: r[i] == Obj(items[i])
  {
    if items == [] then [] else Objs(items[..|items| - 1]) + [Obj(items[|items| - 1])]
  }

  function VersionOrDefault(policy: Json): Json
    requires policy.Obj?
  {
    var version := Get(policy.fields, "Version");
    if Falsy(version) || version == Str("") then VERSION else version
  }

  function ScopedPolicy(generated: Json, kept: seq<map<string, Json>>): Json
    requires generated.Obj?
  {
    Obj(map["Version" := VersionOrDefault(generated), "Statement" := Arr(Objs(kept))])
  }

  /** The scoped policy and the actions outside. */
  function ScopeSpec(before: Json, generated: Json): Result<(Json, set<string>), Failure> {
    if Items(before).None? || !ReadableWhenUsed(Items(before).value) || Items(generated).None?
      || !Readable(Items(generated).value)
    then Err(Exception)
    else
      var was, items := Items(before).value, Items(generated).value;
      if ScopedAll(Reaches(was), items) == [] then Err(ValueError("generated_policy_outside_target_scope"))
      else Ok((ScopedPolicy(generated, ScopedAll(Reaches(was), items)), OutsideOf(Reaches(was), items)))
  }

  method ScopeToTarget(before: Json, generated: Json) returns (r: Result<(Json, set<string>), Failure>)
    ensures r == ScopeSpec(before, generated)
  {
    if Items(before).None? || !ReadableWhenUsed(Items(before).value) || Items(generated).None? {
      return Err(Exception);
    }
    var was, items := Items(before).value, Items(generated).value;
    var kept: seq<map<string, Json>> := [];
    var outside: set<string> := {};
    for n := 0 to |items|
      invariant Readable(items[..n])
      invariant kept == ScopedAll(Reaches(was), items[..n]) && outside == OutsideOf(Reaches(was), items[..n])
    {
      var item := items[n];
      assert items[..n + 1] == items[..n] + [item];
      OneMoreIsReadable(items, n);
      if ValueList(Get(item, "Action")).None? || ValueList(Get(item, "Resource")).None? {
        return Err(Exception);
      }
      OutsideOneMore(Reaches(was), items[..n], item);
      ScopedOneMore(Reaches(was), items[..n], item);
      var actions, resources := Listed(item, "Action"), Listed(item, "Resource");
      outside := outside + set a <- actions | a !in KeptActions(Reaches(was), actions, resources) :: a;
      if ReachesSome(Reaches(was), item) {
        kept := kept + [Scoped(Reaches(was), item)];
      }
    }
    assert items[..|items|] == items;
    if kept == [] {
      return Err(ValueError("generated_policy_outside_target_scope"));
    }
    r := Ok((ScopedPolicy(generated, kept), outside));
  }

  lemma OneMoreIsReadable(items: seq<map<string, Json>>, n: nat)
    requires n < |items|
    ensures var readable := ValueList(Get(items[n], "Action")).Some? && ValueList(Get(items[n], "Resource")).Some?;
      (readable && Readable(items[..n]) ==> Readable(items[..n + 1])) && (!readable ==> !Readable(items))
  {
    assert items[n] in items;
    assert items[..n + 1] == items[..n] + [items[n]];
  }

  lemma ScopedOneMore(reach: Reach, items: seq<map<string, Json>>, item: map<string, Json>)
    ensures ScopedAll(reach, items + [item]) ==
      ScopedAll(reach, items) + if ReachesSome(reach, item) then [Scoped(reach, item)] else []
  {
    var all := items + [item];
    assert all[|all| - 1] == item && all[..|all| - 1] == items;
  }

  lemma OutsideOneMore(reach: Reach, items: seq<map<string, Json>>, item: map<string, Json>)
    ensures OutsideOf(reach, items + [item]) ==
      OutsideOf(reach, items)
      + set a <- Listed(item, "Action") |
          a !in KeptActions(reach, Listed(item, "Action"), Listed(item, "Resource")) :: a
  {
    assert forall i :: i in items + [item] <==> i in items || i == item;
  }

  // ---------------------------------------------------------------- what is kept

  lemma PackedLists(item: map<string, Json>, actions: seq<string>, resources: seq<string>)
    requires actions != [] && resources != []
    ensures var x := item["Action" := Pack(actions)]["Resource" := Pack(resources)];
      Listed(x, "Action") == actions && Listed(x, "Resource") == resources
  {
    var x := item["Action" := Pack(actions)]["Resource" := Pack(resources)];
    assert Get(x, "Action") == Pack(actions) && Get(x, "Resource") == Pack(resources);
    PackIsListed(actions);
    PackIsListed(resources);
  }

  lemma ScopedLists(reach: Reach, item: map<string, Json>)
    requires ReachesSome(reach, item)
    ensures Listed(Scoped(reach, item), "Action") ==
      KeptActions(reach, Listed(item, "Action"), Listed(item, "Resource"))
    ensures Listed(Scoped(reach, item), "Resource") ==
      KeptResources(reach, Listed(item, "Action"), Listed(item, "Resource"))
  {
    SomeAreKept(reach, item);
    PackedLists(item, KeptActions(reach, Listed(item, "Action"), Listed(item, "Resource")),
                KeptResources(reach, Listed(item, "Action"), Listed(item, "Resource")));
  }

  lemma {:induction false} ScopedAreScoped(reach: Reach, items: seq<map<string, Json>>)
    ensures forall x :: x in ScopedAll(reach, items) <==>
      exists item <- items :: ReachesSome(reach, item) && x == Scoped(reach, item)
  {
    if items != [] {
      ScopedAreScoped(reach, items[..|items| - 1]);
      assert items == items[..|items| - 1] + [items[|items| - 1]];
    }
  }

  predicate Carries(item: map<string, Json>, a: string, r: string) {
    a in Listed(item, "Action") && r in Listed(item, "Resource")
  }

  /** No reached pair of the generated policy is lost. */
  lemma ScopeKeepsReachedPairs(reach: Reach, items: seq<map<string, Json>>, item: map<string, Json>, a: string,
                               r: string)
    requires item in items && Carries(item, a, r) && reach(a, r)
    ensures exists x <- ScopedAll(reach, items) :: Carries(x, a, r)
  {
    ScopedAreScoped(reach, items);
    assert ReachesSome(reach, item);
    ScopedLists(reach, item);
    assert Scoped(reach, item) in ScopedAll(reach, items);
  }

  /** Nothing is kept without a partner in its statement that makes the pair reached. */
  lemma KeptHavePartners(reach: Reach, items: seq<map<string, Json>>, x: map<string, Json>)
    requires x in ScopedAll(reach, items)
    ensures forall a <- Listed(x, "Action") :: exists r <- Listed(x, "Resource") :: reach(a, r)
    ensures forall r <- Listed(x, "Resource") :: exists a <- Listed(x, "Action") :: reach(a, r)
  {
    ScopedAreScoped(reach, items);
    var item :| item in items && ReachesSome(reach, item) && x == Scoped(reach, item);
    PartnersAreKept(reach, item);
  }

  lemma PartnersAreKept(reach: Reach, item: map<string, Json>)
    requires ReachesSome(reach, item)
    ensures var x := Scoped(reach, item);
      && (forall a <- Listed(x, "Action") :: exists r <- Listed(x, "Resource") :: reach(a, r))
      && (forall r <- Listed(x, "Resource") :: exists a <- Listed(x, "Action") :: reach(a, r))
  {
    ScopedLists(reach, item);
    var x, actions, resources := Scoped(reach, item), Listed(item, "Action"), Listed(item, "Resource");
    forall a <- Listed(x, "Action")
      ensures exists r <- Listed(x, "Resource") :: reach(a, r)
    {
      var r :| r in resources && reach(a, r);
      assert r in KeptResources(reach, actions, resources);
    }
    forall r <- Listed(x, "Resource")
      ensures exists a <- Listed(x, "Action") :: reach(a, r)
    {
      var a :| a in actions && reach(a, r);
      assert a in KeptActions(reach, actions, resources);
    }
  }

  // ---------------------------------------------------------------- when the scoped policy is contained

  /** A resource AWS could not name stands for every resource. */
  function Wide(r: string): string {
    if HasPlaceholder(r) then PLACEHOLDER_STAR else r
  }

  function Seen(r: string, wide: bool): string {
    if wide then Wide(r) else r
  }

  /** On the generated statement: an action and a resource that are both kept, each for a partner of
      its own, are reached together too.  With `wide` the resource has the scope the gate gives to
      placeholders. */
  predicate Rectangular(reach: Reach, item: map<string, Json>, wide: bool) {
    Rectangle(reach, Listed(item, "Action"), Listed(item, "Resource"), wide)
  }

  predicate Rectangle(reach: Reach, actions: seq<string>, resources: seq<string>, wide: bool) {
    forall a <- actions, r <- resources ::
      ActionKept(reach, a, resources) && ResourceKept(reach, actions, r) ==> reach(a, Seen(r, wide))
  }

  /** Every action of a statement is reached with every resource. */
  predicate AllReachedAs(reach: Reach, x: map<string, Json>, wide: bool) {
    Product(reach, Listed(x, "Action"), Listed(x, "Resource"), wide)
  }

  predicate Product(reach: Reach, actions: seq<string>, resources: seq<string>, wide: bool) {
    forall a <- actions, r <- resources :: reach(a, Seen(r, wide))
  }

  lemma ScopedReachedIff(reach: Reach, item: map<string, Json>, wide: bool)
    requires ReachesSome(reach, item)
    ensures AllReachedAs(reach, Scoped(reach, item), wide) <==> Rectangular(reach, item, wide)
  {
    ScopedLists(reach, item);
    KeptProductIff(reach, Listed(item, "Action"), Listed(item, "Resource"), wide);
  }

  lemma KeptProductIff(reach: Reach, actions: seq<string>, resources: seq<string>, wide: bool)
    ensures Product(reach, KeptActions(reach, actions, resources), KeptResources(reach, actions, resources), wide) <==>
      Rectangle(reach, actions, resources, wide)
  {
    var kept, left := KeptActions(reach, actions, resources), KeptResources(reach, actions, resources);
    if Product(reach, kept, left, wide) {
      forall a <- actions, r <- resources | ActionKept(reach, a, resources) && ResourceKept(reach, actions, r)
        ensures reach(a, Seen(r, wide))
      {
        assert a in kept && r in left;
      }
    }
    if Rectangle(reach, actions, resources, wide) {
      forall a <- kept, r <- left
        ensures reach(a, Seen(r, wide))
      {
        assert ActionKept(reach, a, resources) && ResourceKept(reach, actions, r);
      }
    }
  }

  lemma UnreachedIsRectangular(reach: Reach, item: map<string, Json>, wide: bool)
    requires !ReachesSome(reach, item)
    ensures Rectangular(reach, item, wide)
  {
  }

  predicate EachReached(reach: Reach, xs: seq<map<string, Json>>, wide: bool) {
    forall x <- xs :: AllReachedAs(reach, x, wide)
  }

  predicate EachRectangular(reach: Reach, items: seq<map<string, Json>>, wide: bool) {
    forall item <- items :: Rectangular(reach, item, wide)
  }

  lemma OneMoreReached(reach: Reach, xs: seq<map<string, Json>>, x: map<string, Json>, wide: bool)
    ensures EachReached(reach, xs + [x], wide) <==> EachReached(reach, xs, wide) && AllReachedAs(reach, x, wide)
  {
    assert forall y :: y in xs + [x] <==> y in xs || y == x;
  }

  lemma OneMoreRectangular(reach: Reach, items: seq<map<string, Json>>, item: map<string, Json>, wide: bool)
    ensures EachRectangular(reach, items + [item], wide) <==>
      EachRectangular(reach, items, wide) && Rectangular(reach, item, wide)
  {
    assert forall y :: y in items + [item] <==> y in items || y == item;
  }

  lemma {:induction false} ScopedAllReachedIff(reach: Reach, items: seq<map<string, Json>>, wide: bool)
    ensures EachReached(reach, ScopedAll(reach, items), wide) <==> EachRectangular(reach, items, wide)
  {
    if items != [] {
      var before, last := items[..|items| - 1], items[|items| - 1];
      ScopedAllReachedIff(reach, before, wide);
      OneMoreRectangular(reach, before, last, wide);
      ScopedOneMore(reach, before, last);
      assert items == before + [last];
      if ReachesSome(reach, last) {
        ScopedReachedIff(reach, last, wide);
        OneMoreReached(reach, ScopedAll(reach, before), Scoped(reach, last), wide);
      } else {
        UnreachedIsRectangular(reach, last, wide);
      }
    }
  }

  // ---------------------------------------------------------------- the scoped policy is an accepted one

  lemma PackedIsAccepted(item: map<string, Json>, actions: seq<string>, resources: seq<string>)
    requires item.Keys <= STATEMENT_KEYS && Get(item, "Effect") == Str("Allow")
    requires actions != [] && resources != [] && (forall a <- actions :: a != "") && (forall r <- resources :: r != "")
    ensures OneStatement(Obj(item["Action" := Pack(actions)]["Resource" := Pack(resources)])).Ok?
  {
    var x := item["Action" := Pack(actions)]["Resource" := Pack(resources)];
    PackIsListed(actions);
    PackIsListed(resources);
    assert Get(x, "Action") == Pack(actions) && Get(x, "Resource") == Pack(resources)
      && Get(x, "Effect") == Get(item, "Effect");
    assert x.Keys <= STATEMENT_KEYS;
  }

  lemma ListedAreFull(item: map<string, Json>, key: string)
    requires Values(Get(item, key)).Ok?
    ensures forall v <- Listed(item, key) :: v != ""
  {
    ValuesAreListed(Get(item, key));
    ValuesAreFull(Get(item, key));
  }

  lemma ScopedIsAccepted(reach: Reach, item: map<string, Json>)
    requires OneStatement(Obj(item)).Ok? && ReachesSome(reach, item)
    ensures OneStatement(Obj(Scoped(reach, item))).Ok?
  {
    SomeAreKept(reach, item);
    ListedAreFull(item, "Action");
    ListedAreFull(item, "Resource");
    var actions, resources := Listed(item, "Action"), Listed(item, "Resource");
    PackedIsAccepted(item, KeptActions(reach, actions, resources), KeptResources(reach, actions, resources));
  }

  lemma ValuesAreFull(value: Json)
    requires Values(value).Ok?
    ensures forall v <- Values(value).value :: v != ""
  {
    if value.Arr? {
      forall v <- Values(value).value
        ensures v != ""
      {
        var i :| 0 <= i < |value.items| && Strings(value.items)[i] == v;
        assert value.items[i] in value.items;
      }
    }
  }

  lemma {:induction false} ScopedLength(reach: Reach, items: seq<map<string, Json>>)
    ensures |ScopedAll(reach, items)| <= |items|
  {
    if items != [] {
      ScopedLength(reach, items[..|items| - 1]);
    }
  }

  lemma ObjsAreObjects(items: seq<map<string, Json>>)
    ensures Objects(Objs(items)) == Some(items)
  {
    assert Objects(Objs(items)).Some?;
    SameFields(Objs(items), Objects(Objs(items)).value, items);
  }

  lemma SameFields(all: seq<Json>, x: seq<map<string, Json>>, y: seq<map<string, Json>>)
    requires |all| == |x| == |y| && forall i | 0 <= i < |all| :: all[i] == Obj(x[i]) && all[i] == Obj(y[i])
    ensures x == y
  {
    forall i | 0 <= i < |x|
      ensures x[i] == y[i]
    {
      assert Obj(x[i]) == all[i] == Obj(y[i]);
    }
  }

  lemma {:induction false} AllScopedAreAccepted(reach: Reach, items: seq<map<string, Json>>)
    requires forall item <- items :: OneStatement(Obj(item)).Ok?
    ensures forall x <- ScopedAll(reach, items) :: OneStatement(Obj(x)).Ok?
  {
    if items != [] {
      var before, last := items[..|items| - 1], items[|items| - 1];
      assert last in items && forall item <- before :: item in items;
      AllScopedAreAccepted(reach, before);
      if ReachesSome(reach, last) {
        ScopedIsAccepted(reach, last);
      }
    }
  }

  lemma ScopedPolicyIsAccepted(reach: Reach, generated: Json)
    requires Statements(generated).Ok? && Items(generated).Some?
    requires ScopedAll(reach, Items(generated).value) != []
    ensures var kept := ScopedAll(reach, Items(generated).value); var scoped := ScopedPolicy(generated, kept);
      && Statements(scoped).Ok? && Items(scoped) == Some(kept) && CanRead(scoped)
  {
    AcceptedIsReadable(generated);
    AcceptedHasFew(generated);
    var items := Items(generated).value;
    var kept := ScopedAll(reach, items);
    forall item <- items
      ensures OneStatement(Obj(item)).Ok?
    {
      var i :| 0 <= i < |items| && items[i] == item;
    }
    ScopedLength(reach, items);
    AllScopedAreAccepted(reach, items);
    ListIsAccepted(VersionOrDefault(generated), kept);
  }

  /** Accepted statements in a list are an accepted policy. */
  lemma ListIsAccepted(version: Json, items: seq<map<string, Json>>)
    requires version == VERSION && 1 <= |items| <= 100 && forall item <- items :: OneStatement(Obj(item)).Ok?
    ensures var policy := Obj(map["Version" := version, "Statement" := Arr(Objs(items))]);
      Statements(policy).Ok? && Items(policy) == Some(items) && CanRead(policy)
  {
    var policy := Obj(map["Version" := version, "Statement" := Arr(Objs(items))]);
    ObjsAreObjects(items);
    forall j | 0 <= j < |items|
      ensures OneStatement(Objs(items)[j]).Ok?
    {
      assert items[j] in items;
    }
    AcceptedWhole(policy, Objs(items));
    AcceptedIsReadable(policy);
  }

  // ---------------------------------------------------------------- the scoped policy at the gate

  lemma SafeIffReached(before: Json, candidate: Json)
    requires Statements(before).Ok? && Items(before).Some? && Statements(candidate).Ok? && Items(candidate).Some?
    ensures CheckNoExpansion(before, candidate).Safe? <==>
      EachReached(Reaches(Items(before).value), Items(candidate).value, false)
  {
    AcceptedIsReadable(before);
    AcceptedIsReadable(candidate);
    CoveredIffReached(Items(before).value, Statements(before).value, Items(candidate).value,
      Statements(candidate).value);
  }

  /** The result of scoping is contained in the replaced policy, by the subset check, exactly when
      every generated statement is rectangular; otherwise it is an expansion. */
  lemma ScopedIsSafeIff(before: Json, generated: Json, scoped: Json, outside: set<string>)
    requires Statements(before).Ok? && Statements(generated).Ok?
    requires ScopeSpec(before, generated) == Ok((scoped, outside))
    ensures CheckNoExpansion(before, scoped).Safe? <==>
      EachRectangular(Reaches(Items(before).value), Items(generated).value, false)
    ensures !CheckNoExpansion(before, scoped).Inconclusive?
  {
    var was, items := Items(before).value, Items(generated).value;
    ScopedPolicyIsAccepted(Reaches(was), generated);
    SafeIffReached(before, scoped);
    ScopedAllReachedIff(Reaches(was), items, false);
  }

  /** The policy whose containment the gate proves. */
  lemma ProofCopyIsAccepted(candidate: Json)
    requires Statements(candidate).Ok? && Items(candidate).Some? && Placeholders(Items(candidate).value)
    ensures Statements(ProofCopy(candidate, Items(candidate).value)).Ok?
  {
    var now := Items(candidate).value;
    AcceptedHasFew(candidate);
    WidenedAreAccepted(candidate);
    OtherStatements(candidate.fields, WidenedItems(now));
  }

  lemma WidenedAreAccepted(candidate: Json)
    requires Statements(candidate).Ok? && Items(candidate).Some?
    ensures 1 <= |Items(candidate).value|
    ensures forall x <- WidenedItems(Items(candidate).value) :: OneStatement(x).Ok?
  {
    AcceptedIsReadable(candidate);
    var now := Items(candidate).value;
    forall x <- WidenedItems(now)
      ensures OneStatement(x).Ok?
    {
      var i :| 0 <= i < |now| && WidenedItems(now)[i] == x;
      assert OneStatement(Obj(now[i])).Ok?;
      WidenedIsAccepted(now[i]);
    }
  }

  lemma OtherStatements(fields: map<string, Json>, items: seq<Json>)
    requires Statements(Obj(fields)).Ok?
    requires 1 <= |items| <= 100 && forall x <- items :: OneStatement(x).Ok?
    ensures Statements(Obj(fields["Statement" := Arr(items)])).Ok?
  {
    var copy := fields["Statement" := Arr(items)];
    assert Get(copy, "Statement") == Arr(items) && Get(copy, "Version") == Get(fields, "Version");
    assert forall i | 0 <= i < |items| :: items[i] in items;
    assert AllStatements(items).Ok?;
  }

  lemma WidenedIsAccepted(item: map<string, Json>)
    requires OneStatement(Obj(item)).Ok?
    ensures OneStatement(Obj(item["Resource" := Arr(Widened(Listed(item, "Resource")))])).Ok?
  {
    var resources := Listed(item, "Resource");
    ValuesAreListed(Get(item, "Resource"));
    ValuesAreFull(Get(item, "Resource"));
    forall w <- Widened(resources)
      ensures w.Str? && w.s != ""
    {
      var i :| 0 <= i < |resources| && Widened(resources)[i] == w;
      assert resources[i] in resources;
    }
    var x := item["Resource" := Arr(Widened(resources))];
    assert Get(x, "Action") == Get(item, "Action") && Get(x, "Effect") == Get(item, "Effect");
  }

  lemma WidenedLists(item: map<string, Json>)
    ensures var resources := Listed(item, "Resource"); var x := item["Resource" := Arr(Widened(resources))];
      && Listed(x, "Action") == Listed(item, "Action")
      && |Listed(x, "Resource")| == |resources|
      && forall i | 0 <= i < |resources| :: Listed(x, "Resource")[i] == Wide(resources[i])
  {
    var resources := Listed(item, "Resource");
    var x := item["Resource" := Arr(Widened(resources))];
    assert Get(x, "Action") == Get(item, "Action");
    StringsOnly(Widened(resources));
  }

  lemma {:induction false} StringsOnly(items: seq<Json>)
    requires forall item <- items :: item.Str?
    ensures |OnlyStrings(items)| == |items| && forall i | 0 <= i < |items| :: items[i] == Str(OnlyStrings(items)[i])
  {
    if items != [] {
      assert items[0] in items && forall item <- items[1..] :: item in items;
      StringsOnly(items[1..]);
    }
  }

  lemma WidenedReached(reach: Reach, item: map<string, Json>)
    ensures AllReachedAs(reach, item["Resource" := Arr(Widened(Listed(item, "Resource")))], false) <==>
      AllReachedAs(reach, item, true)
  {
    WidenedLists(item);
    var resources := Listed(item, "Resource");
    WidenedProduct(reach, Listed(item, "Action"), resources,
      Listed(item["Resource" := Arr(Widened(resources))], "Resource"));
  }

  lemma WidenedProduct(reach: Reach, actions: seq<string>, resources: seq<string>, wide: seq<string>)
    requires |wide| == |resources| && forall i | 0 <= i < |resources| :: wide[i] == Wide(resources[i])
    ensures Product(reach, actions, wide, false) <==> Product(reach, actions, resources, true)
  {
    if Product(reach, actions, wide, false) {
      forall a <- actions, r <- resources
        ensures reach(a, Seen(r, true))
      {
        var i :| 0 <= i < |resources| && resources[i] == r;
        assert wide[i] in wide && reach(a, Seen(wide[i], false));
      }
    }
    if Product(reach, actions, resources, true) {
      forall a <- actions, w <- wide
        ensures reach(a, Seen(w, false))
      {
        var i :| 0 <= i < |wide| && wide[i] == w;
        assert resources[i] in resources && reach(a, Seen(resources[i], true));
      }
    }
  }

  /** What the gate's own subset check decides, for any accepted candidate. */
  lemma ProofIsSafeIff(before: Json, candidate: Json)
    requires Statements(before).Ok? && Items(before).Some? && Statements(candidate).Ok? && Items(candidate).Some?
    ensures var check := CheckNoExpansion(before, ProofCopy(candidate, Items(candidate).value));
      && (check.Safe? <==> EachReached(Reaches(Items(before).value), Items(candidate).value, true))
      && !check.Inconclusive?
  {
    var was, now := Items(before).value, Items(candidate).value;
    var copy := ProofCopy(candidate, now);
    if Placeholders(now) {
      ProofCopyIsAccepted(candidate);
      ProofCopyItems(candidate);
      SafeIffReached(before, copy);
      SameItems(Reaches(was), now, Items(copy).value);
    } else {
      SafeIffReached(before, candidate);
      forall x <- now
        ensures AllReachedAs(Reaches(was), x, false) <==> AllReachedAs(Reaches(was), x, true)
      {
        PlainIsSeen(Reaches(was), x);
      }
    }
  }

  lemma PlainIsSeen(reach: Reach, x: map<string, Json>)
    requires forall r <- Listed(x, "Resource") :: !HasPlaceholder(r)
    ensures AllReachedAs(reach, x, false) <==> AllReachedAs(reach, x, true)
  {
    assert forall r <- Listed(x, "Resource") :: Seen(r, true) == Seen(r, false);
  }

  lemma SameItems(reach: Reach, now: seq<map<string, Json>>, copy: seq<map<string, Json>>)
    requires |copy| == |now|
    requires forall i | 0 <= i < |now| :: copy[i] == now[i]["Resource" := Arr(Widened(Listed(now[i], "Resource")))]
    ensures EachReached(reach, copy, false) <==> EachReached(reach, now, true)
  {
    forall i | 0 <= i < |now|
      ensures AllReachedAs(reach, copy[i], false) <==> AllReachedAs(reach, now[i], true)
    {
      WidenedReached(reach, now[i]);
    }
    if EachReached(reach, copy, false) {
      forall x <- now
        ensures AllReachedAs(reach, x, true)
      {
        var i :| 0 <= i < |now| && now[i] == x;
        assert copy[i] in copy;
      }
    }
    if EachReached(reach, now, true) {
      forall x <- copy
        ensures AllReachedAs(reach, x, false)
      {
        var i :| 0 <= i < |copy| && copy[i] == x;
        assert now[i] in now;
      }
    }
  }

  /** End to end: the gate refuses the result of scoping as an expansion, by its own proof, exactly
      when some generated statement is not rectangular.  Then nothing AWS answers helps. */
  lemma ScopedExpandsIff(before: Json, generated: Json, scoped: Json, outside: set<string>, aws: Opinion)
    requires Statements(before).Ok? && Statements(generated).Ok?
    requires ScopeSpec(before, generated) == Ok((scoped, outside))
    ensures var answer := EvaluateNarrowing(before, scoped, aws);
      && answer.Some?
      && (ExpandsByProof(answer.value) <==>
           !EachRectangular(Reaches(Items(before).value), Items(generated).value, true))
  {
    var was, items := Items(before).value, Items(generated).value;
    AcceptedIsReadable(before);
    ScopedPolicyIsAccepted(Reaches(was), generated);
    ProofIsSafeIff(before, scoped);
    ScopedAllReachedIff(Reaches(was), items, true);
    JudgedByProof(before, scoped, aws);
  }

  predicate ExpandsByProof(n: Narrowing) {
    n.verdict.Expands? && n.reason == "candidate_expands_access"
  }

  lemma JudgedByProof(before: Json, candidate: Json, aws: Opinion)
    requires CanRead(before) && CanRead(candidate)
    ensures var answer := EvaluateNarrowing(before, candidate, aws);
      answer.Some? && (ExpandsByProof(answer.value) <==>
        CheckNoExpansion(before, ProofCopy(candidate, Items(candidate).value)).Expansion?)
  {
  }

  ghost predicate Reads(items: seq<map<string, Json>>, statements: seq<Statement>) {
    && |items| == |statements|
    && forall i | 0 <= i < |items| ::
         statements[i] == Statement(Listed(items[i], "Action"), Listed(items[i], "Resource"))
  }

  lemma CoveredIffReached(items: seq<map<string, Json>>, was: seq<Statement>, objects: seq<map<string, Json>>,
                          now: seq<Statement>)
    requires Reads(items, was) && Reads(objects, now)
    ensures AllCovered(was, now) <==> EachReached(Reaches(items), objects, false)
  {
    forall i | 0 <= i < |now|
      ensures AllCovered(was, [now[i]]) <==> AllReachedAs(Reaches(items), objects[i], false)
    {
      OneCoveredIffReached(items, was, objects[i], now[i]);
    }
    if AllCovered(was, now) {
      forall x <- objects
        ensures AllReachedAs(Reaches(items), x, false)
      {
        var i :| 0 <= i < |objects| && objects[i] == x;
        assert now[i] in now;
      }
    }
    if EachReached(Reaches(items), objects, false) {
      forall s <- now
        ensures AllCovered(was, [s])
      {
        var i :| 0 <= i < |now| && now[i] == s;
        assert objects[i] in objects;
      }
      assert forall s <- now :: s in [s];
    }
  }

  lemma OneCoveredIffReached(items: seq<map<string, Json>>, was: seq<Statement>, x: map<string, Json>, s: Statement)
    requires Reads(items, was) && s == Statement(Listed(x, "Action"), Listed(x, "Resource"))
    ensures AllCovered(was, [s]) <==> AllReachedAs(Reaches(items), x, false)
  {
    forall a, r
      ensures (exists existing <- was :: PairCovered(a, r, existing)) <==> Reaches(items)(a, r)
    {
      SameCover(items, was, a, r);
    }
    assert s in [s];
  }

  lemma SameCover(items: seq<map<string, Json>>, was: seq<Statement>, a: string, r: string)
    requires Reads(items, was)
    ensures (exists existing <- was :: PairCovered(a, r, existing)) <==> Reaches(items)(a, r)
  {
    if existing :| existing in was && PairCovered(a, r, existing) {
      var i :| 0 <= i < |was| && was[i] == existing;
      assert items[i] in items;
    }
    if Reaches(items)(a, r) {
      var item :| item in items && PairCovered(a, r, Statement(Listed(item, "Action"), Listed(item, "Resource")));
      var i :| 0 <= i < |items| && items[i] == item;
      assert was[i] in was;
    }
  }

  // ---------------------------------------------------------------- where the product reaches more

  function Granting(actions: seq<string>, resources: seq<string>): map<string, Json>
    requires actions != [] && resources != []
  {
    map["Effect" := Str("Allow")]["Action" := Pack(actions)]["Resource" := Pack(resources)]
  }

  function Policy(items: seq<map<string, Json>>): Json {
    Obj(map["Version" := VERSION, "Statement" := Arr(Objs(items))])
  }

  lemma GrantingIsAccepted(actions: seq<string>, resources: seq<string>)
    requires actions != [] && resources != [] && (forall a <- actions :: a != "") && (forall r <- resources :: r != "")
    ensures OneStatement(Obj(Granting(actions, resources))).Ok?
    ensures Listed(Granting(actions, resources), "Action") == actions
      && Listed(Granting(actions, resources), "Resource") == resources
  {
    PackedLists(map["Effect" := Str("Allow")], actions, resources);
    PackedIsAccepted(map["Effect" := Str("Allow")], actions, resources);
  }

  lemma OnePairCovered(a: string, x: string, p: string, q: string)
    ensures PairCovered(p, q, Statement([a], [x])) <==> Covered(p, a, true) && Covered(q, x, false)
  {
    assert a in [a] && x in [x];
  }

  lemma TwoReached(was: seq<map<string, Json>>, a: string, b: string, x: string, y: string)
    requires was == [Granting([a], [x]), Granting([b], [y])]
    ensures Reached(was, a, x) && Reached(was, b, y)
    ensures forall r :: Reached(was, a, r) <==> Covered(r, x, false) || (Covered(a, b, true) && Covered(r, y, false))
  {
    PackedLists(map["Effect" := Str("Allow")], [a], [x]);
    PackedLists(map["Effect" := Str("Allow")], [b], [y]);
    assert was[0] in was && was[1] in was;
    forall p, q
      ensures PairCovered(p, q, Statement([a], [x])) <==> Covered(p, a, true) && Covered(q, x, false)
      ensures PairCovered(p, q, Statement([b], [y])) <==> Covered(p, b, true) && Covered(q, y, false)
    {
      OnePairCovered(a, x, p, q);
      OnePairCovered(b, y, p, q);
    }
  }

  /** Where two statements grant one pair each and a generated statement lists all four values, the
      crossed pair is kept although it was never reached, and the gate refuses the result. */
  lemma ProductMayReachMore(a: string, b: string, x: string, y: string, aws: Opinion) returns (scoped: Json)
    requires a != "" && b != "" && x != "" && y != ""
    requires !Covered(a, b, true) && !Covered(y, x, false)
    ensures var was, item := [Granting([a], [x]), Granting([b], [y])], Granting([a, b], [x, y]);
      && !Reached(was, a, y) && ReachesSome(Reaches(was), item)
      && ScopeSpec(Policy(was), Policy([item])) == Ok((scoped, {}))
      && Items(scoped) == Some([Scoped(Reaches(was), item)]) && Carries(Scoped(Reaches(was), item), a, y)
      && CheckNoExpansion(Policy(was), scoped).Expansion?
      && EvaluateNarrowing(Policy(was), scoped, aws).Some?
      && ExpandsByProof(EvaluateNarrowing(Policy(was), scoped, aws).value)
  {
    var was, item := [Granting([a], [x]), Granting([b], [y])], Granting([a, b], [x, y]);
    GrantingIsAccepted([a], [x]);
    GrantingIsAccepted([b], [y]);
    GrantingIsAccepted([a, b], [x, y]);
    ListIsAccepted(VERSION, was);
    ListIsAccepted(VERSION, [item]);
    CrossedPair(was, item, a, b, x, y);
    NothingIsOutside(was, item, a, b, x, y);
    scoped := OneItemScoped(was, item);
    assert item in [item];
    ScopedIsSafeIff(Policy(was), Policy([item]), scoped, {});
    ScopedExpandsIff(Policy(was), Policy([item]), scoped, {}, aws);
  }

  lemma OneItemScoped(was: seq<map<string, Json>>, item: map<string, Json>) returns (scoped: Json)
    requires Items(Policy(was)) == Some(was) && CanRead(Policy(was))
    requires Statements(Policy([item])).Ok? && Items(Policy([item])) == Some([item]) && CanRead(Policy([item]))
    requires ReachesSome(Reaches(was), item) && OutsideOf(Reaches(was), [item]) == {}
    ensures ScopeSpec(Policy(was), Policy([item])) == Ok((scoped, {}))
    ensures Items(scoped) == Some([Scoped(Reaches(was), item)])
  {
    OnlyItemIsScoped(Reaches(was), item);
    ReadableIsReadable(was);
    scoped := ScopedPolicy(Policy([item]), [Scoped(Reaches(was), item)]);
    ScopedPolicyIsAccepted(Reaches(was), Policy([item]));
  }

  lemma ReadableIsReadable(items: seq<map<string, Json>>)
    ensures Readable(items) ==> ReadableWhenUsed(items)
  {
  }

  lemma CrossedPair(was: seq<map<string, Json>>, item: map<string, Json>, a: string, b: string, x: string, y: string)
    requires was == [Granting([a], [x]), Granting([b], [y])]
    requires Listed(item, "Action") == [a, b] && Listed(item, "Resource") == [x, y]
    requires !Covered(a, b, true) && !Covered(y, x, false)
    ensures ReachesSome(Reaches(was), item) && Carries(Scoped(Reaches(was), item), a, y)
    ensures !Reached(was, a, y) && !Rectangular(Reaches(was), item, false) && !Rectangular(Reaches(was), item, true)
  {
    TwoReached(was, a, b, x, y);
    StarIsCoveredByStar(x);
    assert !Reached(was, a, y) && !Reached(was, a, Wide(y));
    CrossedReach(Reaches(was), item, a, b, x, y);
  }

  lemma CrossedReach(reach: Reach, item: map<string, Json>, a: string, b: string, x: string, y: string)
    requires Listed(item, "Action") == [a, b] && Listed(item, "Resource") == [x, y]
    requires reach(a, x) && reach(b, y) && !reach(a, y) && !reach(a, Wide(y))
    ensures ReachesSome(reach, item) && Carries(Scoped(reach, item), a, y)
    ensures !Rectangular(reach, item, false) && !Rectangular(reach, item, true)
  {
    var actions, resources := [a, b], [x, y];
    assert a in actions && b in actions && x in resources && y in resources;
    assert ActionKept(reach, a, resources) && ResourceKept(reach, actions, y);
    assert ReachesSome(reach, item);
    ScopedLists(reach, item);
    assert y in KeptResources(reach, actions, resources) && a in KeptActions(reach, actions, resources);
    assert !reach(a, Seen(y, false)) && !reach(a, Seen(y, true));
  }

  /** Only `*` covers `*`. */
  lemma StarIsCoveredByStar(x: string)
    ensures Covered(PLACEHOLDER_STAR, x, false) <==> x == PLACEHOLDER_STAR
    ensures x == PLACEHOLDER_STAR ==> forall r :: Covered(r, x, false)
  {
    assert '*' in PLACEHOLDER_STAR;
  }

  lemma OnlyItemIsScoped(reach: Reach, item: map<string, Json>)
    requires ReachesSome(reach, item)
    ensures ScopedAll(reach, [item]) == [Scoped(reach, item)]
  {
    var none: seq<map<string, Json>> := [];
    assert none + [item] == [item];
    ScopedOneMore(reach, none, item);
  }

  lemma NothingIsOutside(was: seq<map<string, Json>>, item: map<string, Json>, a: string, b: string, x: string,
                         y: string)
    requires was == [Granting([a], [x]), Granting([b], [y])]
    requires Listed(item, "Action") == [a, b] && Listed(item, "Resource") == [x, y]
    ensures OutsideOf(Reaches(was), [item]) == {}
  {
    TwoReached(was, a, b, x, y);
    assert a in [a, b] && b in [a, b] && x in [x, y] && y in [x, y];
    assert a in KeptActions(Reaches(was), [a, b], [x, y]) && b in KeptActions(Reaches(was), [a, b], [x, y]);
  }
}
