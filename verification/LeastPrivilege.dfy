/** Narrower candidates for an over-broad policy, and the gate a candidate has to pass. */
module LeastPrivilege {
  import opened Json
  import opened Glob
  import opened Iam

  // ---------------------------------------------------------------- reading a policy leniently

  /** What Python treats as false in `value or []`. */
  predicate Falsy(j: Json) {
    j == Null || j == Bool(false) || j == Int(0) || j == Float(0.0) || j == Arr([]) || j == Obj(map[])
  }

  function OnlyStrings(items: seq<Json>): (r: seq<string>)
    ensures forall s :: s in r <==> Str(s) in items
  {
    if items == [] then []
    else if items[0].Str? then [items[0].s] + OnlyStrings(items[1..])
    else OnlyStrings(items[1..])
  }

  /** The strings of a value; None stands for the exception Python raises on any other shape. */
  function ValueList(value: Json): Option<seq<string>> {
    if value.Str? then Some([value.s])
    else if value.Arr? then Some(OnlyStrings(value.items))
    else if Falsy(value) then Some([])
    else None
  }

  /** `policy.get("Statement") or []`, as far as it is a list of objects. */
  function Items(policy: Json): Option<seq<map<string, Json>>> {
    if !policy.Obj? then None
    else
      var value := Get(policy.fields, "Statement");
      if value.Arr? then Objects(value.items)
      else if Falsy(value) || value == Str("") then Some([])
      else None
  }

  function Objects(items: seq<Json>): (r: Option<seq<map<string, Json>>>)
    ensures r.Some? <==> forall i | 0 <= i < |items| :: items[i].Obj?
    ensures r.Some? ==> |r.value| == |items| && forall i | 0 <= i < |items| :: items[i] == Obj(r.value[i])
  {
    if items == [] then Some([])
    else if !items[0].Obj? then None
    else
      assert forall i | 0 <= i < |items[1..]| :: items[1..][i] == items[i + 1];
      match Objects(items[1..])
      case None => None
      case Some(rest) => Some([items[0].fields] + rest)
  }

  function Listed(item: map<string, Json>, key: string): seq<string> {
    match ValueList(Get(item, key)) case Some(values) => values case None => []
  }

  predicate Readable(items: seq<map<string, Json>>) {
    forall item <- items :: ValueList(Get(item, "Action")).Some? && ValueList(Get(item, "Resource")).Some?
  }

  /** The strings written under a key anywhere in the policy. */
  function Written(items: seq<map<string, Json>>, key: string): set<string> {
    set item <- items, value <- Listed(item, key) :: value
  }

  function Lowered(values: set<string>): set<string> {
    set value <- values :: Lower(value)
  }

  /** What the policy allows when its statements are Allow statements without conditions. */
  predicate Permits(items: seq<map<string, Json>>, vars: string -> string, action: string, resource: string) {
    exists item <- items :: Grants(Statement(Listed(item, "Action"), Listed(item, "Resource")), vars, action, resource)
  }

  ghost predicate PermitsNoMore(before: seq<map<string, Json>>, after: seq<map<string, Json>>) {
    forall vars: string -> string, action: string, resource: string ::
      Permits(after, vars, action, resource) ==> Permits(before, vars, action, resource)
  }

  lemma {:induction false} StringsAreListed(items: seq<Json>)
    requires NonEmptyStrings(items)
    ensures OnlyStrings(items) == Strings(items)
  {
    if items != [] {
      assert items[0] in items;
      assert NonEmptyStrings(items[1..]);
      StringsAreListed(items[1..]);
      assert Strings(items) == [items[0].s] + Strings(items[1..]);
    }
  }

  /** On an accepted policy the two readings agree. */
  lemma AcceptedIsReadable(policy: Json)
    requires Statements(policy).Ok? && Items(policy).Some?
    ensures var items := Items(policy).value;
      && Readable(items) && |items| == |Statements(policy).value|
      && forall i | 0 <= i < |items| ::
           && OneStatement(Obj(items[i])).Ok?
           && Statements(policy).value[i] == Statement(Listed(items[i], "Action"), Listed(items[i], "Resource"))
  {
    var items := Items(policy).value;
    var written := Get(policy.fields, "Statement").items;
    forall i | 0 <= i < |items|
      ensures ValueList(Get(items[i], "Action")).Some? && ValueList(Get(items[i], "Resource")).Some?
      ensures OneStatement(Obj(items[i])).Ok?
      ensures Statements(policy).value[i] == Statement(Listed(items[i], "Action"), Listed(items[i], "Resource"))
    {
      assert written[i] == Obj(items[i]);
      ValuesAreListed(Get(items[i], "Action"));
      ValuesAreListed(Get(items[i], "Resource"));
    }
  }

  lemma ValuesAreListed(value: Json)
    requires Values(value).Ok?
    ensures ValueList(value) == Some(Values(value).value)
  {
    if value.Arr? {
      StringsAreListed(value.items);
    }
  }

  lemma AcceptedMeansTheSame(policy: Json, vars: string -> string, action: string, resource: string)
    requires Statements(policy).Ok? && Items(policy).Some?
    ensures Allows(Statements(policy).value, vars, action, resource) <==>
      Permits(Items(policy).value, vars, action, resource)
  {
    AcceptedIsReadable(policy);
    var items, statements := Items(policy).value, Statements(policy).value;
    if Allows(statements, vars, action, resource) {
      var i :| 0 <= i < |statements| && Grants(statements[i], vars, action, resource);
      assert items[i] in items;
    }
    if Permits(items, vars, action, resource) {
      var i :| 0 <= i < |items|
        && Grants(Statement(Listed(items[i], "Action"), Listed(items[i], "Resource")), vars, action, resource);
      assert statements[i] in statements;
    }
  }

  // ---------------------------------------------------------------- the static candidate

  predicate IsBroad(pattern: string) {
    HasAny(pattern, WILDCARDS)
  }

  predicate BroadItem(item: map<string, Json>) {
    exists p <- Listed(item, "Action") :: IsBroad(p)
  }

  /** Whether a statement answers for an action: a broad one by its wildcard patterns alone, an
      exact one by naming the action. */
  predicate Takes(item: map<string, Json>, action: string, classes: (string, string) -> bool) {
    if BroadItem(item) then
      exists p <- Listed(item, "Action") :: IsBroad(p) && Fnmatch(Lower(action), Lower(p), classes)
    else
      exists p <- Listed(item, "Action") :: Lower(p) == Lower(action)
  }

  /** The first statement that answers for the action, or the number of statements. */
  function Taker(items: seq<map<string, Json>>, action: string, classes: (string, string) -> bool): (i: nat)
    ensures i <= |items|
  {
    if items == [] || Takes(items[0], action, classes) then 0 else 1 + Taker(items[1..], action, classes)
  }

  lemma {:induction false} TakerIsFirst(items: seq<map<string, Json>>, action: string,
                                        classes: (string, string) -> bool)
    ensures var i := Taker(items, action, classes);
      && (i < |items| ==> Takes(items[i], action, classes))
      && (forall j | 0 <= j < i :: !Takes(items[j], action, classes))
  {
    if items != [] && !Takes(items[0], action, classes) {
      TakerIsFirst(items[1..], action, classes);
      assert forall j | 0 <= j < |items[1..]| :: items[1..][j] == items[j + 1];
    }
  }

  /** The wanted actions whose taker lies in a range, in the order they are wanted. */
  function WantedFrom(wanted: seq<string>, items: seq<map<string, Json>>, lo: nat, hi: nat,
                      classes: (string, string) -> bool): seq<string> {
    if wanted == [] then []
    else
      var rest := WantedFrom(wanted[1..], items, lo, hi, classes);
      if lo <= Taker(items, wanted[0], classes) < hi then [wanted[0]] + rest else rest
  }

  lemma {:induction false} WantedFromAre(wanted: seq<string>, items: seq<map<string, Json>>, lo: nat, hi: nat,
                                         classes: (string, string) -> bool)
    ensures forall a :: a in WantedFrom(wanted, items, lo, hi, classes) <==>
      a in wanted && lo <= Taker(items, a, classes) < hi
  {
    if wanted != [] {
      WantedFromAre(wanted[1..], items, lo, hi, classes);
    }
  }

  /** What a statement is needed for: wanted actions that it takes. */
  lemma NeededIsTaken(wanted: seq<string>, items: seq<map<string, Json>>, i: nat, classes: (string, string) -> bool,
                      a: string)
    requires i < |items| && a in WantedFrom(wanted, items, i, i + 1, classes)
    ensures a in wanted && Takes(items[i], a, classes)
  {
    WantedFromAre(wanted, items, i, i + 1, classes);
    TakerTakes(items, a, i, classes);
  }

  lemma {:induction false} TakerTakes(items: seq<map<string, Json>>, a: string, i: nat,
                                      classes: (string, string) -> bool)
    requires i < |items|
    ensures Taker(items, a, classes) == i ==> Takes(items[i], a, classes)
  {
    if i > 0 && !Takes(items[0], a, classes) {
      TakerTakes(items[1..], a, i - 1, classes);
    }
  }

  lemma {:induction false} AllAreWanted(wanted: seq<string>, items: seq<map<string, Json>>,
                                        classes: (string, string) -> bool)
    ensures WantedFrom(wanted, items, 0, |items| + 1, classes) == wanted
  {
    if wanted != [] {
      AllAreWanted(wanted[1..], items, classes);
    }
  }

  function Pack(actions: seq<string>): Json
    requires actions != []
  {
    if |actions| == 1 then Str(actions[0]) else Arr(seq(|actions|, i requires 0 <= i < |actions| => Str(actions[i])))
  }

  /** What the candidate keeps of statement i. */
  function Kept(item: map<string, Json>, needed: seq<string>): seq<Json> {
    if !BroadItem(item) then [Obj(item)]
    else if needed == [] then []
    else [Obj(item["Action" := Pack(needed)])]
  }

  function KeptUpTo(wanted: seq<string>, items: seq<map<string, Json>>, k: nat,
                    classes: (string, string) -> bool): seq<Json>
    requires k <= |items|
  {
    if k == 0 then []
    else KeptUpTo(wanted, items, k - 1, classes) + Kept(items[k - 1], WantedFrom(wanted, items, k - 1, k, classes))
  }

  function VersionOf(policy: Json): Json
    requires policy.Obj?
  {
    if "Version" in policy.fields then policy.fields["Version"] else VERSION
  }

  datatype Failure = ValueError(code: string) | Exception

  /** The wildcard statements narrowed to the wanted actions, and the actions nobody answers for. */
  function StaticSpec(before: Json, wanted: seq<string>, classes: (string, string) -> bool)
    : Result<(Json, seq<string>), Failure>
  {
    if wanted == [] then Err(ValueError("no_static_actions"))
    else if Items(before).None? || !ReadableActions(Items(before).value) then Err(Exception)
    else
      var items := Items(before).value;
      var kept := KeptUpTo(wanted, items, |items|, classes);
      if kept == [] then Err(ValueError("no_reducible_actions"))
      else
        Ok((Obj(map["Version" := VersionOf(before), "Statement" := Arr(kept)]),
            WantedFrom(wanted, items, |items|, |items| + 1, classes)))
  }

  predicate ReadableActions(items: seq<map<string, Json>>) {
    forall item <- items :: ValueList(Get(item, "Action")).Some?
  }

  method StaticCandidate(before: Json, wanted: seq<string>, classes: (string, string) -> bool)
    returns (r: Result<(Json, seq<string>), Failure>)
    ensures r == StaticSpec(before, wanted, classes)
  {
    if wanted == [] {
      return Err(ValueError("no_static_actions"));
    }
    if Items(before).None? {
      return Err(Exception);
    }
    var items := Items(before).value;
    var remaining := wanted;
    var statements: seq<Json> := [];
    AllAreWanted(wanted, items, classes);
    for k := 0 to |items|
      invariant remaining == WantedFrom(wanted, items, k, |items| + 1, classes)
      invariant statements == KeptUpTo(wanted, items, k, classes)
      invariant ReadableActions(items[..k])
    {
      OneMoreReadable(items, k);
      if ValueList(Get(items[k], "Action")).None? {
        return Err(Exception);
      }
      Separate(wanted, items, k, classes);
      if !BroadItem(items[k]) {
        statements := statements + [Obj(items[k])];
        remaining := Without(remaining, items[k], classes);
        continue;
      }
      var needed := Within(remaining, items[k], classes);
      remaining := Without(remaining, items[k], classes);
      if needed == [] {
        continue;
      }
      statements := statements + [Obj(items[k]["Action" := Pack(needed)])];
    }
    assert items[..|items|] == items;
    if statements == [] {
      return Err(ValueError("no_reducible_actions"));
    }
    r := Ok((Obj(map["Version" := VersionOf(before), "Statement" := Arr(statements)]), remaining));
  }

  lemma OneMoreReadable(items: seq<map<string, Json>>, k: nat)
    requires k < |items|
    ensures ReadableActions(items[..k + 1]) <==> ReadableActions(items[..k]) && ValueList(Get(items[k], "Action")).Some?
    ensures ValueList(Get(items[k], "Action")).None? ==> !ReadableActions(items)
  {
    assert items[k] in items;
    assert items[..k + 1] == items[..k] + [items[k]];
  }

  /** The actions of a list that a statement answers for, and those it does not. */
  function Within(actions: seq<string>, item: map<string, Json>, classes: (string, string) -> bool): seq<string> {
    if actions == [] then []
    else if Takes(item, actions[0], classes) then [actions[0]] + Within(actions[1..], item, classes)
    else Within(actions[1..], item, classes)
  }

  function Without(actions: seq<string>, item: map<string, Json>, classes: (string, string) -> bool): seq<string> {
    if actions == [] then []
    else if Takes(item, actions[0], classes) then Without(actions[1..], item, classes)
    else [actions[0]] + Without(actions[1..], item, classes)
  }

  lemma {:induction false} Separate(wanted: seq<string>, items: seq<map<string, Json>>, k: nat,
                                    classes: (string, string) -> bool)
    requires k < |items|
    ensures Within(WantedFrom(wanted, items, k, |items| + 1, classes), items[k], classes) ==
      WantedFrom(wanted, items, k, k + 1, classes)
    ensures Without(WantedFrom(wanted, items, k, |items| + 1, classes), items[k], classes) ==
      WantedFrom(wanted, items, k + 1, |items| + 1, classes)
  {
    if wanted != [] {
      Separate(wanted[1..], items, k, classes);
      TakerIsFirst(items, wanted[0], classes);
      var rest := WantedFrom(wanted[1..], items, k, |items| + 1, classes);
      assert ([wanted[0]] + rest)[1..] == rest;
    }
  }

  // ---------------------------------------------------------------- what the candidate grants

  /** The wanted actions are wildcard-free, and `[` is nowhere in the patterns. */
  ghost predicate Literal(wanted: seq<string>, items: seq<map<string, Json>>) {
    && (forall a <- wanted :: a != "" && !HasAny(a, WILDCARDS))
    && (forall item <- items, p <- Listed(item, "Action") :: '[' !in p)
  }

  lemma KeptComesFrom(wanted: seq<string>, items: seq<map<string, Json>>, k: nat, classes: (string, string) -> bool,
                      j: nat)
    returns (i: nat)
    requires k <= |items| && j < |KeptUpTo(wanted, items, k, classes)|
    ensures i < k
    ensures KeptUpTo(wanted, items, k, classes)[j] in Kept(items[i], WantedFrom(wanted, items, i, i + 1, classes))
  {
    var part := (n: nat) => if n < |items| then Kept(items[n], WantedFrom(wanted, items, n, n + 1, classes)) else [];
    var whole := (n: nat) => if n <= |items| then KeptUpTo(wanted, items, n, classes) else [];
    i := ComesFromOnePart(part, whole, k, j);
  }

  lemma {:induction false} ComesFromOnePart(part: nat -> seq<Json>, whole: nat -> seq<Json>, k: nat, j: nat)
    returns (i: nat)
    requires whole(0) == [] && (forall n | 0 <= n < k :: whole(n + 1) == whole(n) + part(n)) && j < |whole(k)|
    ensures i < k && whole(k)[j] in part(i)
  {
    assert whole(k - 1 + 1) == whole(k - 1) + part(k - 1);
    if j < |whole(k - 1)| {
      i := ComesFromOnePart(part, whole, k - 1, j);
    } else {
      i := k - 1;
    }
  }

  lemma {:induction false} KeptIsIn(wanted: seq<string>, items: seq<map<string, Json>>, k: nat,
                                    classes: (string, string) -> bool, i: nat)
    requires i < k <= |items|
    ensures forall x <- Kept(items[i], WantedFrom(wanted, items, i, i + 1, classes)) ::
      x in KeptUpTo(wanted, items, k, classes)
  {
    if i < k - 1 {
      KeptIsIn(wanted, items, k - 1, classes, i);
    }
  }

  lemma PackIsListed(actions: seq<string>)
    requires actions != []
    ensures ValueList(Pack(actions)) == Some(actions)
    ensures (forall a <- actions :: a != "") ==> Values(Pack(actions)) == Ok(actions)
  {
    if |actions| > 1 {
      var items := Pack(actions).items;
      OnlyStringsOfPack(items, actions);
      assert ValueList(Pack(actions)) == Some(actions);
      if forall a <- actions :: a != "" {
        forall item | item in items
          ensures item.Str? && item.s != ""
        {
          var i :| 0 <= i < |items| && items[i] == item;
          assert actions[i] in actions;
        }
        assert Strings(items) == actions;
      }
    } else {
      assert actions == [actions[0]];
      assert actions[0] in actions;
    }
  }

  lemma {:induction false} OnlyStringsOfPack(items: seq<Json>, actions: seq<string>)
    requires |items| == |actions| && forall i | 0 <= i < |items| :: items[i] == Str(actions[i])
    ensures OnlyStrings(items) == actions
  {
    if items != [] {
      OnlyStringsOfPack(items[1..], actions[1..]);
    }
  }

  predicate Names(item: map<string, Json>, action: string) {
    exists a <- Listed(item, "Action") :: Lower(a) == Lower(action)
  }

  lemma KeptNames(item: map<string, Json>, needed: seq<string>, action: string, classes: (string, string) -> bool)
    requires Takes(item, action, classes) && action in needed
    ensures exists x <- Kept(item, needed) :: x.Obj? && Names(x.fields, action)
  {
    if BroadItem(item) {
      PackIsListed(needed);
      var x := Obj(item["Action" := Pack(needed)]);
      assert x in Kept(item, needed);
      assert Listed(x.fields, "Action") == needed;
    } else {
      assert Obj(item) in Kept(item, needed);
    }
  }

  /** Every wanted action that is not dropped is named by the candidate. */
  lemma StaticKeepsWanted(before: Json, wanted: seq<string>, classes: (string, string) -> bool, action: string)
    requires StaticSpec(before, wanted, classes).Ok? && action in wanted
    requires action !in StaticSpec(before, wanted, classes).value.1
    ensures Items(StaticSpec(before, wanted, classes).value.0).Some?
    ensures exists item <- Items(StaticSpec(before, wanted, classes).value.0).value :: Names(item, action)
  {
    var items := Items(before).value;
    var i := Taker(items, action, classes);
    WantedFromAre(wanted, items, |items|, |items| + 1, classes);
    TakerIsFirst(items, action, classes);
    var needed := WantedFrom(wanted, items, i, i + 1, classes);
    WantedFromAre(wanted, items, i, i + 1, classes);
    KeptNames(items[i], needed, action, classes);
    var x :| x in Kept(items[i], needed) && x.Obj? && Names(x.fields, action);
    KeptIsIn(wanted, items, |items|, classes, i);
    CandidateIsObjects(before, wanted, classes);
    ObjectsKeep(KeptUpTo(wanted, items, |items|, classes), x);
  }

  /** The wanted actions whose taker is a statement with wildcards, or one without. */
  function Answered(wanted: seq<string>, items: seq<map<string, Json>>, classes: (string, string) -> bool, broad: bool)
    : seq<string>
  {
    if wanted == [] then []
    else
      var i, rest := Taker(items, wanted[0], classes), Answered(wanted[1..], items, classes, broad);
      if i < |items| && BroadItem(items[i]) == broad then [wanted[0]] + rest else rest
  }

  lemma {:induction false} AnsweredAre(wanted: seq<string>, items: seq<map<string, Json>>,
                                       classes: (string, string) -> bool, broad: bool, a: string)
    ensures a in Answered(wanted, items, classes, broad) <==>
      a in wanted && Taker(items, a, classes) < |items| && BroadItem(items[Taker(items, a, classes)]) == broad
  {
    if wanted != [] {
      AnsweredAre(wanted[1..], items, classes, broad, a);
    }
  }

  lemma {:induction false} ThreeWays(wanted: seq<string>, items: seq<map<string, Json>>,
                                     classes: (string, string) -> bool)
    ensures multiset(wanted) ==
      multiset(Answered(wanted, items, classes, true)) + multiset(Answered(wanted, items, classes, false))
      + multiset(WantedFrom(wanted, items, |items|, |items| + 1, classes))
  {
    if wanted != [] {
      ThreeWays(wanted[1..], items, classes);
      assert wanted == [wanted[0]] + wanted[1..];
    }
  }

  /** Some statement's wildcard is the first to match the action, and the candidate has that statement
      with a list in its place: the wanted actions that it is the first to answer for. */
  ghost predicate Replaced(wanted: seq<string>, items: seq<map<string, Json>>, kept: seq<Json>, a: string,
                           classes: (string, string) -> bool) {
    exists i: nat :: i < |items| && IsFirst(items, a, i, classes)
      && (exists p <- Listed(items[i], "Action") :: IsBroad(p) && Fnmatch(Lower(a), Lower(p), classes))
      && a in WantedFrom(wanted, items, i, i + 1, classes)
      && Obj(items[i]["Action" := Pack(WantedFrom(wanted, items, i, i + 1, classes))]) in kept
  }

  /** Some statement without wildcards is the first to answer for the action, names it, and is in the
      candidate as it was. */
  ghost predicate KeptAsItIs(items: seq<map<string, Json>>, kept: seq<Json>, a: string,
                             classes: (string, string) -> bool) {
    exists i: nat :: i < |items| && IsFirst(items, a, i, classes)
      && !BroadItem(items[i]) && Names(items[i], a) && Obj(items[i]) in kept
  }

  ghost predicate IsFirst(items: seq<map<string, Json>>, a: string, i: nat, classes: (string, string) -> bool)
    requires i < |items|
  {
    Takes(items[i], a, classes) && forall j | 0 <= j < i :: !Takes(items[j], a, classes)
  }

  /** What becomes of the wanted actions, each as often as it is wanted: matched by a wildcard that the
      candidate replaces by a list with the action in it, named by a statement that it keeps, or
      dropped because no statement answers for it. */
  lemma StaticSplits(before: Json, wanted: seq<string>, classes: (string, string) -> bool, candidate: Json,
                     dropped: seq<string>)
    requires StaticSpec(before, wanted, classes) == Ok((candidate, dropped))
    ensures var items, kept := Items(before).value, candidate.fields["Statement"].items;
      && multiset(wanted) == multiset(Answered(wanted, items, classes, true))
           + multiset(Answered(wanted, items, classes, false)) + multiset(dropped)
      && (forall a <- Answered(wanted, items, classes, true) :: Replaced(wanted, items, kept, a, classes))
      && (forall a <- Answered(wanted, items, classes, false) :: KeptAsItIs(items, kept, a, classes))
      && (forall a <- dropped, item <- items :: !Takes(item, a, classes))
  {
    var items := Items(before).value;
    var kept := KeptUpTo(wanted, items, |items|, classes);
    assert candidate.fields["Statement"] == Arr(kept);
    ThreeWays(wanted, items, classes);
    forall a <- Answered(wanted, items, classes, true)
      ensures Replaced(wanted, items, kept, a, classes)
    {
      AnsweredAre(wanted, items, classes, true, a);
      BroadAnswer(wanted, items, a, classes);
    }
    forall a <- Answered(wanted, items, classes, false)
      ensures KeptAsItIs(items, kept, a, classes)
    {
      AnsweredAre(wanted, items, classes, false, a);
      ExactAnswer(wanted, items, a, classes);
    }
    forall a <- dropped, item <- items
      ensures !Takes(item, a, classes)
    {
      WantedFromAre(wanted, items, |items|, |items| + 1, classes);
      NobodyTakes(items, a, item, classes);
    }
  }

  lemma BroadAnswer(wanted: seq<string>, items: seq<map<string, Json>>, a: string, classes: (string, string) -> bool)
    requires a in wanted && Taker(items, a, classes) < |items| && BroadItem(items[Taker(items, a, classes)])
    ensures Replaced(wanted, items, KeptUpTo(wanted, items, |items|, classes), a, classes)
  {
    var i := Taker(items, a, classes);
    TakerIsFirst(items, a, classes);
    assert IsFirst(items, a, i, classes);
    WantedFromAre(wanted, items, i, i + 1, classes);
    KeptIsIn(wanted, items, |items|, classes, i);
    var needed := WantedFrom(wanted, items, i, i + 1, classes);
    assert Obj(items[i]["Action" := Pack(needed)]) in Kept(items[i], needed);
  }

  lemma ExactAnswer(wanted: seq<string>, items: seq<map<string, Json>>, a: string, classes: (string, string) -> bool)
    requires a in wanted && Taker(items, a, classes) < |items| && !BroadItem(items[Taker(items, a, classes)])
    ensures KeptAsItIs(items, KeptUpTo(wanted, items, |items|, classes), a, classes)
  {
    var i := Taker(items, a, classes);
    TakerIsFirst(items, a, classes);
    assert IsFirst(items, a, i, classes);
    KeptIsIn(wanted, items, |items|, classes, i);
    assert Obj(items[i]) in Kept(items[i], WantedFrom(wanted, items, i, i + 1, classes));
  }

  lemma NobodyTakes(items: seq<map<string, Json>>, a: string, item: map<string, Json>,
                    classes: (string, string) -> bool)
    requires Taker(items, a, classes) >= |items| && item in items
    ensures !Takes(item, a, classes)
  {
    TakerIsFirst(items, a, classes);
  }

  lemma ObjectsKeep(items: seq<Json>, x: Json)
    requires x in items && x.Obj? && Objects(items).Some?
    ensures x.fields in Objects(items).value
  {
    var j :| 0 <= j < |items| && items[j] == x;
    assert Objects(items).value[j] == x.fields;
  }

  lemma CandidateIsObjects(before: Json, wanted: seq<string>, classes: (string, string) -> bool)
    requires StaticSpec(before, wanted, classes).Ok?
    ensures var items := Items(before).value;
      var kept := KeptUpTo(wanted, items, |items|, classes);
      && (forall j | 0 <= j < |kept| :: kept[j].Obj?)
      && Items(StaticSpec(before, wanted, classes).value.0) == Objects(kept)
      && Objects(kept).Some?
  {
    var items := Items(before).value;
    var kept := KeptUpTo(wanted, items, |items|, classes);
    forall j: nat | j < |kept|
      ensures kept[j].Obj?
    {
      var i := KeptComesFrom(wanted, items, |items|, classes, j);
    }
  }

  lemma TakenIsMatched(item: map<string, Json>, action: string, classes: (string, string) -> bool)
    requires BroadItem(item) && Takes(item, action, classes)
    requires forall p <- Listed(item, "Action") :: '[' !in p
    ensures exists p <- Listed(item, "Action") :: Matches(Lower(p), Lower(action))
  {
    var p :| p in Listed(item, "Action") && IsBroad(p) && Fnmatch(Lower(action), Lower(p), classes);
    NoBracketLower(p);
  }

  /** A statement of the candidate next to the one it comes from: the same resources, and only
      actions that are written there or that the patterns there match. */
  lemma KeptNarrows(items: seq<map<string, Json>>, wanted: seq<string>, classes: (string, string) -> bool, i: nat,
                    kept: map<string, Json>, a: string)
    requires i < |items| && Literal(wanted, items)
    requires Obj(kept) in Kept(items[i], WantedFrom(wanted, items, i, i + 1, classes))
    requires a in Listed(kept, "Action")
    ensures Listed(kept, "Resource") == Listed(items[i], "Resource")
    ensures a in Listed(items[i], "Action") ||
            (a in wanted && !HasAny(a, WILDCARDS) && exists p <- Listed(items[i], "Action") ::
              Matches(Lower(p), Lower(a)))
  {
    assert items[i] in items;
    if BroadItem(items[i]) {
      var needed := WantedFrom(wanted, items, i, i + 1, classes);
      PackIsListed(needed);
      assert Listed(kept, "Action") == needed;
      NeededIsTaken(wanted, items, i, classes, a);
      TakenIsMatched(items[i], a, classes);
    }
  }

  lemma KeptGrantsLess(items: seq<map<string, Json>>, wanted: seq<string>, classes: (string, string) -> bool, i: nat,
                       kept: map<string, Json>, vars: string -> string, action: string, resource: string)
    requires i < |items| && Literal(wanted, items)
    requires Obj(kept) in Kept(items[i], WantedFrom(wanted, items, i, i + 1, classes))
    requires Grants(Statement(Listed(kept, "Action"), Listed(kept, "Resource")), vars, action, resource)
    ensures Grants(Statement(Listed(items[i], "Action"), Listed(items[i], "Resource")), vars, action, resource)
  {
    var a :| a in Listed(kept, "Action") && ActionMatches(a, action);
    KeptNarrows(items, wanted, classes, i, kept, a);
    if a !in Listed(items[i], "Action") {
      var p :| p in Listed(items[i], "Action") && Matches(Lower(p), Lower(a));
      PatternOfLiteral(p, a, action);
    }
  }

  lemma PatternOfLiteral(p: string, a: string, action: string)
    requires !HasAny(a, WILDCARDS) && Matches(Lower(p), Lower(a)) && ActionMatches(a, action)
    ensures ActionMatches(p, action)
  {
    LowerKeeps(a, WILDCARDS);
    ExactMatch(Lower(a), Lower(action));
  }

  lemma NoBracketLower(text: string)
    requires '[' !in text
    ensures '[' !in Lower(text)
  {
    forall i | 0 <= i < |text|
      ensures Lower(text)[i] != '['
    {
      assert text[i] in text;
    }
  }

  /** The candidate allows nothing that the policy it replaces does not. */
  lemma StaticNarrows(before: Json, wanted: seq<string>, classes: (string, string) -> bool)
    requires StaticSpec(before, wanted, classes).Ok? && Literal(wanted, Items(before).value)
    ensures Items(StaticSpec(before, wanted, classes).value.0).Some?
    ensures PermitsNoMore(Items(before).value, Items(StaticSpec(before, wanted, classes).value.0).value)
  {
    CandidateIsObjects(before, wanted, classes);
    var items := Items(before).value;
    var candidate := Items(StaticSpec(before, wanted, classes).value.0).value;
    forall vars: string -> string, action: string, resource: string | Permits(candidate, vars, action, resource)
      ensures Permits(items, vars, action, resource)
    {
      var j :| 0 <= j < |candidate| &&
               Grants(Statement(Listed(candidate[j], "Action"), Listed(candidate[j], "Resource")), vars, action,
                 resource);
      var i := KeptComesFrom(wanted, items, |items|, classes, j);
      KeptGrantsLess(items, wanted, classes, i, candidate[j], vars, action, resource);
      assert items[i] in items;
    }
  }

  // ---------------------------------------------------------------- the gate

  const PLACEHOLDER_STAR := "*"

  predicate Placeholders(items: seq<map<string, Json>>) {
    exists item <- items, r <- Listed(item, "Resource") :: HasPlaceholder(r)
  }

  function Widened(resources: seq<string>): (r: seq<Json>)
    ensures |r| == |resources|
    ensures forall i | 0 <= i < |r| ::
      r[i] == Str(if HasPlaceholder(resources[i]) then PLACEHOLDER_STAR else resources[i])
  {
    seq(|resources|, i requires 0 <= i < |resources| =>
      Str(if HasPlaceholder(resources[i]) then PLACEHOLDER_STAR else resources[i]))
  }

  function WidenedItems(items: seq<map<string, Json>>): seq<Json> {
    seq(|items|, i requires 0 <= i < |items| => Obj(items[i]["Resource" := Arr(Widened(Listed(items[i], "Resource")))]))
  }

  /** Resources AWS could not name are replaced by `*` before the proof. */
  function ProofCopy(policy: Json, items: seq<map<string, Json>>): Json
    requires policy.Obj?
  {
    if !Placeholders(items) then policy else Obj(policy.fields["Statement" := Arr(WidenedItems(items))])
  }

  datatype Verdict = StrictlyNarrower | NotNarrower | Expands | Undecided

  /** The second opinion: not asked, or what AWS answered. */
  datatype Opinion = NotAsked | Agrees | NewAccess | Unsure

  datatype Narrowing = Narrowing(
    verdict: Verdict, reason: string, byLocalProof: bool,
    removedActions: set<string>, removedResources: set<string>)

  function RemovedActions(was: seq<map<string, Json>>, now: seq<map<string, Json>>): set<string> {
    set a <- Written(was, "Action") | Lower(a) !in Lowered(Written(now, "Action"))
  }

  function RemovedResources(was: seq<map<string, Json>>, now: seq<map<string, Json>>): set<string> {
    Written(was, "Resource") - Written(now, "Resource")
  }

  predicate CanRead(policy: Json) {
    Items(policy).Some? && Readable(Items(policy).value)
  }

  function Judge(check: Check, same: bool, actions: set<string>, resources: set<string>, aws: Opinion): Narrowing {
    var proof := Narrowing(Undecided, "not_evaluated", true, actions, resources);
    if check.Expansion? then proof.(verdict := Expands, reason := "candidate_expands_access")
    else if same || (actions == {} && resources == {}) then
      proof.(verdict := NotNarrower, reason := "candidate_not_narrower")
    else if aws.NewAccess? then proof.(verdict := Expands, reason := "aws_check_reports_new_access")
    else if check.Inconclusive? && !aws.Agrees? then proof.(reason := "local_subset_proof_inconclusive")
    else if aws.Unsure? then proof.(reason := "aws_check_inconclusive")
    else proof.(verdict := StrictlyNarrower, reason := "candidate_strictly_narrower", byLocalProof := check.Safe?)
  }

  /** None when one of the two policies cannot be read. */
  function EvaluateNarrowing(before: Json, candidate: Json, aws: Opinion): Option<Narrowing> {
    if !CanRead(before) || !CanRead(candidate) then None
    else
      var was, now := Items(before).value, Items(candidate).value;
      Some(Judge(CheckNoExpansion(before, ProofCopy(candidate, now)), candidate == before,
                 RemovedActions(was, now), RemovedResources(was, now), aws))
  }

  /** Widening only adds requests, for any values of the variables. */
  lemma WideningGrowsItem(item: map<string, Json>, vars: string -> string, action: string, resource: string)
    requires Grants(Statement(Listed(item, "Action"), Listed(item, "Resource")), vars, action, resource)
    ensures var wide := item["Resource" := Arr(Widened(Listed(item, "Resource")))];
      Grants(Statement(Listed(wide, "Action"), Listed(wide, "Resource")), vars, action, resource)
  {
    var resources := Listed(item, "Resource");
    var wide := item["Resource" := Arr(Widened(resources))];
    var i :| 0 <= i < |resources| && ResourceMatches(vars, resources[i], resource);
    var w := Widened(resources)[i].s;
    assert Str(w) in Widened(resources);
    assert w in Listed(wide, "Resource");
    if HasPlaceholder(resources[i]) {
      NoPlaceholderNoChange(vars, "*");
      StarMatchesAll(resource);
    }
    assert ResourceMatches(vars, w, resource);
    assert Get(wide, "Action") == Get(item, "Action");
  }

  lemma ProofCopyItems(candidate: Json)
    requires Items(candidate).Some? && Placeholders(Items(candidate).value)
    ensures var now := Items(candidate).value;
      var copy := ProofCopy(candidate, now);
      && Items(copy).Some? && |Items(copy).value| == |now|
      && forall i | 0 <= i < |now| ::
           Items(copy).value[i] == now[i]["Resource" := Arr(Widened(Listed(now[i], "Resource")))]
  {
    var now := Items(candidate).value;
    var copy := ProofCopy(candidate, now);
    assert Get(copy.fields, "Statement") == Arr(WidenedItems(now));
    assert forall i | 0 <= i < |now| :: WidenedItems(now)[i].Obj?;
  }

  lemma ProofCopyAllowsMore(candidate: Json, vars: string -> string, action: string, resource: string)
    requires Items(candidate).Some? && Permits(Items(candidate).value, vars, action, resource)
    ensures var copy := ProofCopy(candidate, Items(candidate).value);
      Items(copy).Some? && Permits(Items(copy).value, vars, action, resource)
  {
    var now := Items(candidate).value;
    if Placeholders(now) {
      ProofCopyItems(candidate);
      var copy := Items(ProofCopy(candidate, now)).value;
      var i :| 0 <= i < |now| && Grants(Statement(Listed(now[i], "Action"), Listed(now[i], "Resource")), vars, action,
        resource);
      WideningGrowsItem(now[i], vars, action, resource);
      assert copy[i] in copy;
    }
  }

  /** A strict narrowing on the authority of the local proof allows nothing new, whatever the
      placeholders stand for, and some written action or resource of the original is gone. */
  lemma NarrowerIsContained(before: Json, candidate: Json, aws: Opinion)
    requires EvaluateNarrowing(before, candidate, aws).Some?
    requires EvaluateNarrowing(before, candidate, aws).value.verdict.StrictlyNarrower?
    requires EvaluateNarrowing(before, candidate, aws).value.byLocalProof
    ensures PermitsNoMore(Items(before).value, Items(candidate).value)
    ensures (exists a <- Written(Items(before).value, "Action") ::
      forall a' <- Written(Items(candidate).value, "Action") :: Lower(a') != Lower(a))
         || (exists r <- Written(Items(before).value, "Resource") :: r !in Written(Items(candidate).value, "Resource"))
  {
    StrictlyNarrowerMeans(before, candidate, aws);
    SafeCopyIsContained(before, candidate);
    RemovedIsGone(Items(before).value, Items(candidate).value);
  }

  lemma StrictlyNarrowerMeans(before: Json, candidate: Json, aws: Opinion)
    requires EvaluateNarrowing(before, candidate, aws).Some?
    requires EvaluateNarrowing(before, candidate, aws).value.verdict.StrictlyNarrower?
    requires EvaluateNarrowing(before, candidate, aws).value.byLocalProof
    ensures CanRead(before) && CanRead(candidate)
    ensures CheckNoExpansion(before, ProofCopy(candidate, Items(candidate).value)).Safe?
    ensures RemovedActions(Items(before).value, Items(candidate).value) != {} ||
            RemovedResources(Items(before).value, Items(candidate).value) != {}
  {
  }

  lemma SafeCopyIsContained(before: Json, candidate: Json)
    requires CanRead(before) && CanRead(candidate)
    requires CheckNoExpansion(before, ProofCopy(candidate, Items(candidate).value)).Safe?
    ensures PermitsNoMore(Items(before).value, Items(candidate).value)
  {
    var was, now := Items(before).value, Items(candidate).value;
    var copy := ProofCopy(candidate, now);
    SafeMeansContained(before, copy);
    forall vars: string -> string, action: string, resource: string | Permits(now, vars, action, resource)
      ensures Permits(was, vars, action, resource)
    {
      ProofCopyAllowsMore(candidate, vars, action, resource);
      AcceptedMeansTheSame(copy, vars, action, resource);
      AcceptedMeansTheSame(before, vars, action, resource);
    }
  }

  lemma RemovedIsGone(was: seq<map<string, Json>>, now: seq<map<string, Json>>)
    requires RemovedActions(was, now) != {} || RemovedResources(was, now) != {}
    ensures (exists a <- Written(was, "Action") :: forall a' <- Written(now, "Action") :: Lower(a') != Lower(a))
         || (exists r <- Written(was, "Resource") :: r !in Written(now, "Resource"))
  {
    if RemovedActions(was, now) != {} {
      var a :| a in RemovedActions(was, now);
      LoweredAreNot(Written(now, "Action"), a);
    } else {
      var r :| r in RemovedResources(was, now);
    }
  }

  lemma LoweredAreNot(values: set<string>, a: string)
    requires Lower(a) !in Lowered(values)
    ensures forall a' <- values :: Lower(a') != Lower(a)
  {
    AllLowered(values);
  }

  /** The gate cannot read a policy whose only statement stands outside a list, although the
      subset proof accepts it. */
  lemma SingleStatementIsUnreadable(fields: map<string, Json>, candidate: Json, aws: Opinion)
    requires OneStatement(Obj(fields)).Ok?
    ensures var policy := Obj(map["Version" := VERSION, "Statement" := Obj(fields)]);
      && Statements(policy).Ok?
      && EvaluateNarrowing(policy, candidate, aws).None?
  {
    assert "Effect" in fields;
    assert fields != map[];
    assert AllStatements([Obj(fields)]).Ok?;
  }

  /** For accepted policies that is the only case: the gate answers exactly when both policies
      write their statements as a list. */
  lemma GateAnswersIff(before: Json, candidate: Json, aws: Opinion)
    requires Statements(before).Ok? && Statements(candidate).Ok?
    ensures EvaluateNarrowing(before, candidate, aws).Some? <==>
            before.fields["Statement"].Arr? && candidate.fields["Statement"].Arr?
  {
    AcceptedItems(before);
    AcceptedItems(candidate);
  }

  lemma AcceptedItems(policy: Json)
    requires Statements(policy).Ok?
    ensures "Statement" in policy.fields
    ensures CanRead(policy) <==> policy.fields["Statement"].Arr?
    ensures Items(policy).Some? <==> policy.fields["Statement"].Arr?
  {
    if Items(policy).Some? {
      AcceptedIsReadable(policy);
    }
    var value := Get(policy.fields, "Statement");
    if value.Arr? {
      assert forall i | 0 <= i < |value.items| :: OneStatement(value.items[i]).Ok?;
    } else {
      assert AllStatements([value]).Ok?;
      assert OneStatement([value][0]).Ok?;
      assert "Effect" in value.fields && value.fields != map[];
    }
  }

  // ---------------------------------------------------------------- the candidate at the gate

  /** What the gate needs to follow the static candidate: the wanted actions are exact, the
      action patterns use nothing but `*` and `?`, and no resource has a placeholder. */
  ghost predicate Provable(wanted: seq<string>, items: seq<map<string, Json>>) {
    && (forall a <- wanted :: a != "" && !HasAny(a, UNPROVABLE_CANDIDATE))
    && (forall item <- items, p <- Listed(item, "Action") :: !HasAny(p, UNPROVABLE_EXISTING))
    && !Placeholders(items)
  }

  lemma ProvableIsLiteral(wanted: seq<string>, items: seq<map<string, Json>>)
    requires Provable(wanted, items)
    ensures Literal(wanted, items)
  {
    forall item <- items, p <- Listed(item, "Action")
      ensures '[' !in p
    {
      assert !HasAny(p, UNPROVABLE_EXISTING);
    }
    forall a <- wanted
      ensures !HasAny(a, WILDCARDS)
    {
      assert !HasAny(a, UNPROVABLE_CANDIDATE);
    }
  }

  lemma KeptIsAccepted(items: seq<map<string, Json>>, wanted: seq<string>, classes: (string, string) -> bool, i: nat,
                       kept: map<string, Json>)
    requires i < |items| && OneStatement(Obj(items[i])).Ok? && forall a <- wanted :: a != ""
    requires Obj(kept) in Kept(items[i], WantedFrom(wanted, items, i, i + 1, classes))
    ensures OneStatement(Obj(kept)).Ok?
    ensures OneStatement(Obj(kept)).value == Statement(Listed(kept, "Action"), Listed(kept, "Resource"))
  {
    ValuesAreListed(Get(items[i], "Action"));
    ValuesAreListed(Get(items[i], "Resource"));
    if BroadItem(items[i]) {
      var needed := WantedFrom(wanted, items, i, i + 1, classes);
      PackIsListed(needed);
      WantedFromAre(wanted, items, i, i + 1, classes);
      assert Get(kept, "Action") == Pack(needed);
      assert Get(kept, "Resource") == Get(items[i], "Resource") && Get(kept, "Effect") == Get(items[i], "Effect");
    }
  }

  lemma {:induction false} KeptLength(wanted: seq<string>, items: seq<map<string, Json>>, k: nat,
                                      classes: (string, string) -> bool)
    requires k <= |items|
    ensures |KeptUpTo(wanted, items, k, classes)| <= k
  {
    if k > 0 {
      KeptLength(wanted, items, k - 1, classes);
    }
  }

  lemma CandidateIsAccepted(before: Json, wanted: seq<string>, classes: (string, string) -> bool)
    requires Statements(before).Ok? && Items(before).Some? && StaticSpec(before, wanted, classes).Ok?
    requires forall a <- wanted :: a != ""
    ensures var candidate := StaticSpec(before, wanted, classes).value.0;
      Statements(candidate).Ok? && Items(candidate).Some?
  {
    var items := Items(before).value;
    KeptLength(wanted, items, |items|, classes);
    KeptAreAccepted(before, wanted, classes);
    AcceptedHasFew(before);
    AcceptedWhole(before, KeptUpTo(wanted, items, |items|, classes));
  }

  lemma AcceptedHasFew(policy: Json)
    requires Statements(policy).Ok? && Items(policy).Some?
    ensures policy.Obj? && VersionOf(policy) == VERSION && |Items(policy).value| <= 100
  {
    AcceptedIsReadable(policy);
  }

  lemma AcceptedWhole(before: Json, kept: seq<Json>)
    requires before.Obj? && VersionOf(before) == VERSION && 1 <= |kept| <= 100
    requires forall j | 0 <= j < |kept| :: OneStatement(kept[j]).Ok?
    ensures var candidate := Obj(map["Version" := VersionOf(before), "Statement" := Arr(kept)]);
      Statements(candidate).Ok? && Items(candidate).Some?
  {
    var candidate := Obj(map["Version" := VersionOf(before), "Statement" := Arr(kept)]);
    assert candidate.fields.Keys <= POLICY_KEYS;
    assert AllStatements(kept).Ok? && Objects(kept).Some?;
  }

  lemma KeptAreAccepted(before: Json, wanted: seq<string>, classes: (string, string) -> bool)
    requires Statements(before).Ok? && Items(before).Some? && forall a <- wanted :: a != ""
    ensures var items := Items(before).value;
      var kept := KeptUpTo(wanted, items, |items|, classes);
      forall j | 0 <= j < |kept| :: OneStatement(kept[j]).Ok?
  {
    AcceptedIsReadable(before);
    var items := Items(before).value;
    var kept := KeptUpTo(wanted, items, |items|, classes);
    forall j: nat | j < |kept|
      ensures OneStatement(kept[j]).Ok?
    {
      var i := KeptComesFrom(wanted, items, |items|, classes, j);
      assert kept[j].Obj?;
      KeptIsAccepted(items, wanted, classes, i, kept[j].fields);
    }
  }

  lemma KeptIsCovered(items: seq<map<string, Json>>, wanted: seq<string>, classes: (string, string) -> bool, i: nat,
                      kept: map<string, Json>, a: string, r: string)
    requires i < |items| && Provable(wanted, items)
    requires Obj(kept) in Kept(items[i], WantedFrom(wanted, items, i, i + 1, classes))
    requires a in Listed(kept, "Action") && r in Listed(kept, "Resource")
    ensures PairCovered(a, r, Statement(Listed(items[i], "Action"), Listed(items[i], "Resource")))
  {
    ProvableIsLiteral(wanted, items);
    KeptNarrows(items, wanted, classes, i, kept, a);
    assert Covered(r, r, false);
    if a in Listed(items[i], "Action") {
      assert Covered(a, a, true);
    } else {
      var p :| p in Listed(items[i], "Action") && Matches(Lower(p), Lower(a));
      assert items[i] in items;
      MatchedIsCovered(a, p);
    }
  }

  lemma MatchedIsCovered(a: string, p: string)
    requires !HasAny(a, UNPROVABLE_CANDIDATE) && !HasAny(p, UNPROVABLE_EXISTING) && Matches(Lower(p), Lower(a))
    ensures Covered(a, p, true)
  {
    LowerKeeps(a, UNPROVABLE_CANDIDATE);
    LowerKeeps(p, UNPROVABLE_EXISTING);
  }

  /** The subset proof always succeeds on the static candidate. */
  lemma CandidateIsSafe(before: Json, wanted: seq<string>, classes: (string, string) -> bool)
    requires Statements(before).Ok? && Items(before).Some? && StaticSpec(before, wanted, classes).Ok?
    requires Provable(wanted, Items(before).value)
    ensures var candidate := StaticSpec(before, wanted, classes).value.0;
      CheckNoExpansion(before, candidate).Safe?
  {
    CandidateIsAccepted(before, wanted, classes);
    CandidateIsObjects(before, wanted, classes);
    AcceptedIsReadable(before);
    var candidate := StaticSpec(before, wanted, classes).value.0;
    AcceptedIsReadable(candidate);
    var was, now := Statements(before).value, Statements(candidate).value;
    var items, objects := Items(before).value, Items(candidate).value;
    forall s <- now, a <- s.actions, r <- s.resources
      ensures exists existing <- was :: PairCovered(a, r, existing)
    {
      var j :| 0 <= j < |now| && now[j] == s;
      var i := KeptComesFrom(wanted, items, |items|, classes, j);
      KeptIsCovered(items, wanted, classes, i, objects[j], a, r);
      assert was[i] in was;
    }
  }

  lemma KeptHasNoWildcard(before: Json, wanted: seq<string>, classes: (string, string) -> bool, a: string)
    requires StaticSpec(before, wanted, classes).Ok? && Literal(wanted, Items(before).value)
    requires Items(StaticSpec(before, wanted, classes).value.0).Some?
    requires a in Written(Items(StaticSpec(before, wanted, classes).value.0).value, "Action")
    ensures !IsBroad(a)
  {
    CandidateIsObjects(before, wanted, classes);
    var items := Items(before).value;
    var objects := Items(StaticSpec(before, wanted, classes).value.0).value;
    var entry :| entry in objects && a in Listed(entry, "Action");
    var j :| 0 <= j < |objects| && objects[j] == entry;
    var i := KeptComesFrom(wanted, items, |items|, classes, j);
    KeptIsNotBroad(items, wanted, classes, i, entry, a);
  }

  lemma KeptIsNotBroad(items: seq<map<string, Json>>, wanted: seq<string>, classes: (string, string) -> bool, i: nat,
                       kept: map<string, Json>, a: string)
    requires i < |items| && Literal(wanted, items)
    requires Obj(kept) in Kept(items[i], WantedFrom(wanted, items, i, i + 1, classes))
    requires a in Listed(kept, "Action")
    ensures !IsBroad(a)
  {
    if BroadItem(items[i]) {
      PackIsListed(WantedFrom(wanted, items, i, i + 1, classes));
      assert Listed(kept, "Action") == WantedFrom(wanted, items, i, i + 1, classes);
      NeededIsTaken(wanted, items, i, classes, a);
    }
  }

  lemma {:induction false} NothingBroadNothingChanged(
      wanted: seq<string>, items: seq<map<string, Json>>, k: nat, classes: (string, string) -> bool)
    requires k <= |items| && !OverBroad(items)
    ensures |KeptUpTo(wanted, items, k, classes)| == k
    ensures forall i | 0 <= i < k :: KeptUpTo(wanted, items, k, classes)[i] == Obj(items[i])
  {
    if k > 0 {
      NothingBroadNothingChanged(wanted, items, k - 1, classes);
      assert items[k - 1] in items;
    }
  }

  lemma CandidateHasNoPlaceholders(before: Json, wanted: seq<string>, classes: (string, string) -> bool)
    requires StaticSpec(before, wanted, classes).Ok? && Provable(wanted, Items(before).value)
    ensures var candidate := StaticSpec(before, wanted, classes).value.0;
      Items(candidate).Some? && !Placeholders(Items(candidate).value)
  {
    CandidateIsObjects(before, wanted, classes);
    var items := Items(before).value;
    var objects := Items(StaticSpec(before, wanted, classes).value.0).value;
    forall entry <- objects, r <- Listed(entry, "Resource")
      ensures !HasPlaceholder(r)
    {
      var j :| 0 <= j < |objects| && objects[j] == entry;
      var i := KeptComesFrom(wanted, items, |items|, classes, j);
      KeptHasItsResources(items[i], WantedFrom(wanted, items, i, i + 1, classes), entry);
      assert items[i] in items;
    }
  }

  lemma KeptHasItsResources(item: map<string, Json>, needed: seq<string>, kept: map<string, Json>)
    requires Obj(kept) in Kept(item, needed)
    ensures Listed(kept, "Resource") == Listed(item, "Resource")
  {
    assert Get(kept, "Resource") == Get(item, "Resource");
  }

  predicate OverBroad(items: seq<map<string, Json>>) {
    exists item <- items :: BroadItem(item)
  }

  /** End to end without AWS: the static candidate of a provable policy is offered as strictly
      narrower exactly when the policy is over-broad, and is never an expansion or undecided. */
  lemma StaticCandidatePassesIff(before: Json, wanted: seq<string>, classes: (string, string) -> bool, candidate: Json,
                                 dropped: seq<string>)
    requires Statements(before).Ok? && Items(before).Some? && Provable(wanted, Items(before).value)
    requires StaticSpec(before, wanted, classes) == Ok((candidate, dropped))
    ensures var answer := EvaluateNarrowing(before, candidate, NotAsked);
      answer.Some? && answer.value.verdict == if OverBroad(Items(before).value) then StrictlyNarrower else NotNarrower
  {
    if OverBroad(Items(before).value) {
      OverBroadPasses(before, wanted, classes, candidate, dropped);
    } else {
      ExactStays(before, wanted, classes, candidate, dropped);
    }
  }

  lemma OverBroadPasses(before: Json, wanted: seq<string>, classes: (string, string) -> bool, candidate: Json,
                        dropped: seq<string>)
    requires Statements(before).Ok? && Items(before).Some? && Provable(wanted, Items(before).value)
    requires StaticSpec(before, wanted, classes) == Ok((candidate, dropped)) && OverBroad(Items(before).value)
    ensures var answer := EvaluateNarrowing(before, candidate, NotAsked);
      answer.Some? && answer.value.verdict == StrictlyNarrower
  {
    SomethingBroadIsGone(before, wanted, classes);
    StaticGate(before, wanted, classes);
  }

  lemma ExactStays(before: Json, wanted: seq<string>, classes: (string, string) -> bool, candidate: Json,
                   dropped: seq<string>)
    requires Statements(before).Ok? && Items(before).Some? && Provable(wanted, Items(before).value)
    requires StaticSpec(before, wanted, classes) == Ok((candidate, dropped)) && !OverBroad(Items(before).value)
    ensures var answer := EvaluateNarrowing(before, candidate, NotAsked);
      answer.Some? && answer.value.verdict == NotNarrower
  {
    StaticGate(before, wanted, classes);
    NothingIsGone(before, wanted, classes);
  }

  lemma StaticGate(before: Json, wanted: seq<string>, classes: (string, string) -> bool)
    requires Statements(before).Ok? && Items(before).Some? && StaticSpec(before, wanted, classes).Ok?
    requires Provable(wanted, Items(before).value)
    ensures var candidate := StaticSpec(before, wanted, classes).value.0;
      && Items(candidate).Some?
      && var was, now := Items(before).value, Items(candidate).value;
         EvaluateNarrowing(before, candidate, NotAsked) ==
         Some(Judge(Safe, candidate == before, RemovedActions(was, now), RemovedResources(was, now), NotAsked))
  {
    var candidate := StaticSpec(before, wanted, classes).value.0;
    CandidateIsAccepted(before, wanted, classes);
    CandidateIsSafe(before, wanted, classes);
    CandidateHasNoPlaceholders(before, wanted, classes);
    AcceptedIsReadable(before);
    AcceptedIsReadable(candidate);
    SafeGate(before, candidate);
  }

  lemma NothingIsGone(before: Json, wanted: seq<string>, classes: (string, string) -> bool)
    requires StaticSpec(before, wanted, classes).Ok? && !OverBroad(Items(before).value)
    ensures var candidate := StaticSpec(before, wanted, classes).value.0;
      && Items(candidate).Some?
      && var was, now := Items(before).value, Items(candidate).value;
         Judge(Safe, candidate == before, RemovedActions(was, now), RemovedResources(was, now), NotAsked).verdict ==
           NotNarrower
  {
    var items := Items(before).value;
    NothingBroadNothingChanged(wanted, items, |items|, classes);
    CandidateIsObjects(before, wanted, classes);
    assert Items(StaticSpec(before, wanted, classes).value.0).value == items;
    NothingRemoved(items);
  }

  lemma NothingRemoved(items: seq<map<string, Json>>)
    ensures RemovedActions(items, items) == {} && RemovedResources(items, items) == {}
  {
    AllLowered(Written(items, "Action"));
  }

  lemma SafeGate(before: Json, candidate: Json)
    requires CanRead(before) && CanRead(candidate)
    requires !Placeholders(Items(candidate).value) && CheckNoExpansion(before, candidate).Safe?
    ensures var was, now := Items(before).value, Items(candidate).value;
      EvaluateNarrowing(before, candidate, NotAsked) ==
      Some(Judge(Safe, candidate == before, RemovedActions(was, now), RemovedResources(was, now), NotAsked))
  {
  }

  lemma SomethingBroadIsGone(before: Json, wanted: seq<string>, classes: (string, string) -> bool)
    requires StaticSpec(before, wanted, classes).Ok? && Provable(wanted, Items(before).value)
    requires OverBroad(Items(before).value)
    ensures var candidate := StaticSpec(before, wanted, classes).value.0;
      && Items(candidate).Some?
      && var was, now := Items(before).value, Items(candidate).value;
         Judge(Safe, candidate == before, RemovedActions(was, now), RemovedResources(was, now), NotAsked).verdict ==
           StrictlyNarrower
  {
    CandidateIsObjects(before, wanted, classes);
    var item :| item in Items(before).value && BroadItem(item);
    var p :| p in Listed(item, "Action") && IsBroad(p);
    BroadIsGone(before, wanted, classes, p);
    assert p in Written(Items(before).value, "Action");
    GoneMeansNarrower(before, StaticSpec(before, wanted, classes).value.0, p);
  }

  lemma GoneMeansNarrower(before: Json, candidate: Json, p: string)
    requires Items(before).Some? && Items(candidate).Some?
    requires p in Written(Items(before).value, "Action") && p !in Written(Items(candidate).value, "Action")
    requires Lower(p) !in Lowered(Written(Items(candidate).value, "Action"))
    ensures var was, now := Items(before).value, Items(candidate).value;
      Judge(Safe, candidate == before, RemovedActions(was, now), RemovedResources(was, now), NotAsked).verdict ==
        StrictlyNarrower
  {
    assert p in RemovedActions(Items(before).value, Items(candidate).value);
  }

  lemma AllLowered(values: set<string>)
    ensures forall a <- values :: Lower(a) in Lowered(values)
  {
  }

  lemma BroadIsGone(before: Json, wanted: seq<string>, classes: (string, string) -> bool, p: string)
    requires StaticSpec(before, wanted, classes).Ok? && Provable(wanted, Items(before).value) && IsBroad(p)
    requires Items(StaticSpec(before, wanted, classes).value.0).Some?
    ensures Lower(p) !in Lowered(Written(Items(StaticSpec(before, wanted, classes).value.0).value, "Action"))
    ensures p !in Written(Items(StaticSpec(before, wanted, classes).value.0).value, "Action")
  {
    ProvableIsLiteral(wanted, Items(before).value);
    forall a <- Written(Items(StaticSpec(before, wanted, classes).value.0).value, "Action")
      ensures Lower(a) != Lower(p)
    {
      KeptHasNoWildcard(before, wanted, classes, a);
      LowerKeeps(a, WILDCARDS);
      LowerKeeps(p, WILDCARDS);
    }
  }
}
