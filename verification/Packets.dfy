/** Evidence packets: the findings of a scan with their policy decisions, grouped, ranked and
    numbered for explanation. */
module Packets {
  import opened Json
  import opened Listings

  /** Texts that are sorted are given by their code points. */
  type Text = seq<int>

  datatype Finding = Finding(
    id: string, category: string, rule: Text, detector: string, severity: string, path: Text, line: Option<int>)

  /** The effective severity is empty when the decision has none. */
  datatype Decision = Decision(findingId: string, outcome: string, contentHash: string, policyVersion: string,
                               severity: string)

  /** The decisions are None when they are not a list of objects. */
  datatype Policy = Policy(version: string, versionIsValid: bool, sourceHash: string, evaluated: bool,
                           decisions: Option<seq<Decision>>)

  datatype Rejection = VersionInvalid | SourceMismatch | DecisionsInvalid | FindingsMismatch | DecisionInconsistent

  const OUTCOMES: set<string> := {"deny", "needs_human_approval", "permit"}

  function OutcomeOrder(outcome: string): int {
    if outcome == "deny" then 0 else if outcome == "needs_human_approval" then 1 else 2
  }

  function SeverityOrder(severity: string): int {
    if severity == "critical" then 0 else if severity == "high" then 1 else if severity == "medium" then 2
    else if severity == "low" then 3 else if severity == "info" then 4 else 5
  }

  function CategoryOrder(category: string): int {
    if category == "secret" then 0 else if category == "iam_wildcard" then 1 else if category == "missing_auth" then 2
    else if category == "unsafe_command_execution" then 3 else if category == "missing_input_validation" then 4
    else if category == "missing_environment_variable" then 5 else 9
  }

  // ---------------------------------------------------------------- consistency

  /** `dict` of a list: of equal ids the last one stays. */
  function DecisionsById(decisions: seq<Decision>): (m: map<string, Decision>)
    ensures m.Keys == set d <- decisions :: d.findingId
  {
    if decisions == [] then map[]
    else
      var last := decisions[|decisions| - 1];
      DecisionsById(decisions[..|decisions| - 1])[last.findingId := last]
  }

  function FindingsById(findings: seq<Finding>): (m: map<string, Finding>)
    ensures m.Keys == set f <- findings :: f.id
  {
    if findings == [] then map[]
    else
      var last := findings[|findings| - 1];
      FindingsById(findings[..|findings| - 1])[last.id := last]
  }

  predicate DistinctIds(decisions: seq<Decision>) {
    forall i, j | 0 <= i < j < |decisions| :: decisions[i].findingId != decisions[j].findingId
  }

  predicate OnePerFinding(findings: seq<Finding>, decisions: seq<Decision>) {
    DistinctIds(decisions) && (set d <- decisions :: d.findingId) == (set f <- findings :: f.id)
  }

  lemma {:induction false} DistinctByCount(decisions: seq<Decision>)
    ensures |DecisionsById(decisions)| <= |decisions|
    ensures |DecisionsById(decisions)| == |decisions| <==> DistinctIds(decisions)
  {
    if decisions != [] {
      var before, last := decisions[..|decisions| - 1], decisions[|decisions| - 1];
      assert decisions == before + [last];
      DistinctByCount(before);
      DistinctOneMore(before, last);
      CountOneMore(DecisionsById(before), |before|, DistinctIds(before), last);
      assert DecisionsById(decisions) == DecisionsById(before)[last.findingId := last];
    }
  }

  lemma CountOneMore(m: map<string, Decision>, n: nat, distinct: bool, last: Decision)
    requires |m| <= n && (|m| == n <==> distinct)
    ensures var more := m[last.findingId := last];
      |more| <= n + 1 && (|more| == n + 1 <==> distinct && last.findingId !in m)
  {
    assert m[last.findingId := last].Keys == m.Keys + {last.findingId};
    if last.findingId in m {
      assert m[last.findingId := last].Keys == m.Keys;
    }
  }

  lemma DistinctOneMore(before: seq<Decision>, last: Decision)
    ensures DistinctIds(before + [last]) <==> DistinctIds(before) && last.findingId !in DecisionsById(before)
  {
    var all := before + [last];
    if DistinctIds(all) {
      assert forall i | 0 <= i < |before| :: all[i] == before[i];
      forall d <- before
        ensures d.findingId != last.findingId
      {
        var i :| 0 <= i < |before| && before[i] == d;
        assert all[i].findingId != all[|before|].findingId;
      }
    }
    if last.findingId !in DecisionsById(before) {
      assert forall i | 0 <= i < |before| :: before[i] in before;
    }
  }

  predicate IsConsistent(d: Decision, contentHash: string, version: string, category: string, playbooks: set<string>) {
    d.outcome in OUTCOMES && d.contentHash == contentHash && d.policyVersion == version && category in playbooks
  }

  /** Why a report and a policy result are rejected. */
  function Problem(findings: seq<Finding>, contentHash: string, policy: Policy,
                   playbooks: set<string>): Option<Rejection> {
    if !policy.versionIsValid then Some(VersionInvalid)
    else if policy.sourceHash != contentHash || contentHash == "" then Some(SourceMismatch)
    else if !policy.evaluated then None
    else if policy.decisions.None? then Some(DecisionsInvalid)
    else if !OnePerFinding(findings, policy.decisions.value) then Some(FindingsMismatch)
    else if AllConsistent(policy.decisions.value, FindingsById(findings), contentHash, policy.version, playbooks) then
      None
    else Some(DecisionInconsistent)
  }

  predicate AllConsistent(decisions: seq<Decision>, known: map<string, Finding>, contentHash: string, version: string,
                          playbooks: set<string>) {
    forall d <- decisions ::
      d.findingId in known && IsConsistent(d, contentHash, version, known[d.findingId].category, playbooks)
  }

  lemma OnePerFindingByCount(findings: seq<Finding>, decisions: seq<Decision>)
    ensures var byId, known := DecisionsById(decisions), FindingsById(findings);
      && (|byId| == |decisions| && byId.Keys == known.Keys <==> OnePerFinding(findings, decisions))
      && (byId.Keys == known.Keys ==>
            (forall d <- decisions :: d.findingId in known) && forall f <- findings :: f.id in byId)
  {
    DistinctByCount(decisions);
    var byId, known := DecisionsById(decisions), FindingsById(findings);
    assert (forall d <- decisions :: d.findingId in byId.Keys) && forall f <- findings :: f.id in known.Keys;
  }

  // ---------------------------------------------------------------- stable sorting

  type SortKey = seq<Text>

  predicate KeyBefore(a: SortKey, b: SortKey) {
    b != [] && (a == [] || Before(a[0], b[0]) || (a[0] == b[0] && KeyBefore(a[1..], b[1..])))
  }

  lemma {:induction false} KeysAreOrdered(a: SortKey, b: SortKey, c: SortKey)
    ensures !(KeyBefore(a, b) && KeyBefore(b, a))
    ensures !KeyBefore(b, a) && !KeyBefore(c, b) ==> !KeyBefore(c, a)
  {
    if a != [] && b != [] {
      BeforeIsTotal(a[0], b[0]);
      if c != [] {
        BeforeIsTotal(b[0], c[0]);
        BeforeIsTotal(a[0], c[0]);
        KeysAreOrdered(a[1..], b[1..], c[1..]);
        OrderChains(a[0], b[0], c[0]);
      } else {
        KeysAreOrdered(a[1..], b[1..], []);
      }
    }
  }

  lemma OrderChains(a: Text, b: Text, c: Text)
    ensures !Before(b, a) && !Before(c, b) ==> !Before(c, a)
  {
    BeforeIsTotal(a, b);
    BeforeIsTotal(b, c);
    BeforeIsTotal(a, c);
    if Before(a, b) && Before(b, c) {
      BeforeIsTransitive(a, b, c);
    }
  }

  /** A strict order in which unrelated items are interchangeable. */
  ghost predicate StrictWeak<T(!new)>(before: (T, T) -> bool) {
    && (forall a, b :: !(before(a, b) && before(b, a)))
    && (forall a, b, c :: !before(b, a) && !before(c, b) ==> !before(c, a))
  }

  function ByKey<T>(key: T -> SortKey): (T, T) -> bool {
    (a: T, b: T) => KeyBefore(key(a), key(b))
  }

  lemma KeysAreStrictWeak<T(!new)>(key: T -> SortKey)
    ensures StrictWeak(ByKey(key))
  {
    forall a, b
      ensures !(ByKey(key)(a, b) && ByKey(key)(b, a))
    {
      KeysAreOrdered(key(a), key(b), key(a));
    }
    forall a, b, c
      ensures !ByKey(key)(b, a) && !ByKey(key)(c, b) ==> !ByKey(key)(c, a)
    {
      KeysAreOrdered(key(a), key(b), key(c));
    }
  }

  /** Python's `sort`: an item goes after those that are not after it. */
  function InsertBy<T>(x: T, s: seq<T>, before: (T, T) -> bool): (r: seq<T>)
    ensures multiset(r) == multiset(s) + multiset{x}
  {
    if s == [] then [x]
    else
      var last := s[|s| - 1];
      assert s == s[..|s| - 1] + [last];
      if before(x, last) then InsertBy(x, s[..|s| - 1], before) + [last] else s + [x]
  }

  function SortBy<T>(s: seq<T>, before: (T, T) -> bool): (r: seq<T>)
    ensures multiset(r) == multiset(s)
  {
    if s == [] then []
    else
      assert s == s[..|s| - 1] + [s[|s| - 1]];
      InsertBy(s[|s| - 1], SortBy(s[..|s| - 1], before), before)
  }

  predicate SortedBy<T>(s: seq<T>, before: (T, T) -> bool) {
    forall i, j | 0 <= i < j < |s| :: !before(s[j], s[i])
  }

  lemma {:induction false} InsertKeepsSorted<T(!new)>(x: T, s: seq<T>, before: (T, T) -> bool)
    requires StrictWeak(before) && SortedBy(s, before)
    ensures SortedBy(InsertBy(x, s, before), before)
  {
    if s != [] {
      var last, rest := s[|s| - 1], s[..|s| - 1];
      if before(x, last) {
        InsertKeepsSorted(x, rest, before);
        forall e <- InsertBy(x, rest, before)
          ensures !before(last, e)
        {
          assert e in multiset(rest) + multiset{x};
          if e in rest {
            var i :| 0 <= i < |rest| && rest[i] == e;
            assert s[i] == e;
          }
        }
      } else {
        forall i | 0 <= i < |s|
          ensures !before(x, s[i])
        {
          assert i < |s| - 1 ==> !before(last, s[i]);
        }
      }
    }
  }

  lemma {:induction false} SortSorts<T(!new)>(s: seq<T>, before: (T, T) -> bool)
    requires StrictWeak(before)
    ensures SortedBy(SortBy(s, before), before) && |SortBy(s, before)| == |s|
  {
    assert |multiset(SortBy(s, before))| == |SortBy(s, before)| && |multiset(s)| == |s|;
    if s != [] {
      SortSorts(s[..|s| - 1], before);
      InsertKeepsSorted(s[|s| - 1], SortBy(s[..|s| - 1], before), before);
    }
  }

  // ---------------------------------------------------------------- groups

  datatype Key = Key(category: string, rule: Text, detector: string, outcome: string, severity: string)

  datatype Location = Location(number: nat, path: Text, line: Option<int>)

  /** The members stand for their finding ids. */
  datatype Draft = Draft(key: Key, members: seq<Finding>, locations: seq<Location>)

  datatype Group = Group(number: nat, key: Key, members: seq<Finding>, locations: seq<Location>, omitted: nat)

  /** Cleaning a text keeps at most so many characters of it. */
  type Cleaner = (Text, nat) -> Text

  const MAX_LOCATIONS: nat := 12
  const MAX_TEXT: nat := 240
  const MAX_RULE: nat := 80

  function KeyOf(f: Finding, decisions: map<string, Decision>): Key
    requires f.id in decisions
  {
    var d := decisions[f.id];
    Key(f.category, f.rule, f.detector, d.outcome, if d.severity != "" then d.severity else f.severity)
  }

  /** The findings of a key, in the order of the report. */
  function WithKey(findings: seq<Finding>, decisions: map<string, Decision>, key: Key): seq<Finding>
    requires forall f <- findings :: f.id in decisions
  {
    if findings == [] then []
    else
      var last := findings[|findings| - 1];
      WithKey(findings[..|findings| - 1], decisions, key) + if KeyOf(last, decisions) == key then [last] else []
  }

  function LineOf(f: Finding): int {
    if f.line.Some? then f.line.value else 0
  }

  function PlaceOf(f: Finding): SortKey {
    [f.path, [LineOf(f)]]
  }

  function ByPlace(): (Finding, Finding) -> bool {
    ByKey(PlaceOf)
  }

  function Slashes(path: Text): Text {
    seq(|path|, i requires 0 <= i < |path| => if path[i] == 92 then 47 else path[i])
  }

  function LocationOf(f: Finding, number: nat, clean: Cleaner): Location {
    Location(number, clean(Slashes(f.path), MAX_TEXT), if LineOf(f) > 0 then f.line else None)
  }

  function LocationsOf(members: seq<Finding>, clean: Cleaner): (locations: seq<Location>)
    ensures |locations| == |members|
  {
    if members == [] then []
    else LocationsOf(members[..|members| - 1], clean) + [LocationOf(members[|members| - 1], |members|, clean)]
  }

  function RankOf(d: Draft, clean: Cleaner): SortKey {
    [[OutcomeOrder(d.key.outcome), SeverityOrder(d.key.severity), CategoryOrder(d.key.category), -|d.members|],
     clean(d.key.rule, MAX_RULE),
     if d.locations == [] then [] else d.locations[0].path]
  }

  function KeysOf(drafts: seq<Draft>): (keys: seq<Key>)
    ensures |keys| == |drafts| && forall i | 0 <= i < |drafts| :: keys[i] == drafts[i].key
  {
    if drafts == [] then [] else KeysOf(drafts[..|drafts| - 1]) + [drafts[|drafts| - 1].key]
  }

  predicate DistinctKeys(keys: seq<Key>) {
    forall i, j | 0 <= i < j < |keys| :: keys[i] != keys[j]
  }

  /** The keys in the order they came up, each with all the findings that have it. */
  ghost predicate Bucketed(findings: seq<Finding>, decisions: map<string, Decision>, order: seq<Key>,
                           buckets: map<Key, seq<Finding>>)
    requires forall f <- findings :: f.id in decisions
  {
    && DistinctKeys(order)
    && (forall key :: key in order <==> key in buckets)
    && (forall key <- buckets :: buckets[key] != [] && buckets[key] == WithKey(findings, decisions, key))
    && (forall f <- findings :: KeyOf(f, decisions) in buckets)
  }

  lemma {:induction false} NoneWithKey(findings: seq<Finding>, decisions: map<string, Decision>, key: Key)
    requires forall f <- findings :: f.id in decisions && KeyOf(f, decisions) != key
    ensures WithKey(findings, decisions, key) == []
  {
    if findings != [] {
      NoneWithKey(findings[..|findings| - 1], decisions, key);
    }
  }

  lemma WithKeyOneMore(findings: seq<Finding>, f: Finding, decisions: map<string, Decision>, key: Key)
    requires (forall g <- findings :: g.id in decisions) && f.id in decisions
    ensures WithKey(findings + [f], decisions, key) ==
      WithKey(findings, decisions, key) + if KeyOf(f, decisions) == key then [f] else []
  {
    assert (findings + [f])[..|findings|] == findings;
  }

  function AddToOrder(order: seq<Key>, buckets: map<Key, seq<Finding>>, key: Key): seq<Key> {
    if key in buckets then order else order + [key]
  }

  function AddToBucket(buckets: map<Key, seq<Finding>>, key: Key, f: Finding): map<Key, seq<Finding>> {
    buckets[key := (if key in buckets then buckets[key] else []) + [f]]
  }

  lemma BucketOne(findings: seq<Finding>, decisions: map<string, Decision>, order: seq<Key>,
                  buckets: map<Key, seq<Finding>>, f: Finding)
    requires (forall g <- findings :: g.id in decisions) && f.id in decisions
    requires Bucketed(findings, decisions, order, buckets)
    ensures var key := KeyOf(f, decisions);
      Bucketed(findings + [f], decisions, AddToOrder(order, buckets, key), AddToBucket(buckets, key, f))
  {
    var key := KeyOf(f, decisions);
    if key !in buckets {
      NoneWithKey(findings, decisions, key);
    }
    forall k <- AddToBucket(buckets, key, f)
      ensures var b := AddToBucket(buckets, key, f)[k]; b != [] && b == WithKey(findings + [f], decisions, k)
    {
      WithKeyOneMore(findings, f, decisions, k);
    }
  }

  /** `setdefault(key, []).append(...)` for every finding. */
  method Bucket(findings: seq<Finding>, decisions: map<string, Decision>)
    returns (order: seq<Key>, buckets: map<Key, seq<Finding>>)
    requires forall f <- findings :: f.id in decisions
    ensures Bucketed(findings, decisions, order, buckets)
  {
    order, buckets := [], map[];
    for n := 0 to |findings|
      invariant Bucketed(findings[..n], decisions, order, buckets)
    {
      assert findings[..n + 1] == findings[..n] + [findings[n]];
      BucketOne(findings[..n], decisions, order, buckets, findings[n]);
      var key := KeyOf(findings[n], decisions);
      order, buckets := AddToOrder(order, buckets, key), AddToBucket(buckets, key, findings[n]);
    }
    assert findings[..|findings|] == findings;
  }

  // ---------------------------------------------------------------- the packet

  function DraftOf(key: Key, members: seq<Finding>, clean: Cleaner): Draft {
    Draft(key, SortBy(members, ByPlace()), LocationsOf(SortBy(members, ByPlace()), clean))
  }

  function GroupOf(number: nat, d: Draft): Group {
    Group(number, d.key, d.members,
          if |d.locations| <= MAX_LOCATIONS then d.locations else d.locations[..MAX_LOCATIONS],
          if |d.locations| <= MAX_LOCATIONS then 0 else |d.locations| - MAX_LOCATIONS)
  }

  /** A draft holds the findings of its key, in the order of their places. */
  ghost predicate IsDraft(findings: seq<Finding>, decisions: map<string, Decision>, clean: Cleaner, d: Draft)
    requires forall f <- findings :: f.id in decisions
  {
    && d.members != [] && multiset(d.members) == multiset(WithKey(findings, decisions, d.key))
    && SortedBy(d.members, ByPlace())
    && d.locations == LocationsOf(d.members, clean)
  }

  lemma DraftOfIsDraft(findings: seq<Finding>, decisions: map<string, Decision>, clean: Cleaner, key: Key)
    requires (forall f <- findings :: f.id in decisions) && WithKey(findings, decisions, key) != []
    ensures IsDraft(findings, decisions, clean, DraftOf(key, WithKey(findings, decisions, key), clean))
  {
    KeysAreStrictWeak(PlaceOf);
    SortSorts(WithKey(findings, decisions, key), ByPlace());
  }

  /** What the drafts of a packet are. */
  ghost predicate Drafted(findings: seq<Finding>, decisions: map<string, Decision>, clean: Cleaner, drafts: seq<Draft>)
    requires forall f <- findings :: f.id in decisions
  {
    && DistinctKeys(KeysOf(drafts))
    && AllDrafts(findings, decisions, clean, drafts)
    && (forall f <- findings :: KeyOf(f, decisions) in KeysOf(drafts))
  }

  ghost predicate AllDrafts(findings: seq<Finding>, decisions: map<string, Decision>, clean: Cleaner,
                            drafts: seq<Draft>)
    requires forall f <- findings :: f.id in decisions
  {
    forall d <- drafts :: IsDraft(findings, decisions, clean, d)
  }

  lemma OneMoreDraft(findings: seq<Finding>, decisions: map<string, Decision>, clean: Cleaner, drafts: seq<Draft>,
                     d: Draft)
    requires forall f <- findings :: f.id in decisions
    requires AllDrafts(findings, decisions, clean, drafts) && IsDraft(findings, decisions, clean, d)
    ensures AllDrafts(findings, decisions, clean, drafts + [d]) && KeysOf(drafts + [d]) == KeysOf(drafts) + [d.key]
  {
    assert (drafts + [d])[..|drafts|] == drafts;
  }

  method MakeDrafts(findings: seq<Finding>, decisions: map<string, Decision>, clean: Cleaner)
    returns (drafts: seq<Draft>)
    requires forall f <- findings :: f.id in decisions
    ensures Drafted(findings, decisions, clean, drafts)
  {
    var order, buckets := Bucket(findings, decisions);
    drafts := [];
    for i := 0 to |order|
      invariant DraftsUpTo(findings, decisions, clean, order, i, drafts)
    {
      NextDraft(findings, decisions, clean, order, buckets, i, drafts);
      drafts := drafts + [DraftOf(order[i], buckets[order[i]], clean)];
    }
    DraftsAreDone(findings, decisions, clean, order, buckets, drafts);
  }

  ghost predicate DraftsUpTo(findings: seq<Finding>, decisions: map<string, Decision>, clean: Cleaner,
                             order: seq<Key>, i: nat, drafts: seq<Draft>)
    requires (forall f <- findings :: f.id in decisions) && i <= |order|
  {
    KeysOf(drafts) == order[..i] && AllDrafts(findings, decisions, clean, drafts)
  }

  lemma NextDraft(findings: seq<Finding>, decisions: map<string, Decision>, clean: Cleaner, order: seq<Key>,
                  buckets: map<Key, seq<Finding>>, i: nat, drafts: seq<Draft>)
    requires (forall f <- findings :: f.id in decisions) && Bucketed(findings, decisions, order, buckets)
    requires i < |order| && DraftsUpTo(findings, decisions, clean, order, i, drafts)
    ensures order[i] in buckets
    ensures DraftsUpTo(findings, decisions, clean, order, i + 1, drafts + [DraftOf(order[i], buckets[order[i]], clean)])
  {
    var key := order[i];
    assert key in order && order[..i + 1] == order[..i] + [key];
    DraftOfIsDraft(findings, decisions, clean, key);
    OneMoreDraft(findings, decisions, clean, drafts, DraftOf(key, buckets[key], clean));
  }

  lemma DraftsAreDone(findings: seq<Finding>, decisions: map<string, Decision>, clean: Cleaner, order: seq<Key>,
                      buckets: map<Key, seq<Finding>>, drafts: seq<Draft>)
    requires (forall f <- findings :: f.id in decisions) && Bucketed(findings, decisions, order, buckets)
    requires DraftsUpTo(findings, decisions, clean, order, |order|, drafts)
    ensures Drafted(findings, decisions, clean, drafts)
  {
    assert order[..|order|] == order;
  }

  function Ranking(clean: Cleaner): (Draft, Draft) -> bool {
    ByKey((d: Draft) => RankOf(d, clean))
  }

  lemma RankingIsStrictWeak(clean: Cleaner)
    ensures StrictWeak(Ranking(clean))
  {
    KeysAreStrictWeak((d: Draft) => RankOf(d, clean));
  }

  function Numbered(drafts: seq<Draft>): (groups: seq<Group>)
    ensures |groups| == |drafts| && forall i | 0 <= i < |drafts| :: groups[i] == GroupOf(i + 1, drafts[i])
  {
    if drafts == [] then [] else Numbered(drafts[..|drafts| - 1]) + [GroupOf(|drafts|, drafts[|drafts| - 1])]
  }

  /** The groups of a packet are the drafts in order of rank, numbered from one. */
  ghost predicate Packed(findings: seq<Finding>, decisions: map<string, Decision>, clean: Cleaner, groups: seq<Group>,
                         drafts: seq<Draft>)
    requires forall f <- findings :: f.id in decisions
  {
    Drafted(findings, decisions, clean, drafts) && SortedBy(drafts, Ranking(clean)) && groups == Numbered(drafts)
  }

  lemma {:induction false} OneOfEach(keys: seq<Key>, key: Key)
    requires DistinctKeys(keys)
    ensures multiset(keys)[key] <= 1
  {
    if keys != [] {
      var last, before := keys[|keys| - 1], keys[..|keys| - 1];
      assert keys == before + [last];
      OneOfEach(before, key);
      if key == last {
        assert key !in before;
      }
    }
  }

  lemma TwoOfOne(keys: seq<Key>, i: nat, j: nat)
    requires i < j < |keys| && keys[i] == keys[j]
    ensures multiset(keys)[keys[i]] >= 2
  {
    assert keys == keys[..j] + [keys[j]] + keys[j + 1..];
    assert keys[..j][i] in keys[..j];
  }

  /** Sorting drafts only rearranges their keys. */
  lemma {:induction false} KeysOfInsert(d: Draft, s: seq<Draft>, before: (Draft, Draft) -> bool)
    ensures multiset(KeysOf(InsertBy(d, s, before))) == multiset(KeysOf(s)) + multiset{d.key}
  {
    if s != [] {
      var last, rest := s[|s| - 1], s[..|s| - 1];
      KeysOfInsert(d, rest, before);
      assert KeysOf(s) == KeysOf(rest) + [last.key];
      assert KeysOf(InsertBy(d, rest, before) + [last]) == KeysOf(InsertBy(d, rest, before)) + [last.key];
      assert KeysOf(s + [d]) == KeysOf(s) + [d.key];
    }
  }

  lemma {:induction false} KeysOfSort(s: seq<Draft>, before: (Draft, Draft) -> bool)
    ensures multiset(KeysOf(SortBy(s, before))) == multiset(KeysOf(s))
  {
    if s != [] {
      KeysOfSort(s[..|s| - 1], before);
      KeysOfInsert(s[|s| - 1], SortBy(s[..|s| - 1], before), before);
      assert KeysOf(s) == KeysOf(s[..|s| - 1]) + [s[|s| - 1].key];
    }
  }

  lemma DistinctRearranged(a: seq<Key>, b: seq<Key>)
    requires DistinctKeys(a) && multiset(a) == multiset(b)
    ensures DistinctKeys(b) && forall key :: key in a <==> key in b
  {
    assert forall key :: key in a <==> key in multiset(a);
    assert forall key :: key in b <==> key in multiset(b);
    forall i, j | 0 <= i < j < |b|
      ensures b[i] != b[j]
    {
      OneOfEach(a, b[i]);
      if b[i] == b[j] {
        TwoOfOne(b, i, j);
      }
    }
  }

  lemma RankingKeepsDrafts(findings: seq<Finding>, decisions: map<string, Decision>, clean: Cleaner, drafts: seq<Draft>)
    requires (forall f <- findings :: f.id in decisions) && Drafted(findings, decisions, clean, drafts)
    ensures Drafted(findings, decisions, clean, SortBy(drafts, Ranking(clean)))
  {
    var ranked := SortBy(drafts, Ranking(clean));
    KeysOfSort(drafts, Ranking(clean));
    DistinctRearranged(KeysOf(drafts), KeysOf(ranked));
    forall d <- ranked
      ensures d in drafts
    {
      assert d in multiset(ranked);
    }
  }

  /** A packet is refused for the first thing that is wrong with its inputs; without an evaluation it
      has no groups; otherwise it packs every finding. */
  method BuildPacket(findings: seq<Finding>, contentHash: string, policy: Policy, playbooks: set<string>,
                     clean: Cleaner)
    returns (r: Result<seq<Group>, Rejection>, ghost drafts: seq<Draft>)
    ensures r.Err? <==> Problem(findings, contentHash, policy, playbooks).Some?
    ensures r.Err? ==> r.error == Problem(findings, contentHash, policy, playbooks).value
    ensures r.Ok? && !policy.evaluated ==> r.value == []
    ensures r.Ok? && policy.evaluated ==>
      var decisions := DecisionsById(policy.decisions.value);
      (forall f <- findings :: f.id in decisions) && Packed(findings, decisions, clean, r.value, drafts)
  {
    drafts := [];
    if !policy.versionIsValid {
      return Err(VersionInvalid), [];
    }
    if policy.sourceHash != contentHash || contentHash == "" {
      return Err(SourceMismatch), [];
    }
    if !policy.evaluated {
      return Ok([]), [];
    }
    if policy.decisions.None? {
      return Err(DecisionsInvalid), [];
    }
    var decisions := policy.decisions.value;
    var byId, known := DecisionsById(decisions), FindingsById(findings);
    OnePerFindingByCount(findings, decisions);
    if |byId| != |decisions| || byId.Keys != known.Keys {
      return Err(FindingsMismatch), [];
    }
    var consistent := CheckDecisions(decisions, known, contentHash, policy.version, playbooks);
    if !consistent {
      return Err(DecisionInconsistent), [];
    }
    var groups;
    groups, drafts := Pack(findings, byId, clean);
    r := Ok(groups);
  }

  method CheckDecisions(decisions: seq<Decision>, known: map<string, Finding>, contentHash: string, version: string,
                        playbooks: set<string>)
    returns (consistent: bool)
    requires forall d <- decisions :: d.findingId in known
    ensures consistent <==> AllConsistent(decisions, known, contentHash, version, playbooks)
  {
    for n := 0 to |decisions|
      invariant AllConsistent(decisions[..n], known, contentHash, version, playbooks)
    {
      var d := decisions[n];
      assert d in decisions && decisions[..n + 1] == decisions[..n] + [d];
      if !IsConsistent(d, contentHash, version, known[d.findingId].category, playbooks) {
        return false;
      }
    }
    assert decisions[..|decisions|] == decisions;
    consistent := true;
  }

  method Pack(findings: seq<Finding>, decisions: map<string, Decision>, clean: Cleaner)
    returns (groups: seq<Group>, ghost drafts: seq<Draft>)
    requires forall f <- findings :: f.id in decisions
    ensures Packed(findings, decisions, clean, groups, drafts)
  {
    var made := MakeDrafts(findings, decisions, clean);
    var ranked := SortBy(made, Ranking(clean));
    RankingIsStrictWeak(clean);
    SortSorts(made, Ranking(clean));
    RankingKeepsDrafts(findings, decisions, clean, made);
    groups := Number(ranked);
    drafts := ranked;
  }

  method Number(drafts: seq<Draft>) returns (groups: seq<Group>)
    ensures groups == Numbered(drafts)
  {
    groups := [];
    for i := 0 to |drafts|
      invariant groups == Numbered(drafts[..i])
    {
      assert drafts[..i + 1][..i] == drafts[..i];
      groups := groups + [GroupOf(i + 1, drafts[i])];
    }
    assert drafts[..|drafts|] == drafts;
  }

  // ---------------------------------------------------------------- nothing is lost

  function AllMembers(groups: seq<Group>): seq<Finding> {
    if groups == [] then [] else AllMembers(groups[..|groups| - 1]) + groups[|groups| - 1].members
  }

  function MembersOfKeys(findings: seq<Finding>, decisions: map<string, Decision>, keys: seq<Key>): seq<Finding>
    requires forall f <- findings :: f.id in decisions
  {
    if keys == [] then []
    else MembersOfKeys(findings, decisions, keys[..|keys| - 1]) + WithKey(findings, decisions, keys[|keys| - 1])
  }

  lemma GatherTwo(a: seq<Finding>, b: seq<Finding>, a': seq<Finding>, b': seq<Finding>, f: Finding, inA: bool,
                  inB: bool)
    requires multiset(a') == multiset(a) + if inA then multiset{f} else multiset{}
    requires b' == b + (if inB then [f] else []) && !(inA && inB)
    ensures multiset(a' + b') == multiset(a + b) + if inA || inB then multiset{f} else multiset{}
  {
  }

  lemma LastKeyIsNew(keys: seq<Key>)
    requires DistinctKeys(keys) && keys != []
    ensures var before, last := keys[..|keys| - 1], keys[|keys| - 1];
      DistinctKeys(before) && last !in before && forall k :: k in keys <==> k in before || k == last
  {
    assert keys == keys[..|keys| - 1] + [keys[|keys| - 1]];
  }

  lemma {:induction false} OneMoreMember(findings: seq<Finding>, f: Finding, decisions: map<string, Decision>,
                                         keys: seq<Key>)
    requires (forall g <- findings :: g.id in decisions) && f.id in decisions
    requires DistinctKeys(keys)
    ensures multiset(MembersOfKeys(findings + [f], decisions, keys)) ==
      multiset(MembersOfKeys(findings, decisions, keys)) + if KeyOf(f, decisions) in keys then multiset{f}
        else multiset{}
  {
    if keys != [] {
      var before, last := keys[..|keys| - 1], keys[|keys| - 1];
      LastKeyIsNew(keys);
      OneMoreMember(findings, f, decisions, before);
      WithKeyOneMore(findings, f, decisions, last);
      GatherTwo(
        MembersOfKeys(findings, decisions, before), WithKey(findings, decisions, last),
        MembersOfKeys(findings + [f], decisions, before), WithKey(findings + [f], decisions, last),
        f, KeyOf(f, decisions) in before, KeyOf(f, decisions) == last);
    }
  }

  lemma {:induction false} KeysPartition(findings: seq<Finding>, decisions: map<string, Decision>, keys: seq<Key>)
    requires forall f <- findings :: f.id in decisions && KeyOf(f, decisions) in keys
    requires DistinctKeys(keys)
    ensures multiset(MembersOfKeys(findings, decisions, keys)) == multiset(findings)
  {
    if findings == [] {
      NothingInNothing(decisions, keys);
    } else {
      var before, last := findings[..|findings| - 1], findings[|findings| - 1];
      assert findings == before + [last];
      KeysPartition(before, decisions, keys);
      OneMoreMember(before, last, decisions, keys);
    }
  }

  lemma {:induction false} NothingInNothing(decisions: map<string, Decision>, keys: seq<Key>)
    ensures MembersOfKeys([], decisions, keys) == []
  {
    if keys != [] {
      NothingInNothing(decisions, keys[..|keys| - 1]);
    }
  }

  lemma {:induction false} GroupsHoldTheirKeys(
      findings: seq<Finding>, decisions: map<string, Decision>, drafts: seq<Draft>)
    requires forall f <- findings :: f.id in decisions
    requires forall d <- drafts :: multiset(d.members) == multiset(WithKey(findings, decisions, d.key))
    ensures multiset(AllMembers(Numbered(drafts))) == multiset(MembersOfKeys(findings, decisions, KeysOf(drafts)))
  {
    if drafts != [] {
      var before, last := drafts[..|drafts| - 1], drafts[|drafts| - 1];
      assert last in drafts && forall d <- before :: d in drafts;
      GroupsHoldTheirKeys(findings, decisions, before);
      assert Numbered(drafts)[..|before|] == Numbered(before);
      assert KeysOf(drafts)[..|before|] == KeysOf(before);
    }
  }

  lemma {:induction false} WithKeyHasTheKey(findings: seq<Finding>, decisions: map<string, Decision>, key: Key)
    requires forall f <- findings :: f.id in decisions
    ensures forall f <- WithKey(findings, decisions, key) :: f in findings && KeyOf(f, decisions) == key
  {
    if findings != [] {
      WithKeyHasTheKey(findings[..|findings| - 1], decisions, key);
      assert findings == findings[..|findings| - 1] + [findings[|findings| - 1]];
    }
  }

  lemma MembersHaveTheKey(findings: seq<Finding>, decisions: map<string, Decision>, d: Draft)
    requires (forall f <- findings :: f.id in decisions)
      && multiset(d.members) == multiset(WithKey(findings, decisions, d.key))
    ensures forall f <- d.members :: f in findings && KeyOf(f, decisions) == d.key
  {
    WithKeyHasTheKey(findings, decisions, d.key);
    assert forall f <- d.members :: f in multiset(d.members);
  }

  /** The groups partition the findings: every one is in a group as often as the report has it, the
      members of a group agree on everything its key says, and no two groups share a key. */
  lemma PacketPartitions(findings: seq<Finding>, decisions: map<string, Decision>, clean: Cleaner, groups: seq<Group>,
                         drafts: seq<Draft>)
    requires (forall f <- findings :: f.id in decisions) && Packed(findings, decisions, clean, groups, drafts)
    ensures multiset(AllMembers(groups)) == multiset(findings)
    ensures forall g <- groups :: g.members != [] && forall f <- g.members ::
      f in findings && KeyOf(f, decisions) == g.key
    ensures forall i, j | 0 <= i < j < |groups| :: groups[i].key != groups[j].key
  {
    GroupsHoldTheirKeys(findings, decisions, drafts);
    KeysPartition(findings, decisions, KeysOf(drafts));
    GroupsAreUniform(findings, decisions, clean, drafts);
    GroupsDiffer(drafts);
  }

  lemma GroupsAreUniform(findings: seq<Finding>, decisions: map<string, Decision>, clean: Cleaner, drafts: seq<Draft>)
    requires (forall f <- findings :: f.id in decisions) && forall d <- drafts :: IsDraft(findings, decisions, clean, d)
    ensures forall g <- Numbered(drafts) :: g.members != [] && forall f <- g.members ::
      f in findings && KeyOf(f, decisions) == g.key
  {
    forall g <- Numbered(drafts)
      ensures g.members != [] && forall f <- g.members :: f in findings && KeyOf(f, decisions) == g.key
    {
      var i :| 0 <= i < |drafts| && Numbered(drafts)[i] == g;
      assert IsDraft(findings, decisions, clean, drafts[i]);
      MembersHaveTheKey(findings, decisions, drafts[i]);
    }
  }

  lemma GroupsDiffer(drafts: seq<Draft>)
    requires DistinctKeys(KeysOf(drafts))
    ensures forall i, j | 0 <= i < j < |Numbered(drafts)| :: Numbered(drafts)[i].key != Numbered(drafts)[j].key
  {
    forall i, j | 0 <= i < j < |drafts|
      ensures drafts[i].key != drafts[j].key
    {
      assert KeysOf(drafts)[i] != KeysOf(drafts)[j];
    }
  }

  /** The rank of a group, read off the packet. */
  function GroupRank(g: Group, clean: Cleaner): SortKey {
    [[OutcomeOrder(g.key.outcome), SeverityOrder(g.key.severity), CategoryOrder(g.key.category), -|g.members|],
     clean(g.key.rule, MAX_RULE),
     if g.locations == [] then [] else g.locations[0].path]
  }

  function GroupRanking(clean: Cleaner): (Group, Group) -> bool {
    ByKey((g: Group) => GroupRank(g, clean))
  }

  lemma GroupKeepsRank(number: nat, d: Draft, clean: Cleaner)
    ensures GroupRank(GroupOf(number, d), clean) == RankOf(d, clean)
  {
  }

  /** The groups stand in the order of their ranks, so denied findings come first and permitted ones
      last, and no location is lost from the count. */
  lemma PacketIsRanked(findings: seq<Finding>, decisions: map<string, Decision>, clean: Cleaner, groups: seq<Group>,
                       drafts: seq<Draft>)
    requires (forall f <- findings :: f.id in decisions) && Packed(findings, decisions, clean, groups, drafts)
    ensures SortedBy(groups, GroupRanking(clean))
    ensures forall i, j | 0 <= i < j < |groups| ::
      OutcomeOrder(groups[i].key.outcome) <= OutcomeOrder(groups[j].key.outcome)
    ensures forall i | 0 <= i < |groups| :: groups[i].number == i + 1
    ensures forall g <- groups :: |g.locations| + g.omitted == |g.members| && |g.locations| <= MAX_LOCATIONS
  {
    forall m: nat, a, n: nat, b
      ensures GroupRanking(clean)(GroupOf(m, a), GroupOf(n, b)) == Ranking(clean)(a, b)
    {
      GroupKeepsRank(m, a, clean);
      GroupKeepsRank(n, b, clean);
    }
    GroupsInRank(drafts, Ranking(clean), GroupRanking(clean));
    OutcomesInRank(drafts, clean);
    NoLocationIsLost(findings, decisions, clean, drafts);
  }

  lemma GroupsInRank(drafts: seq<Draft>, before: (Draft, Draft) -> bool, after: (Group, Group) -> bool)
    requires SortedBy(drafts, before)
    requires forall m: nat, a, n: nat, b :: after(GroupOf(m, a), GroupOf(n, b)) == before(a, b)
    ensures SortedBy(Numbered(drafts), after)
  {
  }

  lemma OutcomesInRank(drafts: seq<Draft>, clean: Cleaner)
    requires SortedBy(drafts, Ranking(clean))
    ensures forall i, j | 0 <= i < j < |drafts| ::
      OutcomeOrder(drafts[i].key.outcome) <= OutcomeOrder(drafts[j].key.outcome)
  {
    forall i, j | 0 <= i < j < |drafts|
      ensures OutcomeOrder(drafts[i].key.outcome) <= OutcomeOrder(drafts[j].key.outcome)
    {
      RankedByOutcome(drafts[i], drafts[j], clean);
    }
  }

  lemma NoLocationIsLost(findings: seq<Finding>, decisions: map<string, Decision>, clean: Cleaner, drafts: seq<Draft>)
    requires (forall f <- findings :: f.id in decisions) && forall d <- drafts :: IsDraft(findings, decisions, clean, d)
    ensures forall g <- Numbered(drafts) :: |g.locations| + g.omitted == |g.members| && |g.locations| <= MAX_LOCATIONS
  {
    forall g <- Numbered(drafts)
      ensures |g.locations| + g.omitted == |g.members| && |g.locations| <= MAX_LOCATIONS
    {
      var i :| 0 <= i < |drafts| && Numbered(drafts)[i] == g;
      assert IsDraft(findings, decisions, clean, drafts[i]);
    }
  }

  lemma RankedByOutcome(a: Draft, b: Draft, clean: Cleaner)
    requires !Ranking(clean)(b, a)
    ensures OutcomeOrder(a.key.outcome) <= OutcomeOrder(b.key.outcome)
  {
    var x, y := RankOf(b, clean), RankOf(a, clean);
    assert Ranking(clean)(b, a) == KeyBefore(x, y);
    assert !Before(x[0], y[0]);
  }
}
