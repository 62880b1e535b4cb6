/** In-flight leases: the cache's four operations, and the protocol of the calls that use them. */
module Leases {
  import opened Json

  type Key = (string, string)   // tenant, cache key
  type Owner = string

  datatype Lease = Lease(owner: Owner, expires: int)

  // ---------------------------------------------------------------- the operations

  predicate MayAcquire(leases: map<Key, Lease>, key: Key, owner: Owner, now: int) {
    key !in leases || leases[key].owner == owner || leases[key].expires <= now
  }

  function Released(leases: map<Key, Lease>, key: Key, owner: Owner): map<Key, Lease> {
    if key in leases && leases[key].owner == owner then leases - {key} else leases
  }

  class MemoryExplanationCache<V> {
    var values: map<Key, V>
    var leases: map<Key, Lease>

    constructor ()
      ensures values == map[] && leases == map[]
    {
      values, leases := map[], map[];
    }

    method Get(key: Key) returns (value: Option<V>)
      ensures value == if key in values then Some(values[key]) else None
    {
      value := if key in values then Some(values[key]) else None;
    }

    /** Write-once. */
    method Put(key: Key, value: V) returns (stored: bool)
      modifies this`values
      ensures stored <==> key !in old(values)
      ensures values == if stored then old(values)[key := value] else old(values)
    {
      stored := key !in values;
      if stored {
        values := values[key := value];
      }
    }

    method Acquire(key: Key, owner: Owner, ttl: nat, now: int) returns (granted: bool)
      modifies this`leases
      ensures granted <==> MayAcquire(old(leases), key, owner, now)
      ensures leases == if granted then old(leases)[key := Lease(owner, now + ttl)] else old(leases)
    {
      if key in leases {
        var holder := leases[key];
        if holder.owner != owner && holder.expires > now {
          return false;
        }
      }
      leases := leases[key := Lease(owner, now + ttl)];
      granted := true;
    }

    method Release(key: Key, owner: Owner)
      modifies this`leases
      ensures leases == Released(old(leases), key, owner)
    {
      if key in leases && leases[key].owner == owner {
        leases := leases - {key};
      }
    }
  }

  // ---------------------------------------------------------------- the protocol

  /** Where a call is.  It first takes all leases; on the first refusal it gives back what it took
      and then awaits its units one by one. */
  datatype Phase =
    | Taking(i: nat)
    | GivingBack(i: nat, n: nat)
    | Working
    | Closing(i: nat)
    | Looking(i: nat)        // about to look into the cache
    | Asking(i: nat)         // about to ask for the lease
    | Sleeping(i: nat)
    | Alone(i: nat)          // holds the lease of one awaited unit
    | Finished

  /** A call with the keys it needs and the leases it was granted and has not released. */
  datatype Call = Call(needed: seq<Key>, phase: Phase, held: map<Key, int>)

  datatype System = System(now: int, leases: map<Key, Lease>, cached: set<Key>, calls: map<Owner, Call>)

  ghost predicate Init(s: System) {
    s.leases == map[] && s.calls == map[]
  }

  ghost predicate Begin(s: System, s': System, owner: Owner, needed: seq<Key>) {
    && owner !in s.calls
    && (forall key <- s.leases :: s.leases[key].owner != owner)   // a fresh uuid
    && s' == s.(calls := s.calls[owner := Call(needed, Taking(0), map[])])
  }

  /** Time passes, and entries appear in the cache. */
  ghost predicate Elapse(s: System, s': System) {
    s'.now >= s.now && s'.leases == s.leases && s'.calls == s.calls && s.cached <= s'.cached
  }

  /** A worker dies; its leases stay until they expire. */
  ghost predicate Crash(s: System, s': System, owner: Owner) {
    owner in s.calls && s' == s.(calls := s.calls - {owner})
  }

  function Moved(s: System, owner: Owner, phase: Phase): System
    requires owner in s.calls
  {
    s.(calls := s.calls[owner := s.calls[owner].(phase := phase)])
  }

  function Granted(s: System, owner: Owner, key: Key, ttl: nat, phase: Phase): System
    requires owner in s.calls
  {
    s.(leases := s.leases[key := Lease(owner, s.now + ttl)],
       calls := s.calls[owner := s.calls[owner].(phase := phase, held := s.calls[owner].held[key := s.now + ttl])])
  }

  function Dropped(s: System, owner: Owner, key: Key, phase: Phase): System
    requires owner in s.calls
  {
    s.(leases := Released(s.leases, key, owner),
       calls := s.calls[owner := s.calls[owner].(phase := phase, held := s.calls[owner].held - {key})])
  }

  ghost predicate Act(s: System, s': System, owner: Owner, ttl: nat) {
    && owner in s.calls
    && var call := s.calls[owner];
       match call.phase
       case Taking(i) =>
         if i >= |call.needed| then s' == Moved(s, owner, if call.needed == [] then Finished else Working)
         else if MayAcquire(s.leases, call.needed[i], owner, s.now) then
           s' == Granted(s, owner, call.needed[i], ttl, Taking(i + 1))
         else s' == Moved(s, owner, GivingBack(0, i))
       case GivingBack(i, n) =>
         if i >= n || i >= |call.needed| then s' == Moved(s, owner, Looking(0))
         else s' == Dropped(s, owner, call.needed[i], GivingBack(i + 1, n))
       case Working => s' == Moved(s, owner, Closing(0))
       case Closing(i) =>
         if i >= |call.needed| then s' == Moved(s, owner, Finished)
         else s' == Dropped(s, owner, call.needed[i], Closing(i + 1))
       case Looking(i) =>
         if i >= |call.needed| then s' == Moved(s, owner, Finished)
         else if call.needed[i] in s.cached then s' == Moved(s, owner, Looking(i + 1))
         else s' == Moved(s, owner, Asking(i))
       case Asking(i) =>
         if i >= |call.needed| then s' == Moved(s, owner, Finished)
         else if MayAcquire(s.leases, call.needed[i], owner, s.now) then
           s' == Granted(s, owner, call.needed[i], ttl, Alone(i))
         // wait, or give up at the deadline
         else s' == Moved(s, owner, Sleeping(i)) || s' == Moved(s, owner, Looking(i + 1))
       case Sleeping(i) => s' == Moved(s, owner, Looking(i))
       case Alone(i) =>
         if i >= |call.needed| then s' == Moved(s, owner, Finished)
         else s' == Dropped(s, owner, call.needed[i], Looking(i + 1))
       case Finished => s' == s.(calls := s.calls - {owner})
  }

  ghost predicate Next(s: System, s': System) {
    || Elapse(s, s')
    || (exists owner, needed :: Begin(s, s', owner, needed))
    || (exists owner, ttl: nat :: Act(s, s', owner, ttl))
    || (exists owner :: Crash(s, s', owner))
  }

  // ---------------------------------------------------------------- invariant

  function Keys(needed: seq<Key>, lo: nat, hi: nat): set<Key> {
    set i | lo <= i < hi && i < |needed| :: needed[i]
  }

  /** What a call holds in each phase. */
  ghost predicate HoldsForPhase(call: Call) {
    match call.phase
    case Taking(i) => i <= |call.needed| && call.held.Keys == Keys(call.needed, 0, i)
    case GivingBack(i, n) => n <= |call.needed| && call.held.Keys <= Keys(call.needed, i, n)
    case Working => call.held.Keys == Keys(call.needed, 0, |call.needed|)
    case Closing(i) => call.held.Keys <= Keys(call.needed, i, |call.needed|)
    case Alone(i) => i < |call.needed| && call.held.Keys == {call.needed[i]}
    case _ => call.held == map[]
  }

  /** A lease a call holds and that has not expired is the one in the store. */
  ghost predicate HeldIsStored(s: System, owner: Owner) {
    owner in s.calls ==>
      forall key <- s.calls[owner].held :: s.calls[owner].held[key] > s.now ==>
        key in s.leases && s.leases[key] == Lease(owner, s.calls[owner].held[key])
  }

  /** A stored lease of a living call is one it holds. */
  ghost predicate StoredIsHeld(s: System) {
    forall key <- s.leases :: s.leases[key].owner in s.calls ==> key in s.calls[s.leases[key].owner].held
  }

  ghost predicate Inv(s: System) {
    && (forall owner <- s.calls :: HoldsForPhase(s.calls[owner]))
    && (forall owner <- s.calls :: HeldIsStored(s, owner))
    && StoredIsHeld(s)
  }

  lemma KeysGrow(needed: seq<Key>, lo: nat, hi: nat)
    requires lo <= hi < |needed|
    ensures Keys(needed, lo, hi + 1) == Keys(needed, lo, hi) + {needed[hi]}
  {
  }

  lemma KeysShrink(needed: seq<Key>, lo: nat, hi: nat)
    requires lo < |needed|
    ensures Keys(needed, lo, hi) - {needed[lo]} <= Keys(needed, lo + 1, hi)
  {
  }

  lemma KeysEmpty(needed: seq<Key>, lo: nat, hi: nat)
    requires lo >= hi || lo >= |needed|
    ensures Keys(needed, lo, hi) == {}
  {
  }

  lemma GrantKeepsInv(s: System, owner: Owner, key: Key, ttl: nat, phase: Phase)
    requires Inv(s) && owner in s.calls && MayAcquire(s.leases, key, owner, s.now)
    requires HoldsForPhase(s.calls[owner].(phase := phase, held := s.calls[owner].held[key := s.now + ttl]))
    ensures Inv(Granted(s, owner, key, ttl, phase))
  {
    var s' := Granted(s, owner, key, ttl, phase);
    forall other <- s'.calls
      ensures HeldIsStored(s', other)
    {
      assert HeldIsStored(s, other);
      if other != owner {
        assert s'.calls[other] == s.calls[other];
      }
    }
    forall k <- s'.leases
      ensures s'.leases[k].owner in s'.calls ==> k in s'.calls[s'.leases[k].owner].held
    {
      if k != key {
        assert s'.leases[k] == s.leases[k];
      }
    }
  }

  lemma DropKeepsInv(s: System, owner: Owner, key: Key, phase: Phase)
    requires Inv(s) && owner in s.calls
    requires HoldsForPhase(s.calls[owner].(phase := phase, held := s.calls[owner].held - {key}))
    ensures Inv(Dropped(s, owner, key, phase))
  {
    var s' := Dropped(s, owner, key, phase);
    forall other <- s'.calls
      ensures HeldIsStored(s', other)
    {
      assert HeldIsStored(s, other);
    }
    forall k <- s'.leases
      ensures s'.leases[k].owner in s'.calls ==> k in s'.calls[s'.leases[k].owner].held
    {
      assert k in s.leases && s'.leases[k] == s.leases[k];
    }
  }

  lemma MoveKeepsInv(s: System, owner: Owner, phase: Phase)
    requires Inv(s) && owner in s.calls && HoldsForPhase(s.calls[owner].(phase := phase))
    ensures Inv(Moved(s, owner, phase))
  {
    var s' := Moved(s, owner, phase);
    forall other <- s'.calls
      ensures HeldIsStored(s', other)
    {
      assert HeldIsStored(s, other);
    }
  }

  lemma TakingKeepsInv(s: System, s': System, owner: Owner, ttl: nat)
    requires Inv(s) && Act(s, s', owner, ttl) && s.calls[owner].phase.Taking?
    ensures Inv(s')
  {
    var call := s.calls[owner];
    var i, needed := call.phase.i, call.needed;
    assert HoldsForPhase(call);
    if i >= |needed| {
      AllTaken(call);
      MoveKeepsInv(s, owner, if needed == [] then Finished else Working);
    } else if MayAcquire(s.leases, needed[i], owner, s.now) {
      OneMoreTaken(call, s.now + ttl);
      GrantKeepsInv(s, owner, needed[i], ttl, Taking(i + 1));
    } else {
      MoveKeepsInv(s, owner, GivingBack(0, i));
    }
  }

  lemma OneMoreTaken(call: Call, expires: int)
    requires HoldsForPhase(call) && call.phase.Taking? && call.phase.i < |call.needed|
    ensures HoldsForPhase(
      call.(phase := Taking(call.phase.i + 1), held := call.held[call.needed[call.phase.i] := expires]))
  {
    KeysGrow(call.needed, 0, call.phase.i);
  }

  lemma AllTaken(call: Call)
    requires HoldsForPhase(call) && call.phase.Taking? && call.phase.i >= |call.needed|
    ensures HoldsForPhase(call.(phase := Working))
    ensures call.needed == [] ==> HoldsForPhase(call.(phase := Finished))
  {
    if call.needed == [] {
      KeysEmpty(call.needed, 0, 0);
    }
  }

  lemma ReleasingKeepsInv(s: System, s': System, owner: Owner, ttl: nat)
    requires Inv(s) && Act(s, s', owner, ttl)
    requires s.calls[owner].phase.GivingBack? || s.calls[owner].phase.Closing? || s.calls[owner].phase.Working?
    ensures Inv(s')
  {
    assert HoldsForPhase(s.calls[owner]);
    match s.calls[owner].phase
    case GivingBack(i, n) => GivingBackKeepsInv(s, s', owner, ttl);
    case Closing(i) => ClosingKeepsInv(s, s', owner, ttl);
    case Working => MoveKeepsInv(s, owner, Closing(0));
  }

  lemma GivingBackKeepsInv(s: System, s': System, owner: Owner, ttl: nat)
    requires Inv(s) && Act(s, s', owner, ttl) && s.calls[owner].phase.GivingBack?
    ensures Inv(s')
  {
    var needed, i, n := s.calls[owner].needed, s.calls[owner].phase.i, s.calls[owner].phase.n;
    assert HoldsForPhase(s.calls[owner]);
    if i >= n || i >= |needed| {
      KeysEmpty(needed, i, n);
      MoveKeepsInv(s, owner, Looking(0));
    } else {
      KeysShrink(needed, i, n);
      DropKeepsInv(s, owner, needed[i], GivingBack(i + 1, n));
    }
  }

  lemma ClosingKeepsInv(s: System, s': System, owner: Owner, ttl: nat)
    requires Inv(s) && Act(s, s', owner, ttl) && s.calls[owner].phase.Closing?
    ensures Inv(s')
  {
    var needed, i := s.calls[owner].needed, s.calls[owner].phase.i;
    assert HoldsForPhase(s.calls[owner]);
    if i >= |needed| {
      KeysEmpty(needed, i, |needed|);
      MoveKeepsInv(s, owner, Finished);
    } else {
      KeysShrink(needed, i, |needed|);
      DropKeepsInv(s, owner, needed[i], Closing(i + 1));
    }
  }

  lemma AwaitingKeepsInv(s: System, s': System, owner: Owner, ttl: nat)
    requires Inv(s) && Act(s, s', owner, ttl)
    requires var p := s.calls[owner].phase; p.Looking? || p.Asking? || p.Sleeping? || p.Alone?
    ensures Inv(s')
  {
    var call := s.calls[owner];
    var needed := call.needed;
    assert HoldsForPhase(call);
    match call.phase
    case Asking(i) =>
      if i < |needed| && MayAcquire(s.leases, needed[i], owner, s.now) {
        GrantKeepsInv(s, owner, needed[i], ttl, Alone(i));
      } else {
        MoveKeepsInv(s, owner, s'.calls[owner].phase);
      }
    case Alone(i) =>
      assert call.held - {needed[i]} == map[];
      DropKeepsInv(s, owner, needed[i], Looking(i + 1));
    case Looking(_) => MoveKeepsInv(s, owner, s'.calls[owner].phase);
    case Sleeping(i) => MoveKeepsInv(s, owner, Looking(i));
  }

  lemma ActKeepsInv(s: System, s': System, owner: Owner, ttl: nat)
    requires Inv(s) && Act(s, s', owner, ttl)
    ensures Inv(s')
  {
    match s.calls[owner].phase
    case Taking(_) => TakingKeepsInv(s, s', owner, ttl);
    case GivingBack(_, _) => ReleasingKeepsInv(s, s', owner, ttl);
    case Working => ReleasingKeepsInv(s, s', owner, ttl);
    case Closing(_) => ReleasingKeepsInv(s, s', owner, ttl);
    case Finished => LeaveKeepsInv(s, s', owner);
    case _ => AwaitingKeepsInv(s, s', owner, ttl);
  }

  lemma LeaveKeepsInv(s: System, s': System, owner: Owner)
    requires Inv(s) && owner in s.calls && s' == s.(calls := s.calls - {owner})
    ensures Inv(s')
  {
    forall other <- s'.calls
      ensures HeldIsStored(s', other) && HoldsForPhase(s'.calls[other])
    {
      assert HeldIsStored(s, other) && HoldsForPhase(s.calls[other]);
    }
  }

  lemma NextKeepsInv(s: System, s': System)
    requires Inv(s) && Next(s, s')
    ensures Inv(s')
  {
    if Elapse(s, s') {
      forall owner <- s'.calls
        ensures HeldIsStored(s', owner)
      {
        assert HeldIsStored(s, owner);
      }
    } else if owner, needed :| Begin(s, s', owner, needed) {
      KeysEmpty(needed, 0, 0);
      forall other <- s'.calls
        ensures HeldIsStored(s', other)
      {
        assert other != owner ==> HeldIsStored(s, other);
      }
    } else if owner, ttl: nat :| Act(s, s', owner, ttl) {
      ActKeepsInv(s, s', owner, ttl);
    } else {
      var owner :| Crash(s, s', owner);
      LeaveKeepsInv(s, s', owner);
    }
  }

  // ---------------------------------------------------------------- what it gives

  ghost predicate Behaviour(states: seq<System>) {
    states != [] && Init(states[0]) && forall i | 0 < i < |states| :: Next(states[i - 1], states[i])
  }

  lemma {:induction false} BehaviourInv(states: seq<System>, i: nat)
    requires Behaviour(states) && i < |states|
    ensures Inv(states[i])
  {
    if i > 0 {
      BehaviourInv(states, i - 1);
      assert Next(states[i - 1], states[i]);
      NextKeepsInv(states[i - 1], states[i]);
    }
  }

  /** Mutual exclusion: at no time do two calls hold unexpired leases on one key. */
  lemma OneHolderPerKey(states: seq<System>, i: nat, a: Owner, b: Owner, key: Key)
    requires Behaviour(states) && i < |states|
    requires a in states[i].calls && b in states[i].calls
    requires key in states[i].calls[a].held && states[i].calls[a].held[key] > states[i].now
    requires key in states[i].calls[b].held && states[i].calls[b].held[key] > states[i].now
    ensures a == b
  {
    BehaviourInv(states, i);
    assert HeldIsStored(states[i], a) && HeldIsStored(states[i], b);
  }

  /** A call that waits holds no lease, here or in the store, so no cycle of waiting calls exists;
      and when a call is over, every lease it took is released or was taken over. */
  lemma WaitersHoldNothing(states: seq<System>, i: nat, owner: Owner)
    requires Behaviour(states) && i < |states| && owner in states[i].calls
    requires var p := states[i].calls[owner].phase; p.Looking? || p.Asking? || p.Sleeping? || p.Finished?
    ensures states[i].calls[owner].held == map[]
    ensures forall key <- states[i].leases :: states[i].leases[key].owner != owner
  {
    BehaviourInv(states, i);
    assert HoldsForPhase(states[i].calls[owner]);
  }

  /** All or none: a call works on its batch only with every lease of it granted. */
  lemma WorkersHoldAll(states: seq<System>, i: nat, owner: Owner)
    requires Behaviour(states) && i < |states| && owner in states[i].calls && states[i].calls[owner].phase.Working?
    ensures forall key <- states[i].calls[owner].needed :: key in states[i].calls[owner].held
  {
    BehaviourInv(states, i);
    var call := states[i].calls[owner];
    assert HoldsForPhase(call);
    forall key <- call.needed
      ensures key in call.held
    {
      var k :| 0 <= k < |call.needed| && call.needed[k] == key;
      assert key in Keys(call.needed, 0, |call.needed|);
    }
  }

  /** No step of a call, a late release included, touches an unexpired lease of another. */
  lemma OthersLeasesAreSafe(s: System, s': System, owner: Owner, ttl: nat, key: Key)
    requires Act(s, s', owner, ttl)
    requires key in s.leases && s.leases[key].owner != owner && s.leases[key].expires > s.now
    ensures key in s'.leases && s'.leases[key] == s.leases[key]
  {
  }
}
