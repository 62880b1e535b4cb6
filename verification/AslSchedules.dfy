/** Schedule independence: however the iterations of maps interleave, at every depth, a run that
    ends ends in the same way after the same number of steps. */
module AslSchedules {
  import opened Json
  import opened AslPaths
  import opened AslSyntax
  import opened AslRetry
  import opened AslRun
  import opened AslSoundness

  /** Where a `_run` happens: its machine, its tasks, its context object and its address. */
  datatype Place = Place(m: Machine, env: Env, context: Context, addr: seq<nat>)

  function Move(p: Place, c: Config, choice: seq<nat>): Config
    requires Enabled(c, choice)
  {
    Step(p.m, p.env, p.context, p.addr, c, choice)
  }

  predicate Follows(p: Place, c: Config, schedule: seq<seq<nat>>) {
    Runs(p.m, p.env, p.context, p.addr, c, schedule)
  }

  function Final(p: Place, c: Config, schedule: seq<seq<nat>>): Config
    requires Follows(p, c, schedule)
  {
    After(p.m, p.env, p.context, p.addr, c, schedule)
  }

  /** Maps in progress belong to Map states.  Unlike Intact this holds of broken runs too. */
  ghost predicate Shaped(m: Machine, c: Config)
    decreases c
  {
    c.Mapping? ==>
      && c.state in m.states && m.states[c.state].Map?
      && forall sub <- c.subs :: Shaped(m.states[c.state].processor, sub)
  }

  /** The place of iteration i of a map in progress. */
  function Inner(p: Place, c: Config, i: nat): Place
    requires c.Mapping? && c.state in p.m.states && p.m.states[c.state].Map?
  {
    Place(p.m.states[c.state].processor, p.env,
          ItemContext(StateContext(p.context, c.state, c.retries), i, if i < |c.items| then c.items[i] else Null),
          p.addr + [c.tick, c.retries, i])
  }

  lemma {:induction false} MoveKeepsShape(p: Place, c: Config, choice: seq<nat>)
    requires Shaped(p.m, c) && Enabled(c, choice)
    ensures Shaped(p.m, Move(p, c, choice))
    decreases choice
  {
    if c.Mapping? && choice != [] {
      MoveKeepsShape(Inner(p, c, choice[0]), c.subs[choice[0]], choice[1..]);
    } else if c.Trying? {
      AttemptIsShaped(p.m, p.env, p.context, p.addr, c);
    }
  }

  lemma AttemptIsShaped(m: Machine, env: Env, context: Context, addr: seq<nat>, c: Config)
    requires c.Trying?
    ensures Shaped(m, Attempt(m, env, context, addr, c))
  {
    if c.state in m.states && m.states[c.state].Map? {
      var state := m.states[c.state];
      var inside := StateContext(context, c.state, c.retries);
      var found := MapItems(state.work, state.itemsPath, inside, c.data);
      if found.Return? {
        forall i: nat | i < |found.value.1|
          ensures !Iteration(state.processor, state.itemSelector, found.value.0, found.value.1[i], i, inside).Mapping?
        {
        }
      }
    }
  }

  /** What a step of iteration i does to the map. */
  lemma InnerMove(p: Place, c: Config, choice: seq<nat>)
    requires Shaped(p.m, c) && c.Mapping? && Enabled(c, choice) && choice != []
    ensures Move(p, c, choice) ==
      c.(subs := c.subs[choice[0] := Move(Inner(p, c, choice[0]), c.subs[choice[0]], choice[1..])])
  {
  }

  lemma OtherStaysEnabled(c: Config, sub: Config, i: nat, choice: seq<nat>)
    requires c.Mapping? && Enabled(c, choice) && choice != [] && i < |c.subs| && choice[0] != i
    ensures Enabled(c.(subs := c.subs[i := sub]), choice)
  {
    var after := c.(subs := c.subs[i := sub]);
    assert after.subs[choice[0]] == c.subs[choice[0]];
    assert after.subs[choice[0]] in after.subs;
  }

  /** Two different moves can be made in either order, and the order leaves no trace. */
  lemma {:induction false} Diamond(p: Place, c: Config, a: seq<nat>, b: seq<nat>)
    requires Shaped(p.m, c) && Enabled(c, a) && Enabled(c, b) && a != b
    ensures Enabled(Move(p, c, a), b) && Enabled(Move(p, c, b), a)
    ensures Move(p, Move(p, c, a), b) == Move(p, Move(p, c, b), a)
    decreases a
  {
    assert c.Mapping? && a != [] && b != [];
    if a[0] != b[0] {
      DifferentIterations(p, c, a, b);
    } else {
      assert a == [a[0]] + a[1..] && b == [b[0]] + b[1..];
      var q := Inner(p, c, a[0]);
      assert Shaped(q.m, c.subs[a[0]]);
      Diamond(q, c.subs[a[0]], a[1..], b[1..]);
      SameIteration(p, c, a, b);
    }
  }

  /** Moves of two iterations change two places of the list. */
  lemma DifferentIterations(p: Place, c: Config, a: seq<nat>, b: seq<nat>)
    requires Shaped(p.m, c) && c.Mapping? && a != [] && b != [] && a[0] != b[0] && Enabled(c, a) && Enabled(c, b)
    ensures Enabled(Move(p, c, a), b) && Enabled(Move(p, c, b), a)
    ensures Move(p, Move(p, c, a), b) == Move(p, Move(p, c, b), a)
  {
    MoveKeepsShape(p, c, a);
    MoveKeepsShape(p, c, b);
    InnerMove(p, c, a);
    InnerMove(p, c, b);
    var i, j := a[0], b[0];
    var ci, cj := Move(p, c, a), Move(p, c, b);
    OtherStaysEnabled(c, ci.subs[i], i, b);
    OtherStaysEnabled(c, cj.subs[j], j, a);
    InnerMove(p, ci, b);
    InnerMove(p, cj, a);
    assert ci.subs[i := ci.subs[i]][j := cj.subs[j]] == cj.subs[i := ci.subs[i]];
  }

  /** Moves of one iteration commute in the map when they commute inside it. */
  lemma SameIteration(p: Place, c: Config, a: seq<nat>, b: seq<nat>)
    requires Shaped(p.m, c) && c.Mapping? && a != [] && b != [] && a[0] == b[0] && Enabled(c, a) && Enabled(c, b)
    requires var q, sub := Inner(p, c, a[0]), c.subs[a[0]];
      && Enabled(sub, a[1..]) && Enabled(sub, b[1..])
      && Enabled(Move(q, sub, a[1..]), b[1..]) && Enabled(Move(q, sub, b[1..]), a[1..])
      && Move(q, Move(q, sub, a[1..]), b[1..]) == Move(q, Move(q, sub, b[1..]), a[1..])
    ensures Enabled(Move(p, c, a), b) && Enabled(Move(p, c, b), a)
    ensures Move(p, Move(p, c, a), b) == Move(p, Move(p, c, b), a)
  {
    MoveKeepsShape(p, c, a);
    MoveKeepsShape(p, c, b);
    InnerMove(p, c, a);
    InnerMove(p, c, b);
    var i, q := a[0], Inner(p, c, a[0]);
    var ci, cj := Move(p, c, a), Move(p, c, b);
    StillRunning(ci, i, b);
    StillRunning(cj, i, a);
    InnerMove(p, ci, b);
    InnerMove(p, cj, a);
    assert Inner(p, ci, i) == q == Inner(p, cj, i);
    assert ci.subs[i := Move(q, ci.subs[i], b[1..])] == cj.subs[i := Move(q, cj.subs[i], a[1..])];
  }

  lemma StillRunning(c: Config, i: nat, choice: seq<nat>)
    requires c.Mapping? && i < |c.subs| && choice != [] && choice[0] == i && Enabled(c.subs[i], choice[1..])
    ensures Enabled(c, choice)
  {
    assert c.subs[i] in c.subs && !Terminal(c.subs[i]);
  }

  /** After any first move the run can still end the same way, one step sooner. */
  lemma {:induction false} Residual(p: Place, c: Config, schedule: seq<seq<nat>>, a: seq<nat>)
    returns (rest: seq<seq<nat>>)
    requires Shaped(p.m, c) && Follows(p, c, schedule) && Terminal(Final(p, c, schedule)) && Enabled(c, a)
    ensures Follows(p, Move(p, c, a), rest) && Final(p, Move(p, c, a), rest) == Final(p, c, schedule)
    ensures |rest| == |schedule| - 1
    decreases |schedule|
  {
    var b := schedule[0];
    if a == b {
      rest := schedule[1..];
    } else {
      Diamond(p, c, a, b);
      MoveKeepsShape(p, c, b);
      var tail := Residual(p, Move(p, c, b), schedule[1..], a);
      rest := [b] + tail;
      assert rest[1..] == tail;
    }
  }

  /** Any two complete schedules of the same run, at the same place, end alike. */
  lemma {:induction false} ScheduleIndependence(p: Place, c: Config, s: seq<seq<nat>>, t: seq<seq<nat>>)
    requires Shaped(p.m, c) && Follows(p, c, s) && Follows(p, c, t)
    requires Terminal(Final(p, c, s)) && Terminal(Final(p, c, t))
    ensures Final(p, c, s) == Final(p, c, t) && |s| == |t|
    decreases |s|
  {
    if s != [] {
      var rest := Residual(p, c, t, s[0]);
      MoveKeepsShape(p, c, s[0]);
      ScheduleIndependence(p, Move(p, c, s[0]), s[1..], rest);
    }
  }

  /** The sequential schedule: the first iteration that is not over moves. */
  function Sequential(p: Place, c: Config, n: nat): seq<seq<nat>>
    decreases n
  {
    if n == 0 || Terminal(c) then [] else [Leftmost(c)] + Sequential(p, Move(p, c, Leftmost(c)), n - 1)
  }

  lemma {:induction false} SequentialIsASchedule(p: Place, c: Config, n: nat)
    ensures Follows(p, c, Sequential(p, c, n))
    decreases n
  {
    if n > 0 && !Terminal(c) {
      var rest := Sequential(p, Move(p, c, Leftmost(c)), n - 1);
      SequentialIsASchedule(p, Move(p, c, Leftmost(c)), n - 1);
      MoveFirst(p, c, Leftmost(c), rest);
    }
  }

  lemma MoveFirst(p: Place, c: Config, a: seq<nat>, rest: seq<seq<nat>>)
    requires Enabled(c, a) && Follows(p, Move(p, c, a), rest)
    ensures Follows(p, c, [a] + rest) && Final(p, c, [a] + rest) == Final(p, Move(p, c, a), rest)
  {
    assert ([a] + rest)[1..] == rest;
  }

  /** If some interleaving ends, the sequential execution ends, with the same outcome. */
  lemma {:induction false} SequentialAgrees(p: Place, c: Config, s: seq<seq<nat>>)
    requires Shaped(p.m, c) && Follows(p, c, s) && Terminal(Final(p, c, s))
    ensures Follows(p, c, Sequential(p, c, |s|)) && Final(p, c, Sequential(p, c, |s|)) == Final(p, c, s)
    decreases |s|
  {
    SequentialIsASchedule(p, c, |s|);
    if s != [] {
      var a := Leftmost(c);
      var rest := Residual(p, c, s, a);
      MoveKeepsShape(p, c, a);
      SequentialAgrees(p, Move(p, c, a), rest);
      assert Sequential(p, c, |s|)[1..] == Sequential(p, Move(p, c, a), |s| - 1);
    }
  }

  // ---------------------------------------------------------------- one map

  /** Only iterations move, not the map itself. */
  ghost predicate MovesInside(s: seq<seq<nat>>) {
    forall k | 0 <= k < |s| :: s[k] != []
  }

  /** The moves of a schedule that belong to iteration i. */
  function Project(s: seq<seq<nat>>, i: nat): seq<seq<nat>> {
    if s == [] then []
    else if s[0] != [] && s[0][0] == i then [s[0][1..]] + Project(s[1..], i)
    else Project(s[1..], i)
  }

  /** Iteration i of a map, seen alone, has made exactly its own moves. */
  lemma {:induction false} IterationAlone(p: Place, c: Config, s: seq<seq<nat>>, i: nat)
    requires Shaped(p.m, c) && c.Mapping? && i < |c.subs|
    requires Follows(p, c, s) && MovesInside(s)
    ensures Final(p, c, s).Mapping? && |Final(p, c, s).subs| == |c.subs|
    ensures Follows(Inner(p, c, i), c.subs[i], Project(s, i))
    ensures Final(p, c, s).subs[i] == Final(Inner(p, c, i), c.subs[i], Project(s, i))
    decreases |s|
  {
    if s != [] {
      InnerMove(p, c, s[0]);
      MoveKeepsShape(p, c, s[0]);
      var after := Move(p, c, s[0]);
      IterationAlone(p, after, s[1..], i);
      assert Inner(p, after, i) == Inner(p, c, i);
      if s[0][0] == i {
        assert Project(s, i)[1..] == Project(s[1..], i);
      }
    }
  }

  /** The outcome of a map does not depend on the interleaving: whichever schedule brings all
      iterations to their end, each ends as it would have ended running alone, so the gathered
      result is the results in item order or the error of the first failing item. */
  lemma MapIsScheduleIndependent(p: Place, c: Config, s: seq<seq<nat>>, alone: seq<seq<seq<nat>>>)
    requires Shaped(p.m, c) && c.Mapping? && |alone| == |c.subs|
    requires Follows(p, c, s) && MovesInside(s)
    requires Final(p, c, s).Mapping? && forall sub <- Final(p, c, s).subs :: Terminal(sub)
    requires forall i: nat | i < |c.subs| ::
      Follows(Inner(p, c, i), c.subs[i], alone[i]) && Terminal(Final(Inner(p, c, i), c.subs[i], alone[i]))
    ensures |Final(p, c, s).subs| == |c.subs|
    ensures forall i: nat | i < |c.subs| ::
      Final(p, c, s).subs[i] == Final(Inner(p, c, i), c.subs[i], alone[i])
  {
    IterationAloneAll(p, c, s);
    forall i: nat | i < |c.subs|
      ensures Final(p, c, s).subs[i] == Final(Inner(p, c, i), c.subs[i], alone[i])
    {
      IterationAlone(p, c, s, i);
      assert Final(p, c, s).subs[i] in Final(p, c, s).subs;
      ScheduleIndependence(Inner(p, c, i), c.subs[i], Project(s, i), alone[i]);
    }
  }

  lemma {:induction false} IterationAloneAll(p: Place, c: Config, s: seq<seq<nat>>)
    requires Shaped(p.m, c) && c.Mapping? && Follows(p, c, s) && MovesInside(s)
    ensures Final(p, c, s).Mapping? && |Final(p, c, s).subs| == |c.subs|
    decreases |s|
  {
    if s != [] {
      InnerMove(p, c, s[0]);
      MoveKeepsShape(p, c, s[0]);
      IterationAloneAll(p, Move(p, c, s[0]), s[1..]);
    }
  }
}
