/**
 * What concurrent runs of `main` do not give, in runs written out: a generate that is lost and made
 * again, and a tree that is written after a run returned 0. In neither is the lock to blame.
 */
module GenerateLimits {
  import opened Prelude
  import L = FileLock
  import LB = LockBlame
  import LI = LockIntegrity
  import LL = LockLegs
  import opened GenerateOnce
  import opened Traces

  /** A step with nothing to blame. */
  ghost function Taking(c: L.Config, expected: nat): (State, Action, State) -> bool {
    (s: State, a: Action, t: State) =>
      && s.runs.Keys == s.lock.procs.Keys && Enabled(s, a) && !Blamed(c, s, a)
      && t == Apply(c, expected, s, a) && t.runs.Keys == t.lock.procs.Keys
  }

  type Course = Trace<State, Action>

  /** A run so far, with nothing to blame. */
  ghost predicate RunSoFar(c: L.Config, expected: nat, trace: Course) {
    && Init(expected, trace.from) && trace.Valid(Taking(c, expected))
    && trace.to.runs.Keys == trace.to.lock.procs.Keys
  }

  lemma Take(c: L.Config, expected: nat, trace: Course, a: Action) returns (next: Course)
    requires RunSoFar(c, expected, trace) && Enabled(trace.to, a) && !Blamed(c, trace.to, a)
    ensures RunSoFar(c, expected, next) && next.to == Apply(c, expected, trace.to, a)
  {
    if a.OfLock? {
      LI.OthersUntouched(c, trace.to.lock, a.a);
    }
    next := Extend(Taking(c, expected), trace, a, Apply(c, expected, trace.to, a));
  }

  /** A run's own operation, or its generator's. */
  lemma Work(c: L.Config, expected: nat, trace: Course, a: Action) returns (next: Course)
    requires RunSoFar(c, expected, trace)
    requires !a.OfLock? && Alive(trace.to, a.pid) && Enabled(trace.to, a)
    ensures RunSoFar(c, expected, next) && next.to == Apply(c, expected, trace.to, a)
    ensures next.to.lock == trace.to.lock
  {
    next := Take(c, expected, trace, a);
  }

  /** The generator ends, with 0. */
  lemma Ends(c: L.Config, expected: nat, trace: Course, p: L.Pid) returns (next: Course)
    requires RunSoFar(c, expected, trace)
    requires Alive(trace.to, p) && trace.to.runs[p].Generating?
    ensures RunSoFar(c, expected, next)
    ensures var s := trace.to;
            next.to == s.(tree := Tree(5, true, false, false, true), generated := s.generated + 1,
                              runs := s.runs[p := AddingManifest])
  {
    next := Work(c, expected, trace, Succeeds(p, 5));
  }

  /** A run is killed. */
  lemma Kill(c: L.Config, expected: nat, trace: Course, p: L.Pid) returns (next: Course)
    requires RunSoFar(c, expected, trace) && Alive(trace.to, p)
    ensures RunSoFar(c, expected, next)
    ensures var s, lock := trace.to, trace.to.lock;
            next.to == s.(lock := lock.(procs := lock.procs[p := lock.procs[p].(alive := false)]),
                              lost := if Finishing(s.runs[p]) then s.lost + 1 else s.lost)
  {
    next := Take(c, expected, trace, OfLock(L.Crash(p)));
  }

  /** That is a run of the transition system. */
  lemma AsRun(c: L.Config, expected: nat, trace: Course) returns (states: seq<State>)
    requires RunSoFar(c, expected, trace)
    ensures Run(c, expected, states, trace.actions) && states[|trace.actions|] == trace.to
    ensures Blameless(c, states, trace.actions, |trace.actions|)
  {
    states := States(Taking(c, expected), trace.from, trace.actions, trace.to);
    forall i | 0 <= i < |trace.actions|
      ensures states[i].runs.Keys == states[i].lock.procs.Keys && Enabled(states[i], trace.actions[i])
      ensures !Blamed(c, states[i], trace.actions[i]) &&
              states[i + 1] == Apply(c, expected, states[i], trace.actions[i])
    {
      assert Taking(c, expected)(states[i], trace.actions[i], states[i + 1]);
    }
  }

  /** Whoever is inside the lock is in `acquire`. */
  ghost predicate AllAcquiring(lock: L.State, runs: map<L.Pid, Main>) {
    forall q <- lock.procs ::
      var pc := lock.procs[q].pc;
      q in runs && lock.procs[q].alive && !pc.Idle? && !pc.Holding? ==> runs[q].Acquiring?
  }

  lemma Inside(c: L.Config, expected: nat, trace: Course, a: L.Action) returns (next: Course)
    requires RunSoFar(c, expected, trace) && LL.Inside(c, trace.to.lock, a) &&
             LL.OnlyBy(LL.NoWindow, c, trace.to.lock, a)
    requires AllAcquiring(trace.to.lock, trace.to.runs)
    ensures RunSoFar(c, expected, next) && next.to == trace.to.(lock := L.Apply(c, trace.to.lock, a))
    ensures AllAcquiring(next.to.lock, next.to.runs)
  {
    next := Take(c, expected, trace, OfLock(a));
  }

  lemma {:induction false} Follow(c: L.Config, expected: nat, trace: Course, actions: seq<L.Action>, t: L.State)
    returns (next: Course)
    requires RunSoFar(c, expected, trace) && Leads(LL.Going(LL.NoWindow, c), trace.to.lock, actions, t)
    requires AllAcquiring(trace.to.lock, trace.to.runs)
    ensures RunSoFar(c, expected, next) && next.to == trace.to.(lock := t)
    decreases |actions|
  {
    next := trace;
    if actions != [] {
      next := Inside(c, expected, trace, actions[0]);
      next := Follow(c, expected, next, actions[1..], t);
    }
  }

  const IDLE := L.Process(true, 0, L.Idle)

  function Calling(c: L.Config): L.Process {
    L.Process(true, c.timeoutMs, L.Ready)
  }

  function Holder(c: L.Config, p: L.Pid): L.Process {
    L.Process(true, c.timeoutMs, L.Holding(L.Record(p, 0)))
  }

  /** The lock as the first run took it, and that run. */
  ghost predicate FirstHolds(c: L.Config, lock: L.State, first: L.Process) {
    && lock.clock == 0 && lock.procs == map[1 := first, 2 := IDLE]
    && L.LockContent(lock.dir) == Some(L.Complete(L.Record(1, 0))) && lock.dir.names[L.LockPath] < lock.dir.nextIno
    && lock.dir.names.Keys == {L.LockPath} && lock.dir.published == {L.Record(1, 0)}
  }

  /** The first of two runs finds no stamp, and calls acquire. */
  lemma FirstCalls(c: L.Config, expected: nat) returns (trace: Course)
    ensures RunSoFar(c, expected, trace)
    ensures trace.to == State(L.State(0, L.Dir(map[], map[], 0, {}), map[1 := Calling(c), 2 := IDLE]),
                                  EmptyTree, NoStamp, map[1 := Acquiring, 2 := Starting], 0, 0, 0)
  {
    var start := State(L.State(0, L.Dir(map[], map[], 0, {}), map[1 := IDLE, 2 := IDLE]), EmptyTree, NoStamp,
                       map[1 := Starting, 2 := Starting], 0, 0, 0);
    trace := Trace(start, [], start);
    trace := Work(c, expected, trace, Step(1));
    trace := Take(c, expected, trace, OfLock(L.Step(1, 0)));
  }

  /** It takes the lock. */
  lemma FirstTakes(c: L.Config, expected: nat) returns (trace: Course)
    ensures RunSoFar(c, expected, trace)
    ensures var s := trace.to;
            && s == State(s.lock, EmptyTree, NoStamp, map[1 := Acquiring, 2 := Starting], 0, 0, 0)
            && FirstHolds(c, s.lock, Holder(c, 1))
  {
    trace := FirstCalls(c, expected);
    var leg := LL.TakesFree(LL.NoWindow, c, Trace(trace.to.lock, [], trace.to.lock), 1, 1);
    trace := Follow(c, expected, trace, leg.actions, leg.to);
  }

  /** Run `p` holds the lock, finds no stamp, clears it, wipes the tree, and starts the generator. */
  lemma Starts(c: L.Config, expected: nat, trace: Course, p: L.Pid) returns (next: Course)
    requires RunSoFar(c, expected, trace) && Alive(trace.to, p) && trace.to.runs[p].Acquiring?
    requires trace.to.lock.procs[p].pc.Holding? && trace.to.stamp.NoStamp?
    ensures RunSoFar(c, expected, next)
    ensures next.to == trace.to.(tree := EmptyTree, runs := trace.to.runs[p := Generating])
  {
    next := Work(c, expected, trace, Step(p));
    next := Work(c, expected, next, Step(p));
    next := Work(c, expected, next, Step(p));
    next := Work(c, expected, next, Step(p));
  }

  /** The first run has the lock, and its generator runs. */
  lemma FirstGenerates(c: L.Config, expected: nat) returns (trace: Course)
    ensures RunSoFar(c, expected, trace)
    ensures var s := trace.to;
            && s == State(s.lock, EmptyTree, NoStamp, map[1 := Generating, 2 := Starting], 0, 0, 0)
            && FirstHolds(c, s.lock, Holder(c, 1))
  {
    trace := FirstTakes(c, expected);
    trace := Starts(c, expected, trace, 1);
  }

  /** The first run was killed with the lock. The second takes it over, and its generator runs. */
  lemma SecondGenerates(c: L.Config, expected: nat, trace: Course) returns (next: Course)
    requires c.timeoutMs >= 0 && RunSoFar(c, expected, trace)
    requires var s := trace.to;
             && s.runs.Keys == {1, 2} && s.runs[2] == Starting && s.stamp == NoStamp
             && FirstHolds(c, s.lock, Holder(c, 1).(alive := false))
    ensures RunSoFar(c, expected, next)
    ensures var s, t := trace.to, next.to;
            && t == s.(lock := t.lock, tree := EmptyTree, runs := s.runs[2 := Generating])
            && t.lock.procs == map[1 := Holder(c, 1).(alive := false), 2 := Holder(c, 2)]
  {
    next := Work(c, expected, trace, Step(2));
    next := Take(c, expected, next, OfLock(L.Step(2, 0)));
    var lock := next.to.lock;
    assert lock.procs[2] == Calling(c);
    var leg := LL.TakesOver(LL.NoWindow, c, Trace(lock, [], lock), 2, L.Record(1, 0), 2);
    next := Follow(c, expected, next, leg.actions, leg.to);
    next := Starts(c, expected, next, 2);
  }

  lemma KilledHolds(c: L.Config, lock: L.State)
    requires FirstHolds(c, lock, Holder(c, 1))
    ensures var killed := lock.procs[1].(alive := false);
            FirstHolds(c, lock.(procs := lock.procs[1 := killed]), Holder(c, 1).(alive := false))
  {
  }

  /** The first run's generator ends. */
  lemma FirstEnds(c: L.Config, expected: nat) returns (trace: Course)
    ensures RunSoFar(c, expected, trace)
    ensures var s := trace.to;
            && s.runs == map[1 := AddingManifest, 2 := Starting] && s.stamp == NoStamp
            && s.generated == 1 && s.lost == 0
            && FirstHolds(c, s.lock, Holder(c, 1))
  {
    trace := FirstGenerates(c, expected);
    trace := Ends(c, expected, trace, 1);
  }

  /** The run is killed before it stamps that. */
  lemma FirstIsLost(c: L.Config, expected: nat) returns (trace: Course)
    ensures RunSoFar(c, expected, trace)
    ensures var s := trace.to;
            && s.runs == map[1 := AddingManifest, 2 := Starting] && s.stamp == NoStamp
            && s.generated == 1 && s.lost == 1
            && FirstHolds(c, s.lock, Holder(c, 1).(alive := false))
  {
    trace := FirstEnds(c, expected);
    KilledHolds(c, trace.to.lock);
    trace := Kill(c, expected, trace, 1);
  }

  /** A generate that its run did not live to stamp is made again: two run to their end. */
  lemma ALostGenerateIsMadeAgain(c: L.Config, expected: nat) returns (states: seq<State>, actions: seq<Action>)
    requires c.timeoutMs >= 0
    ensures Run(c, expected, states, actions) && Blameless(c, states, actions, |actions|)
    ensures states[|actions|].generated == 2 && states[|actions|].lost == 1
  {
    var trace := FirstIsLost(c, expected);
    trace := SecondGenerates(c, expected, trace);
    trace := Ends(c, expected, trace, 2);
    actions := trace.actions;
    states := AsRun(c, expected, trace);
  }

  /** The generator's tree gets its manifest and its columns. */
  lemma Completes(c: L.Config, expected: nat, trace: Course, p: L.Pid) returns (next: Course)
    requires RunSoFar(c, expected, trace) && Alive(trace.to, p) && trace.to.runs[p].AddingManifest?
    requires trace.to.lock.procs[p].pc.Holding?
    ensures RunSoFar(c, expected, next) && next.to.lock == trace.to.lock
    ensures next.to.runs == trace.to.runs[p := Stamping]
  {
    next := Work(c, expected, trace, Step(p));
    next := Work(c, expected, next, Step(p));
  }

  /** From the end of its generator to its return, a run that nothing stops. */
  lemma Finishes(c: L.Config, expected: nat, trace: Course, p: L.Pid) returns (next: Course)
    requires RunSoFar(c, expected, trace) && Alive(trace.to, p) && trace.to.runs[p].AddingManifest?
    requires trace.to.lock.procs[p].pc.Holding?
    ensures RunSoFar(c, expected, next) && next.to.lock == trace.to.lock
    ensures next.to.runs == trace.to.runs[p := Leaving(0)]
  {
    next := Completes(c, expected, trace, p);
    next := Work(c, expected, next, Step(p));
    next := Work(c, expected, next, Step(p));
  }

  /** It releases the lock. */
  lemma {:induction false} Releases(c: L.Config, expected: nat, trace: Course, p: L.Pid) returns (next: Course)
    requires RunSoFar(c, expected, trace) && Alive(trace.to, p) && trace.to.runs[p] == Leaving(0)
    requires L.ReleaseStepsLeft(trace.to.lock.procs[p].pc) > 0
    ensures RunSoFar(c, expected, next) && next.to.runs == trace.to.runs[p := Ended(0)]
    ensures forall q <- trace.to.lock.procs :: q != p ==>
              q in next.to.lock.procs && next.to.lock.procs[q] == trace.to.lock.procs[q]
    decreases L.ReleaseStepsLeft(trace.to.lock.procs[p].pc)
  {
    ReleaseGoes(c, expected, trace.to, p);
    LI.OthersUntouched(c, trace.to.lock, L.Step(p, 0));
    next := Take(c, expected, trace, OfLock(L.Step(p, 0)));
    if next.to.runs[p] != Ended(0) {
      next := Releases(c, expected, next, p);
    }
  }

  /** The first run is killed while its generator runs, and the second takes over. */
  lemma FirstIsOrphaned(c: L.Config, expected: nat) returns (trace: Course)
    requires c.timeoutMs >= 0
    ensures RunSoFar(c, expected, trace) && trace.to.runs == map[1 := Generating, 2 := Generating]
    ensures trace.to.lock.procs == map[1 := Holder(c, 1).(alive := false), 2 := Holder(c, 2)]
  {
    trace := FirstGenerates(c, expected);
    KilledHolds(c, trace.to.lock);
    trace := Kill(c, expected, trace, 1);
    trace := SecondGenerates(c, expected, trace);
  }

  /** The second generates and returns 0. */
  lemma SecondReturns(c: L.Config, expected: nat) returns (trace: Course)
    requires c.timeoutMs >= 0
    ensures RunSoFar(c, expected, trace) && trace.to.runs == map[1 := Generating, 2 := Ended(0)]
    ensures 1 in trace.to.lock.procs && !trace.to.lock.procs[1].alive
  {
    trace := FirstIsOrphaned(c, expected);
    trace := Ends(c, expected, trace, 2);
    trace := Finishes(c, expected, trace, 2);
    trace := Releases(c, expected, trace, 2);
  }

  /**
   * A run returns 0 while the generator of a killed run is still there, and so its tree, complete and
   * stamped, is not final: that generator may yet write to it.
   */
  lemma AnOrphanOutlivesAReturn(c: L.Config, expected: nat) returns (states: seq<State>, actions: seq<Action>)
    requires c.timeoutMs >= 0
    ensures Run(c, expected, states, actions) && Blameless(c, states, actions, |actions|)
    ensures 2 in states[|actions|].runs && states[|actions|].runs[2] == Ended(0) && Orphan(states[|actions|], 1)
    ensures Current(expected, states[|actions|]) && Complete(states[|actions|].tree)
    ensures exists longer: seq<State>, more: seq<Action> ::
              GoesOn(c, expected, states, actions, longer, more) && longer[|more|].tree != states[|actions|].tree
  {
    var trace := SecondReturns(c, expected);
    actions := trace.actions;
    states := AsRun(c, expected, trace);
    ReturnedZeroIsFinal(c, expected, states, actions, |actions|, |actions|, 2);
    FinalityIsExact(c, expected, states, actions, 2);
  }
}
