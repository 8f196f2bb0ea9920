/**
 * The two windows lock.js leaves open are real: for every configuration that lets a waiter wait
 * there is a run in which two live processes hold the lock at once, and in which that window is the
 * only thing to blame. So neither event can be left out of the blame theorem.
 */
module LockWindows {
  import opened Prelude
  import opened FileLock
  import opened LockBlame
  import opened LockLegs
  import opened Traces

  /** A step with no blame but the window's. */
  ghost function Taking(window: Window, c: Config): (State, Action, State) -> bool {
    (s: State, a: Action, t: State) => Enabled(s, a) && OnlyBy(window, c, s, a) && t == Apply(c, s, a)
  }

  type Course = Trace<State, Action>

  /** A run so far, with no blame but the window's. */
  ghost predicate RunSoFar(window: Window, c: Config, trace: Course) {
    Init(trace.from) && trace.Valid(Taking(window, c))
  }

  lemma TakeAny(window: Window, c: Config, trace: Course, a: Action) returns (next: Course)
    requires RunSoFar(window, c, trace) && Enabled(trace.to, a) && OnlyBy(window, c, trace.to, a)
    ensures RunSoFar(window, c, next) && next.to == Apply(c, trace.to, a)
  {
    next := Extend(Taking(window, c), trace, a, Apply(c, trace.to, a));
  }

  lemma {:induction false} Follow(window: Window, c: Config, trace: Course, actions: seq<Action>, t: State)
    returns (next: Course)
    requires RunSoFar(window, c, trace) && Leads(Going(window, c), trace.to, actions, t)
    ensures RunSoFar(window, c, next) && next.to == t
    decreases |actions|
  {
    next := trace;
    if actions != [] {
      next := TakeAny(window, c, trace, actions[0]);
      next := Follow(window, c, next, actions[1..], t);
    }
  }

  /** That is a run of the transition system. */
  lemma AsRun(window: Window, c: Config, trace: Course) returns (states: seq<State>)
    requires RunSoFar(window, c, trace)
    ensures Run(c, states, trace.actions) && states[|trace.actions|] == trace.to
    ensures forall i :: 0 <= i < |trace.actions| ==> OnlyBy(window, c, states[i], trace.actions[i])
  {
    states := States(Taking(window, c), trace.from, trace.actions, trace.to);
    forall i | 0 <= i < |trace.actions|
      ensures Enabled(states[i], trace.actions[i]) && OnlyBy(window, c, states[i], trace.actions[i])
      ensures states[i + 1] == Apply(c, states[i], trace.actions[i])
    {
      assert Taking(window, c)(states[i], trace.actions[i], states[i + 1]);
    }
  }

  /** A process calls acquire. */
  lemma Calls(window: Window, c: Config, trace: Course, p: Pid)
    returns (next: Course, leg: Leg)
    requires RunSoFar(window, c, trace) && ProcessAlive(trace.to, p) && At(trace.to, p).Idle?
    ensures RunSoFar(window, c, next) && leg == Trace(next.to, [], next.to) && leg.Valid(Going(window, c))
    ensures var s := trace.to;
            next.to == s.(procs := s.procs[p := Process(true, s.clock + c.timeoutMs, Ready)])
  {
    next := TakeAny(window, c, trace, Step(p, 0));
    leg := Trace(next.to, [], next.to);
  }

  const IDLE := Process(true, 0, Idle)

  function Waiter(c: Config, pc: Pc): Process {
    Process(true, c.timeoutMs, pc)
  }

  /** Two waiters at a dead holder's lock. */
  lemma BothWait(c: Config) returns (trace: Course, leg: Leg)
    requires c.timeoutMs >= 0
    ensures RunSoFar(Unconfirmed, c, trace) && leg.from == trace.to && leg.Valid(Going(Unconfirmed, c))
    ensures var t := leg.to;
            && t.clock == 0 && t.procs == map[1 := Waiter(c, Inspecting), 2 := Waiter(c, Inspecting)]
            && LockContent(t.dir) == Some(Complete(Record(9, 0)))
            && t.dir.names.Keys == {LockPath} && t.dir.published == {Record(9, 0)}
  {
    var dead := Record(9, 0);
    var dir := Dir(map[LockPath := 0], map[0 := Inode(Complete(dead), 0)], 1, {dead});
    var start := State(0, dir, map[1 := IDLE, 2 := IDLE]);
    trace := Trace(start, [], start);
    trace, leg := Calls(Unconfirmed, c, trace, 1);
    trace, leg := Calls(Unconfirmed, c, trace, 2);
    leg := Waits(Unconfirmed, c, leg, 1, 1);
    leg := Waits(Unconfirmed, c, leg, 2, 2);
  }

  /** Both condemn it. */
  lemma BothCondemn(c: Config) returns (trace: Course, leg: Leg)
    requires c.timeoutMs >= 0
    ensures RunSoFar(Unconfirmed, c, trace) && leg.from == trace.to && leg.Valid(Going(Unconfirmed, c))
    ensures var t, waiter := leg.to, Waiter(c, Renaming(Complete(Record(9, 0))));
            && t.clock == 0 && t.procs == map[1 := waiter, 2 := waiter]
            && t.dir.names.Keys == {LockPath} && t.dir.published == {Record(9, 0)}
  {
    trace, leg := BothWait(c);
    leg := Condemns(Unconfirmed, c, leg, 1, Record(9, 0));
    leg := Condemns(Unconfirmed, c, leg, 2, Record(9, 0));
  }

  /**
   * Two waiters condemn the same dead holder. One of them frees the lock and takes it, between the
   * other's confirming read and its rename: the other moves a live holder's lock aside, and takes it.
   */
  lemma TheRenameWindowIsReal(c: Config) returns (states: seq<State>, actions: seq<Action>)
    requires c.timeoutMs >= 0
    ensures Run(c, states, actions) && Holds(states[|actions|], 1) && Holds(states[|actions|], 2)
    ensures forall i :: 0 <= i < |actions| && Blamed(c, states[i], actions[i]) ==>
            RenamesUnconfirmed(states[i], actions[i])
  {
    var start, leg := BothCondemn(c);
    leg := Evicts(Unconfirmed, c, leg, 1, 1);
    leg := Acquires(Unconfirmed, c, leg, 1, 3);
    leg := Evicts(Unconfirmed, c, leg, 2, 2);
    leg := Acquires(Unconfirmed, c, leg, 2, 4);
    var trace := Follow(Unconfirmed, c, start, leg.actions, leg.to);
    actions := trace.actions;
    states := AsRun(Unconfirmed, c, trace);
  }

  /** A holder that lives overruns `staleMs`. A waiter judges it stale, and takes its lock. */
  lemma TheOverrunWindowIsReal(c: Config) returns (states: seq<State>, actions: seq<Action>)
    requires c.timeoutMs >= 0
    ensures Run(c, states, actions) && Holds(states[|actions|], 1) && Holds(states[|actions|], 2)
    ensures forall i :: 0 <= i < |actions| && Blamed(c, states[i], actions[i]) ==>
            JudgesHolderStale(c, states[i], actions[i])
  {
    var trace := HolderOverruns(c);
    var leg: Leg;
    trace, leg := Calls(Overrun, c, trace, 2);
    leg := TakesOver(Overrun, c, leg, 2, Record(1, 0), 2);
    trace := Follow(Overrun, c, trace, leg.actions, leg.to);
    actions := trace.actions;
    states := AsRun(Overrun, c, trace);
  }

  /** One process takes the lock, and overruns `staleMs` while it holds it. */
  lemma HolderOverruns(c: Config) returns (trace: Course)
    requires c.timeoutMs >= 0
    ensures RunSoFar(Overrun, c, trace)
    ensures var t := trace.to;
            && t.clock > c.staleMs && t.clock >= 0
            && t.procs == map[1 := Process(true, c.timeoutMs, Holding(Record(1, 0))), 2 := IDLE]
            && t.dir.names.Keys == {LockPath} && t.dir.published == {Record(1, 0)}
            && LockContent(t.dir) == Some(Complete(Record(1, 0))) && t.dir.names[LockPath] < t.dir.nextIno
  {
    var start := State(0, Dir(map[], map[], 0, {}), map[1 := IDLE, 2 := IDLE]);
    trace := Trace(start, [], start);
    var leg: Leg;
    trace, leg := Calls(Overrun, c, trace, 1);
    leg := TakesFree(Overrun, c, leg, 1, 1);
    trace := Follow(Overrun, c, trace, leg.actions, leg.to);
    trace := TakeAny(Overrun, c, trace, Tick(if c.staleMs < 0 then 0 else c.staleMs + 1));
  }

  /** In the part of `acquire` that judges the holder, frees the lock, or sleeps. */
  predicate InTheWait(pc: Pc) {
    || pc.Inspecting? || pc.Observing? || pc.Probing? || pc.Judging? || pc.Confirming?
    || pc.Rereading? || pc.Renaming? || pc.Discarding? || pc.Sleeping?
  }

  predicate GivesUpAtOnce(s: State, p: Pid)
    requires p in s.procs
  {
    !InTheWait(s.procs[p].pc) && (s.procs[p].pc.Idle? || s.procs[p].deadline < s.clock)
  }

  lemma StepGivesUp(c: Config, s: State, a: Action, p: Pid)
    requires c.timeoutMs < 0 && Enabled(s, a) && p in Apply(c, s, a).procs
    requires forall q <- s.procs :: GivesUpAtOnce(s, q)
    ensures GivesUpAtOnce(Apply(c, s, a), p)
  {
  }

  lemma {:induction false} NobodyWaits(c: Config, states: seq<State>, actions: seq<Action>, k: nat)
    requires Run(c, states, actions) && k < |states| && c.timeoutMs < 0
    ensures forall p <- states[k].procs :: GivesUpAtOnce(states[k], p)
  {
    if k > 0 {
      NobodyWaits(c, states, actions, k - 1);
      forall p <- states[k].procs ensures GivesUpAtOnce(states[k], p) {
        StepGivesUp(c, states[k - 1], actions[k - 1], p);
      }
    }
  }

  /**
   * In the other configurations, in which nobody ever waits, neither window is there: two processes
   * hold the lock at once only after a record was published twice.
   */
  lemma NoWindowWithoutWaiting(c: Config, states: seq<State>, actions: seq<Action>, k: nat, p: Pid, q: Pid)
    requires Run(c, states, actions) && k < |states| && c.timeoutMs < 0
    requires p != q && Holds(states[k], p) && Holds(states[k], q)
    ensures exists i :: 0 <= i < k && RepeatsRecord(states[i], actions[i])
  {
    TwoHoldersMeanBlame(c, states, actions, k, p, q);
    var i :| 0 <= i < k && Blamed(c, states[i], actions[i]);
    NobodyWaits(c, states, actions, i);
    assert GivesUpAtOnce(states[i], actions[i].pid);
  }
}
