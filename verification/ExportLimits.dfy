/**
 * Why the lock must not be to blame: a run of two identical exports, written out, in which a holder
 * that outstays `staleMs` is taken for dead, and the output is replaced twice.
 */
module ExportLimits {
  import opened Prelude
  import L = FileLock
  import LB = LockBlame
  import LI = LockIntegrity
  import LL = LockLegs
  import opened ProtoExport
  import opened ExportRuns
  import opened Traces

  /** The only thing to blame `a` for, if any, is that a live holder is judged stale. */
  ghost predicate OverrunOnly(c: L.Config, s: State, a: Action) {
    a.OfLock? ==> LL.OnlyBy(LL.Overrun, c, s.lock, a.a)
  }

  ghost function Taking(c: L.Config, files: Files): (State, Action, State) -> bool {
    (s: State, a: Action, t: State) =>
      && s.runs.Keys == s.lock.procs.Keys && Enabled(s, a) && OverrunOnly(c, s, a)
      && t == Apply(c, files, s, a) && t.runs.Keys == t.lock.procs.Keys
  }

  type Course = Trace<State, Action>

  ghost predicate RunSoFar(c: L.Config, files: Files, trace: Course) {
    Init(trace.from) && trace.Valid(Taking(c, files)) && trace.to.runs.Keys == trace.to.lock.procs.Keys
  }

  lemma Take(c: L.Config, files: Files, trace: Course, a: Action) returns (next: Course)
    requires RunSoFar(c, files, trace) && Enabled(trace.to, a) && OverrunOnly(c, trace.to, a)
    ensures RunSoFar(c, files, next) && next.to == Apply(c, files, trace.to, a)
  {
    if a.OfLock? {
      LI.OthersUntouched(c, trace.to.lock, a.a);
    }
    next := Extend(Taking(c, files), trace, a, Apply(c, files, trace.to, a));
  }

  /** A run's own operation. */
  lemma Work(c: L.Config, files: Files, trace: Course, a: Action) returns (next: Course)
    requires RunSoFar(c, files, trace) && !a.OfLock? && Enabled(trace.to, a)
    ensures RunSoFar(c, files, next) && next.to == Apply(c, files, trace.to, a) && next.to.lock == trace.to.lock
  {
    next := Take(c, files, trace, a);
  }

  /** Whoever is inside the lock is in `acquire`. */
  ghost predicate AllAcquiring(s: State) {
    forall q <- s.lock.procs ::
      var pc := s.lock.procs[q].pc;
      q in s.runs && s.lock.procs[q].alive && !pc.Idle? && !pc.Holding? ==> s.runs[q].Acquiring?
  }

  lemma {:induction false} Follow(c: L.Config, files: Files, trace: Course, actions: seq<L.Action>, t: L.State)
    returns (next: Course)
    requires RunSoFar(c, files, trace) && AllAcquiring(trace.to) &&
             Leads(LL.Going(LL.Overrun, c), trace.to.lock, actions, t)
    ensures RunSoFar(c, files, next) && next.to == trace.to.(lock := t)
    decreases |actions|
  {
    next := trace;
    if actions != [] {
      next := Take(c, files, trace, OfLock(actions[0]));
      next := Follow(c, files, next, actions[1..], t);
    }
  }

  /** That is a run of the transition system. */
  lemma AsRun(c: L.Config, files: Files, trace: Course) returns (states: seq<State>)
    requires RunSoFar(c, files, trace)
    ensures Run(c, files, states, trace.actions) && states[|trace.actions|] == trace.to
    ensures forall i :: 0 <= i < |trace.actions| ==> OverrunOnly(c, states[i], trace.actions[i])
  {
    states := States(Taking(c, files), trace.from, trace.actions, trace.to);
    forall i | 0 <= i < |trace.actions|
      ensures states[i].runs.Keys == states[i].lock.procs.Keys && Enabled(states[i], trace.actions[i])
      ensures OverrunOnly(c, states[i], trace.actions[i])
      ensures states[i + 1] == Apply(c, files, states[i], trace.actions[i])
    {
      assert Taking(c, files)(states[i], trace.actions[i], states[i + 1]);
    }
  }

  function Calling(deadline: int): L.Process {
    L.Process(true, deadline, L.Ready)
  }

  /** Run `p` has exported, and calls acquire. */
  lemma Calls(c: L.Config, files: Files, trace: Course, p: L.Pid) returns (next: Course)
    requires RunSoFar(c, files, trace) && Alive(trace.to, p) && trace.to.runs[p].Exporting?
    requires trace.to.lock.procs[p].pc.Idle?
    ensures RunSoFar(c, files, next)
    ensures var s, lock := trace.to, trace.to.lock;
            next.to == s.(lock := lock.(procs := lock.procs[p := Calling(lock.clock + c.timeoutMs)]),
                            runs := s.runs[p := Acquiring])
  {
    next := Work(c, files, trace, Exports(p, true));
    next := Take(c, files, next, OfLock(L.Step(p, 0)));
  }

  /** Run `p` holds the lock and finds that the output differs. */
  lemma Compares(c: L.Config, files: Files, trace: Course, p: L.Pid) returns (next: Course)
    requires RunSoFar(c, files, trace) && Alive(trace.to, p) && trace.to.runs[p].Acquiring?
    requires trace.to.lock.procs[p].pc.Holding? && trace.to.output.None?
    ensures RunSoFar(c, files, next) && next.to == trace.to.(runs := trace.to.runs[p := Deleting(1)])
  {
    next := Work(c, files, trace, Step(p));
    next := Work(c, files, next, Step(p));
  }

  /** It deletes whatever is there, and renames its staging directory to the output. */
  lemma Replaces(c: L.Config, files: Files, trace: Course, p: L.Pid) returns (next: Course)
    requires RunSoFar(c, files, trace) && Alive(trace.to, p) && trace.to.runs[p] == Deleting(1)
    ensures RunSoFar(c, files, next) && next.to.lock == trace.to.lock
    ensures next.to.replaced == trace.to.replaced + 1
    ensures next.to.runs == trace.to.runs[p := Leaving(Some(true))]
  {
    next := Work(c, files, trace, Step(p));
    next := Work(c, files, next, Step(p));
  }

  const IDLE := L.Process(true, 0, L.Idle)

  /** The first run holds the lock, and is about to delete. */
  lemma FirstDeletes(c: L.Config, files: Files) returns (trace: Course)
    ensures RunSoFar(c, files, trace)
    ensures var s := trace.to;
            && s == State(s.lock, None, map[1 := Deleting(1), 2 := Exporting], 0)
            && s.lock.clock == 0
            && s.lock.procs == map[1 := L.Process(true, c.timeoutMs, L.Holding(L.Record(1, 0))), 2 := IDLE]
            && L.LockContent(s.lock.dir) == Some(L.Complete(L.Record(1, 0)))
            && s.lock.dir.names[L.LockPath] < s.lock.dir.nextIno
            && s.lock.dir.names.Keys == {L.LockPath} && s.lock.dir.published == {L.Record(1, 0)}
  {
    var lock := L.State(0, L.Dir(map[], map[], 0, {}), map[1 := IDLE, 2 := IDLE]);
    var start := State(lock, None, map[1 := Exporting, 2 := Exporting], 0);
    trace := Trace(start, [], start);
    trace := Calls(c, files, trace, 1);
    var leg := LL.TakesFree(LL.Overrun, c, Trace(trace.to.lock, [], trace.to.lock), 1, 1);
    trace := Follow(c, files, trace, leg.actions, leg.to);
    trace := Compares(c, files, trace, 1);
  }

  /** It sleeps past `staleMs`. The second run judges it stale, takes the lock, and comes as far. */
  lemma SecondDeletes(c: L.Config, files: Files) returns (trace: Course)
    requires c.timeoutMs >= 0
    ensures RunSoFar(c, files, trace)
    ensures trace.to.runs == map[1 := Deleting(1), 2 := Deleting(1)] && trace.to.replaced == 0
    ensures Alive(trace.to, 1) && Alive(trace.to, 2)
  {
    trace := FirstDeletes(c, files);
    trace := Take(c, files, trace, OfLock(L.Tick(if c.staleMs >= 0 then c.staleMs + 1 else 0)));
    trace := Calls(c, files, trace, 2);
    var lock := trace.to.lock;
    var leg := LL.TakesOver(LL.Overrun, c, Trace(lock, [], lock), 2, L.Record(1, 0), 2);
    trace := Follow(c, files, trace, leg.actions, leg.to);
    trace := Compares(c, files, trace, 2);
  }

  /**
   * In every configuration that lets a waiter wait: the output is replaced twice, and nothing is to
   * blame but a live holder that was judged stale.
   */
  lemma AnOverrunReplacesTwice(c: L.Config, files: Files) returns (states: seq<State>, actions: seq<Action>)
    requires c.timeoutMs >= 0
    ensures Run(c, files, states, actions) && states[|actions|].replaced == 2
    ensures forall i :: 0 <= i < |actions| && Blamed(c, states[i], actions[i]) ==>
              LB.JudgesHolderStale(c, states[i].lock, actions[i].a)
  {
    var trace := SecondDeletes(c, files);
    trace := Replaces(c, files, trace, 2);
    trace := Replaces(c, files, trace, 1);
    actions := trace.actions;
    states := AsRun(c, files, trace);
    forall i | 0 <= i < |actions| && Blamed(c, states[i], actions[i])
      ensures LB.JudgesHolderStale(c, states[i].lock, actions[i].a)
    {
      assert OverrunOnly(c, states[i], actions[i]);
    }
  }
}
