/**
 * How waiting for the lock ends (lock.js, `acquire`). Every acquire ends soon after its deadline,
 * by taking the lock or by throwing. And a waiter outlives a stuck holder: that is what a
 * staleness threshold below the timeout buys.
 */
module LockWaiter {
  import opened Prelude
  import opened FileLock
  import opened LockIntegrity

  /** Inside `acquire`, before it has returned. */
  predicate Acquiring(pc: Pc) {
    pc.Cleaning? || (!pc.Idle? && HeldRecord(pc).None?)
  }

  /** How many of its own steps a waiter past its deadline has left, at most. */
  function StepsLeft(pc: Pc): nat {
    match pc
    case Idle => 0
    case Holding(_) => 0
    case Verifying(_, _) => 0
    case Removing(_) => 0
    case Polling => 1
    case Cleaning(_, _, _) => 2
    case Linking(_, _) => 3
    case Writing(_, _, _) => 4
    case Creating(_, attempts) => if attempts < STAGING_ATTEMPTS then 4 + STAGING_ATTEMPTS - attempts else 0
    case Ready => 10
    case Sleeping => 11
    case Discarding(_) => 11
    case Renaming(_) => 12
    case Rereading(_, _) => 13
    case Confirming(_) => 14
    case Judging(_, _) => 15
    case Probing(_) => 16
    case Observing(_) => 17
    case Inspecting => 18
  }

  /** The number of steps `p` takes in `actions`. */
  function OwnSteps(actions: seq<Action>, p: Pid): nat {
    if actions == [] then 0 else OwnStep(actions[0], p) + OwnSteps(actions[1..], p)
  }

  function OwnStep(a: Action, p: Pid): nat {
    if a.Step? && a.pid == p then 1 else 0
  }

  lemma StepsRunOut(c: Config, s: State, a: Action, p: Pid)
    requires Intact(s) && Enabled(s, a) && ProcessAlive(s, p) && ProcessAlive(Apply(c, s, a), p)
    requires Acquiring(s.procs[p].pc) && s.clock > s.procs[p].deadline
    ensures
      var t := Apply(c, s, a);
      || t.procs[p].pc.Idle? || t.procs[p].pc.Holding?
      || (&& Acquiring(t.procs[p].pc) && t.clock > t.procs[p].deadline
          && StepsLeft(t.procs[p].pc) + OwnStep(a, p) <= StepsLeft(s.procs[p].pc))
  {
    OthersUntouched(c, s, a);
    assert StagingOk(s, p);
  }

  /**
   * Every acquire ends: whatever the other processes do, once its deadline has passed a waiter
   * that is not killed has thrown or taken the lock within 18 steps of its own.
   */
  lemma {:induction false} AcquireEnds(c: Config, states: seq<State>, actions: seq<Action>, p: Pid, m: nat, n: nat)
    requires Run(c, states, actions) && m <= n < |states| && ProcessAlive(states[n], p) && p in states[m].procs
    requires Acquiring(states[m].procs[p].pc) && states[m].clock > states[m].procs[p].deadline
    requires OwnSteps(actions[m..n], p) >= StepsLeft(states[m].procs[p].pc)
    ensures StepsLeft(states[m].procs[p].pc) <= 18
    ensures exists j ::
              m < j <= n && p in states[j].procs && (states[j].procs[p].pc.Idle? || states[j].procs[p].pc.Holding?)
    decreases n - m
  {
    RunGrows(c, states, actions, m, n);
    assert ProcessAlive(states[m], p) && StagingOk(states[m], p);
    assert actions[m..n] != [] && actions[m..n][1..] == actions[m + 1..n];
    RunGrows(c, states, actions, m + 1, n);
    StepsRunOut(c, states[m], actions[m], p);
    var pc := states[m + 1].procs[p].pc;
    if !pc.Idle? && !pc.Holding? {
      AcquireEnds(c, states, actions, p, m + 1, n);
    }
  }

  /** From `k` on, only the clock and `p` move, and the staging names `p` picks are new. */
  ghost predicate Alone(states: seq<State>, actions: seq<Action>, p: Pid, k: nat)
    requires |states| == |actions| + 1
  {
    forall i :: k <= i < |actions| ==>
      var a := actions[i];
      a.Tick? || (a.Step? && a.pid == p && Staging(a.pick) !in states[i].dir.names)
  }

  predicate Judges(s: State, a: Action, p: Pid) {
    a.Step? && a.pid == p && p in s.procs && s.procs[p].pc.Judging?
  }

  /** When `p` last judged the holder before `i`, or when its wait began, at `k`. */
  function LastJudged(states: seq<State>, actions: seq<Action>, p: Pid, k: nat, i: nat): int
    requires |states| == |actions| + 1 && k <= i < |states|
  {
    if i == k then states[k].clock
    else if Judges(states[i - 1], actions[i - 1], p) then states[i - 1].clock
    else LastJudged(states, actions, p, k, i - 1)
  }

  /** A wait's iterations are at most `d` apart, for as long as the lock is the one waited on. */
  ghost predicate Paced(states: seq<State>, actions: seq<Action>, p: Pid, k: nat, r: Record, d: int)
    requires |states| == |actions| + 1
  {
    forall i :: k <= i < |states| && LockContent(states[i].dir) == Some(Complete(r)) ==>
      states[i].clock - LastJudged(states, actions, p, k, i) <= d
  }

  /**
   * Where a lone waiter can be. While the lock is `r`'s, no judgement so far came more than
   * `staleMs` after the wait began; once it is freed, only taking it is left.
   */
  predicate OnTrack(c: Config, s: State, p: Pid, r: Record, began: int, lastJudged: int)
    requires p in s.procs
  {
    var locked := LockContent(s.dir) == Some(Complete(r));
    var waiting := locked && lastJudged <= began + c.staleMs;
    match s.procs[p].pc
    case Ready => waiting || LockPath !in s.dir.names
    case Creating(_, attempts) => attempts == 0 && (waiting || LockPath !in s.dir.names)
    case Writing(_, _, _) => waiting || LockPath !in s.dir.names
    case Linking(_, _) => waiting || LockPath !in s.dir.names
    case Cleaning(_, _, linked) => linked || waiting
    case Polling => waiting
    case Inspecting => waiting
    case Observing(ino) => waiting && ino == s.dir.names[LockPath]
    case Probing(seen) => waiting && seen.content == Complete(r)
    case Judging(seen, _) => waiting && seen.content == Complete(r)
    case Sleeping => waiting
    case Confirming(seen) => locked && seen.content == Complete(r)
    case Rereading(seen, ino) => locked && seen.content == Complete(r) && ino == s.dir.names[LockPath]
    case Renaming(_) => locked
    case Discarding(_) => LockPath !in s.dir.names
    case Holding(_) => true
    case _ => false
  }

  lemma StepOnTrack(c: Config, s: State, a: Action, p: Pid, r: Record, began: int, lastJudged: int)
    requires Intact(s) && Enabled(s, a) && ProcessAlive(s, p)
    requires a.Tick? || (a.Step? && a.pid == p && Staging(a.pick) !in s.dir.names)
    requires 0 <= c.staleMs && r.acquiredAt <= began && !s.procs[p].pc.Holding?
    requires OnTrack(c, s, p, r, began, lastJudged)
    requires LockContent(s.dir) == Some(Complete(r)) ==> s.clock <= lastJudged + s.procs[p].deadline - began - c.staleMs
    ensures OnTrack(c, Apply(c, s, a), p, r, began, if Judges(s, a, p) then s.clock else lastJudged)
    ensures ProcessAlive(Apply(c, s, a), p) && Apply(c, s, a).procs[p].deadline == s.procs[p].deadline
  {
    assert StagingOk(s, p);
  }

  /**
   * A waiter alone on a lock that is never released, staged no later than the wait began. If its
   * iterations are at most `d` apart and staleMs + d < timeoutMs, it never gives up: at every
   * moment it is still waiting within the threshold, or on its way to the lock, or has it.
   */
  lemma {:induction false} WaiterOutlivesStuckHolder(
      c: Config, states: seq<State>, actions: seq<Action>, p: Pid, k: nat, n: nat, r: Record, d: int)
    requires Run(c, states, actions) && k <= n < |states| && ProcessAlive(states[k], p)
    requires 0 <= c.staleMs && c.staleMs + d < c.timeoutMs
    requires states[k].procs[p].pc == Ready && states[k].procs[p].deadline == states[k].clock + c.timeoutMs
    requires LockContent(states[k].dir) == Some(Complete(r)) && r.acquiredAt <= states[k].clock
    requires Alone(states, actions, p, k) && Paced(states, actions, p, k, r, d)
    requires forall i :: k <= i < n ==> p in states[i].procs && !states[i].procs[p].pc.Holding?
    ensures ProcessAlive(states[n], p)
    ensures OnTrack(c, states[n], p, r, states[k].clock, LastJudged(states, actions, p, k, n))
    ensures states[n].procs[p].deadline == states[k].clock + c.timeoutMs
    ensures !states[n].procs[p].pc.Idle?
    decreases n - k
  {
    if n > k {
      var s, a := states[n - 1], actions[n - 1];
      var lastJudged := LastJudged(states, actions, p, k, n - 1);
      WaiterOutlivesStuckHolder(c, states, actions, p, k, n - 1, r, d);
      RunIntact(c, states, actions, n - 1);
      assert LockContent(s.dir) == Some(Complete(r)) ==> s.clock - lastJudged <= d;
      StepOnTrack(c, s, a, p, r, states[k].clock, lastJudged);
    }
  }

  /**
   * And it succeeds: once staleMs + d have passed, it has judged the holder stale, so it is past
   * waiting, and each step brings it nearer to holding the lock.
   */
  lemma WaiterStopsWaiting(
      c: Config, states: seq<State>, actions: seq<Action>, p: Pid, k: nat, n: nat, r: Record, d: int)
    requires Run(c, states, actions) && k <= n < |states| && ProcessAlive(states[k], p)
    requires 0 <= c.staleMs && c.staleMs + d < c.timeoutMs
    requires states[k].procs[p].pc == Ready && states[k].procs[p].deadline == states[k].clock + c.timeoutMs
    requires LockContent(states[k].dir) == Some(Complete(r)) && r.acquiredAt <= states[k].clock
    requires Alone(states, actions, p, k) && Paced(states, actions, p, k, r, d)
    requires forall i :: k <= i < n ==> p in states[i].procs && !states[i].procs[p].pc.Holding?
    requires states[n].clock > states[k].clock + c.staleMs + d
    ensures p in states[n].procs && ToTheLock(states[n], p).Some?
  {
    WaiterOutlivesStuckHolder(c, states, actions, p, k, n, r, d);
  }

  /** For a waiter past waiting: the steps it needs to hold the lock. */
  function ToTheLock(s: State, p: Pid): (left: Option<nat>)
    requires p in s.procs
    ensures left.Some? ==> left.value <= 9
  {
    var free := LockPath !in s.dir.names;
    match s.procs[p].pc
    case Confirming(seen) => if LockContent(s.dir) == Some(seen.content) then Some(9) else None
    case Rereading(seen, ino) =>
      if LockContent(s.dir) == Some(seen.content) && ino == s.dir.names[LockPath] then Some(8) else None
    case Renaming(_) => if free then None else Some(7)
    case Discarding(_) => if free then Some(6) else None
    case Ready => if free then Some(5) else None
    case Creating(_, _) => if free then Some(4) else None
    case Writing(_, _, _) => if free then Some(3) else None
    case Linking(_, _) => if free then Some(2) else None
    case Cleaning(_, _, linked) => if linked then Some(1) else None
    case Holding(_) => Some(0)
    case _ => None
  }

  lemma NearsTheLock(c: Config, s: State, a: Action, p: Pid)
    requires Intact(s) && Enabled(s, a) && ProcessAlive(s, p)
    requires a.Tick? || (a.Step? && a.pid == p && Staging(a.pick) !in s.dir.names)
    requires ToTheLock(s, p).Some? && ToTheLock(s, p).value > 0
    ensures
      var t := Apply(c, s, a);
      ProcessAlive(t, p) && ToTheLock(t, p).Some? && ToTheLock(t, p).value + OwnStep(a, p) == ToTheLock(s, p).value
  {
    assert StagingOk(s, p);
  }

  /** A lone waiter on its way to the lock comes within `w` steps of it, with each step one nearer. */
  lemma {:induction false} GetsNearer(
      c: Config, states: seq<State>, actions: seq<Action>, p: Pid, k: nat, n: nat, w: nat)
    requires Run(c, states, actions) && k <= n < |states| && ProcessAlive(states[k], p)
    requires Alone(states, actions, p, k) && ToTheLock(states[k], p).Some?
    requires OwnSteps(actions[k..n], p) + w >= ToTheLock(states[k], p).value
    ensures exists j :: k <= j <= n && p in states[j].procs &&
                        ToTheLock(states[j], p).Some? && ToTheLock(states[j], p).value <= w
    decreases n - k
  {
    if ToTheLock(states[k], p).value > w {
      assert actions[k..n] != [];
      assert actions[k..n][1..] == actions[k + 1..n];
      var a := actions[k];
      assert a.Tick? || (a.Step? && a.pid == p && Staging(a.pick) !in states[k].dir.names);
      RunIntact(c, states, actions, k);
      NearsTheLock(c, states[k], a, p);
      GetsNearer(c, states, actions, p, k + 1, n, w);
    }
  }

  /** A lone waiter on its way to the lock takes it, in at most nine steps. */
  lemma WaiterTakesTheLock(c: Config, states: seq<State>, actions: seq<Action>, p: Pid, k: nat, n: nat)
    requires Run(c, states, actions) && k <= n < |states| && ProcessAlive(states[k], p)
    requires Alone(states, actions, p, k) && ToTheLock(states[k], p).Some?
    requires OwnSteps(actions[k..n], p) >= ToTheLock(states[k], p).value
    ensures exists j :: k <= j <= n && p in states[j].procs && states[j].procs[p].pc.Holding?
  {
    GetsNearer(c, states, actions, p, k, n, 0);
  }

  /** `p` has the lock, or has freed it and is on its way. */
  predicate Freed(s: State, p: Pid) {
    p in s.procs && (LockPath !in s.dir.names || HeldRecord(s.procs[p].pc).Some?)
  }

  lemma FromThereOn(c: Config, states: seq<State>, actions: seq<Action>, p: Pid, m: nat, n: nat)
    requires Run(c, states, actions) && m <= n < |states| && ProcessAlive(states[m], p)
    requires Alone(states, actions, p, m) && ToTheLock(states[m], p).Some?
    ensures OwnSteps(actions[m..n], p) >= 3 ==> exists j :: m <= j <= n && Freed(states[j], p)
    ensures OwnSteps(actions[m..n], p) >= 9 ==>
              exists j :: m <= j <= n && p in states[j].procs && states[j].procs[p].pc.Holding?
  {
    if OwnSteps(actions[m..n], p) >= 3 {
      GetsNearer(c, states, actions, p, m, n, 6);
      var j :| m <= j <= n && p in states[j].procs && ToTheLock(states[j], p).Some? &&
          ToTheLock(states[j], p).value <= 6;
      assert Freed(states[j], p);
    }
    if OwnSteps(actions[m..n], p) >= 9 {
      WaiterTakesTheLock(c, states, actions, p, m, n);
    }
  }

  /**
   * From beginning to end. In a configuration that `assertReclaimIsReachable` lets pass, a waiter
   * that finds the lock of a stuck holder, and whose iterations are at most `d` apart, with staleMs + d
   * below timeoutMs, frees the lock and takes it: the first within three of its own steps once
   * staleMs + d have passed, the second within nine.
   */
  lemma WaiterGetsTheLock(
      c: Config, states: seq<State>, actions: seq<Action>, p: Pid, k: nat, m: nat, n: nat, r: Record, d: int)
    requires Run(c, states, actions) && k <= m <= n < |states| && ProcessAlive(states[k], p)
    requires ReclaimIsReachable(c) && 0 <= c.staleMs && d < c.timeoutMs - c.staleMs
    requires states[k].procs[p].pc == Ready && states[k].procs[p].deadline == states[k].clock + c.timeoutMs
    requires LockContent(states[k].dir) == Some(Complete(r)) && r.acquiredAt <= states[k].clock
    requires Alone(states, actions, p, k) && Paced(states, actions, p, k, r, d)
    requires states[m].clock > states[k].clock + c.staleMs + d
    ensures OwnSteps(actions[m..n], p) >= 3 ==> exists j :: k <= j <= n && Freed(states[j], p)
    ensures OwnSteps(actions[m..n], p) >= 9 ==>
              exists j :: k <= j <= n && p in states[j].procs && states[j].procs[p].pc.Holding?
  {
    if j :| k <= j <= m && p in states[j].procs && states[j].procs[p].pc.Holding? {
      assert Freed(states[j], p);
    } else {
      forall i | k <= i <= m ensures p in states[i].procs && !states[i].procs[p].pc.Holding? {
        RunGrows(c, states, actions, k, i);
      }
      WaiterStopsWaiting(c, states, actions, p, k, m, r, d);
      WaiterOutlivesStuckHolder(c, states, actions, p, k, m, r, d);
      FromThereOn(c, states, actions, p, m, n);
    }
  }
}
