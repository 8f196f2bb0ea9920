/**
 * `main` of libs/scripts/src/prisma-generate/index.js with the stamp of client-state.js, run by
 * any number of processes at once on top of the lock file itself: the processes share the lock,
 * the output tree and the stamp, and any of them may be killed between two steps. The schema is
 * the same for all of them, so they all expect one fingerprint.
 */
module GenerateOnce {
  import opened Prelude
  import L = FileLock
  import LI = LockIntegrity
  import LB = LockBlame

  /**
   * The output directory: its file count, the three files `isCurrent` asks for, and whether the
   * generator has run to its end since the directory was last removed.
   */
  datatype Tree = Tree(count: nat, client: bool, manifest: bool, columns: bool, generated: bool)

  const EmptyTree := Tree(0, false, false, false, false)

  predicate Complete(t: Tree) {
    t.generated && t.count > 0 && t.client && t.manifest && t.columns
  }

  /** stamp.json. A torn one does not parse. */
  datatype Stamp = NoStamp | TornStamp | Stamp(fingerprint: nat, count: nat)

  datatype Main =
    | Starting                           // about to read the stamp, without the lock
    | Counting(count: nat, locked: bool) // the stamp has the fingerprint; about to look at the tree
    | Wanting                            // about to call acquire
    | Acquiring                          // inside acquire
    | Entered                            // has the lock; about to read the stamp again
    | Clearing                           // about to remove the stamp
    | Wiping                             // about to remove the tree
    | Generating                         // the generator runs
    | AddingManifest                     // it has exited with 0; about to write the manifest
    | AddingColumns                      // about to write the unit-id columns
    | Stamping                           // about to count the files and open the stamp
    | StampOpen(count: nat)              // the stamp is truncated; about to write it
    | Leaving(status: nat)               // in finally: about to release, or releasing
    | Ended(status: nat)                 // returned, or thrown with a non-zero status

  datatype State = State(
    lock: L.State,
    tree: Tree,
    stamp: Stamp,
    runs: map<L.Pid, Main>,
    generated: nat,   // generates that ran to their end
    stamped: nat,     // stamps written in full
    lost: nat)        // generates whose process died, or threw, before its stamp was written

  datatype Action =
    | OfLock(a: L.Action)                  // the clock, a crash, or a call inside acquire or release
    | Step(pid: L.Pid)                     // main's next file operation
    | Generator(pid: L.Pid, tree: Tree)    // the generator deletes or writes something, its run alive or not
    | Succeeds(pid: L.Pid, count: nat)     // the generator exits with 0, leaving its client
    | Fails(pid: L.Pid, status: nat)       // it exits with another status
    | Throws(pid: L.Pid)                   // an error thrown inside the try block

  predicate Working(m: Main) {
    m.Entered? || m.Clearing? || m.Wiping? || m.Generating? || Finishing(m) || (m.Counting? && m.locked)
  }

  /** Between the end of a generate and its stamp. */
  predicate Finishing(m: Main) {
    m.AddingManifest? || m.AddingColumns? || m.Stamping? || m.StampOpen?
  }

  /** At work on the tree. */
  predicate Rebuilding(m: Main) {
    m.Clearing? || m.Wiping? || m.Generating? || Finishing(m)
  }

  predicate Alive(s: State, p: L.Pid) {
    p in s.runs && L.ProcessAlive(s.lock, p)
  }

  predicate Enabled(s: State, a: Action) {
    match a
    case OfLock(Tick(_)) => true
    case OfLock(Crash(p)) => Alive(s, p)
    case OfLock(la) =>
      && Alive(s, la.pid)
      && var pc := s.lock.procs[la.pid].pc;
         if pc.Idle? then s.runs[la.pid].Wanting? && la.Step?
         else if pc.Holding? then s.runs[la.pid].Leaving? && la.Step?
         else s.runs[la.pid].Acquiring? || s.runs[la.pid].Leaving?
    case Step(p) =>
      && Alive(s, p)
      && var m := s.runs[p];
         && !m.Wanting? && !m.Generating? && !m.Leaving? && !m.Ended?
         && (m.Acquiring? ==> s.lock.procs[p].pc.Holding?)
    case Generator(p, t) => p in s.runs && s.runs[p].Generating? && !t.generated
    case Succeeds(p, count) => Alive(s, p) && s.runs[p].Generating? && count > 0
    case Fails(p, status) => Alive(s, p) && s.runs[p].Generating? && status > 0
    case Throws(p) => Alive(s, p) && Working(s.runs[p])
  }

  /** What `isCurrent` decides once it looks at the tree. */
  predicate TreeMatches(t: Tree, count: nat) {
    count > 0 && count == t.count && t.client && t.manifest && t.columns
  }

  function At(s: State, p: L.Pid, m: Main): State {
    s.(runs := s.runs[p := m])
  }

  function ReadStamp(s: State, p: L.Pid, expected: nat, locked: bool): State {
    if s.stamp.Stamp? && s.stamp.fingerprint == expected then At(s, p, Counting(s.stamp.count, locked))
    else At(s, p, if locked then Clearing else Wanting)
  }

  /** A crash, or a throw, between a generate and its stamp loses that generate. */
  function Lose(s: State, p: L.Pid): State
    requires p in s.runs
  {
    if Finishing(s.runs[p]) then s.(lost := s.lost + 1) else s
  }

  function AfterLock(s: State, a: L.Action, lock: L.State): State
    requires a.Tick? || (a.pid in s.runs && a.pid in lock.procs)
  {
    if a.Tick? then s.(lock := lock)
    else if a.Crash? then Lose(s.(lock := lock), a.pid)
    else
      var m := s.runs[a.pid];
      var next :=
        if m.Wanting? then Acquiring
        else if !lock.procs[a.pid].pc.Idle? then m
        else if m.Leaving? && a.Step? then Ended(m.status)
        else Ended(1);
      At(s.(lock := lock), a.pid, next)
  }

  function Apply(c: L.Config, expected: nat, s: State, a: Action): State
    requires Enabled(s, a) && s.runs.Keys == s.lock.procs.Keys
  {
    match a
    case OfLock(la) => AfterLock(s, la, L.Apply(c, s.lock, la))
    case Generator(p, t) => s.(tree := t)
    case Succeeds(p, count) =>
      At(s.(tree := Tree(count, true, false, false, true), generated := s.generated + 1), p, AddingManifest)
    case Fails(p, status) => At(s, p, Leaving(status))
    case Throws(p) => At(Lose(s, p), p, Leaving(1))
    case Step(p) =>
      match s.runs[p]
      case Starting => ReadStamp(s, p, expected, false)
      case Entered => ReadStamp(s, p, expected, true)
      case Counting(count, locked) =>
        At(s, p, if TreeMatches(s.tree, count) then (if locked then Leaving(0) else Ended(0))
                 else if locked then Clearing else Wanting)
      case Acquiring => At(s, p, Entered)
      case Clearing => At(s.(stamp := NoStamp), p, Wiping)
      case Wiping => At(s.(tree := EmptyTree), p, Generating)
      case AddingManifest => At(s.(tree := s.tree.(manifest := true, count := s.tree.count + 1)), p, AddingColumns)
      case AddingColumns => At(s.(tree := s.tree.(columns := true, count := s.tree.count + 1)), p, Stamping)
      case Stamping => At(s.(stamp := TornStamp), p, StampOpen(s.tree.count))
      case StampOpen(count) => At(s.(stamp := Stamp(expected, count), stamped := s.stamped + 1), p, Leaving(0))
  }

  /** All processes at the start, no stamp with the fingerprint; tree and stamp otherwise arbitrary. */
  ghost predicate Init(expected: nat, s: State) {
    && L.Init(s.lock)
    && s.runs.Keys == s.lock.procs.Keys
    && (forall p <- s.runs :: s.runs[p] == Starting)
    && (s.stamp.Stamp? ==> s.stamp.fingerprint != expected)
    && s.generated == 0 && s.stamped == 0 && s.lost == 0
  }

  ghost predicate Run(c: L.Config, expected: nat, states: seq<State>, actions: seq<Action>) {
    && |states| == |actions| + 1
    && Init(expected, states[0])
    && (forall i :: 0 <= i < |actions| ==> states[i].runs.Keys == states[i].lock.procs.Keys)
    && forall i :: 0 <= i < |actions| ==>
        Enabled(states[i], actions[i]) && states[i + 1] == Apply(c, expected, states[i], actions[i])
  }

  lemma RunExtends(c: L.Config, expected: nat, states: seq<State>, actions: seq<Action>, a: Action, t: State)
    requires Run(c, expected, states, actions) && states[|actions|].runs.Keys == states[|actions|].lock.procs.Keys
    requires Enabled(states[|actions|], a) && t == Apply(c, expected, states[|actions|], a)
    ensures Run(c, expected, states + [t], actions + [a]) && t.runs.Keys == t.lock.procs.Keys
  {
    if a.OfLock? {
      LI.OthersUntouched(c, states[|actions|].lock, a.a);
    }
  }

  /** How many steps `p` takes inside the lock. */
  function LockSteps(actions: seq<Action>, p: L.Pid): nat {
    if actions == [] then 0
    else
      var last := actions[|actions| - 1];
      LockSteps(actions[..|actions| - 1], p) + if last.OfLock? && last.a.Step? && last.a.pid == p then 1 else 0
  }

  lemma OneStepMore(actions: seq<Action>, a: Action, p: L.Pid)
    ensures LockSteps(actions + [a], p) ==
            LockSteps(actions, p) + if a.OfLock? && a.a.Step? && a.a.pid == p then 1 else 0
  {
    assert (actions + [a])[..|actions|] == actions;
  }

  /** A step of the clock, or of another process. */
  lemma OthersLeaveAlone(c: L.Config, expected: nat, s: State, a: Action, p: L.Pid)
    requires s.runs.Keys == s.lock.procs.Keys && Alive(s, p) && Enabled(s, a)
    requires Actor(a) != p || (a.OfLock? && a.a.Tick?)
    ensures var t := Apply(c, expected, s, a);
            Alive(t, p) && t.runs[p] == s.runs[p] && t.lock.procs[p] == s.lock.procs[p]
    ensures !(a.OfLock? && a.a.Step? && a.a.pid == p)
  {
    if a.OfLock? {
      LI.OthersUntouched(c, s.lock, a.a);
    }
  }

  /** A step inside `acquire`, or an error thrown there: it goes on there, returns with the lock, or the run ends. */
  lemma AcquireGoes(c: L.Config, expected: nat, s: State, p: L.Pid, a: L.Action)
    requires s.runs.Keys == s.lock.procs.Keys && Alive(s, p) && s.runs[p].Acquiring?
    requires !s.lock.procs[p].pc.Idle? && L.ReleaseStepsLeft(s.lock.procs[p].pc) == 0
    requires (a.Step? || a.Throw?) && a.pid == p
    ensures Enabled(s, OfLock(a))
    ensures var t := Apply(c, expected, s, OfLock(a));
            && Alive(t, p)
            && (|| (t.runs[p] == Ended(1) && (a.Throw? || L.GivesUp(s.lock, a)))
                || (&& a.Step? && t.runs[p].Acquiring? && !t.lock.procs[p].pc.Idle?
                    && (L.ReleaseStepsLeft(t.lock.procs[p].pc) == 0 || t.lock.procs[p].pc.Holding?)))
  {
    LI.OthersUntouched(c, s.lock, a);
  }

  /** A step of `release`: one fewer is left, or the run ends. */
  lemma ReleaseGoes(c: L.Config, expected: nat, s: State, p: L.Pid)
    requires s.runs.Keys == s.lock.procs.Keys && Alive(s, p) && s.runs[p].Leaving?
    requires L.ReleaseStepsLeft(s.lock.procs[p].pc) > 0
    ensures Enabled(s, OfLock(L.Step(p, 0)))
    ensures var t := Apply(c, expected, s, OfLock(L.Step(p, 0)));
            && Alive(t, p)
            && (|| t.runs[p] == Ended(s.runs[p].status)
                || (&& t.runs[p] == s.runs[p]
                    && 0 < L.ReleaseStepsLeft(t.lock.procs[p].pc) < L.ReleaseStepsLeft(s.lock.procs[p].pc)))
  {
    LI.OthersUntouched(c, s.lock, L.Step(p, 0));
  }

  /** Nothing ends the generator of a run that was killed: it may go on writing. */
  predicate Orphan(s: State, p: L.Pid) {
    p in s.runs && s.runs[p].Generating? && !Alive(s, p)
  }

  predicate OrphanWrites(s: State, a: Action) {
    a.Generator? && Orphan(s, a.pid)
  }

  predicate LockBlamed(c: L.Config, s: State, a: Action) {
    a.OfLock? && LB.Blamed(c, s.lock, a.a)
  }

  predicate Blamed(c: L.Config, s: State, a: Action) {
    LockBlamed(c, s, a) || OrphanWrites(s, a)
  }

  ghost predicate Blameless(c: L.Config, states: seq<State>, actions: seq<Action>, k: nat) {
    forall i :: 0 <= i < k && i < |actions| && i < |states| ==> !Blamed(c, states[i], actions[i])
  }

  predicate Current(expected: nat, s: State) {
    s.stamp.Stamp? && s.stamp.fingerprint == expected
  }

  /** What `p` may be doing, given the lock, the stamp and the tree. */
  ghost predicate RunOk(expected: nat, s: State, p: L.Pid)
    requires Alive(s, p)
  {
    var m, pc := s.runs[p], s.lock.procs[p].pc;
    && (Working(m) ==> pc.Holding?)
    && (pc.Holding? ==> Working(m) || m.Acquiring? || m.Leaving?)
    && (Rebuilding(m) ==> !Current(expected, s))
    && (m.Counting? ==> s.stamp == Stamp(expected, m.count))
    && (m.AddingManifest? ==> s.tree.generated && s.tree.count > 0 && s.tree.client)
    && (m.AddingColumns? ==> s.tree.generated && s.tree.count > 0 && s.tree.client && s.tree.manifest)
    && (m.Stamping? ==> Complete(s.tree))
    && (m.StampOpen? ==> Complete(s.tree) && s.tree.count == m.count)
    && (m == Leaving(0) ==> Current(expected, s))
  }

  ghost predicate SomeFinishing(s: State) {
    exists p :: Alive(s, p) && Finishing(s.runs[p])
  }

  ghost predicate StampOk(expected: nat, s: State) {
    && (Current(expected, s) ==> Complete(s.tree) && s.stamp.count == s.tree.count)
    && s.stamped == (if Current(expected, s) then 1 else 0)
  }

  ghost predicate Inv(expected: nat, s: State) {
    && s.runs.Keys == s.lock.procs.Keys
    && LI.Intact(s.lock) && LB.Exclusive(s.lock)
    && (forall p :: Alive(s, p) ==> RunOk(expected, s, p))
    && StampOk(expected, s)
    && (forall p <- s.runs :: s.runs[p] == Ended(0) ==> Current(expected, s))
    && s.generated == s.stamped + s.lost + (if SomeFinishing(s) then 1 else 0)
  }

  lemma OnlyOneWorks(expected: nat, s: State, p: L.Pid, q: L.Pid)
    requires Inv(expected, s) && Alive(s, p) && Alive(s, q) && Working(s.runs[p]) && Working(s.runs[q])
    ensures p == q
  {
    assert RunOk(expected, s, p) && RunOk(expected, s, q);
    assert L.Holds(s.lock, p) && L.Holds(s.lock, q);
    LB.TwoHoldersClash(s.lock, p, q);
  }

  /** The lock's own invariants survive every blameless step. */
  lemma StepKeepsLock(c: L.Config, expected: nat, s: State, a: Action, t: State)
    requires Inv(expected, s) && Enabled(s, a) && !Blamed(c, s, a) && t == Apply(c, expected, s, a)
    ensures t.runs.Keys == t.lock.procs.Keys && LI.Intact(t.lock) && LB.Exclusive(t.lock)
  {
    if a.OfLock? {
      LI.OthersUntouched(c, s.lock, a.a);
      LI.StepIntact(c, s.lock, a.a, L.Apply(c, s.lock, a.a));
      LB.StepExclusive(c, s.lock, a.a, L.Apply(c, s.lock, a.a));
    }
  }

  /** A step of the lock moves only its own process, and touches neither tree nor stamp. */
  lemma LockStepOk(c: L.Config, expected: nat, s: State, a: Action, t: State, q: L.Pid)
    requires Inv(expected, s) && Enabled(s, a) && !Blamed(c, s, a) && t == Apply(c, expected, s, a)
    requires a.OfLock? && Alive(t, q)
    ensures Alive(s, q) && RunOk(expected, t, q)
  {
    LI.OthersUntouched(c, s.lock, a.a);
    assert Alive(s, q) && RunOk(expected, s, q);
  }

  /** Where the stamp is current, no step touches it or the tree. */
  lemma CurrentIsKept(c: L.Config, expected: nat, s: State, a: Action, t: State)
    requires Enabled(s, a) && s.runs.Keys == s.lock.procs.Keys && t == Apply(c, expected, s, a)
    requires Current(expected, s) && (!a.OfLock? ==> Alive(s, a.pid) && RunOk(expected, s, a.pid))
    ensures t.stamp == s.stamp && t.tree == s.tree
  {
  }

  lemma StepKeepsCurrent(c: L.Config, expected: nat, s: State, a: Action, t: State)
    requires Inv(expected, s) && Enabled(s, a) && !Blamed(c, s, a) && t == Apply(c, expected, s, a) &&
             Current(expected, s)
    ensures t.stamp == s.stamp && t.tree == s.tree
  {
    assert !a.OfLock? ==> Alive(s, a.pid) && RunOk(expected, s, a.pid);
    CurrentIsKept(c, expected, s, a, t);
  }

  lemma OwnStepOk(c: L.Config, expected: nat, s: State, a: Action, t: State)
    requires Enabled(s, a) && s.runs.Keys == s.lock.procs.Keys && !a.OfLock? && t == Apply(c, expected, s, a)
    requires Alive(s, a.pid) && RunOk(expected, s, a.pid) && StampOk(expected, s)
    ensures RunOk(expected, t, a.pid)
  {
  }

  /** While one process works, the others can only be outside the lock. */
  lemma OtherStepOk(c: L.Config, expected: nat, s: State, a: Action, t: State, q: L.Pid)
    requires Inv(expected, s) && Enabled(s, a) && !Blamed(c, s, a) && !a.OfLock? && t == Apply(c, expected, s, a)
    requires Alive(s, q) && q != a.pid
    ensures Alive(t, q) && RunOk(expected, t, q)
  {
    var m := s.runs[q];
    assert t.runs[q] == m && t.lock == s.lock && RunOk(expected, s, q) && RunOk(expected, s, a.pid);
    if Current(expected, s) {
      CurrentIsKept(c, expected, s, a, t);
    } else if Working(m) && Working(s.runs[a.pid]) {
      OnlyOneWorks(expected, s, a.pid, q);
    }
  }

  lemma StepKeepsRuns(c: L.Config, expected: nat, s: State, a: Action, t: State, q: L.Pid)
    requires Inv(expected, s) && Enabled(s, a) && !Blamed(c, s, a) && t == Apply(c, expected, s, a) && Alive(t, q)
    ensures Alive(s, q) && RunOk(expected, t, q)
  {
    if a.OfLock? {
      LockStepOk(c, expected, s, a, t, q);
    } else if a.pid == q {
      assert RunOk(expected, s, q);
      OwnStepOk(c, expected, s, a, t);
    } else {
      OtherStepOk(c, expected, s, a, t, q);
    }
  }

  /** A current stamp is written only over a complete tree, and once. */
  lemma StepKeepsStamp(c: L.Config, expected: nat, s: State, a: Action, t: State)
    requires Enabled(s, a) && s.runs.Keys == s.lock.procs.Keys && t == Apply(c, expected, s, a)
    requires StampOk(expected, s) && (!a.OfLock? ==> Alive(s, a.pid) && RunOk(expected, s, a.pid))
    ensures StampOk(expected, t) && (Current(expected, s) ==> Current(expected, t))
    ensures t.generated - t.stamped - t.lost ==
            s.generated - s.stamped - s.lost
              + (if Finishes(t, Actor(a), a) then 1 else 0) - (if Finishes(s, Actor(a), a) then 1 else 0)
  {
    if Current(expected, s) {
      CurrentIsKept(c, expected, s, a, t);
    }
  }

  /** Whether the process that takes `a` is between a generate and its stamp. */
  predicate Finishes(s: State, p: L.Pid, a: Action) {
    !(a.OfLock? && a.a.Tick?) && Alive(s, p) && Finishing(s.runs[p])
  }

  lemma StepKeepsEnded(c: L.Config, expected: nat, s: State, a: Action, t: State)
    requires Inv(expected, s) && Enabled(s, a) && !Blamed(c, s, a) && t == Apply(c, expected, s, a)
    ensures forall p <- t.runs :: t.runs[p] == Ended(0) ==> Current(expected, t)
  {
    assert !(a.OfLock? && a.a.Tick?) ==> Alive(s, Actor(a)) && RunOk(expected, s, Actor(a));
    StepKeepsStamp(c, expected, s, a, t);
  }

  function Actor(a: Action): L.Pid {
    if !a.OfLock? then a.pid else if a.a.Tick? then 0 else a.a.pid
  }

  lemma NobodyElseFinishes(expected: nat, s: State, p: L.Pid, q: L.Pid)
    requires Inv(expected, s) && Alive(s, p) && Alive(s, q) && p != q && Working(s.runs[p])
    ensures !Finishing(s.runs[q])
  {
    if Finishing(s.runs[q]) {
      OnlyOneWorks(expected, s, p, q);
    }
  }

  /** Every generate that ran to its end was stamped, was lost, or is still on its way. */
  lemma StepKeepsCount(c: L.Config, expected: nat, s: State, a: Action, t: State)
    requires Inv(expected, s) && Enabled(s, a) && !Blamed(c, s, a) && t == Apply(c, expected, s, a)
    requires forall q :: q != Actor(a) || (a.OfLock? && a.a.Tick?) ==> (Alive(s, q) <==> Alive(t, q))
    requires forall q :: Alive(s, q) && (q != Actor(a) || (a.OfLock? && a.a.Tick?)) ==> t.runs[q] == s.runs[q]
    ensures t.generated == t.stamped + t.lost + (if SomeFinishing(t) then 1 else 0)
  {
    var p := Actor(a);
    if !(a.OfLock? && a.a.Tick?) {
      assert Alive(s, p) && RunOk(expected, s, p);
    }
    StepKeepsStamp(c, expected, s, a, t);
    if Finishes(s, p, a) || Finishes(t, p, a) {
      FinisherWorked(c, expected, s, a, t);
      forall q | q != p && Alive(s, q) ensures !Finishing(s.runs[q]) {
        NobodyElseFinishes(expected, s, p, q);
      }
    } else {
      assert forall q :: Alive(s, q) && Finishing(s.runs[q]) <==> Alive(t, q) && Finishing(t.runs[q]);
    }
  }

  lemma FinisherWorked(c: L.Config, expected: nat, s: State, a: Action, t: State)
    requires Enabled(s, a) && s.runs.Keys == s.lock.procs.Keys && t == Apply(c, expected, s, a)
    requires Finishes(s, Actor(a), a) || Finishes(t, Actor(a), a)
    ensures Alive(s, Actor(a)) && Working(s.runs[Actor(a)])
  {
    if a.OfLock? {
      LI.OthersUntouched(c, s.lock, a.a);
    }
  }

  /** Processes other than the one that steps stay where they are. */
  lemma BystandersStay(c: L.Config, expected: nat, s: State, a: Action, t: State)
    requires Enabled(s, a) && s.runs.Keys == s.lock.procs.Keys && t == Apply(c, expected, s, a)
    ensures forall q :: q != Actor(a) || (a.OfLock? && a.a.Tick?) ==> (Alive(s, q) <==> Alive(t, q))
    ensures forall q :: Alive(s, q) && (q != Actor(a) || (a.OfLock? && a.a.Tick?)) ==> t.runs[q] == s.runs[q]
  {
    if a.OfLock? {
      LI.OthersUntouched(c, s.lock, a.a);
    }
  }

  lemma StepInv(c: L.Config, expected: nat, s: State, a: Action, t: State)
    requires Inv(expected, s) && Enabled(s, a) && !Blamed(c, s, a) && t == Apply(c, expected, s, a)
    ensures Inv(expected, t)
  {
    StepKeepsLock(c, expected, s, a, t);
    forall q | Alive(t, q) ensures Alive(s, q) && RunOk(expected, t, q) {
      StepKeepsRuns(c, expected, s, a, t, q);
    }
    assert !a.OfLock? ==> Alive(s, a.pid) && RunOk(expected, s, a.pid);
    StepKeepsStamp(c, expected, s, a, t);
    StepKeepsEnded(c, expected, s, a, t);
    BystandersStay(c, expected, s, a, t);
    StepKeepsCount(c, expected, s, a, t);
  }

  lemma {:induction false} RunInv(c: L.Config, expected: nat, states: seq<State>, actions: seq<Action>, k: nat)
    requires Run(c, expected, states, actions) && k < |states| && Blameless(c, states, actions, k)
    ensures Inv(expected, states[k])
  {
    if k == 0 {
      LI.InitIntact(states[0].lock);
      assert !SomeFinishing(states[0]);
    } else {
      RunInv(c, expected, states, actions, k - 1);
      assert !Blamed(c, states[k - 1], actions[k - 1]);
      StepInv(c, expected, states[k - 1], actions[k - 1], states[k]);
    }
  }

  /**
   * Generate once. With nothing to blame on the lock, and no write by an orphan, every generate that
   * ran to its end was stamped, was lost before that, or is on its way to it; at most one is stamped;
   * and a stamp with the fingerprint stands for a complete tree.
   */
  lemma GeneratesOnce(c: L.Config, expected: nat, states: seq<State>, actions: seq<Action>, k: nat)
    requires Run(c, expected, states, actions) && k < |states| && Blameless(c, states, actions, k)
    ensures states[k].generated == states[k].stamped + states[k].lost + (if SomeFinishing(states[k]) then 1 else 0)
    ensures states[k].generated <= 1 + states[k].lost && states[k].stamped <= 1
    ensures states[k].stamped == 1 <==> Current(expected, states[k])
    ensures Current(expected, states[k]) ==> Complete(states[k].tree) && states[k].stamp.count == states[k].tree.count
  {
    RunInv(c, expected, states, actions, k);
    forall p | Alive(states[k], p) && Finishing(states[k].runs[p]) ensures !Current(expected, states[k]) {
      assert RunOk(expected, states[k], p);
    }
  }

  lemma {:induction false} CurrentIsFinal(
      c: L.Config, expected: nat, states: seq<State>, actions: seq<Action>, k: nat, n: nat)
    requires Run(c, expected, states, actions) && k <= n < |states| && Blameless(c, states, actions, n)
    requires Current(expected, states[k])
    ensures states[n].tree == states[k].tree && states[n].stamp == states[k].stamp
    decreases n - k
  {
    if k < n {
      var s, a, t := states[n - 1], actions[n - 1], states[n];
      CurrentIsFinal(c, expected, states, actions, k, n - 1);
      assert Inv(expected, s) by { RunInv(c, expected, states, actions, n - 1); }
      StepKeepsCurrent(c, expected, s, a, t);
    }
  }

  /**
   * Once a run of `main` has returned 0, the tree is complete and stamped, and no later step of
   * any process touches either.
   */
  lemma ReturnedZeroIsFinal(
      c: L.Config, expected: nat, states: seq<State>, actions: seq<Action>, k: nat, n: nat, p: L.Pid)
    requires Run(c, expected, states, actions) && k <= n < |states| && Blameless(c, states, actions, n)
    requires p in states[k].runs && states[k].runs[p] == Ended(0)
    ensures Complete(states[k].tree) && Current(expected, states[k])
    ensures states[n].tree == states[k].tree && states[n].stamp == states[k].stamp
  {
    RunInv(c, expected, states, actions, k);
    CurrentIsFinal(c, expected, states, actions, k, n);
  }

  predicate NoOrphans(s: State) {
    forall p <- s.runs :: !Orphan(s, p)
  }

  /** With the stamp current nobody alive is generating, so no step leaves an orphan. */
  lemma StepLeavesNoOrphan(c: L.Config, expected: nat, s: State, a: Action, t: State)
    requires Inv(expected, s) && Current(expected, s) && NoOrphans(s) && Enabled(s, a) && t == Apply(c, expected, s, a)
    requires !LockBlamed(c, s, a)
    ensures NoOrphans(t) && !Blamed(c, s, a)
  {
    BystandersStay(c, expected, s, a, t);
    forall p <- t.runs ensures !Orphan(t, p) {
      assert !Orphan(s, p);
      assert Alive(s, p) ==> RunOk(expected, s, p);
    }
  }

  lemma StepStaysFinal(c: L.Config, expected: nat, s: State, a: Action, t: State)
    requires Inv(expected, s) && Current(expected, s) && NoOrphans(s) && Enabled(s, a) && t == Apply(c, expected, s, a)
    requires !LockBlamed(c, s, a)
    ensures NoOrphans(t) && !Blamed(c, s, a) && t.stamp == s.stamp && t.tree == s.tree
  {
    StepLeavesNoOrphan(c, expected, s, a, t);
    StepKeepsCurrent(c, expected, s, a, t);
  }

  /** The run goes on, in any way that is not to blame on the lock. */
  ghost predicate GoesOn(
      c: L.Config, expected: nat, states: seq<State>, actions: seq<Action>, longer: seq<State>, more: seq<Action>) {
    && Run(c, expected, longer, more) && states <= longer && actions <= more
    && forall i :: |actions| <= i < |more| ==> !LockBlamed(c, longer[i], more[i])
  }

  lemma {:induction false} StaysFinal(
      c: L.Config, expected: nat, states: seq<State>, actions: seq<Action>, k: nat, n: nat)
    requires Run(c, expected, states, actions) && k <= n < |states| && Blameless(c, states, actions, k)
    requires forall i :: k <= i < n ==> !LockBlamed(c, states[i], actions[i])
    requires Current(expected, states[k]) && NoOrphans(states[k])
    ensures Blameless(c, states, actions, n) && Current(expected, states[n]) && NoOrphans(states[n])
    ensures states[n].tree == states[k].tree && states[n].stamp == states[k].stamp
    decreases n - k
  {
    if k < n {
      StaysFinal(c, expected, states, actions, k, n - 1);
      assert Inv(expected, states[n - 1]) by { RunInv(c, expected, states, actions, n - 1); }
      assert Enabled(states[n - 1], actions[n - 1]) && states[n] == Apply(c, expected, states[n - 1], actions[n - 1]);
      StepStaysFinal(c, expected, states[n - 1], actions[n - 1], states[n]);
    }
  }

  /**
   * Exactly when a run that returned 0 is final: no later step touches its tree, however the system
   * goes on, if and only if no killed run has left its generator behind.
   */
  lemma FinalityIsExact(c: L.Config, expected: nat, states: seq<State>, actions: seq<Action>, p: L.Pid)
    requires Run(c, expected, states, actions) && Blameless(c, states, actions, |actions|)
    requires states[|actions|].runs.Keys == states[|actions|].lock.procs.Keys
    requires p in states[|actions|].runs && states[|actions|].runs[p] == Ended(0)
    ensures NoOrphans(states[|actions|]) <==>
            forall longer: seq<State>, more: seq<Action> :: GoesOn(c, expected, states, actions, longer, more) ==>
              longer[|more|].tree == states[|actions|].tree
  {
    var s, k := states[|actions|], |actions|;
    ReturnedZeroIsFinal(c, expected, states, actions, k, k, p);
    if NoOrphans(s) {
      forall longer: seq<State>, more: seq<Action> | GoesOn(c, expected, states, actions, longer, more)
        ensures longer[|more|].tree == s.tree
      {
        assert longer[k] == s;
        assert forall i :: 0 <= i < k ==> more[i] == actions[i] && longer[i] == states[i];
        StaysFinal(c, expected, longer, more, k, |more|);
      }
    } else {
      var q :| q in s.runs && Orphan(s, q);
      var a := Generator(q, EmptyTree);
      var t := Apply(c, expected, s, a);
      assert GoesOn(c, expected, states, actions, states + [t], actions + [a]);
      assert (states + [t])[|actions + [a]|].tree == EmptyTree;
    }
  }
}
