/**
 * `main` itself, with the stamp's `isCurrent`, `clearStamp` and `writeStamp`: call by call, in a
 * workspace that other runs of `main` share. Before each file operation any number of steps of the
 * others may happen. Each operation is proved to be the step that the transition system takes, so
 * what is proved of its runs holds of this code.
 */
module GenerateCalls {
  import opened Prelude
  import L = FileLock
  import opened GenerateOnce

  class Workspace {
    const config: L.Config
    const expected: nat
    var lock: L.State
    var tree: Tree
    var stamp: Stamp
    var runs: map<L.Pid, Main>
    var generated: nat
    var stamped: nat
    var lost: nat
    ghost var states: seq<State>
    ghost var actions: seq<Action>

    function Now(): State
      reads this
    {
      State(lock, tree, stamp, runs, generated, stamped, lost)
    }

    /** The last state that was recorded. Between an operation and its record, files may differ from it. */
    ghost function Last(): State
      requires states != []
      reads this
    {
      states[|states| - 1]
    }

    ghost predicate Recorded()
      reads this
    {
      && |states| == |actions| + 1 && Run(config, expected, states, actions)
      && Last().runs.Keys == Last().lock.procs.Keys
    }

    /** The run so far is one of the transition system, it ends in `Now()`, and `me` lives and is at `m`. */
    ghost predicate IsAt(me: L.Pid, m: Main)
      reads this
    {
      Recorded() && Last() == Now() && Alive(Now(), me) && runs[me] == m
    }

    ghost predicate NoBlame()
      reads this
    {
      Blameless(config, states, actions, |actions|)
    }

    constructor (config: L.Config, expected: nat, s: State)
      requires Init(expected, s)
      ensures Recorded() && Last() == Now() == s && actions == []
      ensures this.config == config && this.expected == expected
    {
      this.config, this.expected := config, expected;
      lock, tree, stamp, runs := s.lock, s.tree, s.stamp, s.runs;
      generated, stamped, lost := 0, 0, 0;
      states, actions := [s], [];
    }

    /** What has been done is the step `a`. */
    ghost method Record(a: Action)
      requires Recorded() && Enabled(Last(), a) && Now() == Apply(config, expected, Last(), a)
      modifies this`states, this`actions
      ensures Recorded() && Last() == Now() && actions == old(actions) + [a] && states == old(states) + [Now()]
    {
      RunExtends(config, expected, states, actions, a, Now());
      states, actions := states + [Now()], actions + [a];
    }

    /** A step of the clock or of another process, or of this one inside the lock or the generator. */
    method Happen(a: Action)
      requires Recorded() && Last() == Now() && Enabled(Now(), a)
      modifies this
      ensures Recorded() && Last() == Now() == Apply(config, expected, old(Now()), a) && actions == old(actions) + [a]
      ensures states == old(states) + [Now()]
    {
      var t := Apply(config, expected, Now(), a);
      lock, tree, stamp, runs := t.lock, t.tree, t.stamp, t.runs;
      generated, stamped, lost := t.generated, t.stamped, t.lost;
      Record(a);
    }

    method Interfere(me: L.Pid, ghost m: Main)
      requires IsAt(me, m)
      modifies this
      ensures IsAt(me, m) && lock.procs[me] == old(lock.procs[me])
      ensures LockSteps(actions, me) == LockSteps(old(actions), me)
    {
      var steps: nat :| true;
      for k := 0 to steps
        invariant IsAt(me, m) && lock.procs[me] == old(lock.procs[me])
        invariant LockSteps(actions, me) == LockSteps(old(actions), me)
      {
        assert Enabled(Now(), OfLock(L.Tick(0)));
        var a: Action :| Enabled(Now(), a) && (Actor(a) != me || (a.OfLock? && a.a.Tick?));
        OthersLeaveAlone(config, expected, Now(), a, me);
        OneStepMore(actions, a, me);
        Happen(a);
      }
    }

    /** `me` goes on to `m`. */
    method Go(me: L.Pid, m: Main, ghost a: Action)
      requires Recorded() && Enabled(Last(), a) && Alive(Last(), me) && runs == Last().runs && lock == Last().lock
      requires Now().(runs := runs[me := m]) == Apply(config, expected, Last(), a)
      modifies this`runs, this`states, this`actions
      ensures IsAt(me, m) && (!a.OfLock? ==> LockSteps(actions, me) == LockSteps(old(actions), me))
    {
      OneStepMore(actions, a, me);
      runs := runs[me := m];
      Record(a);
    }

    // ---- the stamp ----

    function Otherwise(locked: bool): Main {
      if locked then Clearing else Wanting
    }

    /** Reads and parses the stamp. None where it has not the fingerprint. */
    method ReadStamp(me: L.Pid, locked: bool) returns (count: Option<nat>)
      requires IsAt(me, if locked then Entered else Starting)
      modifies this
      ensures IsAt(me, if count.Some? then Counting(count.value, locked) else Otherwise(locked))
      ensures count == if stamp.Stamp? && stamp.fingerprint == expected then Some(stamp.count) else None
      ensures lock.procs[me] == old(lock.procs[me]) && LockSteps(actions, me) == LockSteps(old(actions), me)
    {
      Interfere(me, if locked then Entered else Starting);
      var found := stamp;
      if found.Stamp? && found.fingerprint == expected {
        Go(me, Counting(found.count, locked), Step(me));
        return Some(found.count);
      }
      Go(me, Otherwise(locked), Step(me));
      count := None;
    }

    method LookAtTree(me: L.Pid, locked: bool, count: nat) returns (current: bool)
      requires IsAt(me, Counting(count, locked))
      modifies this
      ensures current <==> count > 0 && tree.count == count && tree.client && tree.manifest && tree.columns
      ensures IsAt(me, if !current then Otherwise(locked) else if locked then Leaving(0) else Ended(0))
      ensures lock.procs[me] == old(lock.procs[me]) && LockSteps(actions, me) == LockSteps(old(actions), me)
    {
      Interfere(me, Counting(count, locked));
      current := count > 0 && count == tree.count && tree.client && tree.manifest && tree.columns;
      Go(me, if !current then Otherwise(locked) else if locked then Leaving(0) else Ended(0), Step(me));
    }

    /** `isCurrent`: reads the stamp, then looks at the tree. Without the lock, and again with it. */
    method IsCurrent(me: L.Pid, locked: bool) returns (current: bool)
      requires IsAt(me, if locked then Entered else Starting)
      modifies this
      ensures current ==> tree.count > 0 && tree.client && tree.manifest && tree.columns
      ensures IsAt(me, if !current then Otherwise(locked) else if locked then Leaving(0) else Ended(0))
      ensures lock.procs[me] == old(lock.procs[me]) && LockSteps(actions, me) == LockSteps(old(actions), me)
    {
      var count := ReadStamp(me, locked);
      current := false;
      if count.Some? {
        current := LookAtTree(me, locked, count.value);
      }
    }

    method ClearStamp(me: L.Pid)
      requires IsAt(me, Clearing)
      modifies this
      ensures IsAt(me, Wiping) && stamp == NoStamp && lock.procs[me] == old(lock.procs[me])
    {
      Interfere(me, Clearing);
      stamp := NoStamp;
      Go(me, Wiping, Step(me));
    }

    /** Counts the files and truncates the stamp. */
    method OpenStamp(me: L.Pid) returns (count: nat)
      requires IsAt(me, Stamping)
      modifies this
      ensures IsAt(me, StampOpen(count)) && stamp == TornStamp && lock.procs[me] == old(lock.procs[me])
    {
      Interfere(me, Stamping);
      count := tree.count;
      stamp := TornStamp;
      Go(me, StampOpen(count), Step(me));
    }

    method FillStamp(me: L.Pid, count: nat)
      requires IsAt(me, StampOpen(count))
      modifies this
      ensures IsAt(me, Leaving(0)) && stamp == Stamp(expected, count) && lock.procs[me] == old(lock.procs[me])
    {
      Interfere(me, StampOpen(count));
      stamp, stamped := Stamp(expected, count), stamped + 1;
      Go(me, Leaving(0), Step(me));
    }

    method WriteStamp(me: L.Pid)
      requires IsAt(me, Stamping)
      modifies this
      ensures IsAt(me, Leaving(0)) && stamp.Stamp? && stamp.fingerprint == expected
      ensures lock.procs[me] == old(lock.procs[me])
    {
      var count := OpenStamp(me);
      FillStamp(me, count);
    }

    // ---- what main calls ----

    /** `fs.rmSync` of the output directory. */
    method RemoveTree(me: L.Pid)
      requires IsAt(me, Wiping)
      modifies this
      ensures IsAt(me, Generating) && tree == EmptyTree && lock.procs[me] == old(lock.procs[me])
    {
      Interfere(me, Wiping);
      tree := EmptyTree;
      Go(me, Generating, Step(me));
    }

    /** The generator writes what it will, then exits with `exit`. With 0 it leaves its client. */
    method RunPrismaGenerate(me: L.Pid, exit: nat) returns (status: nat)
      requires IsAt(me, Generating)
      modifies this
      ensures status == exit && IsAt(me, if status == 0 then AddingManifest else Leaving(status))
      ensures lock.procs[me] == old(lock.procs[me])
    {
      var writes: nat :| true;
      for k := 0 to writes
        invariant IsAt(me, Generating) && lock.procs[me] == old(lock.procs[me])
      {
        Interfere(me, Generating);
        var part: Tree :| !part.generated;
        Happen(Generator(me, part));
      }
      Interfere(me, Generating);
      status := exit;
      if status != 0 {
        Happen(Fails(me, status));
      } else {
        var count: nat :| count > 0;
        Happen(Succeeds(me, count));
      }
    }

    method WriteMigrationsManifest(me: L.Pid)
      requires IsAt(me, AddingManifest)
      modifies this
      ensures IsAt(me, AddingColumns) && lock.procs[me] == old(lock.procs[me])
    {
      Interfere(me, AddingManifest);
      tree := tree.(manifest := true, count := tree.count + 1);
      Go(me, AddingColumns, Step(me));
    }

    method WriteUnitIdColumns(me: L.Pid)
      requires IsAt(me, AddingColumns)
      modifies this
      ensures IsAt(me, Stamping) && lock.procs[me] == old(lock.procs[me])
    {
      Interfere(me, AddingColumns);
      tree := tree.(columns := true, count := tree.count + 1);
      Go(me, Stamping, Step(me));
    }

    /** Nothing in the `try` block throws. */
    predicate ThrowsNowhere(throws: Main -> bool) {
      && !throws(Entered) && !throws(Clearing) && !throws(Wiping) && !throws(Generating)
      && !throws(AddingManifest) && !throws(AddingColumns) && !throws(Stamping)
    }

    /**
     * The `try` block, with the lock held. `throws` tells which of its operations throw, and `exit`
     * what the generator exits with: that is the status, unless the client was current or something
     * threw.
     */
    method Rebuild(me: L.Pid, throws: Main -> bool, exit: nat) returns (status: nat, current: bool)
      requires IsAt(me, Entered)
      modifies this
      ensures IsAt(me, Leaving(status)) && lock.procs[me] == old(lock.procs[me])
      ensures current ==> status == 0 && !throws(Entered)
      ensures !current && ThrowsNowhere(throws) ==> status == exit
      ensures !current && status == 0 ==> exit == 0 && ThrowsNowhere(throws)
      ensures status != 0 && ThrowsNowhere(throws) ==> status == exit
      ensures status != 0 && status != exit ==> status == 1
    {
      current := false;
      if throws(Entered) {
        status := Throw(me, Entered);
        return;
      }
      current := IsCurrent(me, true);
      if current {
        return 0, true;
      }
      status := StartAfresh(me, throws, exit);
    }

    /** What follows where the client is not current. */
    method StartAfresh(me: L.Pid, throws: Main -> bool, exit: nat) returns (status: nat)
      requires IsAt(me, Clearing) && !throws(Entered)
      modifies this
      ensures IsAt(me, Leaving(status)) && lock.procs[me] == old(lock.procs[me])
      ensures ThrowsNowhere(throws) ==> status == exit
      ensures status == 0 ==> exit == 0 && ThrowsNowhere(throws)
      ensures status != 0 && status != exit ==> status == 1
    {
      if throws(Clearing) { status := Throw(me, Clearing); return; }
      ClearStamp(me);
      if throws(Wiping) { status := Throw(me, Wiping); return; }
      RemoveTree(me);
      if throws(Generating) { status := Throw(me, Generating); return; }
      status := RunPrismaGenerate(me, exit);
      if status != 0 {
        return;
      }
      if throws(AddingManifest) { status := Throw(me, AddingManifest); return; }
      WriteMigrationsManifest(me);
      if throws(AddingColumns) { status := Throw(me, AddingColumns); return; }
      WriteUnitIdColumns(me);
      if throws(Stamping) { status := Throw(me, Stamping); return; }
      WriteStamp(me);
    }

    method Throw(me: L.Pid, ghost m: Main) returns (status: nat)
      requires IsAt(me, m) && Working(m)
      modifies this
      ensures IsAt(me, Leaving(status)) && status == 1 && lock.procs[me] == old(lock.procs[me])
    {
      Interfere(me, m);
      Happen(Throws(me));
      status := 1;
    }

    method StartAcquire(me: L.Pid)
      requires IsAt(me, Wanting) && lock.procs[me].pc.Idle?
      modifies this
      ensures IsAt(me, Acquiring) && Trying(me) && LockSteps(actions, me) == LockSteps(old(actions), me) + 1
    {
      Interfere(me, Wanting);
      OneStepMore(actions, OfLock(L.Step(me, 0)), me);
      Happen(OfLock(L.Step(me, 0)));
    }

    /** Inside `acquire`, or about to return from it with the lock. */
    predicate Trying(me: L.Pid)
      reads this
    {
      && me in lock.procs && !lock.procs[me].pc.Idle?
      && (L.ReleaseStepsLeft(lock.procs[me].pc) == 0 || lock.procs[me].pc.Holding?)
    }

    /** The last step was one at which `acquire` throws of itself. */
    ghost predicate GaveUp()
      reads this
    {
      && |states| == |actions| + 1 > 1
      && actions[|actions| - 1].OfLock? && L.GivesUp(states[|actions| - 1].lock, actions[|actions| - 1].a)
    }

    /** A step inside `acquire`, or an error thrown there. */
    method AcquireStep(me: L.Pid, fails: bool)
      requires IsAt(me, Acquiring) && Trying(me) && !lock.procs[me].pc.Holding?
      modifies this
      ensures LockSteps(actions, me) == LockSteps(old(actions), me) + if fails then 0 else 1
      ensures (IsAt(me, Ended(1)) && (fails || GaveUp())) || (!fails && IsAt(me, Acquiring) && Trying(me))
    {
      hide Run, Apply, Enabled, LockSteps, L.GivesUp, L.Apply, L.StepProcess;
      Interfere(me, Acquiring);
      var tag: nat :| true;
      var a := if fails then L.Throw(me) else L.Step(me, tag);
      OneStepMore(actions, OfLock(a), me);
      AcquireGoes(config, expected, Now(), me, a);
      Happen(OfLock(a));
    }

    /** `acquire` returns. */
    method TakeLock(me: L.Pid)
      requires IsAt(me, Acquiring) && lock.procs[me].pc.Holding?
      modifies this
      ensures IsAt(me, Entered) && lock.procs[me].pc.Holding?
    {
      Interfere(me, Acquiring);
      Go(me, Entered, Step(me));
    }

    /**
     * `lock.acquire()`, followed for at most `steps` of its own steps, the `k`th of which is an error
     * thrown out of it where `fails(k)` says so. None if it is still waiting.
     */
    method Acquire(me: L.Pid, steps: nat, fails: nat -> bool) returns (got: Option<bool>)
      requires IsAt(me, Wanting) && lock.procs[me].pc.Idle?
      modifies this
      ensures match got
              case None => IsAt(me, Acquiring) && LockSteps(actions, me) >= LockSteps(old(actions), me) + steps
              case Some(true) => IsAt(me, Entered) && lock.procs[me].pc.Holding?
              case Some(false) => IsAt(me, Ended(1)) && (GaveUp() || exists k :: 0 <= k < steps && fails(k))
    {
      hide Run, LockSteps, GaveUp, L.StepProcess;
      StartAcquire(me);
      for k := 0 to steps
        invariant IsAt(me, Acquiring) && Trying(me)
        invariant LockSteps(actions, me) >= LockSteps(old(actions), me) + k
      {
        if lock.procs[me].pc.Holding? {
          TakeLock(me);
          return Some(true);
        }
        AcquireStep(me, fails(k));
        if runs[me].Ended? {
          return Some(false);
        }
      }
      got := None;
    }

    method ReleaseStep(me: L.Pid, status: nat)
      requires IsAt(me, Leaving(status)) && L.ReleaseStepsLeft(lock.procs[me].pc) > 0
      modifies this
      ensures me in lock.procs && LockSteps(actions, me) == LockSteps(old(actions), me) + 1
      ensures || IsAt(me, Ended(status))
              || (&& IsAt(me, Leaving(status))
                  && 0 < L.ReleaseStepsLeft(lock.procs[me].pc) < L.ReleaseStepsLeft(old(lock.procs[me].pc)))
    {
      Interfere(me, Leaving(status));
      OneStepMore(actions, OfLock(L.Step(me, 0)), me);
      ReleaseGoes(config, expected, Now(), me);
      Happen(OfLock(L.Step(me, 0)));
    }

    /** `lock.release()`, in `finally`. It takes at most three steps of its own. */
    method Release(me: L.Pid, status: nat)
      requires IsAt(me, Leaving(status)) && lock.procs[me].pc.Holding?
      modifies this
      ensures IsAt(me, Ended(status))
      ensures LockSteps(old(actions), me) < LockSteps(actions, me) <= LockSteps(old(actions), me) + 3
    {
      ReleaseStep(me, status);
      while runs[me] == Leaving(status)
        invariant me in lock.procs && me in runs && LockSteps(old(actions), me) < LockSteps(actions, me)
        invariant || (IsAt(me, Ended(status)) && LockSteps(actions, me) <= LockSteps(old(actions), me) + 3)
                  || (&& IsAt(me, Leaving(status)) && L.ReleaseStepsLeft(lock.procs[me].pc) > 0
                      && LockSteps(actions, me) + L.ReleaseStepsLeft(lock.procs[me].pc) <=
                         LockSteps(old(actions), me) + 3)
        decreases runs[me] == Leaving(status), L.ReleaseStepsLeft(lock.procs[me].pc)
      {
        ReleaseStep(me, status);
      }
    }

    /**
     * `main`. Where it returns 0 and the lock is not to blame, the tree is complete and its stamp
     * current; None stands for a run that is still waiting for the lock. It fails only where the
     * lock, the generator or an operation fails it, and with the generator's status where that failed.
     */
    method Generate(me: L.Pid, steps: nat, fails: nat -> bool, throws: Main -> bool, exit: nat)
      returns (status: Option<nat>, locked: bool)
      requires IsAt(me, Starting) && lock.procs[me].pc.Idle?
      modifies this
      ensures status.Some? ==> IsAt(me, Ended(status.value))
      ensures status.None? ==> IsAt(me, Acquiring) && LockSteps(actions, me) >= LockSteps(old(actions), me) + steps
      ensures status == Some(0) && NoBlame() ==> Complete(tree) && Current(expected, Now()) && stamp.count == tree.count
      ensures status.Some? && status.value != 0 && !locked ==> GaveUp() || exists k :: 0 <= k < steps && fails(k)
      ensures status.Some? && status.value != 0 && locked && ThrowsNowhere(throws) ==> status.value == exit
      ensures status.Some? && status.value != 0 && status.value != exit ==> status.value == 1
    {
      hide Run, LockSteps, GaveUp, Blameless, Complete, Current, Init;
      locked := false;
      var current := IsCurrent(me, false);
      if current {
        Returned(me);
        return Some(0), false;
      }
      var got := Acquire(me, steps, fails);
      if got != Some(true) {
        return if got.None? then None else Some(1), false;
      }
      var result, found := Rebuild(me, throws, exit);
      Release(me, result);
      if result == 0 {
        Returned(me);
      }
      status, locked := Some(result), true;
    }

    lemma Returned(me: L.Pid)
      requires IsAt(me, Ended(0))
      ensures NoBlame() ==> Complete(tree) && Current(expected, Now()) && stamp.count == tree.count
    {
      if NoBlame() {
        ReturnedZeroIsFinal(config, expected, states, actions, |actions|, |actions|, me);
        GeneratesOnce(config, expected, states, actions, |actions|);
      }
    }
  }
}
