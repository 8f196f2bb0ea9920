/**
 * `exportProtos` and `moveIntoPlace` themselves, call by call, beside other runs. Before each file
 * operation any number of steps of the others may happen. Each operation is proved to be the step
 * that the transition system takes, so what is proved of its runs holds of this code.
 */
module ExportCalls {
  import opened Prelude
  import L = FileLock
  import opened ProtoExport
  import opened ExportRuns

  /** At moment `i` of a run, `me`'s third rename met files again, which is thrown. */
  predicate CollidesAt(states: seq<State>, actions: seq<Action>, me: L.Pid, i: nat) {
    && i < |actions| && i < |states|
    && actions[i] == Step(me) && me in states[i].runs
    && states[i].runs[me] == Renaming(ATTEMPTS) && Occupied(states[i].output)
  }

  ghost predicate CollidedIn(states: seq<State>, actions: seq<Action>, me: L.Pid) {
    exists i :: 0 <= i < |actions| && CollidesAt(states, actions, me, i)
  }

  lemma CollidesNow(states: seq<State>, actions: seq<Action>, me: L.Pid, i: nat)
    requires CollidesAt(states, actions, me, i)
    ensures CollidedIn(states, actions, me)
  {
  }

  lemma StillCollided(was: seq<State>, did: seq<Action>, states: seq<State>, actions: seq<Action>, me: L.Pid)
    requires CollidedIn(was, did, me) && was <= states && did <= actions
    ensures CollidedIn(states, actions, me)
  {
    var i :| 0 <= i < |did| && CollidesAt(was, did, me, i);
    assert CollidesAt(states, actions, me, i);
  }

  class Workspace {
    const config: L.Config
    const files: Files
    var lock: L.State
    var output: Dir
    var runs: map<L.Pid, Exporter>
    var replaced: nat
    ghost var states: seq<State>
    ghost var actions: seq<Action>

    function Now(): State
      reads this
    {
      State(lock, output, runs, replaced)
    }

    /** The last state that was recorded. Between an operation and its record, files may differ from it. */
    ghost function Last(): State
      requires states != []
      reads this
    {
      states[|states| - 1]
    }

    ghost predicate Recorded()
      reads this
    {
      && |states| == |actions| + 1 && Run(config, files, states, actions)
      && Last().runs.Keys == Last().lock.procs.Keys
    }

    /** The run so far is one of the transition system, it ends in `Now()`, and `me` lives and is at `r`. */
    ghost predicate IsAt(me: L.Pid, r: Exporter)
      reads this
    {
      Recorded() && Last() == Now() && Alive(Now(), me) && runs[me] == r
    }

    ghost predicate NoBlame()
      reads this
    {
      Blameless(config, states, actions, |actions|)
    }

    constructor (config: L.Config, files: Files, s: State)
      requires Init(s)
      ensures Recorded() && Last() == Now() == s && actions == []
      ensures this.config == config && this.files == files
    {
      this.config, this.files := config, files;
      lock, output, runs, replaced := s.lock, s.output, s.runs, 0;
      states, actions := [s], [];
    }

    /** What has been done is the step `a`. */
    ghost method Record(a: Action)
      requires Recorded() && Enabled(Last(), a) && Now() == Apply(config, files, Last(), a)
      modifies this`states, this`actions
      ensures Recorded() && Last() == Now() && actions == old(actions) + [a] && states == old(states) + [Now()]
    {
      RunExtends(config, files, states, actions, a, Now());
      states, actions := states + [Now()], actions + [a];
    }

    /** A step of the clock or of another process, or of this one inside the lock. */
    method Happen(a: Action)
      requires Recorded() && Last() == Now() && Enabled(Now(), a)
      modifies this
      ensures Recorded() && Last() == Now() == Apply(config, files, old(Now()), a) && actions == old(actions) + [a]
      ensures states == old(states) + [Now()]
    {
      var t := Apply(config, files, Now(), a);
      lock, output, runs, replaced := t.lock, t.output, t.runs, t.replaced;
      Record(a);
    }

    method Interfere(me: L.Pid, ghost r: Exporter)
      requires IsAt(me, r)
      modifies this
      ensures IsAt(me, r) && lock.procs[me] == old(lock.procs[me]) && GoesOn()
      ensures LockSteps(actions, me) == LockSteps(old(actions), me)
    {
      var steps: nat :| true;
      for k := 0 to steps
        invariant IsAt(me, r) && lock.procs[me] == old(lock.procs[me]) && GoesOn()
        invariant LockSteps(actions, me) == LockSteps(old(actions), me)
      {
        assert Enabled(Now(), OfLock(L.Tick(0)));
        var a: Action :| Enabled(Now(), a) && if a.OfLock? then a.a.Tick? || a.a.pid != me else a.pid != me;
        assert Enabled(Now(), a);
        OthersLeaveAlone(config, files, Now(), a, me);
        OneStepMore(actions, a, me);
        Happen(a);
      }
    }

    /** `me` goes on to `r`. */
    method Go(me: L.Pid, r: Exporter, ghost a: Action)
      requires Recorded() && Enabled(Last(), a) && Alive(Last(), me) && runs == Last().runs && lock == Last().lock
      requires Now().(runs := runs[me := r]) == Apply(config, files, Last(), a)
      modifies this`runs, this`states, this`actions
      ensures IsAt(me, r) && actions == old(actions) + [a] && states == old(states) + [Now()]
    {
      runs := runs[me := r];
      Record(a);
    }

    // ---- moveIntoPlace ----

    method Compare(me: L.Pid, attempt: nat) returns (same: bool)
      requires IsAt(me, Comparing(attempt))
      modifies this
      ensures IsAt(me, if same then Leaving(Some(false)) else Deleting(attempt))
      ensures same <==> output == Some(files)
      ensures lock.procs[me] == old(lock.procs[me])
    {
      Interfere(me, Comparing(attempt));
      same := SameFiles(Some(files), output);
      Go(me, if same then Leaving(Some(false)) else Deleting(attempt), Step(me));
    }

    /** `fs.rmSync(outputDir, { recursive: true, force: true })`, which takes its time. */
    method Delete(me: L.Pid, attempt: nat)
      requires IsAt(me, Deleting(attempt))
      modifies this
      ensures IsAt(me, Renaming(attempt)) && output.None? && lock.procs[me] == old(lock.procs[me])
    {
      var parts: nat :| true;
      for k := 0 to parts
        invariant IsAt(me, Deleting(attempt)) && lock.procs[me] == old(lock.procs[me])
      {
        Interfere(me, Deleting(attempt));
        if output.Some? {
          assert Part(output.value, output.value);
          var left: Files :| Part(left, output.value);
          Happen(Deletes(me, left));
        }
      }
      Interfere(me, Deleting(attempt));
      output := None;
      Go(me, Renaming(attempt), Step(me));
    }

    /** `fs.renameSync(staging, outputDir)`, which fails onto a directory that holds files. */
    method Rename(me: L.Pid, attempt: nat) returns (moved: bool)
      requires IsAt(me, Renaming(attempt))
      modifies this
      ensures IsAt(me, if moved then Leaving(Some(true))
                       else if attempt == ATTEMPTS then Leaving(None) else Comparing(attempt + 1))
      ensures moved ==> output == Some(files)
      ensures !moved && attempt == ATTEMPTS ==> Collided(me)
      ensures lock.procs[me] == old(lock.procs[me])
    {
      hide CollidedIn, Run, Init;
      Interfere(me, Renaming(attempt));
      moved := !Occupied(output);
      if moved {
        output, replaced := Some(files), replaced + 1;
        Go(me, Leaving(Some(true)), Step(me));
      } else {
        ghost var at := |actions|;
        Go(me, if attempt == ATTEMPTS then Leaving(None) else Comparing(attempt + 1), Step(me));
        if attempt == ATTEMPTS {
          CollidesNow(states, actions, me, at);
        }
      }
    }

    method Throw(me: L.Pid, ghost r: Exporter) returns (written: Option<bool>)
      requires IsAt(me, r) && Working(r)
      modifies this
      ensures IsAt(me, Leaving(written)) && written == None && lock.procs[me] == old(lock.procs[me])
    {
      Interfere(me, r);
      Happen(Throws(me));
      written := None;
    }

    /** No operation of `moveIntoPlace` throws, in any of its attempts. */
    ghost predicate ThrowsNowhere(throws: Exporter -> bool) {
      forall k :: 1 <= k <= ATTEMPTS ==> !throws(Comparing(k)) && !throws(Deleting(k)) && !throws(Renaming(k))
    }

    ghost predicate Collided(me: L.Pid)
      reads this
    {
      CollidedIn(states, actions, me)
    }

    twostate predicate GoesOn()
      reads this
    {
      old(states) <= states && old(actions) <= actions
    }

    /** `moveIntoPlace`. `throws` tells which of its operations throw. So does the third collision, and nothing else. */
    method MoveIntoPlace(me: L.Pid, throws: Exporter -> bool) returns (written: Option<bool>)
      requires IsAt(me, Comparing(1))
      modifies this
      ensures IsAt(me, Leaving(written)) && (written.Some? ==> output == Some(files))
      ensures lock.procs[me] == old(lock.procs[me])
      ensures written.None? ==> Collided(me) || !ThrowsNowhere(throws)
    {
      hide Run, Apply, Enabled, CollidedIn;
      for attempt := 1 to ATTEMPTS + 1
        invariant IsAt(me, if attempt <= ATTEMPTS then Comparing(attempt) else Leaving(None))
        invariant lock.procs[me] == old(lock.procs[me])
        invariant attempt > ATTEMPTS ==> Collided(me)
      {
        if throws(Comparing(attempt)) { written := Throw(me, Comparing(attempt)); return; }
        var same := Compare(me, attempt);
        if same {
          return Some(false);
        }
        if throws(Deleting(attempt)) { written := Throw(me, Deleting(attempt)); return; }
        Delete(me, attempt);
        if throws(Renaming(attempt)) { written := Throw(me, Renaming(attempt)); return; }
        var moved := Rename(me, attempt);
        if moved {
          return Some(true);
        }
      }
      written := None;
    }

    // ---- exportProtos ----

    method StartAcquire(me: L.Pid)
      requires IsAt(me, Wanting) && lock.procs[me].pc.Idle?
      modifies this
      ensures IsAt(me, Acquiring) && Trying(me) && LockSteps(actions, me) == LockSteps(old(actions), me) + 1
    {
      Interfere(me, Wanting);
      OneStepMore(actions, OfLock(L.Step(me, 0)), me);
      Happen(OfLock(L.Step(me, 0)));
    }

    /** Inside `acquire`, or about to return from it with the lock. */
    predicate Trying(me: L.Pid)
      reads this
    {
      && me in lock.procs && !lock.procs[me].pc.Idle?
      && (L.ReleaseStepsLeft(lock.procs[me].pc) == 0 || lock.procs[me].pc.Holding?)
    }

    /** The last step was one at which `acquire` throws of itself. */
    ghost predicate GaveUp()
      reads this
    {
      && |states| == |actions| + 1 > 1
      && actions[|actions| - 1].OfLock? && L.GivesUp(states[|actions| - 1].lock, actions[|actions| - 1].a)
    }

    /** A step inside `acquire`, or an error thrown there. */
    method AcquireStep(me: L.Pid, fails: bool)
      requires IsAt(me, Acquiring) && Trying(me) && !lock.procs[me].pc.Holding?
      modifies this
      ensures LockSteps(actions, me) == LockSteps(old(actions), me) + if fails then 0 else 1
      ensures (IsAt(me, Ended(None)) && (fails || GaveUp())) || (!fails && IsAt(me, Acquiring) && Trying(me))
    {
      hide Run, Apply, Enabled, LockSteps, L.GivesUp, L.Apply, L.StepProcess;
      Interfere(me, Acquiring);
      var tag: nat :| true;
      var a := if fails then L.Throw(me) else L.Step(me, tag);
      OneStepMore(actions, OfLock(a), me);
      AcquireGoes(config, files, Now(), me, a);
      Happen(OfLock(a));
    }

    /** `acquire` returns. */
    method TakeLock(me: L.Pid)
      requires IsAt(me, Acquiring) && lock.procs[me].pc.Holding?
      modifies this
      ensures IsAt(me, Comparing(1)) && lock.procs[me].pc.Holding?
    {
      Interfere(me, Acquiring);
      Go(me, Comparing(1), Step(me));
    }

    /**
     * `lock.acquire()`, followed for at most `steps` of its own steps, the `k`th of which is an error
     * thrown out of it where `fails(k)` says so. None if it is still waiting.
     */
    method Acquire(me: L.Pid, steps: nat, fails: nat -> bool) returns (got: Option<bool>)
      requires IsAt(me, Wanting) && lock.procs[me].pc.Idle?
      modifies this
      ensures match got
              case None => IsAt(me, Acquiring) && LockSteps(actions, me) >= LockSteps(old(actions), me) + steps
              case Some(true) => IsAt(me, Comparing(1)) && lock.procs[me].pc.Holding?
              case Some(false) => IsAt(me, Ended(None)) && (GaveUp() || exists k :: 0 <= k < steps && fails(k))
    {
      hide Run, LockSteps, GaveUp, L.StepProcess;
      StartAcquire(me);
      for k := 0 to steps
        invariant IsAt(me, Acquiring) && Trying(me)
        invariant LockSteps(actions, me) >= LockSteps(old(actions), me) + k
      {
        if lock.procs[me].pc.Holding? {
          TakeLock(me);
          return Some(true);
        }
        AcquireStep(me, fails(k));
        if runs[me].Ended? {
          return Some(false);
        }
      }
      got := None;
    }

    method ReleaseStep(me: L.Pid, written: Option<bool>)
      requires IsAt(me, Leaving(written)) && L.ReleaseStepsLeft(lock.procs[me].pc) > 0
      modifies this
      ensures me in lock.procs && LockSteps(actions, me) == LockSteps(old(actions), me) + 1 && GoesOn()
      ensures || IsAt(me, Ended(written))
              || (&& IsAt(me, Leaving(written))
                  && 0 < L.ReleaseStepsLeft(lock.procs[me].pc) < L.ReleaseStepsLeft(old(lock.procs[me].pc)))
    {
      Interfere(me, Leaving(written));
      OneStepMore(actions, OfLock(L.Step(me, 0)), me);
      ReleaseGoes(config, files, Now(), me);
      Happen(OfLock(L.Step(me, 0)));
    }

    /** `lock.release()`, in `finally`. It takes at most three steps of its own. */
    method Release(me: L.Pid, written: Option<bool>)
      requires IsAt(me, Leaving(written)) && lock.procs[me].pc.Holding?
      modifies this
      ensures IsAt(me, Ended(written)) && GoesOn()
      ensures LockSteps(old(actions), me) < LockSteps(actions, me) <= LockSteps(old(actions), me) + 3
    {
      ReleaseStep(me, written);
      while runs[me] == Leaving(written)
        invariant me in lock.procs && me in runs && LockSteps(old(actions), me) < LockSteps(actions, me) && GoesOn()
        invariant || (IsAt(me, Ended(written)) && LockSteps(actions, me) <= LockSteps(old(actions), me) + 3)
                  || (&& IsAt(me, Leaving(written)) && L.ReleaseStepsLeft(lock.procs[me].pc) > 0
                      && LockSteps(actions, me) + L.ReleaseStepsLeft(lock.procs[me].pc) <=
                         LockSteps(old(actions), me) + 3)
        decreases runs[me] == Leaving(written), L.ReleaseStepsLeft(lock.procs[me].pc)
      {
        ReleaseStep(me, written);
      }
    }

    /**
     * `exportProtos`, with what its own export ended in. Where it returns and the lock is not to
     * blame, the output holds the files; None stands for an error, a failed export, or a run that is
     * still waiting for the lock. It errs only where the lock or an operation fails it.
     */
    method ExportProtos(me: L.Pid, ok: bool, steps: nat, fails: nat -> bool, throws: Exporter -> bool)
      returns (written: Option<bool>, locked: bool)
      requires IsAt(me, Exporting) && lock.procs[me].pc.Idle?
      modifies this
      ensures written.Some? ==> locked && IsAt(me, Ended(written))
      ensures written.Some? && NoBlame() ==> output == Some(files)
      ensures !ok ==> written == None && !locked && IsAt(me, Ended(None))
      ensures ok && !locked ==>
                || (IsAt(me, Acquiring) && LockSteps(actions, me) >= LockSteps(old(actions), me) + steps)
                || (IsAt(me, Ended(None)) && (GaveUp() || exists k :: 0 <= k < steps && fails(k)))
      ensures locked && written.None? && ThrowsNowhere(throws) ==> Collided(me)
    {
      locked := false;
      Interfere(me, Exporting);
      OneStepMore(actions, Exports(me, ok), me);
      Happen(Exports(me, ok));
      if !ok {
        return None, false;
      }
      var got := Acquire(me, steps, fails);
      if got != Some(true) {
        return None, false;
      }
      written := MoveIntoPlace(me, throws);
      locked := true;
      ghost var was, did := states, actions;
      Release(me, written);
      if CollidedIn(was, did, me) {
        StillCollided(was, did, states, actions, me);
      }
      if written.Some? {
        Returned(me, written);
      }
    }

    lemma Returned(me: L.Pid, written: Option<bool>)
      requires IsAt(me, Ended(written)) && written.Some?
      ensures NoBlame() ==> output == Some(files)
    {
      if NoBlame() {
        OutputIsFinal(config, files, states, actions, |actions|, |actions|);
      }
    }
  }
}
