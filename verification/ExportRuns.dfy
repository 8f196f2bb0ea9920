/**
 * `exportProtos` of libs/scripts/src/proto-export/export.js, run by any number of processes at once
 * on top of the lock file itself: each exports into a directory of its own, then, holding the lock,
 * compares, deletes and renames. Any of them may be killed, or throw, between two steps. The sources
 * are the same for all of them, so all exports that succeed hold the same files.
 */
module ExportRuns {
  import opened Prelude
  import L = FileLock
  import LI = LockIntegrity
  import LB = LockBlame
  import opened ProtoExport

  datatype Exporter =
    | Exporting
    | Wanting                  // exported with status 0; about to call acquire
    | Acquiring                // inside acquire
    | Comparing(attempt: nat)  // holds the lock; about to compare staging with the output
    | Deleting(attempt: nat)   // they differ; the output is being deleted
    | Renaming(attempt: nat)   // deleted; about to rename staging to the output
    | Leaving(written: Option<bool>)  // in finally: about to release; None for an error thrown
    | Ended(written: Option<bool>)

  datatype State = State(lock: L.State, output: Dir, runs: map<L.Pid, Exporter>, replaced: nat)

  datatype Action =
    | OfLock(a: L.Action)              // the clock, a crash, or a call inside acquire or release
    | Exports(pid: L.Pid, ok: bool)    // the export ends, with status 0 or another
    | Deletes(pid: L.Pid, left: Files) // the deletion of the output has come so far
    | Step(pid: L.Pid)                 // the run's next file operation
    | Throws(pid: L.Pid)               // an error thrown inside the try block

  predicate Working(r: Exporter) {
    r.Comparing? || r.Deleting? || r.Renaming?
  }

  predicate Alive(s: State, p: L.Pid) {
    p in s.runs && L.ProcessAlive(s.lock, p)
  }

  predicate Part(left: Files, whole: Files) {
    forall f <- left :: f in whole && left[f] == whole[f]
  }

  predicate Enabled(s: State, a: Action) {
    match a
    case OfLock(Tick(_)) => true
    case OfLock(Crash(p)) => Alive(s, p)
    case OfLock(la) =>
      && Alive(s, la.pid)
      && var pc := s.lock.procs[la.pid].pc;
         if pc.Idle? then s.runs[la.pid].Wanting? && la.Step?
         else if pc.Holding? then s.runs[la.pid].Leaving? && la.Step?
         else s.runs[la.pid].Acquiring? || s.runs[la.pid].Leaving?
    case Exports(p, _) => Alive(s, p) && s.runs[p].Exporting?
    case Deletes(p, left) => Alive(s, p) && s.runs[p].Deleting? && s.output.Some? && Part(left, s.output.value)
    case Step(p) =>
      && Alive(s, p)
      && (Working(s.runs[p]) || (s.runs[p].Acquiring? && s.lock.procs[p].pc.Holding?))
    case Throws(p) => Alive(s, p) && Working(s.runs[p])
  }

  function At(s: State, p: L.Pid, r: Exporter): State {
    s.(runs := s.runs[p := r])
  }

  function AfterLock(s: State, a: L.Action, lock: L.State): State
    requires a.Tick? || (a.pid in s.runs && a.pid in lock.procs)
  {
    if a.Tick? || a.Crash? then s.(lock := lock)
    else
      var r := s.runs[a.pid];
      var next :=
        if r.Wanting? then Acquiring
        else if !lock.procs[a.pid].pc.Idle? then r
        else if r.Leaving? && a.Step? then Ended(r.written)
        else Ended(None);
      At(s.(lock := lock), a.pid, next)
  }

  function Apply(c: L.Config, files: Files, s: State, a: Action): State
    requires Enabled(s, a) && s.runs.Keys == s.lock.procs.Keys
  {
    match a
    case OfLock(la) => AfterLock(s, la, L.Apply(c, s.lock, la))
    case Exports(p, ok) => At(s, p, if ok then Wanting else Ended(None))
    case Deletes(p, left) => s.(output := Some(left))
    case Throws(p) => At(s, p, Leaving(None))
    case Step(p) =>
      match s.runs[p]
      case Acquiring => At(s, p, Comparing(1))
      case Comparing(n) => At(s, p, if s.output == Some(files) then Leaving(Some(false)) else Deleting(n))
      case Deleting(n) => At(s.(output := None), p, Renaming(n))
      case Renaming(n) =>
        if Occupied(s.output) then At(s, p, if n == ATTEMPTS then Leaving(None) else Comparing(n + 1))
        else At(s.(output := Some(files), replaced := s.replaced + 1), p, Leaving(Some(true)))
  }

  /** All processes at the start, over any output. */
  ghost predicate Init(s: State) {
    && L.Init(s.lock)
    && s.runs.Keys == s.lock.procs.Keys
    && (forall p <- s.runs :: s.runs[p] == Exporting)
    && s.replaced == 0
  }

  ghost predicate Run(c: L.Config, files: Files, states: seq<State>, actions: seq<Action>) {
    && |states| == |actions| + 1
    && Init(states[0])
    && (forall i :: 0 <= i < |actions| ==> states[i].runs.Keys == states[i].lock.procs.Keys)
    && forall i :: 0 <= i < |actions| ==>
        Enabled(states[i], actions[i]) && states[i + 1] == Apply(c, files, states[i], actions[i])
  }

  lemma RunExtends(c: L.Config, files: Files, states: seq<State>, actions: seq<Action>, a: Action, t: State)
    requires Run(c, files, states, actions) && states[|actions|].runs.Keys == states[|actions|].lock.procs.Keys
    requires Enabled(states[|actions|], a) && t == Apply(c, files, states[|actions|], a)
    ensures Run(c, files, states + [t], actions + [a]) && t.runs.Keys == t.lock.procs.Keys
  {
    if a.OfLock? {
      LI.OthersUntouched(c, states[|actions|].lock, a.a);
    }
  }

  /** How many steps `p` takes inside the lock. */
  function LockSteps(actions: seq<Action>, p: L.Pid): nat {
    if actions == [] then 0
    else
      var last := actions[|actions| - 1];
      LockSteps(actions[..|actions| - 1], p) + if last.OfLock? && last.a.Step? && last.a.pid == p then 1 else 0
  }

  lemma OneStepMore(actions: seq<Action>, a: Action, p: L.Pid)
    ensures LockSteps(actions + [a], p) ==
            LockSteps(actions, p) + if a.OfLock? && a.a.Step? && a.a.pid == p then 1 else 0
  {
    assert (actions + [a])[..|actions|] == actions;
  }

  /** A step of the clock, or of another process. */
  lemma OthersLeaveAlone(c: L.Config, files: Files, s: State, a: Action, p: L.Pid)
    requires s.runs.Keys == s.lock.procs.Keys && Alive(s, p) && Enabled(s, a)
    requires if a.OfLock? then a.a.Tick? || a.a.pid != p else a.pid != p
    ensures var t := Apply(c, files, s, a);
            Alive(t, p) && t.runs[p] == s.runs[p] && t.lock.procs[p] == s.lock.procs[p]
    ensures !(a.OfLock? && a.a.Step? && a.a.pid == p)
  {
    if a.OfLock? {
      LI.OthersUntouched(c, s.lock, a.a);
    }
  }

  /** A step inside `acquire`, or an error thrown there: it goes on there, returns with the lock, or the run ends. */
  lemma AcquireGoes(c: L.Config, files: Files, s: State, p: L.Pid, a: L.Action)
    requires s.runs.Keys == s.lock.procs.Keys && Alive(s, p) && s.runs[p].Acquiring?
    requires !s.lock.procs[p].pc.Idle? && L.ReleaseStepsLeft(s.lock.procs[p].pc) == 0
    requires (a.Step? || a.Throw?) && a.pid == p
    ensures Enabled(s, OfLock(a))
    ensures var t := Apply(c, files, s, OfLock(a));
            && Alive(t, p)
            && (|| (t.runs[p] == Ended(None) && (a.Throw? || L.GivesUp(s.lock, a)))
                || (&& a.Step? && t.runs[p].Acquiring? && !t.lock.procs[p].pc.Idle?
                    && (L.ReleaseStepsLeft(t.lock.procs[p].pc) == 0 || t.lock.procs[p].pc.Holding?)))
  {
    LI.OthersUntouched(c, s.lock, a);
  }

  /** A step of `release`: one fewer is left, or the run ends. */
  lemma ReleaseGoes(c: L.Config, files: Files, s: State, p: L.Pid)
    requires s.runs.Keys == s.lock.procs.Keys && Alive(s, p) && s.runs[p].Leaving?
    requires L.ReleaseStepsLeft(s.lock.procs[p].pc) > 0
    ensures Enabled(s, OfLock(L.Step(p, 0)))
    ensures var t := Apply(c, files, s, OfLock(L.Step(p, 0)));
            && Alive(t, p)
            && (|| t.runs[p] == Ended(s.runs[p].written)
                || (&& t.runs[p] == s.runs[p]
                    && 0 < L.ReleaseStepsLeft(t.lock.procs[p].pc) < L.ReleaseStepsLeft(s.lock.procs[p].pc)))
  {
    LI.OthersUntouched(c, s.lock, L.Step(p, 0));
  }

  predicate Blamed(c: L.Config, s: State, a: Action) {
    a.OfLock? && LB.Blamed(c, s.lock, a.a)
  }

  ghost predicate Blameless(c: L.Config, states: seq<State>, actions: seq<Action>, k: nat) {
    forall i :: 0 <= i < k && i < |actions| && i < |states| ==> !Blamed(c, states[i], actions[i])
  }

  /** The output holds the files, and nobody is at work on it. */
  ghost predicate Settled(files: Files, s: State) {
    s.output == Some(files) && forall p :: Alive(s, p) ==> !s.runs[p].Deleting? && !s.runs[p].Renaming?
  }

  predicate Succeeded(r: Exporter) {
    (r.Leaving? || r.Ended?) && r.written.Some?
  }

  ghost predicate RunOk(s: State, p: L.Pid)
    requires Alive(s, p)
  {
    var r, pc := s.runs[p], s.lock.procs[p].pc;
    && (Working(r) ==> pc.Holding? && r.attempt == 1)
    && (pc.Holding? ==> Working(r) || r.Acquiring? || r.Leaving?)
    && (r.Renaming? ==> s.output.None?)
  }

  ghost predicate Inv(files: Files, s: State) {
    && s.runs.Keys == s.lock.procs.Keys
    && LI.Intact(s.lock) && LB.Exclusive(s.lock)
    && (forall p :: Alive(s, p) ==> RunOk(s, p))
    && s.replaced <= 1
    && (s.replaced == 1 || (exists p <- s.runs :: Succeeded(s.runs[p])) ==> Settled(files, s))
  }

  lemma OnlyOneWorks(files: Files, s: State, p: L.Pid, q: L.Pid)
    requires Inv(files, s) && Alive(s, p) && Alive(s, q) && Working(s.runs[p]) && Working(s.runs[q])
    ensures p == q
  {
    assert RunOk(s, p) && RunOk(s, q);
    assert L.Holds(s.lock, p) && L.Holds(s.lock, q);
    LB.TwoHoldersClash(s.lock, p, q);
  }

  lemma StepKeepsLock(c: L.Config, files: Files, s: State, a: Action, t: State)
    requires Inv(files, s) && Enabled(s, a) && !Blamed(c, s, a) && t == Apply(c, files, s, a)
    ensures t.runs.Keys == t.lock.procs.Keys && LI.Intact(t.lock) && LB.Exclusive(t.lock)
  {
    if a.OfLock? {
      LI.OthersUntouched(c, s.lock, a.a);
      LI.StepIntact(c, s.lock, a.a, L.Apply(c, s.lock, a.a));
      LB.StepExclusive(c, s.lock, a.a, L.Apply(c, s.lock, a.a));
    }
  }

  /** A step of the lock moves only its own process, and touches no output. */
  lemma LockStepOk(c: L.Config, files: Files, s: State, a: Action, t: State, q: L.Pid)
    requires s.runs.Keys == s.lock.procs.Keys && Enabled(s, a) && t == Apply(c, files, s, a)
    requires a.OfLock? && Alive(t, q)
    ensures t.output == s.output && t.replaced == s.replaced && Alive(s, q)
    ensures RunOk(s, q) ==> RunOk(t, q)
    ensures Working(t.runs[q]) ==> t.runs[q] == s.runs[q]
    ensures Succeeded(t.runs[q]) ==> Succeeded(s.runs[q])
  {
    LI.OthersUntouched(c, s.lock, a.a);
  }

  lemma OwnStepOk(c: L.Config, files: Files, s: State, a: Action, t: State)
    requires Enabled(s, a) && s.runs.Keys == s.lock.procs.Keys && !a.OfLock? && t == Apply(c, files, s, a)
    requires RunOk(s, a.pid)
    ensures RunOk(t, a.pid)
  {
  }

  /** While one run works, nobody else deletes or renames. */
  lemma OtherStepOk(c: L.Config, files: Files, s: State, a: Action, t: State, q: L.Pid)
    requires Inv(files, s) && Enabled(s, a) && !a.OfLock? && t == Apply(c, files, s, a)
    requires Alive(s, q) && q != a.pid
    ensures Alive(t, q) && RunOk(t, q)
  {
    assert t.runs[q] == s.runs[q] && t.lock == s.lock && RunOk(s, q) && RunOk(s, a.pid);
    if Working(s.runs[q]) && Working(s.runs[a.pid]) {
      OnlyOneWorks(files, s, a.pid, q);
    }
  }

  lemma StepKeepsRuns(c: L.Config, files: Files, s: State, a: Action, t: State, q: L.Pid)
    requires Inv(files, s) && Enabled(s, a) && t == Apply(c, files, s, a) && Alive(t, q)
    ensures Alive(s, q) && RunOk(t, q)
  {
    if a.OfLock? {
      LockStepOk(c, files, s, a, t, q);
      assert RunOk(s, q);
    } else if a.pid == q {
      assert RunOk(s, q);
      OwnStepOk(c, files, s, a, t);
    } else {
      OtherStepOk(c, files, s, a, t, q);
    }
  }

  /** A step of a lock that a dead process cannot take leaves that process where it was. */
  lemma LockStepSucceeds(c: L.Config, files: Files, s: State, a: Action, t: State, q: L.Pid)
    requires s.runs.Keys == s.lock.procs.Keys && Enabled(s, a) && t == Apply(c, files, s, a) && a.OfLock?
    requires q in t.runs && Succeeded(t.runs[q])
    ensures q in s.runs && Succeeded(s.runs[q])
  {
    LI.OthersUntouched(c, s.lock, a.a);
  }

  /** Once settled, the output stays settled. */
  lemma StepKeepsSettled(c: L.Config, files: Files, s: State, a: Action, t: State)
    requires Inv(files, s) && Settled(files, s) && Enabled(s, a) && t == Apply(c, files, s, a)
    ensures Settled(files, t) && t.replaced == s.replaced
  {
    assert !a.OfLock? ==> Alive(s, a.pid);
    if a.OfLock? {
      LI.OthersUntouched(c, s.lock, a.a);
    }
    forall p | Alive(t, p) ensures !t.runs[p].Deleting? && !t.runs[p].Renaming? {
      if a.OfLock? {
        LockStepOk(c, files, s, a, t, p);
      }
      assert Alive(s, p);
    }
  }

  /** The output is settled by a rename, or found so by a comparison. */
  lemma StepSettles(c: L.Config, files: Files, s: State, a: Action, t: State)
    requires Inv(files, s) && !Settled(files, s) && Enabled(s, a) && t == Apply(c, files, s, a)
    ensures t.replaced <= 1
    ensures t.replaced == 1 || (exists p <- t.runs :: Succeeded(t.runs[p])) ==> Settled(files, t)
  {
    if a.OfLock? {
      LI.OthersUntouched(c, s.lock, a.a);
      forall p <- t.runs ensures !Succeeded(t.runs[p]) {
        if Succeeded(t.runs[p]) {
          LockStepSucceeds(c, files, s, a, t, p);
        }
      }
    } else if Working(s.runs[a.pid]) {
      assert RunOk(s, a.pid);
      forall q | Alive(s, q) && q != a.pid ensures !Working(s.runs[q]) {
        if Working(s.runs[q]) {
          OnlyOneWorks(files, s, a.pid, q);
        }
      }
    }
  }

  lemma StepInv(c: L.Config, files: Files, s: State, a: Action, t: State)
    requires Inv(files, s) && Enabled(s, a) && !Blamed(c, s, a) && t == Apply(c, files, s, a)
    ensures Inv(files, t)
  {
    StepKeepsLock(c, files, s, a, t);
    forall q | Alive(t, q) ensures RunOk(t, q) {
      StepKeepsRuns(c, files, s, a, t, q);
    }
    if Settled(files, s) {
      StepKeepsSettled(c, files, s, a, t);
    } else {
      StepSettles(c, files, s, a, t);
    }
  }

  lemma {:induction false} RunInv(c: L.Config, files: Files, states: seq<State>, actions: seq<Action>, k: nat)
    requires Run(c, files, states, actions) && k < |states| && Blameless(c, states, actions, k)
    ensures Inv(files, states[k])
  {
    if k == 0 {
      LI.InitIntact(states[0].lock);
    } else {
      RunInv(c, files, states, actions, k - 1);
      assert !Blamed(c, states[k - 1], actions[k - 1]);
      StepInv(c, files, states[k - 1], actions[k - 1], states[k]);
    }
  }

  lemma {:induction false} SettledIsFinal(c: L.Config, files: Files, states: seq<State>, actions: seq<Action>, k: nat,
      n: nat)
    requires Run(c, files, states, actions) && k <= n < |states| && Blameless(c, states, actions, n)
    requires Settled(files, states[k])
    ensures Settled(files, states[n]) && states[n].replaced == states[k].replaced
    decreases n - k
  {
    if k < n {
      SettledIsFinal(c, files, states, actions, k, n - 1);
      assert Inv(files, states[n - 1]) by { RunInv(c, files, states, actions, n - 1); }
      StepKeepsSettled(c, files, states[n - 1], actions[n - 1], states[n]);
    }
  }

  /**
   * Identical concurrent exports: with nothing to blame on the lock, however many run and wherever
   * they crash or throw, the output is replaced at most once, and not at all if it held the files
   * from the start; and no rename meets a directory, so each run is done at its first attempt.
   */
  lemma IdenticalExportsReplaceOnce(c: L.Config, files: Files, states: seq<State>, actions: seq<Action>, k: nat)
    requires Run(c, files, states, actions) && k < |states| && Blameless(c, states, actions, k)
    ensures states[k].replaced <= 1
    ensures states[0].output == Some(files) ==> states[k].replaced == 0 && states[k].output == Some(files)
    ensures forall p :: Alive(states[k], p) && Working(states[k].runs[p]) ==> states[k].runs[p].attempt == 1
    ensures forall p :: Alive(states[k], p) && states[k].runs[p].Renaming? ==> states[k].output.None?
  {
    RunInv(c, files, states, actions, k);
    assert forall p :: Alive(states[k], p) ==> RunOk(states[k], p);
    if states[0].output == Some(files) {
      assert Settled(files, states[0]);
      SettledIsFinal(c, files, states, actions, 0, k);
    }
  }

  /**
   * Once the output has been replaced, or a run has returned, it holds the files, and no later step
   * of any run touches it.
   */
  lemma OutputIsFinal(c: L.Config, files: Files, states: seq<State>, actions: seq<Action>, k: nat, n: nat)
    requires Run(c, files, states, actions) && k <= n < |states| && Blameless(c, states, actions, n)
    requires || states[k].replaced > 0
             || exists p <- states[k].runs :: states[k].runs[p].Ended? && states[k].runs[p].written.Some?
    ensures states[k].output == Some(files) && states[n].output == Some(files) &&
            states[n].replaced == states[k].replaced
  {
    RunInv(c, files, states, actions, k);
    if p :| p in states[k].runs && states[k].runs[p].Ended? && states[k].runs[p].written.Some? {
      assert Succeeded(states[k].runs[p]);
    }
    SettledIsFinal(c, files, states, actions, k, n);
  }

  /** The run goes on, in any way that is not to blame on the lock. */
  ghost predicate GoesOn(
      c: L.Config, files: Files, states: seq<State>, actions: seq<Action>, longer: seq<State>, more: seq<Action>) {
    && Run(c, files, longer, more) && states <= longer && actions <= more
    && forall i :: |actions| <= i < |more| ==> !Blamed(c, longer[i], more[i])
  }

  lemma DeletingGoesOn(c: L.Config, files: Files, states: seq<State>, actions: seq<Action>, p: L.Pid)
    requires Run(c, files, states, actions) && states[|actions|].runs.Keys == states[|actions|].lock.procs.Keys
    requires Alive(states[|actions|], p) && states[|actions|].runs[p].Deleting?
    ensures exists longer: seq<State>, more: seq<Action> ::
              GoesOn(c, files, states, actions, longer, more) && longer[|more|].output == None
  {
    var t := Apply(c, files, states[|actions|], Step(p));
    RunExtends(c, files, states, actions, Step(p), t);
    assert GoesOn(c, files, states, actions, states + [t], actions + [Step(p)]);
    assert (states + [t])[|actions + [Step(p)]|].output == None;
  }

  lemma SettledGoesOn(c: L.Config, files: Files, states: seq<State>, actions: seq<Action>, longer: seq<State>,
      more: seq<Action>)
    requires Run(c, files, states, actions) && Blameless(c, states, actions, |actions|) &&
             Settled(files, states[|actions|])
    requires GoesOn(c, files, states, actions, longer, more)
    ensures longer[|more|].output == Some(files)
  {
    var k := |actions|;
    assert longer[k] == states[k];
    assert forall i :: 0 <= i < k ==> more[i] == actions[i] && longer[i] == states[i];
    assert Blameless(c, longer, more, |more|);
    SettledIsFinal(c, files, longer, more, k, |more|);
  }

  /**
   * That the output holds the files is not enough: a deletion of a larger directory may have come so
   * far. It is final exactly when no live run is deleting.
   */
  lemma HeldIsFinalExactly(c: L.Config, files: Files, states: seq<State>, actions: seq<Action>)
    requires Run(c, files, states, actions) && Blameless(c, states, actions, |actions|)
    requires states[|actions|].runs.Keys == states[|actions|].lock.procs.Keys && states[|actions|].output == Some(files)
    ensures (forall p :: Alive(states[|actions|], p) ==> !states[|actions|].runs[p].Deleting?) <==>
            forall longer: seq<State>, more: seq<Action> :: GoesOn(c, files, states, actions, longer, more) ==>
              longer[|more|].output == Some(files)
  {
    var s, k := states[|actions|], |actions|;
    RunInv(c, files, states, actions, k);
    assert forall p :: Alive(s, p) ==> RunOk(s, p);
    if p :| Alive(s, p) && s.runs[p].Deleting? {
      DeletingGoesOn(c, files, states, actions, p);
    } else {
      assert Settled(files, s);
      forall longer: seq<State>, more: seq<Action> | GoesOn(c, files, states, actions, longer, more)
        ensures longer[|more|].output == Some(files)
      {
        SettledGoesOn(c, files, states, actions, longer, more);
      }
    }
  }
}
