/**
 * Mutual exclusion of the lock, with blame: two processes can hold it at once only after one of
 * three named events. Two are the windows lock.js says it leaves open; the third is two links of
 * the same pid in the same millisecond, which `sameHolder` cannot tell apart.
 */
module LockBlame {
  import opened Prelude
  import opened FileLock
  import opened LockIntegrity

  /** A live process is judged stale between its link and the end of its release. */
  predicate JudgesHolderStale(c: Config, s: State, a: Action) {
    && a.Step? && Enabled(s, a)
    && s.procs[a.pid].pc.Judging?
    && var pc := s.procs[a.pid].pc;
       && HolderIsStale(c, s.clock, pc.seen, pc.ownerAlive)
       && pc.seen.content.Complete?
       && HeldAs(s, pc.seen.content.owner)
  }

  /** A rename moves aside another record than its confirming read saw. */
  predicate RenamesUnconfirmed(s: State, a: Action) {
    && a.Step? && Enabled(s, a)
    && s.procs[a.pid].pc.Renaming?
    && LockContent(s.dir).Some?
    && LockContent(s.dir) != Some(s.procs[a.pid].pc.confirmed)
  }

  /** A link publishes a record that an earlier link published. */
  predicate RepeatsRecord(s: State, a: Action) {
    && a.Step? && Enabled(s, a)
    && s.procs[a.pid].pc.Linking?
    && Staging(s.procs[a.pid].pc.tag) in s.dir.names && LockPath !in s.dir.names
    && s.procs[a.pid].pc.record in s.dir.published
  }

  predicate Blamed(c: Config, s: State, a: Action) {
    JudgesHolderStale(c, s, a) || RenamesUnconfirmed(s, a) || RepeatsRecord(s, a)
  }

  /** The record a reclaimer has condemned, and means to move aside. */
  function Condemned(pc: Pc): Option<Record> {
    match pc
    case Confirming(seen) => if seen.content.Complete? then Some(seen.content.owner) else None
    case Rereading(seen, _) => if seen.content.Complete? then Some(seen.content.owner) else None
    case Renaming(confirmed) => if confirmed.Complete? then Some(confirmed.owner) else None
    case _ => None
  }

  ghost predicate HolderHasLock(s: State, p: Pid) {
    Holds(s, p) ==> LockContent(s.dir) == Some(Complete(HeldRecord(s.procs[p].pc).value))
  }

  ghost predicate CondemnsNoHolder(s: State, q: Pid) {
    ProcessAlive(s, q) && Condemned(s.procs[q].pc).Some? ==> !HeldAs(s, Condemned(s.procs[q].pc).value)
  }

  /** What holds as long as nothing is to blame. */
  ghost predicate Exclusive(s: State) {
    forall p :: HolderHasLock(s, p) && CondemnsNoHolder(s, p)
  }

  lemma TwoHoldersClash(s: State, p: Pid, q: Pid)
    requires Intact(s) && Exclusive(s) && Holds(s, p) && Holds(s, q)
    ensures p == q
  {
    assert ProcessAlive(s, p) && ProcessAlive(s, q);
    assert HolderHasLock(s, p) && HolderHasLock(s, q);
    assert StagingOk(s, p) && StagingOk(s, q);
  }

  /** Without blame, the only way to lose the lock is one's own release. */
  lemma StepKeepsHolder(c: Config, s: State, a: Action, p: Pid, t: State)
    requires Intact(s) && Exclusive(s) && Enabled(s, a) && !Blamed(c, s, a) && t == Apply(c, s, a)
    ensures HolderHasLock(t, p)
  {
    if Holds(t, p) {
      OthersUntouched(c, s, a);
      assert ProcessAlive(s, p) && HolderHasLock(s, p) && StagingOk(s, p);
      assert !a.Tick? ==> ProcessAlive(s, a.pid) && HolderHasLock(s, a.pid) && StagingOk(s, a.pid);
      assert !a.Tick? ==> CondemnsNoHolder(s, a.pid) && ReaderOk(s, a.pid);
      StepGrows(c, s, a);
    }
  }

  /** A process comes to hold the lock under `r` only by linking `r`. */
  lemma HolderComesByLink(c: Config, s: State, a: Action, r: Record)
    requires Intact(s) && Enabled(s, a) && !RepeatsRecord(s, a)
    requires HeldAs(Apply(c, s, a), r)
    ensures HeldAs(s, r) || r !in s.dir.published
  {
    OthersUntouched(c, s, a);
  }

  /** A record is condemned only by the judgement of a reclaimer. */
  lemma CondemnationComesByJudgement(c: Config, s: State, a: Action, q: Pid, r: Record)
    requires Intact(s) && Enabled(s, a) && !JudgesHolderStale(c, s, a) && CondemnsNoHolder(s, q)
    requires ProcessAlive(Apply(c, s, a), q) && Condemned(Apply(c, s, a).procs[q].pc) == Some(r)
    ensures ProcessAlive(s, q) && r in s.dir.published && !HeldAs(s, r)
  {
    OthersUntouched(c, s, a);
    assert ProcessAlive(s, q) && ReaderOk(s, q);
  }

  lemma StepKeepsCondemned(c: Config, s: State, a: Action, q: Pid, t: State)
    requires Intact(s) && Exclusive(s) && Enabled(s, a) && !Blamed(c, s, a) && t == Apply(c, s, a)
    ensures CondemnsNoHolder(t, q)
  {
    if ProcessAlive(t, q) && Condemned(t.procs[q].pc).Some? {
      var r := Condemned(t.procs[q].pc).value;
      assert HolderHasLock(s, q);
      CondemnationComesByJudgement(c, s, a, q, r);
      if HeldAs(t, r) {
        HolderComesByLink(c, s, a, r);
      }
    }
  }

  lemma StepExclusive(c: Config, s: State, a: Action, t: State)
    requires Intact(s) && Exclusive(s) && Enabled(s, a) && !Blamed(c, s, a) && t == Apply(c, s, a)
    ensures Exclusive(t)
  {
    forall p ensures HolderHasLock(t, p) && CondemnsNoHolder(t, p) {
      StepKeepsHolder(c, s, a, p, t);
      StepKeepsCondemned(c, s, a, p, t);
    }
  }

  ghost predicate Blameless(c: Config, states: seq<State>, actions: seq<Action>, k: nat)
    requires Run(c, states, actions)
  {
    forall i :: 0 <= i < k && i < |actions| ==> !Blamed(c, states[i], actions[i])
  }

  lemma {:induction false} RunExclusive(c: Config, states: seq<State>, actions: seq<Action>, k: nat)
    requires Run(c, states, actions) && k < |states| && Blameless(c, states, actions, k)
    ensures Intact(states[k]) && Exclusive(states[k])
  {
    RunIntact(c, states, actions, k);
    if k > 0 {
      RunExclusive(c, states, actions, k - 1);
      assert !Blamed(c, states[k - 1], actions[k - 1]);
      StepExclusive(c, states[k - 1], actions[k - 1], states[k]);
    }
  }

  /** In a blameless run, whoever holds the lock is named by it. */
  lemma HolderIsNamed(c: Config, states: seq<State>, actions: seq<Action>, k: nat, p: Pid)
    requires Run(c, states, actions) && k < |states| && Blameless(c, states, actions, k)
    requires Holds(states[k], p)
    ensures LockContent(states[k].dir) == Some(Complete(HeldRecord(states[k].procs[p].pc).value))
    ensures HeldRecord(states[k].procs[p].pc).value.pid == p
  {
    RunExclusive(c, states, actions, k);
    assert ProcessAlive(states[k], p) && StagingOk(states[k], p) && HolderHasLock(states[k], p);
  }

  /** The blame theorem: two holders at once, and one of the three events came before. */
  lemma TwoHoldersMeanBlame(c: Config, states: seq<State>, actions: seq<Action>, k: nat, p: Pid, q: Pid)
    requires Run(c, states, actions) && k < |states|
    requires p != q && Holds(states[k], p) && Holds(states[k], q)
    ensures exists i :: 0 <= i < k && Blamed(c, states[i], actions[i])
  {
    if Blameless(c, states, actions, k) {
      RunExclusive(c, states, actions, k);
      TwoHoldersClash(states[k], p, q);
      assert false;
    }
  }

  /**
   * A live holder is judged stale only by overrunning: more than `staleMs` have passed since it
   * STAGED its record, which is before it linked it. A dead process never passes for its owner.
   */
  lemma JudgedHolderHasOverrun(c: Config, states: seq<State>, actions: seq<Action>, k: nat)
    requires Run(c, states, actions) && k < |actions| && JudgesHolderStale(c, states[k], actions[k])
    ensures states[k].clock - states[k].procs[actions[k].pid].pc.seen.content.owner.acquiredAt > c.staleMs
  {
    RunIntact(c, states, actions, k);
    assert ProcessAlive(states[k], actions[k].pid) && ReaderOk(states[k], actions[k].pid);
  }
}
