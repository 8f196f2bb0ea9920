/**
 * What holds of the lock's files in every reachable state, whatever the scheduler does: the lock
 * is never torn, and no inode is written twice. Exclusive creation of staging files carries it.
 */
module LockIntegrity {
  import opened Prelude
  import opened FileLock

  /** The staging tag a process still has to remove. */
  function StagingTag(pc: Pc): Option<nat> {
    match pc
    case Writing(_, tag, _) => Some(tag)
    case Linking(_, tag) => Some(tag)
    case Cleaning(_, tag, _) => Some(tag)
    case _ => None
  }

  /** The record a process works with, for as long as it may still publish or hold it. */
  function OwnRecord(pc: Pc): Option<Record> {
    match pc
    case Creating(r, _) => Some(r)
    case Writing(r, _, _) => Some(r)
    case Linking(r, _) => Some(r)
    case _ => HeldRecord(pc)
  }

  ghost predicate NamesResolve(s: State) {
    && (forall n <- s.dir.names :: s.dir.names[n] in s.dir.inodes)
    && (forall i <- s.dir.inodes :: i < s.dir.nextIno)
  }

  ghost predicate IsPublished(s: State, content: Content) {
    content.Complete? && content.owner in s.dir.published
  }

  /** The staging file of `p` is its own, and holds what `p` has written so far. */
  ghost predicate StagingOk(s: State, p: Pid)
    requires p in s.procs
  {
    var pc := s.procs[p].pc;
    && (StagingTag(pc).Some? ==> Staging(StagingTag(pc).value) in s.dir.names)
    && (OwnRecord(pc).Some? ==> OwnRecord(pc).value.pid == p)
    && (pc.Creating? ==> pc.attempts < STAGING_ATTEMPTS)
    && (pc.Writing? ==>
          && s.dir.names[Staging(pc.tag)] == pc.ino
          && Look(s.dir, pc.ino).content == Torn
          && forall n <- s.dir.names :: s.dir.names[n] == pc.ino ==> n == Staging(pc.tag))
    && (pc.Linking? ==> Look(s.dir, s.dir.names[Staging(pc.tag)]).content == Complete(pc.record))
    && (HeldRecord(pc).Some? ==> HeldRecord(pc).value in s.dir.published)
  }

  /** A descriptor open on the lock, and what was read from one, show a published record. */
  ghost predicate ReaderOk(s: State, p: Pid)
    requires p in s.procs
  {
    match s.procs[p].pc
    case Observing(ino) => ino in s.dir.inodes && IsPublished(s, s.dir.inodes[ino].content)
    case Verifying(_, ino) => ino in s.dir.inodes && IsPublished(s, s.dir.inodes[ino].content)
    case Rereading(seen, ino) =>
      ino in s.dir.inodes && IsPublished(s, s.dir.inodes[ino].content) && IsPublished(s, seen.content)
    case Probing(seen) => IsPublished(s, seen.content)
    case Judging(seen, ownerAlive) =>
      IsPublished(s, seen.content) && (!ownerAlive ==> !ProcessAlive(s, seen.content.owner.pid))
    case Confirming(seen) => IsPublished(s, seen.content)
    case Renaming(confirmed) => IsPublished(s, confirmed)
    case _ => true
  }

  ghost predicate TagsApart(s: State, p: Pid, q: Pid)
    requires ProcessAlive(s, p) && ProcessAlive(s, q)
  {
    p != q && StagingTag(s.procs[p].pc).Some? ==> StagingTag(s.procs[p].pc) != StagingTag(s.procs[q].pc)
  }

  ghost predicate LockOk(s: State) {
    LockContent(s.dir).Some? ==> IsPublished(s, LockContent(s.dir).value)
  }

  /** The invariant. A dead process owns nothing, so its files are only files. */
  ghost predicate Intact(s: State) {
    && NamesResolve(s)
    && LockOk(s)
    && (forall p :: ProcessAlive(s, p) ==> StagingOk(s, p) && ReaderOk(s, p))
    && (forall p, q :: ProcessAlive(s, p) && ProcessAlive(s, q) ==> TagsApart(s, p, q))
  }

  lemma InitIntact(s: State)
    requires Init(s)
    ensures Intact(s)
  {
  }

  /** No step writes an inode that already holds a record, and no record is forgotten. */
  ghost predicate Grows(s: State, t: State) {
    && s.dir.published <= t.dir.published
    && (forall i <- s.dir.inodes ::
       i in t.dir.inodes && (s.dir.inodes[i].content.Complete? ==> t.dir.inodes[i] == s.dir.inodes[i]))
    && (forall p <- s.procs :: p in t.procs && (t.procs[p].alive ==> s.procs[p].alive))
    && s.clock <= t.clock
  }

  lemma StepGrows(c: Config, s: State, a: Action)
    requires Intact(s) && Enabled(s, a)
    ensures Grows(s, Apply(c, s, a))
  {
    assert !a.Tick? ==> ProcessAlive(s, a.pid);
  }

  lemma StepKeepsLock(c: Config, s: State, a: Action)
    requires Intact(s) && Enabled(s, a)
    ensures NamesResolve(Apply(c, s, a)) && LockOk(Apply(c, s, a))
  {
    assert !a.Tick? ==> ProcessAlive(s, a.pid);
  }

  /** A staging tag a process takes up names no file that exists. */
  lemma TagIsFresh(c: Config, s: State, p: Pid, pick: nat)
    requires p in s.procs
    ensures
      var tag := StagingTag(StepProcess(c, s, p, pick).1.pc);
      tag == None || tag == StagingTag(s.procs[p].pc) || Staging(tag.value) !in s.dir.names
  {
  }

  lemma StepKeepsTags(c: Config, s: State, a: Action, p: Pid, q: Pid)
    requires Intact(s) && Enabled(s, a) && ProcessAlive(s, p) && ProcessAlive(s, q)
    requires ProcessAlive(Apply(c, s, a), p) && ProcessAlive(Apply(c, s, a), q)
    ensures TagsApart(Apply(c, s, a), p, q)
  {
    assert StagingOk(s, p) && StagingOk(s, q) && TagsApart(s, p, q);
    if a.Step? {
      TagIsFresh(c, s, a.pid, a.pick);
      OthersUntouched(c, s, a);
    }
  }

  lemma OthersUntouched(c: Config, s: State, a: Action)
    requires Enabled(s, a)
    ensures Apply(c, s, a).procs.Keys == s.procs.Keys
    ensures forall q <- s.procs :: a.Tick? || a.pid != q ==> Apply(c, s, a).procs[q] == s.procs[q]
  {
  }

  lemma StepKeepsOwnStaging(c: Config, s: State, a: Action)
    requires Intact(s) && Enabled(s, a) && !a.Tick? && ProcessAlive(Apply(c, s, a), a.pid)
    ensures StagingOk(Apply(c, s, a), a.pid)
  {
    assert ProcessAlive(s, a.pid);
  }

  /** Nobody else removes, rebinds or writes the staging file of `q`. */
  lemma OtherStagingUntouched(c: Config, s: State, a: Action, q: Pid)
    requires Intact(s) && a.Step? && Enabled(s, a) && ProcessAlive(s, q) && a.pid != q
    requires StagingTag(s.procs[q].pc).Some?
    ensures
      var n := Staging(StagingTag(s.procs[q].pc).value);
      var t := Apply(c, s, a);
      n in s.dir.names && n in t.dir.names && t.dir.names[n] == s.dir.names[n] &&
          Look(t.dir, s.dir.names[n]) == Look(s.dir, s.dir.names[n])
  {
    assert StagingOk(s, q);
    assert ProcessAlive(s, a.pid) && StagingOk(s, a.pid) && TagsApart(s, a.pid, q);
  }

  /** A name never comes to stand for an inode still being written, unless its writer made it so. */
  lemma TornStaysPrivate(c: Config, s: State, a: Action, ino: Ino, n: Name)
    requires Intact(s) && a.Step? && Enabled(s, a) && ino in s.dir.inodes && Look(s.dir, ino).content == Torn
    requires n in Apply(c, s, a).dir.names && Apply(c, s, a).dir.names[n] == ino
    ensures n in s.dir.names && s.dir.names[n] == ino
  {
    assert ProcessAlive(s, a.pid) && StagingOk(s, a.pid);
  }

  lemma StepKeepsOtherStaging(c: Config, s: State, a: Action, q: Pid, t: State)
    requires Intact(s) && Enabled(s, a) && ProcessAlive(s, q) && (a.Tick? || a.pid != q)
    requires t == Apply(c, s, a) && t.procs[q] == s.procs[q] && Grows(s, t)
    ensures StagingOk(t, q)
  {
    var pc := s.procs[q].pc;
    assert StagingOk(s, q);
    if a.Step? && StagingTag(pc).Some? {
      OtherStagingUntouched(c, s, a, q);
      forall n <- t.dir.names | pc.Writing? && t.dir.names[n] == pc.ino ensures n == Staging(pc.tag) {
        TornStaysPrivate(c, s, a, pc.ino, n);
      }
    }
  }

  lemma StepKeepsOwnReader(c: Config, s: State, a: Action)
    requires Intact(s) && Enabled(s, a) && !a.Tick? && ProcessAlive(Apply(c, s, a), a.pid)
    ensures ReaderOk(Apply(c, s, a), a.pid)
  {
    assert ProcessAlive(s, a.pid);
  }

  /** What a process read stays true, because records and inodes are kept. */
  lemma ReaderFrame(s: State, t: State, q: Pid)
    requires Intact(s) && Grows(s, t) && ProcessAlive(s, q) && t.procs.Keys == s.procs.Keys
    requires t.procs[q] == s.procs[q]
    ensures ReaderOk(t, q)
  {
  }

  lemma StepKeepsProcess(c: Config, s: State, a: Action, q: Pid, t: State)
    requires Intact(s) && Enabled(s, a) && t == Apply(c, s, a) && Grows(s, t) && ProcessAlive(t, q)
    ensures ProcessAlive(s, q) && StagingOk(t, q) && ReaderOk(t, q)
  {
    OthersUntouched(c, s, a);
    if !a.Tick? && a.pid == q {
      StepKeepsOwnStaging(c, s, a);
      StepKeepsOwnReader(c, s, a);
    } else {
      StepKeepsOtherStaging(c, s, a, q, t);
      ReaderFrame(s, t, q);
    }
  }

  lemma StepIntact(c: Config, s: State, a: Action, t: State)
    requires Intact(s) && Enabled(s, a) && t == Apply(c, s, a)
    ensures Intact(t) && Grows(s, t)
  {
    StepGrows(c, s, a);
    StepKeepsLock(c, s, a);
    forall q | ProcessAlive(t, q) ensures ProcessAlive(s, q) && StagingOk(t, q) && ReaderOk(t, q) {
      StepKeepsProcess(c, s, a, q, t);
    }
    forall p, q | ProcessAlive(t, p) && ProcessAlive(t, q) ensures TagsApart(t, p, q) {
      StepKeepsTags(c, s, a, p, q);
    }
  }

  lemma {:induction false} RunIntact(c: Config, states: seq<State>, actions: seq<Action>, k: nat)
    requires Run(c, states, actions) && k < |states|
    ensures Intact(states[k])
  {
    if k == 0 {
      InitIntact(states[0]);
    } else {
      RunIntact(c, states, actions, k - 1);
      StepIntact(c, states[k - 1], actions[k - 1], states[k]);
    }
  }

  lemma {:induction false} RunGrows(c: Config, states: seq<State>, actions: seq<Action>, k: nat, m: nat)
    requires Run(c, states, actions) && k <= m < |states|
    ensures Intact(states[k]) && Grows(states[k], states[m])
  {
    RunIntact(c, states, actions, k);
    if k < m {
      RunGrows(c, states, actions, k, m - 1);
      RunIntact(c, states, actions, m - 1);
      StepIntact(c, states[m - 1], actions[m - 1], states[m]);
    }
  }

  /**
   * Whatever a run does, an existing lock names a holder, and the inode that is the lock at one
   * moment is never written again: not by a later link, nor through a staging name that a crash
   * left linked to it.
   */
  lemma LockIsWholeAndFrozen(c: Config, states: seq<State>, actions: seq<Action>, k: nat, m: nat)
    requires Run(c, states, actions) && k <= m < |states| && LockPath in states[k].dir.names
    ensures
      var ino := states[k].dir.names[LockPath];
      && Look(states[k].dir, ino).content.Complete?
      && Look(states[k].dir, ino).content.owner in states[k].dir.published
      && Look(states[m].dir, ino) == Look(states[k].dir, ino)
  {
    RunGrows(c, states, actions, k, m);
  }

  /** The lock a process links carries that process's own record, from then on. */
  lemma LinkPublishesOwnRecord(c: Config, states: seq<State>, actions: seq<Action>, j: nat, m: nat)
    requires Run(c, states, actions) && j < m < |states| && actions[j].Step?
    requires states[j].procs[actions[j].pid].pc.Linking?
    requires HeldRecord(states[j + 1].procs[actions[j].pid].pc).Some?
    ensures
      var r := states[j].procs[actions[j].pid].pc.record;
      && r.pid == actions[j].pid
      && LockPath !in states[j].dir.names
      && LockContent(states[j + 1].dir) == Some(Complete(r))
      && Look(states[m].dir, states[j + 1].dir.names[LockPath]).content == Complete(r)
  {
    RunIntact(c, states, actions, j);
    assert ProcessAlive(states[j], actions[j].pid);
    LockIsWholeAndFrozen(c, states, actions, j + 1, m);
  }
}
