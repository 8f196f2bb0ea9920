/**
 * When a lock is taken away (lock.js, `freeIfStale`, `holderIsStale` and `release`): from its holder
 * never on less than two reads of the same holder and a judgement between them, and at once when that
 * one is dead; by a release never but after it read its own record.
 */
module LockReclaim {
  import opened Prelude
  import opened FileLock
  import opened LockIntegrity
  import opened LockWaiter

  /** At `i`, `p` read `seen` through the lock it had opened. */
  predicate ReadAt(states: seq<State>, actions: seq<Action>, p: Pid, i: nat, seen: Inode) {
    && i < |actions| && i < |states| && actions[i].Step? && actions[i].pid == p && p in states[i].procs
    && states[i].procs[p].pc.Observing?
    && Look(states[i].dir, states[i].procs[p].pc.ino) == seen
  }

  /** At `i`, `p` asked whether the owner of what it had read lives, and was told `alive`. */
  predicate ProbedAt(states: seq<State>, actions: seq<Action>, p: Pid, i: nat, seen: Inode, alive: bool) {
    && i < |actions| && i < |states| && actions[i].Step? && actions[i].pid == p && p in states[i].procs
    && states[i].procs[p].pc == Probing(seen)
    && alive == (seen.content.Complete? && ProcessAlive(states[i], seen.content.owner.pid))
  }

  /** At `i`, the clock showed that who had been read is to be reclaimed. */
  predicate CondemnedAt(c: Config, states: seq<State>, actions: seq<Action>, p: Pid, i: nat, seen: Inode, alive: bool) {
    && i < |actions| && i < |states| && actions[i].Step? && actions[i].pid == p
    && match seen.content
       case Torn => states[i].clock - seen.mtime > c.graceMs
       case Complete(owner) => !alive || states[i].clock - owner.acquiredAt > c.staleMs
  }

  /** At `i`, `p` read the lock once more, and found the same holder. */
  predicate ConfirmedAt(states: seq<State>, actions: seq<Action>, p: Pid, i: nat, seen: Inode) {
    && i < |actions| && i < |states| && actions[i].Step? && actions[i].pid == p && p in states[i].procs
    && states[i].procs[p].pc.Rereading?
    && Look(states[i].dir, states[i].procs[p].pc.ino).content == seen.content
  }

  /** At `i`, holding the lock under `r`, `p` opened the lock and found that inode. */
  predicate OpenedAt(states: seq<State>, actions: seq<Action>, p: Pid, i: nat, r: Record, ino: Ino) {
    && i < |actions| && i < |states| && actions[i].Step? && actions[i].pid == p && p in states[i].procs
    && states[i].procs[p].pc == Holding(r)
    && LockPath in states[i].dir.names && states[i].dir.names[LockPath] == ino
  }

  /** Opened, and at `i` read as its own. */
  ghost predicate Recognized(states: seq<State>, actions: seq<Action>, p: Pid, k: nat, r: Record) {
    exists o, i, ino ::
      && 0 <= o < i < k && OpenedAt(states, actions, p, o, r, ino)
      && i < |actions| && i < |states| && actions[i].Step? && actions[i].pid == p
      && Look(states[i].dir, ino).content == Complete(r)
  }

  /** What `p` has done before `k` on its way to where it stands. */
  ghost predicate Story(c: Config, states: seq<State>, actions: seq<Action>, p: Pid, k: nat)
    requires k < |states| && p in states[k].procs
  {
    match states[k].procs[p].pc
    case Probing(seen) => exists r :: 0 <= r < k && ReadAt(states, actions, p, r, seen)
    case Judging(seen, alive) =>
      exists r, q ::
        0 <= r < q < k && ReadAt(states, actions, p, r, seen) && ProbedAt(states, actions, p, q, seen, alive)
    case Confirming(seen) => Condemned(c, states, actions, p, k, seen)
    case Rereading(seen, _) => Condemned(c, states, actions, p, k, seen)
    case Renaming(confirmed) => Confirmed(c, states, actions, p, k, confirmed)
    case Verifying(r, ino) => exists o :: 0 <= o < k && OpenedAt(states, actions, p, o, r, ino)
    case Removing(r) => Recognized(states, actions, p, k, r)
    case _ => true
  }

  /** Read, probed, and judged stale. */
  ghost predicate Condemned(c: Config, states: seq<State>, actions: seq<Action>, p: Pid, k: nat, seen: Inode) {
    exists r, q, j, alive ::
      && 0 <= r < q < j < k && ReadAt(states, actions, p, r, seen)
      && ProbedAt(states, actions, p, q, seen, alive) && CondemnedAt(c, states, actions, p, j, seen, alive)
  }

  /** And read again. */
  ghost predicate Confirmed(c: Config, states: seq<State>, actions: seq<Action>, p: Pid, k: nat, content: Content) {
    exists i, seen: Inode ::
      0 <= i < k && seen.content == content && Condemned(c, states, actions, p, i, seen) &&
      ConfirmedAt(states, actions, p, i, seen)
  }

  lemma OwnStory(c: Config, states: seq<State>, actions: seq<Action>, p: Pid, k: nat)
    requires Run(c, states, actions) && k < |actions| && p in states[k].procs && p in states[k + 1].procs
    requires Story(c, states, actions, p, k)
    ensures Story(c, states, actions, p, k + 1)
  {
    OthersUntouched(c, states[k], actions[k]);
    var pc, next := states[k].procs[p].pc, states[k + 1].procs[p].pc;
    if pc == next {
    } else if next.Probing? {
      assert ReadAt(states, actions, p, k, next.seen);
    } else if next.Judging? {
      assert ProbedAt(states, actions, p, k, next.seen, next.ownerAlive);
    } else if next.Confirming? {
      assert CondemnedAt(c, states, actions, p, k, next.seen, pc.ownerAlive);
    } else if next.Renaming? {
      assert ConfirmedAt(states, actions, p, k, pc.seen);
    } else if next.Verifying? {
      assert OpenedAt(states, actions, p, k, next.record, next.ino);
    }
  }

  lemma {:induction false} EveryStory(c: Config, states: seq<State>, actions: seq<Action>, p: Pid, k: nat)
    requires Run(c, states, actions) && k < |states| && p in states[k].procs
    ensures Story(c, states, actions, p, k)
    decreases k
  {
    if k > 0 {
      OthersUntouched(c, states[k - 1], actions[k - 1]);
      EveryStory(c, states, actions, p, k - 1);
      OwnStory(c, states, actions, p, k - 1);
    }
  }

  /**
   * No lock is moved aside but on this evidence: the mover read a holder, found it dead or out of
   * time (or unreadable, and past the grace period), and then read the same holder again.
   */
  lemma ReclaimIsJustified(c: Config, states: seq<State>, actions: seq<Action>, k: nat)
    requires Run(c, states, actions) && k < |actions| && actions[k].Step? && actions[k].pid in states[k].procs
    requires states[k].procs[actions[k].pid].pc.Renaming?
    ensures var p := actions[k].pid; Confirmed(c, states, actions, p, k, states[k].procs[p].pc.confirmed)
  {
    EveryStory(c, states, actions, actions[k].pid, k);
  }

  /** And no release removes a lock but after it opened one and read its own record in it. */
  lemma RemovalIsGuarded(c: Config, states: seq<State>, actions: seq<Action>, k: nat)
    requires Run(c, states, actions) && k < |actions| && actions[k].Step? && actions[k].pid in states[k].procs
    requires states[k].procs[actions[k].pid].pc.Removing?
    ensures var p := actions[k].pid; Recognized(states, actions, p, k, states[k].procs[p].pc.record)
  {
    EveryStory(c, states, actions, actions[k].pid, k);
  }

  // ---- a dead holder's lock is there for the taking ----

  /** For a waiter with a dead holder's lock in its way: the steps it needs to hold the lock. */
  function PastTheDead(s: State, p: Pid, r: Record): (left: Option<nat>)
    requires p in s.procs
    ensures left.Some? ==> left.value <= 19
  {
    if LockContent(s.dir) != Some(Complete(r)) then ToTheLock(s, p)
    else
      match s.procs[p].pc
      case Ready => Some(19)
      case Creating(_, _) => Some(18)
      case Writing(_, _, _) => Some(17)
      case Linking(_, _) => Some(16)
      case Cleaning(_, _, linked) => if linked then Some(1) else Some(15)
      case Polling => Some(14)
      case Inspecting => Some(13)
      case Observing(ino) => if ino == s.dir.names[LockPath] then Some(12) else None
      case Probing(seen) => if seen.content == Complete(r) then Some(11) else None
      case Judging(seen, alive) => if seen.content == Complete(r) && !alive then Some(10) else None
      case _ => ToTheLock(s, p)
  }

  lemma NearsPastTheDead(c: Config, s: State, a: Action, p: Pid, r: Record)
    requires Intact(s) && Enabled(s, a) && ProcessAlive(s, p) && !ProcessAlive(s, r.pid)
    requires a.Tick? || (a.Step? && a.pid == p && Staging(a.pick) !in s.dir.names)
    requires s.clock <= s.procs[p].deadline
    requires PastTheDead(s, p, r).Some? && PastTheDead(s, p, r).value > 0
    ensures
      var t := Apply(c, s, a);
      && ProcessAlive(t, p) && !ProcessAlive(t, r.pid) && t.procs[p].deadline == s.procs[p].deadline
      && PastTheDead(t, p, r).Some? && PastTheDead(t, p, r).value + OwnStep(a, p) == PastTheDead(s, p, r).value
  {
    assert StagingOk(s, p);
    OthersUntouched(c, s, a);
    if ToTheLock(s, p).Some? {
      NearsTheLock(c, s, a, p);
    }
  }

  lemma {:induction false} ComesPastTheDead(
      c: Config, states: seq<State>, actions: seq<Action>, p: Pid, k: nat, n: nat, r: Record)
    requires Run(c, states, actions) && k <= n < |states| && ProcessAlive(states[k], p)
    requires !ProcessAlive(states[k], r.pid) && PastTheDead(states[k], p, r).Some?
    requires Alone(states, actions, p, k) && states[n].clock <= states[k].procs[p].deadline
    requires OwnSteps(actions[k..n], p) >= PastTheDead(states[k], p, r).value
    ensures exists j :: k <= j <= n && p in states[j].procs && states[j].procs[p].pc.Holding?
    decreases n - k
  {
    if PastTheDead(states[k], p, r).value > 0 {
      assert actions[k..n] != [];
      assert actions[k..n][1..] == actions[k + 1..n];
      var a := actions[k];
      assert a.Tick? || (a.Step? && a.pid == p && Staging(a.pick) !in states[k].dir.names);
      RunIntact(c, states, actions, k);
      RunGrows(c, states, actions, k, n);
      NearsPastTheDead(c, states[k], a, p, r);
      ComesPastTheDead(c, states, actions, p, k + 1, n, r);
    }
  }

  /**
   * A lone waiter takes a dead holder's lock within nineteen steps of its own, as long as they end
   * before its deadline: however recent the lock is, and without sleeping once.
   */
  lemma DeadHoldersLockIsTaken(c: Config, states: seq<State>, actions: seq<Action>, p: Pid, k: nat, n: nat, r: Record)
    requires Run(c, states, actions) && k <= n < |states| && ProcessAlive(states[k], p)
    requires states[k].procs[p].pc == Ready && LockContent(states[k].dir) == Some(Complete(r))
    requires !ProcessAlive(states[k], r.pid)
    requires Alone(states, actions, p, k) && states[n].clock <= states[k].procs[p].deadline
    requires OwnSteps(actions[k..n], p) >= 19
    ensures exists j :: k <= j <= n && p in states[j].procs && states[j].procs[p].pc.Holding?
  {
    ComesPastTheDead(c, states, actions, p, k, n, r);
  }
}
