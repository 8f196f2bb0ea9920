/**
 * Stretches of a run in which processes only go on inside `acquire`, for runs that are written out:
 * taking a free lock, waiting at a taken one, judging it stale, and moving it aside.
 */
module LockLegs {
  import opened Prelude
  import opened FileLock
  import opened LockBlame
  import opened Traces

  /** Which of the events that can be to blame a stretch may show: none, or one of the two windows. */
  datatype Window = NoWindow | Overrun | Unconfirmed

  ghost predicate OnlyBy(window: Window, c: Config, s: State, a: Action) {
    && !RepeatsRecord(s, a)
    && (!window.Unconfirmed? ==> !RenamesUnconfirmed(s, a))
    && (!window.Overrun? ==> !JudgesHolderStale(c, s, a))
  }

  /** A step of a process inside `acquire`, after which it is still there, or has returned with the lock. */
  predicate Inside(c: Config, s: State, a: Action) {
    && a.Step? && Enabled(s, a)
    && !s.procs[a.pid].pc.Idle? && !s.procs[a.pid].pc.Holding?
    && !s.procs[a.pid].pc.Verifying? && !s.procs[a.pid].pc.Removing?
    && !Apply(c, s, a).procs[a.pid].pc.Idle?
  }

  /** A step that a stretch may hold. */
  ghost function Going(window: Window, c: Config): (State, Action, State) -> bool {
    (s: State, a: Action, t: State) => Inside(c, s, a) && OnlyBy(window, c, s, a) && t == Apply(c, s, a)
  }

  type Leg = Trace<State, Action>

  lemma Take(window: Window, c: Config, leg: Leg, a: Action) returns (next: Leg)
    requires leg.Valid(Going(window, c)) && Inside(c, leg.to, a) && OnlyBy(window, c, leg.to, a)
    ensures next.Valid(Going(window, c)) && next.from == leg.from && next.to == Apply(c, leg.to, a)
  {
    next := Extend(Going(window, c), leg, a, Apply(c, leg.to, a));
  }

  /** `p` takes a step in which it neither links, nor judges, nor renames. */
  lemma Plain(window: Window, c: Config, leg: Leg, p: Pid, pick: nat) returns (next: Leg)
    requires leg.Valid(Going(window, c)) && Inside(c, leg.to, Step(p, pick))
    requires var pc := leg.to.procs[p].pc; !pc.Linking? && !pc.Judging? && !pc.Renaming?
    ensures next.Valid(Going(window, c)) && next.from == leg.from && next.to == Apply(c, leg.to, Step(p, pick))
  {
    next := Take(window, c, leg, Step(p, pick));
  }

  function At(s: State, p: Pid): Pc
    requires p in s.procs
  {
    s.procs[p].pc
  }

  /** `p` stages its record under the tag `k`. */
  lemma Stages(window: Window, c: Config, leg: Leg, p: Pid, k: nat) returns (next: Leg)
    requires leg.Valid(Going(window, c)) && ProcessAlive(leg.to, p) && At(leg.to, p).Ready?
    requires Staging(k) !in leg.to.dir.names
    ensures next.Valid(Going(window, c)) && next.from == leg.from
    ensures var s, t := leg.to, next.to;
            var r := Record(p, s.clock);
            && t.clock == s.clock
            && t.procs == s.procs[p := s.procs[p].(pc := Linking(r, k))]
            && t.dir == s.dir.(names := s.dir.names[Staging(k) := s.dir.nextIno],
                               inodes := s.dir.inodes[s.dir.nextIno := Inode(Complete(r), s.clock)],
                               nextIno := s.dir.nextIno + 1)
  {
    next := Plain(window, c, leg, p, k);
    next := Plain(window, c, next, p, k);
    next := Plain(window, c, next, p, k);
  }

  /** `p` stages and links, and holds a lock that was free. */
  lemma Acquires(window: Window, c: Config, leg: Leg, p: Pid, k: nat) returns (next: Leg)
    requires leg.Valid(Going(window, c)) && ProcessAlive(leg.to, p) && At(leg.to, p).Ready?
    requires Staging(k) !in leg.to.dir.names && LockPath !in leg.to.dir.names
    requires Record(p, leg.to.clock) !in leg.to.dir.published
    ensures next.Valid(Going(window, c)) && next.from == leg.from
    ensures var s, t := leg.to, next.to;
            var r := Record(p, s.clock);
            && t.clock == s.clock
            && t.procs == s.procs[p := s.procs[p].(pc := Cleaning(r, k, true))]
            && LockContent(t.dir) == Some(Complete(r))
            && t.dir.names.Keys == s.dir.names.Keys + {Staging(k), LockPath}
            && t.dir.published == s.dir.published + {r} && t.dir.names[LockPath] < t.dir.nextIno
  {
    next := Stages(window, c, leg, p, k);
    next := Take(window, c, next, Step(p, k));
  }

  /** The staging name is gone, and `p` has returned from acquire. */
  lemma Returns(window: Window, c: Config, leg: Leg, p: Pid, r: Record, k: nat) returns (next: Leg)
    requires leg.Valid(Going(window, c)) && ProcessAlive(leg.to, p) && At(leg.to, p) == Cleaning(r, k, true)
    requires LockContent(leg.to.dir) == Some(Complete(r))
    ensures next.Valid(Going(window, c)) && next.from == leg.from
    ensures var s, t := leg.to, next.to;
            && t.clock == s.clock
            && t.procs == s.procs[p := s.procs[p].(pc := Holding(r))]
            && LockContent(t.dir) == Some(Complete(r)) && t.dir.names.Keys == s.dir.names.Keys - {Staging(k)}
            && t.dir.published == s.dir.published
            && t.dir.names[LockPath] == s.dir.names[LockPath] && t.dir.nextIno == s.dir.nextIno
  {
    next := Plain(window, c, leg, p, 0);
  }

  /** `p` stages, and finds the lock taken. */
  lemma FindsTaken(window: Window, c: Config, leg: Leg, p: Pid, k: nat) returns (next: Leg)
    requires leg.Valid(Going(window, c)) && ProcessAlive(leg.to, p) && At(leg.to, p).Ready?
    requires Staging(k) !in leg.to.dir.names && LockPath in leg.to.dir.names
    ensures next.Valid(Going(window, c)) && next.from == leg.from
    ensures var s, t := leg.to, next.to;
            var r := Record(p, s.clock);
            && t.clock == s.clock
            && t.procs == s.procs[p := s.procs[p].(pc := Cleaning(r, k, false))]
            && t.dir == s.dir.(names := s.dir.names[Staging(k) := s.dir.nextIno],
                               inodes := s.dir.inodes[s.dir.nextIno := Inode(Complete(r), s.clock)],
                               nextIno := s.dir.nextIno + 1)
  {
    next := Stages(window, c, leg, p, k);
    next := Take(window, c, next, Step(p, k));
  }

  /** It clears away what it staged, and starts to wait. */
  lemma Waits(window: Window, c: Config, leg: Leg, p: Pid, k: nat) returns (next: Leg)
    requires leg.Valid(Going(window, c)) && ProcessAlive(leg.to, p) && At(leg.to, p).Ready?
    requires Staging(k) !in leg.to.dir.names && LockContent(leg.to.dir).Some? &&
             leg.to.clock <= leg.to.procs[p].deadline
    requires leg.to.dir.names[LockPath] < leg.to.dir.nextIno
    ensures next.Valid(Going(window, c)) && next.from == leg.from
    ensures var s, t := leg.to, next.to;
            && t.clock == s.clock
            && t.procs == s.procs[p := s.procs[p].(pc := Inspecting)]
            && t.dir.names == s.dir.names && LockContent(t.dir) == LockContent(s.dir)
            && t.dir.published == s.dir.published && t.dir.nextIno > s.dir.nextIno
  {
    next := FindsTaken(window, c, leg, p, k);
    next := Plain(window, c, next, p, k);
    next := Plain(window, c, next, p, k);
    assert next.to.dir.names == leg.to.dir.names;
  }

  /** `p` reads the record in the lock, and asks whether its owner lives. */
  lemma Judged(window: Window, c: Config, leg: Leg, p: Pid, owner: Record) returns (next: Leg)
    requires leg.Valid(Going(window, c)) && ProcessAlive(leg.to, p) && At(leg.to, p).Inspecting?
    requires LockContent(leg.to.dir) == Some(Complete(owner))
    ensures next.Valid(Going(window, c)) && next.from == leg.from
    ensures var s, t := leg.to, next.to;
            && t.clock == s.clock && t.dir == s.dir
            && t.procs == s.procs[p := s.procs[p].(
                            pc := Judging(Look(s.dir, s.dir.names[LockPath]), ProcessAlive(s, owner.pid)))]
  {
    next := Plain(window, c, leg, p, 0);
    next := Plain(window, c, next, p, 0);
    next := Plain(window, c, next, p, 0);
  }

  predicate IsStale(window: Window, c: Config, s: State, owner: Record) {
    if window.Overrun? then s.clock - owner.acquiredAt > c.staleMs else !ProcessAlive(s, owner.pid)
  }

  /** `p` judges the record in the lock stale. */
  lemma Judges(window: Window, c: Config, leg: Leg, p: Pid, owner: Record) returns (next: Leg)
    requires leg.Valid(Going(window, c)) && ProcessAlive(leg.to, p) && At(leg.to, p).Inspecting?
    requires LockContent(leg.to.dir) == Some(Complete(owner)) && IsStale(window, c, leg.to, owner)
    ensures next.Valid(Going(window, c)) && next.from == leg.from
    ensures var s, t := leg.to, next.to;
            && t.clock == s.clock && t.dir == s.dir
            && t.procs == s.procs[p := s.procs[p].(pc := Confirming(Look(s.dir, s.dir.names[LockPath])))]
  {
    next := Judged(window, c, leg, p, owner);
    next := Take(window, c, next, Step(p, 0));
  }

  /** It confirms that, and is about to rename. */
  lemma Condemns(window: Window, c: Config, leg: Leg, p: Pid, owner: Record) returns (next: Leg)
    requires leg.Valid(Going(window, c)) && ProcessAlive(leg.to, p) && At(leg.to, p).Inspecting?
    requires LockContent(leg.to.dir) == Some(Complete(owner)) && IsStale(window, c, leg.to, owner)
    ensures next.Valid(Going(window, c)) && next.from == leg.from
    ensures var s, t := leg.to, next.to;
            && t.clock == s.clock && t.dir == s.dir
            && t.procs == s.procs[p := s.procs[p].(pc := Renaming(Complete(owner)))]
  {
    next := Judges(window, c, leg, p, owner);
    next := Plain(window, c, next, p, 0);
    next := Plain(window, c, next, p, 0);
  }

  /** `p` moves the lock aside, discards it, and goes back to try for the lock. */
  lemma Evicts(window: Window, c: Config, leg: Leg, p: Pid, k: nat) returns (next: Leg)
    requires leg.Valid(Going(window, c)) && ProcessAlive(leg.to, p) && At(leg.to, p).Renaming?
    requires LockPath in leg.to.dir.names && Quarantine(k) !in leg.to.dir.names
    requires !window.Unconfirmed? ==> LockContent(leg.to.dir) == Some(At(leg.to, p).confirmed)
    ensures next.Valid(Going(window, c)) && next.from == leg.from
    ensures var s, t := leg.to, next.to;
            && t.clock == s.clock
            && t.procs == s.procs[p := s.procs[p].(pc := Ready)]
            && t.dir.names.Keys == s.dir.names.Keys - {LockPath}
            && t.dir.published == s.dir.published
  {
    next := Take(window, c, leg, Step(p, k));
    next := Plain(window, c, next, p, k);
  }

  /** All of it: `p` waits, condemns the owner that the lock names, frees the lock and takes it. */
  lemma TakesOver(window: Window, c: Config, leg: Leg, p: Pid, owner: Record, k: nat) returns (next: Leg)
    requires !window.Unconfirmed? && leg.Valid(Going(window, c)) && ProcessAlive(leg.to, p) && At(leg.to, p).Ready?
    requires LockContent(leg.to.dir) == Some(Complete(owner)) && leg.to.clock <= leg.to.procs[p].deadline
    requires leg.to.dir.names[LockPath] < leg.to.dir.nextIno
    requires Staging(k) !in leg.to.dir.names && Quarantine(k) !in leg.to.dir.names
    requires IsStale(window, c, leg.to, owner)
    requires Record(p, leg.to.clock) !in leg.to.dir.published
    ensures next.Valid(Going(window, c)) && next.from == leg.from
    ensures next.to.clock == leg.to.clock
    ensures next.to.procs == leg.to.procs[p := leg.to.procs[p].(pc := Holding(Record(p, leg.to.clock)))]
  {
    next := Waits(window, c, leg, p, k);
    next := Condemns(window, c, next, p, owner);
    next := Evicts(window, c, next, p, k);
    next := Acquires(window, c, next, p, k);
    next := Returns(window, c, next, p, Record(p, leg.to.clock), k);
  }

  /** And the other case: the lock is free, and `p` takes it. */
  lemma TakesFree(window: Window, c: Config, leg: Leg, p: Pid, k: nat) returns (next: Leg)
    requires leg.Valid(Going(window, c)) && ProcessAlive(leg.to, p) && At(leg.to, p).Ready?
    requires Staging(k) !in leg.to.dir.names && LockPath !in leg.to.dir.names
    requires Record(p, leg.to.clock) !in leg.to.dir.published
    ensures next.Valid(Going(window, c)) && next.from == leg.from
    ensures var s, t := leg.to, next.to;
            var r := Record(p, s.clock);
            && t.clock == s.clock
            && t.procs == s.procs[p := s.procs[p].(pc := Holding(r))]
            && LockContent(t.dir) == Some(Complete(r)) && t.dir.names[LockPath] < t.dir.nextIno
            && t.dir.names.Keys == s.dir.names.Keys + {LockPath} && t.dir.published == s.dir.published + {r}
  {
    next := Acquires(window, c, leg, p, k);
    next := Returns(window, c, next, p, Record(p, leg.to.clock), k);
  }
}
