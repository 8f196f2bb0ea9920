/**
 * The lock file protocol of libs/scripts/src/prisma-generate/lock.js, as a transition system.
 *
 * Every system call is one step. A state holds the directory (names to inodes), the inodes, a
 * clock that never goes back, and one program counter per process. A process may be killed
 * between any two steps, and may abandon a call with an I/O error at any of them.
 */
module FileLock {
  import opened Prelude

  type Pid = nat
  type Ino = nat

  /** What a holder writes into the lock: `{ pid, acquiredAt }`. */
  datatype Record = Record(pid: Pid, acquiredAt: int)

  /**
   * A name in the lock's directory. `scratchPath` makes the last two kinds. The tag is chosen by
   * the scheduler, so nothing below rests on the names being unguessable.
   */
  datatype Name = LockPath | Staging(tag: nat) | Quarantine(tag: nat)

  /** `Torn` is a file created but not yet written: it parses to no owner. */
  datatype Content = Torn | Complete(owner: Record)
  datatype Inode = Inode(content: Content, mtime: int)

  /** Where a process stands: between which two system calls, and with which locals. */
  datatype Pc =
    | Idle
    | Ready                                              // about to call tryAcquire
    | Creating(record: Record, attempts: nat)            // about to open a staging name with 'wx'
    | Writing(record: Record, tag: nat, ino: Ino)        // about to write the record
    | Linking(record: Record, tag: nat)                  // about to link staging to the lock
    | Cleaning(record: Record, tag: nat, linked: bool)   // about to remove the staging name
    | Holding(record: Record)                            // acquire() has returned
    | Polling                                            // tryAcquire failed; deadline not yet read
    | Inspecting                                         // about to open the lock
    | Observing(ino: Ino)                                // lock open, about to read it
    | Probing(seen: Inode)                               // about to ask whether the owner lives
    | Judging(seen: Inode, ownerAlive: bool)             // about to read the clock and judge
    | Confirming(seen: Inode)                            // judged stale, about to open again
    | Rereading(seen: Inode, ino: Ino)                   // open, about to read again
    | Renaming(confirmed: Content)                       // about to move the lock aside
    | Discarding(tag: nat)                               // about to remove what was moved aside
    | Sleeping                                           // about to wait one poll interval
    | Verifying(record: Record, ino: Ino)                // release(): lock open, about to read it
    | Removing(record: Record)                           // release(): about to remove the lock

  datatype Process = Process(alive: bool, deadline: int, pc: Pc)

  datatype Dir = Dir(
    names: map<Name, Ino>,
    inodes: map<Ino, Inode>,
    nextIno: Ino,
    published: set<Record>)  // every record a link has made the lock

  datatype State = State(clock: int, dir: Dir, procs: map<Pid, Process>)

  datatype Config = Config(timeoutMs: int, staleMs: int, graceMs: int)

  /** What `assertReclaimIsReachable` demands of a configuration. */
  predicate ReclaimIsReachable(c: Config) {
    c.staleMs < c.timeoutMs
  }

  const STAGING_ATTEMPTS: nat := 5

  /** `pick` is the tag of a scratch name, where the step makes one. */
  datatype Action =
    | Tick(ms: nat)
    | Crash(pid: Pid)
    | Throw(pid: Pid)
    | Step(pid: Pid, pick: nat)

  predicate Enabled(s: State, a: Action) {
    a.Tick? || (a.pid in s.procs && s.procs[a.pid].alive)
  }

  function Look(d: Dir, ino: Ino): Inode {
    if ino in d.inodes then d.inodes[ino] else Inode(Torn, 0)
  }

  /** What a reader of the lock would find in it now. */
  function LockContent(d: Dir): Option<Content> {
    if LockPath in d.names then Some(Look(d, d.names[LockPath]).content) else None
  }

  predicate ProcessAlive(s: State, pid: Pid) {
    pid in s.procs && s.procs[pid].alive
  }

  /** `holderIsStale`, with the liveness probe made at an earlier step. */
  predicate HolderIsStale(c: Config, clock: int, seen: Inode, ownerAlive: bool) {
    match seen.content
    case Torn => clock - seen.mtime > c.graceMs
    case Complete(owner) => !ownerAlive || clock - owner.acquiredAt > c.staleMs
  }

  function Apply(c: Config, s: State, a: Action): State
    requires Enabled(s, a)
  {
    match a
    case Tick(ms) => s.(clock := s.clock + ms)
    case Crash(p) => s.(procs := s.procs[p := s.procs[p].(alive := false)])
    case Throw(p) => s.(procs := s.procs[p := s.procs[p].(pc := Idle)])
    case Step(p, pick) =>
      var (dir, process) := StepProcess(c, s, p, pick);
      s.(dir := dir, procs := s.procs[p := process])
  }

  /** The next system call of a live process: what it leaves in the directory, and where. */
  function StepProcess(c: Config, s: State, p: Pid, pick: nat): (Dir, Process)
    requires p in s.procs
  {
    var d, me := s.dir, s.procs[p];
    match me.pc
    case Idle =>
      (d, me.(deadline := s.clock + c.timeoutMs, pc := Ready))
    case Ready =>
      (d, me.(pc := Creating(Record(p, s.clock), 0)))
    case Creating(r, attempts) =>
      if Staging(pick) in d.names then
        (d, me.(pc := if attempts + 1 == STAGING_ATTEMPTS then Idle else Creating(r, attempts + 1)))
      else
        (d.(names := d.names[Staging(pick) := d.nextIno],
            inodes := d.inodes[d.nextIno := Inode(Torn, s.clock)],
            nextIno := d.nextIno + 1),
         me.(pc := Writing(r, pick, d.nextIno)))
    case Writing(r, tag, ino) =>
      (d.(inodes := d.inodes[ino := Inode(Complete(r), s.clock)]), me.(pc := Linking(r, tag)))
    case Linking(r, tag) =>
      if Staging(tag) !in d.names then (d, me.(pc := Idle))
      else if LockPath in d.names then (d, me.(pc := Cleaning(r, tag, false)))
      else
        (d.(names := d.names[LockPath := d.names[Staging(tag)]], published := d.published + {r}),
         me.(pc := Cleaning(r, tag, true)))
    case Cleaning(r, tag, linked) =>
      (d.(names := d.names - {Staging(tag)}), me.(pc := if linked then Holding(r) else Polling))
    case Holding(r) =>
      (d, me.(pc := if LockPath in d.names then Verifying(r, d.names[LockPath]) else Idle))
    case Verifying(r, ino) =>
      (d, me.(pc := if Look(d, ino).content == Complete(r) then Removing(r) else Idle))
    case Removing(r) =>
      (d.(names := d.names - {LockPath}), me.(pc := Idle))
    case Polling =>
      (d, me.(pc := if s.clock > me.deadline then Idle else Inspecting))
    case Inspecting =>
      (d, me.(pc := if LockPath in d.names then Observing(d.names[LockPath]) else Sleeping))
    case Observing(ino) =>
      (d, me.(pc := Probing(Look(d, ino))))
    case Probing(seen) =>
      (d, me.(pc := Judging(seen, seen.content.Complete? && ProcessAlive(s, seen.content.owner.pid))))
    case Judging(seen, ownerAlive) =>
      (d, me.(pc := if HolderIsStale(c, s.clock, seen, ownerAlive) then Confirming(seen) else Sleeping))
    case Confirming(seen) =>
      (d, me.(pc := if LockPath in d.names then Rereading(seen, d.names[LockPath]) else Sleeping))
    case Rereading(seen, ino) =>
      (d, me.(pc := if Look(d, ino).content == seen.content then Renaming(seen.content) else Sleeping))
    case Renaming(_) =>
      if LockPath !in d.names then (d, me.(pc := Sleeping))
      else
        (d.(names := d.names[Quarantine(pick) := d.names[LockPath]] - {LockPath}), me.(pc := Discarding(pick)))
    case Discarding(tag) =>
      (d.(names := d.names - {Quarantine(tag)}), me.(pc := Ready))
    case Sleeping =>
      (d, me.(pc := Ready))
  }

  /** The name that a process tries for its staging file exists. */
  predicate NameTaken(s: State, a: Action) {
    a.Step? && ProcessAlive(s, a.pid) && s.procs[a.pid].pc.Creating? && Staging(a.pick) in s.dir.names
  }

  /** A link finds a lock in its way. */
  predicate LinkRefused(s: State, a: Action) {
    && a.Step? && ProcessAlive(s, a.pid) && s.procs[a.pid].pc.Linking?
    && Staging(s.procs[a.pid].pc.tag) in s.dir.names && LockPath in s.dir.names
  }

  /** A link does not find its staging file. */
  predicate StagingLost(s: State, a: Action) {
    a.Step? && ProcessAlive(s, a.pid) && s.procs[a.pid].pc.Linking? && Staging(s.procs[a.pid].pc.tag) !in s.dir.names
  }

  /** The clock shows a waiter that its deadline has passed. */
  predicate FoundLate(s: State, a: Action) {
    a.Step? && ProcessAlive(s, a.pid) && s.procs[a.pid].pc.Polling? && s.clock > s.procs[a.pid].deadline
  }

  /** A step at which `acquire` throws of itself: the fifth staging name taken, its staging file gone, or too late. */
  predicate GivesUp(s: State, a: Action) {
    (NameTaken(s, a) && s.procs[a.pid].pc.attempts + 1 == STAGING_ATTEMPTS) || StagingLost(s, a) || FoundLate(s, a)
  }

  /** The record `p` holds the lock under: from its link to the end of its release. */
  function HeldRecord(pc: Pc): Option<Record> {
    match pc
    case Cleaning(r, _, linked) => if linked then Some(r) else None
    case Holding(r) => Some(r)
    case Verifying(r, _) => Some(r)
    case Removing(r) => Some(r)
    case _ => None
  }

  /** How many steps `release` has left. */
  function ReleaseStepsLeft(pc: Pc): nat {
    match pc
    case Holding(_) => 3
    case Verifying(_, _) => 2
    case Removing(_) => 1
    case _ => 0
  }

  predicate Holds(s: State, p: Pid) {
    ProcessAlive(s, p) && HeldRecord(s.procs[p].pc).Some?
  }

  predicate HeldAs(s: State, r: Record) {
    ProcessAlive(s, r.pid) && HeldRecord(s.procs[r.pid].pc) == Some(r)
  }

  /**
   * The start: every process idle. Files of earlier runs may lie about, and a lock among them,
   * whose record is then already published.
   */
  predicate Init(s: State) {
    && (forall p <- s.procs :: s.procs[p].pc == Idle)
    && (forall n <- s.dir.names :: s.dir.names[n] in s.dir.inodes)
    && (forall i <- s.dir.inodes :: i < s.dir.nextIno)
    && (LockPath in s.dir.names ==>
          var content := Look(s.dir, s.dir.names[LockPath]).content;
          content.Complete? && content.owner in s.dir.published)
  }

  /** `states` is what the system goes through when `actions` are taken one after another. */
  ghost predicate Run(c: Config, states: seq<State>, actions: seq<Action>) {
    && |states| == |actions| + 1
    && Init(states[0])
    && forall i :: 0 <= i < |actions| ==>
        Enabled(states[i], actions[i]) && states[i + 1] == Apply(c, states[i], actions[i])
  }
}
