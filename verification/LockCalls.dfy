/**
 * The lock's own code, call by call: `stage`, `tryAcquire`, `freeIfStale`, `acquire` and
 * `release` of lock.js on a machine that other processes share. Before each system call any
 * number of steps of the others may happen. Each method is proved to take exactly the steps of
 * the transition system, so what is proved of its runs holds of this code.
 */
module LockCalls {
  import opened Prelude
  import opened FileLock
  import opened LockIntegrity
  import opened LockBlame

  /** At these moments of the run, from `from` on and one after another, `me` took a step to which `what` happened. */
  ghost predicate Befell(states: seq<State>, actions: seq<Action>, me: Pid, what: (State, Action) -> bool, from: nat,
                         moments: seq<nat>)
  {
    && |states| == |actions| + 1
    && (forall i :: 0 <= i < |moments| ==>
          && from <= moments[i] < |actions| && actions[moments[i]].Step? && actions[moments[i]].pid == me
          && what(states[moments[i]], actions[moments[i]]))
    && forall i, j :: 0 <= i < j < |moments| ==> moments[i] < moments[j]
  }

  /** It stays in the record of a run that goes on. */
  lemma BefellBefore(c: Config, was: seq<State>, did: seq<Action>, states: seq<State>, actions: seq<Action>, me: Pid,
                     what: (State, Action) -> bool, from: nat, since: nat, moments: seq<nat>)
    requires Befell(was, did, me, what, from, moments) && was <= states && did <= actions
    requires Run(c, states, actions) && since <= from
    ensures Befell(states, actions, me, what, since, moments)
  {
    forall i | 0 <= i < |moments| ensures what(states[moments[i]], actions[moments[i]]) {
      assert states[moments[i]] == was[moments[i]] && actions[moments[i]] == did[moments[i]];
    }
  }

  lemma BefellNext(c: Config, was: seq<State>, did: seq<Action>, states: seq<State>, actions: seq<Action>, me: Pid,
                   what: (State, Action) -> bool, from: nat, moments: seq<nat>, moment: nat)
    requires Befell(was, did, me, what, from, moments) && was <= states && did <= actions
    requires Run(c, states, actions) && from <= |did| && Befell(states, actions, me, what, |did|, [moment])
    ensures Befell(states, actions, me, what, from, moments + [moment])
  {
    BefellBefore(c, was, did, states, actions, me, what, from, from, moments);
    assert [moment][0] == moment;
  }

  lemma BefellLast(c: Config, states: seq<State>, actions: seq<Action>, me: Pid, what: (State, Action) -> bool,
                   from: nat)
    requires Run(c, states, actions) && from < |actions|
    requires actions[|actions| - 1].Step? && actions[|actions| - 1].pid == me
    requires what(states[|actions| - 1], actions[|actions| - 1])
    ensures Befell(states, actions, me, what, from, [|actions| - 1])
  {
  }

  lemma NothingBefell(c: Config, states: seq<State>, actions: seq<Action>, me: Pid, what: (State, Action) -> bool,
                      from: nat)
    requires Run(c, states, actions)
    ensures Befell(states, actions, me, what, from, [])
  {
  }

  /** The machine: the directory, the clock and everybody's place, with the run so far. */
  class World {
    const config: Config
    var clock: int
    var dir: Dir
    var procs: map<Pid, Process>
    ghost var states: seq<State>
    ghost var actions: seq<Action>

    function Now(): State
      reads this
    {
      State(clock, dir, procs)
    }

    /** The run so far is one of the transition system, and ends in `Now()`. */
    ghost predicate Valid()
      reads this
    {
      Run(config, states, actions) && states[|actions|] == Now()
    }

    ghost predicate Lives(me: Pid)
      reads this
    {
      Valid() && ProcessAlive(Now(), me)
    }

    /**
     * `me` has made a system call that its program counter does not show yet: the directory may
     * differ from the last state of the run, and nothing else does.
     */
    ghost predicate MidCall(me: Pid)
      reads this
    {
      && Run(config, states, actions)
      && ProcessAlive(states[|actions|], me)
      && clock == states[|actions|].clock
      && procs == states[|actions|].procs
    }

    /** The run has only been added to, by others, and `me` stands where it stood. */
    twostate predicate Continues(me: Pid)
      reads this
    {
      && old(states) <= states && old(actions) <= actions && old(clock) <= clock
      && (forall i :: |old(actions)| <= i < |actions| ==> actions[i].Tick? || actions[i].pid != me)
      && me in old(procs) && me in procs && procs[me] == old(procs)[me]
    }

    constructor (config: Config, s: State)
      requires Init(s)
      ensures Valid() && Now() == s && actions == [] && this.config == config
    {
      this.config := config;
      clock, dir, procs := s.clock, s.dir, s.procs;
      states, actions := [s], [];
    }

    /** Any number of steps of the clock and of processes other than `me`. */
    method Interfere(me: Pid)
      requires Lives(me)
      modifies this
      ensures Lives(me) && Continues(me)
    {
      var steps: nat :| true;
      for k := 0 to steps
        invariant Lives(me) && Continues(me)
      {
        assert Enabled(Now(), Tick(0));
        var a: Action :| Enabled(Now(), a) && (a.Tick? || a.pid != me);
        OthersUntouched(config, Now(), a);
        var t := Apply(config, Now(), a);
        clock, dir, procs := t.clock, t.dir, t.procs;
        states, actions := states + [t], actions + [a];
      }
    }

    /** `me` moves its program counter: the call it made is the step the transition system takes. */
    method Settle(me: Pid, next: Process, ghost pick: nat)
      requires MidCall(me)
      requires (dir, next) == StepProcess(config, states[|actions|], me, pick)
      modifies this`procs, this`states, this`actions
      ensures Lives(me) && procs == old(procs)[me := next]
      ensures states == old(states) + [Now()] && actions == old(actions) + [Step(me, pick)]
      ensures |states| == |actions| + 1 && states[|actions| - 1] == old(states[|actions|])
    {
      procs := procs[me := next];
      states, actions := states + [Now()], actions + [Step(me, pick)];
    }

    /** `fs.openSync(name, 'wx')`: a new, empty file, or None when the name exists. */
    method OpenExclusive(me: Pid, name: Name) returns (fd: Option<Ino>)
      requires Lives(me)
      modifies this
      ensures MidCall(me) && Continues(me)
      ensures var was := states[|actions|].dir;
              if name in was.names then fd == None && dir == was
              else fd == Some(was.nextIno) && dir == was.(names := was.names[name := was.nextIno],
                                                            inodes := was.inodes[was.nextIno := Inode(Torn, clock)],
                                                            nextIno := was.nextIno + 1)
    {
      Interfere(me);
      if name in dir.names {
        return None;
      }
      fd := Some(dir.nextIno);
      dir := dir.(names := dir.names[name := dir.nextIno],
                  inodes := dir.inodes[dir.nextIno := Inode(Torn, clock)],
                  nextIno := dir.nextIno + 1);
    }

    /** `fs.writeFileSync(fd, …)` and the close after it. */
    method Write(me: Pid, fd: Ino, record: Record)
      requires Lives(me)
      modifies this
      ensures MidCall(me) && Continues(me)
      ensures var was := states[|actions|].dir;
              dir == was.(inodes := was.inodes[fd := Inode(Complete(record), clock)])
    {
      Interfere(me);
      dir := dir.(inodes := dir.inodes[fd := Inode(Complete(record), clock)]);
    }

    /** `fs.linkSync(from, lockPath)`: whether it failed, and with which code. */
    method Link(me: Pid, from: Name, record: Record) returns (failed: Option<string>)
      requires Lives(me)
      modifies this
      ensures MidCall(me) && Continues(me)
      ensures var was := states[|actions|].dir;
              if from !in was.names then failed == Some("ENOENT") && dir == was
              else if LockPath in was.names then failed == Some("EEXIST") && dir == was
              else failed == None && dir == was.(names := was.names[LockPath := was.names[from]],
                                                 published := was.published + {record})
    {
      Interfere(me);
      if from !in dir.names {
        return Some("ENOENT");
      } else if LockPath in dir.names {
        return Some("EEXIST");
      }
      failed := None;
      dir := dir.(names := dir.names[LockPath := dir.names[from]], published := dir.published + {record});
    }

    /** `fs.rmSync(name, { force: true })`. */
    method Remove(me: Pid, name: Name)
      requires Lives(me)
      modifies this
      ensures MidCall(me) && Continues(me)
      ensures dir == states[|actions|].dir.(names := states[|actions|].dir.names - {name})
    {
      Interfere(me);
      dir := dir.(names := dir.names - {name});
    }

    /** `fs.renameSync(lockPath, to)`: whether there was a lock to move. */
    method Rename(me: Pid, to: Name) returns (moved: bool)
      requires Lives(me)
      modifies this
      ensures MidCall(me) && Continues(me)
      ensures var was := states[|actions|].dir;
              moved == (LockPath in was.names) &&
              dir == if moved then was.(names := was.names[to := was.names[LockPath]] - {LockPath}) else was
    {
      Interfere(me);
      moved := LockPath in dir.names;
      if moved {
        dir := dir.(names := dir.names[to := dir.names[LockPath]] - {LockPath});
      }
    }

    /** `fs.openSync(lockPath, 'r')`. */
    method Open(me: Pid) returns (fd: Option<Ino>)
      requires Lives(me)
      modifies this
      ensures MidCall(me) && Continues(me) && dir == states[|actions|].dir
      ensures fd == if LockPath in dir.names then Some(dir.names[LockPath]) else None
    {
      Interfere(me);
      fd := if LockPath in dir.names then Some(dir.names[LockPath]) else None;
    }

    /** `fs.fstatSync(fd)` and `fs.readFileSync(fd)`. */
    method Read(me: Pid, fd: Ino) returns (file: Inode)
      requires Lives(me)
      modifies this
      ensures MidCall(me) && Continues(me) && dir == states[|actions|].dir
      ensures file == Look(dir, fd)
    {
      Interfere(me);
      file := Look(dir, fd);
    }

    /** A call that touches no file: `now()`, `processAlive(pid)`, `sleep(ms)`. */
    method Ask(me: Pid)
      requires Lives(me)
      modifies this
      ensures MidCall(me) && Continues(me) && dir == states[|actions|].dir
    {
      Interfere(me);
    }
  }

  datatype Outcome = Acquired | TimedOut | Failed | StillWaiting

  /** What `createLock` returns: one process's lock, with the closure variable `held`. */
  class Lock {
    const world: World
    const pid: Pid
    var held: Option<Record>

    constructor (world: World, pid: Pid)
      requires world.Lives(pid) && world.procs[pid].pc == Idle
      ensures this.world == world && this.pid == pid && Valid() && held == None
    {
      this.world := world;
      this.pid := pid;
      held := None;
    }

    ghost predicate Valid()
      reads this, world
    {
      && world.Lives(pid)
      && (held.Some? ==> Pc() == Holding(held.value))
      && (held.None? ==> !Pc().Holding?)
    }

    function Pc(): Pc
      reads this, world
    {
      if pid in world.procs then world.procs[pid].pc else Idle
    }

    /** `pid` has moved to `pc`, nothing else about it has changed, and the run has only been added to. */
    twostate predicate Moved(pc: Pc)
      reads this, world
    {
      && old(world.states) <= world.states && old(world.actions) <= world.actions
      && pid in old(world.procs) && pid in world.procs
      && world.procs[pid] == old(world.procs)[pid].(pc := pc)
      && old(world.clock) <= world.clock
    }

    /** No event that could cost a holder its lock has happened so far. */
    ghost predicate NoBlame()
      requires world.Valid()
      reads this, world
    {
      Blameless(world.config, world.states, world.actions, |world.actions|)
    }

    /** What `tryAcquire` throws for: five staging names in turn were taken, or its staging file has gone. */
    ghost predicate GaveUp(taken: seq<nat>, from: nat)
      reads world
    {
      && |world.actions| > from
      && ((|taken| == STAGING_ATTEMPTS && Befell(world.states, world.actions, pid, NameTaken, from, taken)) ||
          Befell(world.states, world.actions, pid, StagingLost, from, [|world.actions| - 1]))
    }

    lemma GaveUpSince(taken: seq<nat>, from: nat, since: nat)
      requires world.Valid() && GaveUp(taken, from) && since <= from
      ensures GaveUp(taken, since)
    {
    }

    /** Opens one staging name exclusively. None when it was taken. */
    method OpenOneName(record: Record, attempt: nat) returns (file: Option<(nat, Ino)>)
      requires Valid() && Pc() == Creating(record, attempt) && attempt < STAGING_ATTEMPTS
      modifies world
      ensures Valid() && |world.actions| > |old(world.actions)|
      ensures Moved(if file.Some? then Writing(record, file.value.0, file.value.1)
                    else if attempt + 1 == STAGING_ATTEMPTS then Idle else Creating(record, attempt + 1))
      ensures file.None? ==>
                Befell(world.states, world.actions, pid, NameTaken, |old(world.actions)|, [|world.actions| - 1])
    {
      hide Run, Befell;
      var tag: nat :| true;
      var fd := world.OpenExclusive(pid, Staging(tag));
      if fd.Some? {
        world.Settle(pid, world.procs[pid].(pc := Writing(record, tag, fd.value)), tag);
        return Some((tag, fd.value));
      }
      var next := if attempt + 1 == STAGING_ATTEMPTS then Idle else Creating(record, attempt + 1);
      world.Settle(pid, world.procs[pid].(pc := next), tag);
      BefellLast(world.config, world.states, world.actions, pid, NameTaken, |old(world.actions)|);
      file := None;
    }

    /** Opens a staging name exclusively, trying five. None when all were taken. */
    method OpenStaging(record: Record) returns (file: Option<(nat, Ino)>, ghost taken: seq<nat>)
      requires Valid() && Pc() == Creating(record, 0)
      modifies world
      ensures Valid() && Moved(if file.Some? then Writing(record, file.value.0, file.value.1) else Idle)
      ensures Befell(world.states, world.actions, pid, NameTaken, |old(world.actions)|, taken)
      ensures file.None? ==> |taken| == STAGING_ATTEMPTS
    {
      hide Run, Befell;
      taken := [];
      ghost var from := |world.actions|;
      NothingBefell(world.config, world.states, world.actions, pid, NameTaken, from);
      for attempt := 0 to STAGING_ATTEMPTS
        invariant Valid() && Moved(if attempt == STAGING_ATTEMPTS then Idle else Creating(record, attempt))
        invariant Befell(world.states, world.actions, pid, NameTaken, from, taken) && |taken| == attempt
      {
        ghost var was, did := world.states, world.actions;
        file := OpenOneName(record, attempt);
        if file.Some? {
          BefellBefore(world.config, was, did, world.states, world.actions, pid, NameTaken, from, from, taken);
          return;
        }
        BefellNext(world.config, was, did, world.states, world.actions, pid, NameTaken, from, taken,
                   |world.actions| - 1);
        taken := taken + [|world.actions| - 1];
      }
      file := None;
    }

    /** A staging file holding a complete record, or None for the error thrown after five names. */
    method Stage() returns (staged: Option<(Record, nat)>, ghost taken: seq<nat>)
      requires Valid() && Pc() == Ready
      modifies world
      ensures Valid() && Moved(if staged.Some? then Linking(staged.value.0, staged.value.1) else Idle)
      ensures staged.Some? ==> staged.value.0.pid == pid
      ensures Befell(world.states, world.actions, pid, NameTaken, |old(world.actions)|, taken)
      ensures staged.None? ==> |taken| == STAGING_ATTEMPTS && |world.actions| > |old(world.actions)|
    {
      hide Run, Befell;
      world.Ask(pid);
      var record := Record(pid, world.clock);
      world.Settle(pid, world.procs[pid].(pc := Creating(record, 0)), 0);

      var file;
      ghost var since := |world.actions|;
      file, taken := OpenStaging(record);
      ghost var was, did := world.states, world.actions;
      BefellBefore(world.config, was, did, was, did, pid, NameTaken, since, |old(world.actions)|, taken);
      if file.None? {
        return None, taken;
      }
      var (tag, fd) := file.value;
      world.Write(pid, fd, record);
      world.Settle(pid, world.procs[pid].(pc := Linking(record, tag)), 0);
      BefellBefore(world.config, was, did, world.states, world.actions, pid, NameTaken, |old(world.actions)|,
                   |old(world.actions)|, taken);
      staged := Some((record, tag));
    }

    /** The link that makes a staging file the lock. None stands for an error other than a lock in the way. */
    method LinkStaged(record: Record, tag: nat) returns (linked: Option<bool>)
      requires Valid() && Pc() == Linking(record, tag)
      modifies world
      ensures Valid() && Moved(if linked.Some? then Cleaning(record, tag, linked.value) else Idle)
      ensures |world.actions| > |old(world.actions)|
      ensures linked.None? ==>
                Befell(world.states, world.actions, pid, StagingLost, |old(world.actions)|, [|world.actions| - 1])
      ensures linked == Some(false) ==>
                Befell(world.states, world.actions, pid, LinkRefused, |old(world.actions)|, [|world.actions| - 1])
    {
      hide Run, Befell;
      var failed := world.Link(pid, Staging(tag), record);
      if failed == Some("ENOENT") {
        world.Settle(pid, world.procs[pid].(pc := Idle), 0);
        BefellLast(world.config, world.states, world.actions, pid, StagingLost, |old(world.actions)|);
        return None;
      }
      world.Settle(pid, world.procs[pid].(pc := Cleaning(record, tag, failed.None?)), 0);
      if failed.Some? {
        BefellLast(world.config, world.states, world.actions, pid, LinkRefused, |old(world.actions)|);
      }
      linked := Some(failed.None?);
    }

    /** Takes the lock if it is free. None stands for an error thrown out of the call. */
    method TryAcquire() returns (took: Option<bool>, ghost taken: seq<nat>, ghost refused: nat)
      requires Valid() && Pc() == Ready
      modifies this, world
      ensures Valid() && old(world.clock) <= world.clock
      ensures old(world.states) <= world.states && old(world.actions) <= world.actions
      ensures match took
              case None => held == None && Pc() == Idle && GaveUp(taken, |old(world.actions)|)
              case Some(true) => held.Some? && held.value.pid == pid
              case Some(false) =>
                && held == None && Pc() == Polling && world.procs[pid].deadline == old(world.procs[pid].deadline)
                && Befell(world.states, world.actions, pid, LinkRefused, |old(world.actions)|, [refused])
    {
      hide Run, Befell, NameTaken, LinkRefused, StagingLost, HolderIsStale, Look;
      refused := 0;
      var staged;
      staged, taken := Stage();
      if staged.None? {
        return None, taken, refused;
      }
      var (record, tag) := staged.value;

      ghost var since := |world.actions|;
      took := LinkStaged(record, tag);
      ghost var was, did := world.states, world.actions;
      if took.None? {
        BefellBefore(world.config, was, did, was, did, pid, StagingLost, since, |old(world.actions)|, [|did| - 1]);
        return;
      }
      world.Remove(pid, Staging(tag));
      if took.value {
        world.Settle(pid, world.procs[pid].(pc := Holding(record)), 0);
        held := Some(record);
      } else {
        world.Settle(pid, world.procs[pid].(pc := Polling), 0);
        refused := |did| - 1;
        BefellBefore(world.config, was, did, world.states, world.actions, pid, LinkRefused, since, |old(world.actions)|,
                     [refused]);
      }
    }

    /** Opens and reads the lock, for the staleness judgement. None when it is free. */
    method Observe() returns (observed: Option<Inode>)
      requires Valid() && Pc() == Inspecting
      modifies world
      ensures Valid() && Moved(if observed.Some? then Probing(observed.value) else Sleeping)
    {
      var fd := world.Open(pid);
      var next := if fd.Some? then Observing(fd.value) else Sleeping;
      world.Settle(pid, world.procs[pid].(pc := next), 0);
      if fd.None? {
        return None;
      }
      var file := world.Read(pid, fd.value);
      world.Settle(pid, world.procs[pid].(pc := Probing(file)), 0);
      observed := Some(file);
    }

    /** `holderIsStale`: first whether the owner lives, then what the clock says. */
    method IsStale(observed: Inode) returns (stale: bool)
      requires Valid() && Pc() == Probing(observed)
      modifies world
      ensures Valid() && Moved(if stale then Confirming(observed) else Sleeping)
    {
      world.Ask(pid);
      var ownerAlive := observed.content.Complete? && ProcessAlive(world.Now(), observed.content.owner.pid);
      world.Settle(pid, world.procs[pid].(pc := Judging(observed, ownerAlive)), 0);
      world.Ask(pid);
      stale := HolderIsStale(world.config, world.clock, observed, ownerAlive);
      world.Settle(pid, world.procs[pid].(pc := if stale then Confirming(observed) else Sleeping), 0);
    }

    /** The confirming read: whether the lock still has the holder that was judged. */
    method Confirm(observed: Inode) returns (confirmed: bool)
      requires Valid() && Pc() == Confirming(observed)
      modifies world
      ensures Valid() && Moved(if confirmed then Renaming(observed.content) else Sleeping)
    {
      var fd := world.Open(pid);
      var next := if fd.Some? then Rereading(observed, fd.value) else Sleeping;
      world.Settle(pid, world.procs[pid].(pc := next), 0);
      if fd.None? {
        return false;
      }
      var file := world.Read(pid, fd.value);
      confirmed := file.content == observed.content;
      next := if confirmed then Renaming(observed.content) else Sleeping;
      world.Settle(pid, world.procs[pid].(pc := next), 0);
    }

    /** Moves the lock aside and discards it. Whether there was one. */
    method Evict(confirmed: Content) returns (freed: bool)
      requires Valid() && Pc() == Renaming(confirmed)
      modifies world
      ensures Valid() && Moved(if freed then Ready else Sleeping)
    {
      var tag: nat :| true;
      freed := world.Rename(pid, Quarantine(tag));
      var next := if freed then Discarding(tag) else Sleeping;
      world.Settle(pid, world.procs[pid].(pc := next), tag);
      if freed {
        world.Remove(pid, Quarantine(tag));
        world.Settle(pid, world.procs[pid].(pc := Ready), 0);
      }
    }

    /** Frees the lock if its holder is stale, and says whether it did. */
    method FreeIfStale() returns (freed: bool)
      requires Valid() && Pc() == Inspecting
      modifies world
      ensures Valid() && Moved(if freed then Ready else Sleeping)
    {
      freed := false;
      var observed := Observe();
      if observed.Some? {
        var stale := IsStale(observed.value);
        if stale {
          var confirmed := Confirm(observed.value);
          if confirmed {
            freed := Evict(observed.value.content);
          }
        }
      }
    }

    /** One poll: gives up past the deadline, else frees a stale lock or sleeps. */
    method Poll() returns (gaveUp: bool)
      requires Valid() && Pc() == Polling
      modifies world
      ensures Valid() && Moved(if gaveUp then Idle else Ready)
      ensures gaveUp ==> world.clock > world.procs[pid].deadline
      ensures gaveUp ==> |world.actions| > |old(world.actions)| &&
                         Befell(world.states, world.actions, pid, FoundLate, |old(world.actions)|,
                                [|world.actions| - 1])
    {
      hide Run, Befell;
      world.Ask(pid);
      gaveUp := world.clock > world.procs[pid].deadline;
      world.Settle(pid, world.procs[pid].(pc := if gaveUp then Idle else Inspecting), 0);
      if gaveUp {
        BefellLast(world.config, world.states, world.actions, pid, FoundLate, |old(world.actions)|);
      } else {
        var freed := FreeIfStale();
        if !freed {
          world.Ask(pid);
          world.Settle(pid, world.procs[pid].(pc := Ready), 0);
        }
      }
    }

    /**
     * Waits for the lock, for at most `polls` rounds. When it returns with the lock and nothing is
     * to blame, the lock names this process and no other process holds it. It goes on for as long as
     * a lock is in its way: it gives up only after its deadline, `timeoutMs` after it began, and
     * fails only where staging or its staging file fails it.
     */
    method Acquire(polls: nat) returns (outcome: Outcome, ghost taken: seq<nat>, ghost refused: seq<nat>)
      requires Valid() && Pc() == Idle && held == None
      modifies this, world
      ensures Valid() && old(world.clock) <= world.clock
      ensures Befell(world.states, world.actions, pid, LinkRefused, |old(world.actions)|, refused)
      ensures match outcome
              case Acquired => held.Some? && |refused| < polls
              case TimedOut =>
                && held == None && Pc() == Idle && 1 <= |refused| <= polls
                && world.clock > old(world.clock) + world.config.timeoutMs
                && |world.actions| > |old(world.actions)|
                && Befell(world.states, world.actions, pid, FoundLate, |old(world.actions)|, [|world.actions| - 1])
              case Failed => held == None && Pc() == Idle && |refused| < polls && GaveUp(taken, |old(world.actions)|)
              case StillWaiting => held == None && Pc() == Ready && |refused| == polls
      ensures outcome.Acquired? && NoBlame() ==>
                && LockContent(world.dir) == Some(Complete(held.value)) && held.value.pid == pid
                && forall q :: q != pid ==> !Holds(world.Now(), q)
    {
      hide Run, Befell;
      taken, refused := [], [];
      ghost var from := |world.actions|;
      world.Ask(pid);
      var deadline := world.clock + world.config.timeoutMs;
      world.Settle(pid, world.procs[pid].(deadline := deadline, pc := Ready), 0);

      NothingBefell(world.config, world.states, world.actions, pid, LinkRefused, from);
      for poll := 0 to polls
        invariant Valid() && held == None && Pc() == Ready && from <= |world.actions|
        invariant world.procs[pid].deadline == deadline >= old(world.clock) + world.config.timeoutMs
        invariant old(world.clock) <= world.clock
        invariant old(world.states) <= world.states && old(world.actions) <= world.actions
        invariant |refused| == poll && Befell(world.states, world.actions, pid, LinkRefused, from, refused)
      {
        ghost var was, did, found := world.states, world.actions, 0;
        var took;
        took, taken, found := TryAcquire();
        if took != Some(false) {
          BefellBefore(world.config, was, did, world.states, world.actions, pid, LinkRefused, from, from, refused);
          if took.Some? {
            SoleHolder();
            return Acquired, taken, refused;
          }
          GaveUpSince(taken, |did|, from);
          return Failed, taken, refused;
        }
        BefellNext(world.config, was, did, world.states, world.actions, pid, LinkRefused, from, refused, found);
        refused, was, did := refused + [found], world.states, world.actions;
        var gaveUp := Poll();
        BefellBefore(world.config, was, did, world.states, world.actions, pid, LinkRefused, from, from, refused);
        if gaveUp {
          BefellBefore(world.config, world.states, world.actions, world.states, world.actions, pid, FoundLate, |did|,
                       from, [|world.actions| - 1]);
          return TimedOut, taken, refused;
        }
      }
      outcome := StillWaiting;
    }

    /** The guard of `release`: whether the lock still names `record`. */
    method StillNames(record: Record) returns (ours: bool)
      requires Valid() && Pc() == Holding(record)
      modifies world
      ensures world.Lives(pid) && Moved(if ours then Removing(record) else Idle)
      ensures NoBlame() ==> ours
    {
      hide Run, Blameless;
      var fd := world.Open(pid);
      ghost var openedAt := |world.actions|;
      var next := if fd.Some? then Verifying(record, fd.value) else Idle;
      world.Settle(pid, world.procs[pid].(pc := next), 0);
      if fd.None? {
        OwnsLockAt(record, openedAt);
        return false;
      }
      var current := world.Read(pid, fd.value);
      ours := current.content == Complete(record);
      next := if ours then Removing(record) else Idle;
      world.Settle(pid, world.procs[pid].(pc := next), 0);
      ReadsOwnRecord(record, openedAt);
    }

    /**
     * Releases the lock, and says whether it removed it. With nothing to blame, the lock it removed
     * was its own, and a lock it still held is always removed.
     */
    method Release() returns (removed: bool)
      requires Valid() && (held.Some? || Pc() == Idle)
      modifies this, world
      ensures Valid() && held == None && Pc() == Idle && old(world.clock) <= world.clock
      ensures old(held).None? ==> !removed
      ensures removed ==>
                && |world.actions| >= 1 && LockContent(world.dir) == None
                && (NoBlame() ==> LockContent(world.states[|world.actions| - 1].dir) == Some(Complete(old(held).value)))
      ensures old(held).Some? && NoBlame() ==> removed
    {
      if held.None? {
        return false;
      }
      var record := held.value;
      removed := StillNames(record);
      held := None;
      if removed {
        world.Remove(pid, LockPath);
        ghost var removedAt := |world.actions|;
        world.Settle(pid, world.procs[pid].(pc := Idle), 0);
        OwnsLockAt(record, removedAt);
      }
    }

    lemma SoleHolder()
      requires Valid() && held.Some?
      ensures NoBlame() ==>
                && LockContent(world.dir) == Some(Complete(held.value)) && held.value.pid == pid
                && forall q :: q != pid ==> !Holds(world.Now(), q)
    {
      if NoBlame() {
        HolderIsNamed(world.config, world.states, world.actions, |world.actions|, pid);
        forall q | q != pid && Holds(world.Now(), q) ensures false {
          TwoHoldersMeanBlame(world.config, world.states, world.actions, |world.actions|, pid, q);
        }
      }
    }

    /** With nothing to blame, `pid` finds its own record in the lock for as long as it holds it. */
    lemma OwnsLockAt(record: Record, k: nat)
      requires world.Valid() && k < |world.actions| && ProcessAlive(world.states[k], pid)
      requires HeldRecord(world.states[k].procs[pid].pc) == Some(record)
      ensures NoBlame() ==> LockContent(world.states[k].dir) == Some(Complete(record))
    {
      if NoBlame() {
        HolderIsNamed(world.config, world.states, world.actions, k, pid);
      }
    }

    /** And a descriptor opened on it then reads that record, however much later. */
    lemma ReadsOwnRecord(record: Record, k: nat)
      requires world.Valid() && k < |world.actions| && ProcessAlive(world.states[k], pid)
      requires HeldRecord(world.states[k].procs[pid].pc) == Some(record) && LockPath in world.states[k].dir.names
      ensures NoBlame() ==>
                Look(world.states[|world.actions| - 1].dir, world.states[k].dir.names[LockPath]).content ==
                    Complete(record)
    {
      if NoBlame() {
        OwnsLockAt(record, k);
        RunGrows(world.config, world.states, world.actions, k, |world.actions| - 1);
      }
    }
  }
}
