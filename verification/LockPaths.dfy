/**
 * Paths, as the pins and the audit of lock-order.ts judge them: by the first place where a body
 * takes each stage, and by a plugin-row claim ahead of each child write, whose foreign key takes a
 * FOR KEY SHARE lock that nobody wrote. What a body locks again later the pins do not see. A path
 * that passes is safe if what it holds covers that, and here is exactly when it is.
 */
module LockPaths {
  import opened Prelude
  import opened LockOrder
  import opened Deadlock

  /** `implied` marks the lock that the foreign-key check of a child write takes. */
  datatype Lock = Lock(stage: Stage, mode: Mode, implied: bool)

  type Path = seq<Lock>

  /** A transaction that takes the path, on one row of each stage. */
  function Instance(path: Path, rows: Stage -> nat): (script: Script)
    ensures |script| == |path|
    ensures forall i :: 0 <= i < |path| ==> script[i] == Request(path[i].stage, rows(path[i].stage), path[i].mode)
  {
    seq(|path|, i requires 0 <= i < |path| => Request(path[i].stage, rows(path[i].stage), path[i].mode))
  }

  // ---- what is judged ----

  /** Where the body first takes the stage in writing. */
  function FirstWritten(path: Path, stage: Stage): (at: Option<nat>)
    ensures at.Some? ==> at.value < |path| && path[at.value].stage == stage && !path[at.value].implied
    ensures forall i :: 0 <= i < |path| && path[i].stage == stage && !path[i].implied ==> at.Some? && at.value <= i
  {
    if path == [] then None
    else
      var before := FirstWritten(path[..|path| - 1], stage);
      var last := path[|path| - 1];
      if before.Some? then before
      else if last.stage == stage && !last.implied then Some(|path| - 1)
      else None
  }

  predicate Before(path: Path, s: Stage, t: Stage) {
    var i, j := FirstWritten(path, s), FirstWritten(path, t);
    i.Some? && j.Some? ==> i.value < j.value
  }

  /** Pinned with every stage it takes, the path is in the claimed order, judged by first occurrence. */
  predicate PassesPins(path: Path) {
    forall s: Stage, t: Stage :: Rank(s) < Rank(t) ==> Before(path, s, t)
  }

  /** Every child write comes after a claim of the plugin row. */
  predicate PassesAudit(path: Path) {
    forall j :: 0 <= j < |path| && path[j].implied ==>
      && path[j].stage.PluginRow? && path[j].mode.KeyShare?
      && exists i :: 0 <= i < j && path[i].stage.PluginRow? && !path[i].implied
  }

  /** A pin of all the stages that the path takes: `orderMismatch` over where each first occurs. */
  method JudgePath(path: Path) returns (passes: bool)
    ensures passes <==> PassesPins(path)
  {
    var found: seq<Option<nat>> := [];
    ghost var stages: seq<Stage> := [];
    for k := 0 to |CLAIMED_LOCK_ORDER|
      invariant |found| == |stages| && Ascending(stages)
      invariant forall i :: 0 <= i < |stages| ==>
                found[i] == FirstWritten(path, stages[i]) && found[i].Some? && Rank(stages[i]) < k
      invariant forall s: Stage :: Rank(s) < k && FirstWritten(path, s).Some? ==> s in stages
    {
      var stage := CLAIMED_LOCK_ORDER[k];
      var at := FirstWritten(path, stage);
      if at.Some? {
        found := found + [at];
        stages := stages + [stage];
      }
    }
    var mismatch := OrderMismatch(found);
    passes := mismatch.InOrder?;
    PinsCompareFirsts(path, stages, found);
  }

  lemma PlacesFollowRanks(stages: seq<Stage>, i: nat, j: nat)
    requires Ascending(stages) && i < |stages| && j < |stages|
    ensures i < j <==> Rank(stages[i]) < Rank(stages[j])
  {
  }

  lemma PinsGiveAscent(path: Path, stages: seq<Stage>, found: seq<Option<nat>>, i: nat, j: nat)
    requires |found| == |stages| && Ascending(stages) && PassesPins(path) && i < j < |found|
    requires forall k :: 0 <= k < |stages| ==> found[k] == FirstWritten(path, stages[k]) && found[k].Some?
    ensures found[i].value <= found[j].value
  {
    PlacesFollowRanks(stages, i, j);
    assert Before(path, stages[i], stages[j]);
  }

  lemma AscentGivesPins(path: Path, stages: seq<Stage>, found: seq<Option<nat>>, s: Stage, t: Stage)
    requires |found| == |stages| && Ascending(stages) && s in stages && t in stages && Rank(s) < Rank(t)
    requires forall k :: 0 <= k < |stages| ==> found[k] == FirstWritten(path, stages[k]) && found[k].Some?
    requires forall i, j :: 0 <= i < j < |found| ==> found[i].value <= found[j].value
    ensures Before(path, s, t)
  {
    var i :| 0 <= i < |stages| && stages[i] == s;
    var j :| 0 <= j < |stages| && stages[j] == t;
    PlacesFollowRanks(stages, i, j);
  }

  lemma PinsCompareFirsts(path: Path, stages: seq<Stage>, found: seq<Option<nat>>)
    requires |found| == |stages| && Ascending(stages)
    requires forall i :: 0 <= i < |stages| ==> found[i] == FirstWritten(path, stages[i]) && found[i].Some?
    requires forall s: Stage :: FirstWritten(path, s).Some? ==> s in stages
    ensures PassesPins(path) <==> forall i, j :: 0 <= i < j < |found| ==> found[i].value <= found[j].value
  {
    if PassesPins(path) {
      forall i, j | 0 <= i < j < |found| ensures found[i].value <= found[j].value {
        PinsGiveAscent(path, stages, found, i, j);
      }
    } else {
      var s: Stage, t: Stage :| Rank(s) < Rank(t) && !Before(path, s, t);
      if forall i, j :: 0 <= i < j < |found| ==> found[i].value <= found[j].value {
        AscentGivesPins(path, stages, found, s, t);
      }
    }
  }

  // ---- what a path holds when it takes a lock again ----

  /** The strongest mode, by its grade, in which the path holds the stage by its `j`th lock; -1 for none. */
  function Held(path: Path, j: nat, stage: Stage): (h: int)
    requires j <= |path|
    ensures -1 <= h <= 3
    ensures forall i :: 0 <= i < j && path[i].stage == stage ==> Strength(path[i].mode) <= h
    ensures h >= 0 ==> exists i :: 0 <= i < j && path[i].stage == stage && Strength(path[i].mode) == h
  {
    if j == 0 then -1
    else
      var before := Held(path, j - 1, stage);
      if path[j - 1].stage == stage && Strength(path[j - 1].mode) > before then Strength(path[j - 1].mode) else before
  }

  /** The `j`th lock is not covered by what the path holds. */
  predicate Uncovered(path: Path, j: nat)
    requires j < |path|
  {
    Held(path, j, path[j].stage) < Strength(path[j].mode)
  }

  /** It takes a lock it holds, in a mode that is not covered. */
  predicate UpgradeAt(path: Path, j: nat)
    requires j < |path|
  {
    Uncovered(path, j) && Held(path, j, path[j].stage) >= 0
  }

  predicate NeverUpgrades(path: Path) {
    forall j :: 0 <= j < |path| ==> !UpgradeAt(path, j)
  }

  /** It takes a lock, uncovered, of a stage before one it holds. */
  predicate GoesBackAt(path: Path, i: nat, j: nat) {
    i < j < |path| && Uncovered(path, j) && Rank(path[j].stage) < Rank(path[i].stage)
  }

  ghost predicate GoesBack(path: Path) {
    exists i, j :: GoesBackAt(path, i, j)
  }

  /** Two runs of the path can both be there, one at each upgrade, and each keeps the other waiting. */
  predicate MeetAt(path: Path, i: nat, j: nat) {
    && i < |path| && j < |path| && UpgradeAt(path, i) && UpgradeAt(path, j) && path[i].stage == path[j].stage
    && var s := path[i].stage;
       && Held(path, i, s) + Held(path, j, s) < 3
       && Strength(path[i].mode) + Held(path, j, s) >= 3
       && Strength(path[j].mode) + Held(path, i, s) >= 3
  }

  ghost predicate UpgradesMeet(path: Path) {
    exists i, j :: MeetAt(path, i, j)
  }

  lemma ReentrantIsCovered(path: Path, rows: Stage -> nat, j: nat)
    requires j < |path|
    ensures Reentrant(Instance(path, rows), j) <==> !Uncovered(path, j)
  {
    var script, stage := Instance(path, rows), path[j].stage;
    if Reentrant(script, j) {
      var i :| 0 <= i < j && SameLock(script[i], script[j]) && Covers(script[i].mode, script[j].mode);
      CoversByStrength(script[i].mode, script[j].mode);
      assert path[i].stage == stage;
    }
    if !Uncovered(path, j) {
      var i :| 0 <= i < j && path[i].stage == stage && Strength(path[i].mode) == Held(path, j, stage);
      CoversByStrength(script[i].mode, script[j].mode);
      assert SameLock(script[i], script[j]);
    }
  }

  lemma InstanceNeverBack(path: Path, rows: Stage -> nat)
    requires !GoesBack(path)
    ensures NeverBack(Instance(path, rows))
  {
    var script := Instance(path, rows);
    forall j | 0 <= j < |script| && !Reentrant(script, j)
      ensures forall i :: 0 <= i < j ==> Rank(script[i].stage) < Rank(script[j].stage) || SameLock(script[i], script[j])
    {
      ReentrantIsCovered(path, rows, j);
      forall i | 0 <= i < j ensures Rank(script[i].stage) < Rank(script[j].stage) || SameLock(script[i], script[j]) {
        assert !GoesBackAt(path, i, j);
        assert CLAIMED_LOCK_ORDER[Rank(path[i].stage)] == path[i].stage &&
               CLAIMED_LOCK_ORDER[Rank(path[j].stage)] == path[j].stage;
      }
    }
  }

  // ---- paths that pass, and never upgrade ----

  /** What the pins and the audit leave open is upgrades only: without one, each run is in order. */
  lemma PassingPathIsInOrder(path: Path, rows: Stage -> nat)
    requires PassesPins(path) && PassesAudit(path) && NeverUpgrades(path)
    ensures InLockOrder(Instance(path, rows))
  {
    var script := Instance(path, rows);
    forall j | 0 <= j < |script| && !Reentrant(script, j)
      ensures forall i :: 0 <= i < j ==> Rank(script[i].stage) < Rank(script[j].stage)
    {
      ReentrantIsCovered(path, rows, j);
      assert !UpgradeAt(path, j);
      assert !path[j].implied;
      forall i | 0 <= i < j ensures Rank(script[i].stage) < Rank(script[j].stage) {
        FirstsDecide(path, i, j);
      }
    }
  }

  lemma FirstsDecide(path: Path, i: nat, j: nat)
    requires PassesPins(path) && PassesAudit(path) && i < j < |path|
    requires !path[j].implied && forall k :: 0 <= k < j ==> path[k].stage != path[j].stage
    ensures Rank(path[i].stage) < Rank(path[j].stage)
  {
    var s, t := path[i].stage, path[j].stage;
    assert FirstWritten(path, s).Some? && FirstWritten(path, s).value <= i;
    assert FirstWritten(path, t) == Some(j);
    assert CLAIMED_LOCK_ORDER[Rank(s)] == s && CLAIMED_LOCK_ORDER[Rank(t)] == t;
    assert Rank(t) < Rank(s) ==> Before(path, t, s);
  }

  ghost predicate RunsAPassingPath(script: Script) {
    exists path: Path, rows: Stage -> nat ::
      PassesPins(path) && PassesAudit(path) && NeverUpgrades(path) && script == Instance(path, rows)
  }

  /**
   * The rule suffices for paths that never upgrade: any number of transactions, on any paths that
   * pass the pins and the audit, never deadlock.
   */
  lemma ClaimedWritesNeverDeadlock(states: seq<State>, actions: seq<Action>, k: nat, ring: seq<Txn>)
    requires Run(states, actions) && k < |states|
    requires forall t <- states[0].txns :: RunsAPassingPath(states[0].txns[t].script)
    ensures !Ring(states[k], ring)
  {
    forall t <- states[0].txns ensures InLockOrder(states[0].txns[t].script) && NeverBack(states[0].txns[t].script) {
      var path: Path, rows: Stage -> nat :|
        PassesPins(path) && PassesAudit(path) && NeverUpgrades(path) &&
            states[0].txns[t].script == Instance(path, rows);
      PassingPathIsInOrder(path, rows);
    }
    InOrderNeverDeadlocks(states, actions, k, ring, 0);
  }

  // ---- exactly when a path is safe ----

  ghost predicate Runs(path: Path, script: Script) {
    exists rows: Stage -> nat :: script == Instance(path, rows)
  }

  /** Any number of runs of the path, on any rows, and of scripts in order, can come to a deadlock. */
  ghost predicate CanDeadlock(path: Path) {
    exists states: seq<State>, actions: seq<Action>, ring: seq<Txn> ::
      && Run(states, actions) && Ring(states[|actions|], ring)
      && forall t <- states[0].txns :: InLockOrder(states[0].txns[t].script) || Runs(path, states[0].txns[t].script)
  }

  lemma MeetingIsDeadlock(path: Path, a: Script, b: Script)
    requires CanMeet(a, b) && Runs(path, a) && (InLockOrder(b) || Runs(path, b))
    ensures CanDeadlock(path)
  {
    var states: seq<State>, actions: seq<Action>, ring: seq<Txn> :|
      Run(states, actions) && states[0] == Two(a, 0, None, b, 0, None, 0) && Ring(states[|actions|], ring);
    assert forall t <- states[0].txns :: InLockOrder(states[0].txns[t].script) || Runs(path, states[0].txns[t].script);
  }

  lemma GoingBackDeadlocks(path: Path, i: nat, j: nat)
    requires GoesBackAt(path, i, j)
    ensures CanDeadlock(path)
  {
    var script := Instance(path, _ => 0);
    ReentrantIsCovered(path, _ => 0, j);
    GoingBackCanDeadlock(script, i, j);
    var partner: Script :| InLockOrder(partner) && CanMeet(script, partner);
    assert Runs(path, script);
    MeetingIsDeadlock(path, script, partner);
  }

  /** Row 0 of one stage, and row 1 of every other. */
  function OnlyRow(stage: Stage): Stage -> nat {
    (other: Stage) => if other == stage then 0 else 1
  }

  lemma UpgradesStandTogether(path: Path, i: nat, j: nat)
    requires MeetAt(path, i, j)
    ensures Apart(Instance(path, _ => 0), i, Instance(path, OnlyRow(path[i].stage)), j)
  {
    var a, b := Instance(path, _ => 0), Instance(path, OnlyRow(path[i].stage));
    forall k, l | 0 <= k < i && 0 <= l < j && SameLock(a[k], b[l]) ensures !Conflicts(b[l].mode, a[k].mode) {
      assert path[k].stage == path[l].stage == path[i].stage;
      ConflictsByStrength(b[l].mode, a[k].mode);
    }
  }

  lemma UpgradeIsBarred(path: Path, rows: Stage -> nat, i: nat, r: Request)
    requires i <= |path| && rows(r.stage) == r.key && Held(path, i, r.stage) >= 0
    requires Strength(r.mode) + Held(path, i, r.stage) >= 3
    ensures InTheWay(Instance(path, rows), i, r)
  {
    var k :| 0 <= k < i && path[k].stage == r.stage && Strength(path[k].mode) == Held(path, i, r.stage);
    ConflictsByStrength(r.mode, path[k].mode);
    assert SameLock(Instance(path, rows)[k], r);
  }

  /** Two runs that share nothing but the row of the upgrade. */
  lemma MeetingUpgradesDeadlock(path: Path, i: nat, j: nat)
    requires MeetAt(path, i, j)
    ensures CanDeadlock(path)
  {
    var a, b := Instance(path, _ => 0), Instance(path, OnlyRow(path[i].stage));
    UpgradesStandTogether(path, i, j);
    UpgradeIsBarred(path, _ => 0, i, b[j]);
    UpgradeIsBarred(path, OnlyRow(path[i].stage), j, a[i]);
    Collide(a, i, b, j);
    assert Runs(path, a) && Runs(path, b);
    MeetingIsDeadlock(path, a, b);
  }

  /** An upgrade that waits belongs to a run of the path, at an upgrade of it. */
  lemma UpgradesAreThePaths(s: State, path: Path, t: Txn) returns (rows: Stage -> nat)
    requires Upgrading(s, t) && (InLockOrder(s.txns[t].script) || Runs(path, s.txns[t].script))
    ensures s.txns[t].script == Instance(path, rows) && UpgradeAt(path, s.txns[t].done)
    ensures path[s.txns[t].done].stage == Wanted(s, t).stage && path[s.txns[t].done].mode == Wanted(s, t).mode
  {
    if InLockOrder(s.txns[t].script) {
      InOrderNeverUpgrades(s, t);
    }
    rows :| s.txns[t].script == Instance(path, rows);
    ReentrantIsCovered(path, rows, s.txns[t].done);
  }

  /** What two transactions hold of a row together does not conflict. */
  lemma HeldTogether(s: State, path: Path, t: Txn, mine: Stage -> nat, i: nat, u: Txn, theirs: Stage -> nat, j: nat,
      stage: Stage)
    requires Compatible(s) && Live(s, t) && Live(s, u) && t != u && i == s.txns[t].done <= |path| &&
             j == s.txns[u].done <= |path|
    requires s.txns[t].script == Instance(path, mine) && s.txns[u].script == Instance(path, theirs)
    requires mine(stage) == theirs(stage) && Held(path, i, stage) >= 0 && Held(path, j, stage) >= 0
    ensures Held(path, i, stage) + Held(path, j, stage) < 3
  {
    var x :| 0 <= x < i && path[x].stage == stage && Strength(path[x].mode) == Held(path, i, stage);
    var y :| 0 <= y < j && path[y].stage == stage && Strength(path[y].mode) == Held(path, j, stage);
    ConflictsByStrength(path[x].mode, path[y].mode);
    assert SameLock(s.txns[t].script[x], s.txns[u].script[y]);
  }

  predicate Bar(path: Path, i: nat, j: nat) {
    && i < |path| && j < |path| && UpgradeAt(path, i) && UpgradeAt(path, j) && path[i].stage == path[j].stage
    && Held(path, i, path[i].stage) + Held(path, j, path[i].stage) < 3
    && Strength(path[i].mode) + Held(path, j, path[i].stage) >= 3
  }

  lemma BarredByHeld(script: Script, path: Path, rows: Stage -> nat, j: nat, r: Request)
    requires script == Instance(path, rows) && j <= |path|
    requires exists k :: 0 <= k < j && SameLock(script[k], r) && Conflicts(r.mode, script[k].mode)
    ensures Strength(r.mode) + Held(path, j, r.stage) >= 3
  {
    var k :| 0 <= k < j && SameLock(script[k], r) && Conflicts(r.mode, script[k].mode);
    ConflictsByStrength(r.mode, path[k].mode);
  }

  /** Of two runs at upgrades of a lock: what they hold of it together, and that one bars the other. */
  lemma BarringGrades(s: State, path: Path, t: Txn, u: Txn)
    requires Consistent(s) && Bars(s, t, u)
    requires InLockOrder(s.txns[t].script) || Runs(path, s.txns[t].script)
    requires InLockOrder(s.txns[u].script) || Runs(path, s.txns[u].script)
    ensures Bar(path, s.txns[t].done, s.txns[u].done)
  {
    var mine := UpgradesAreThePaths(s, path, t);
    var theirs := UpgradesAreThePaths(s, path, u);
    BarGrades(s, path, t, mine, u, theirs);
  }

  lemma BarGrades(s: State, path: Path, t: Txn, mine: Stage -> nat, u: Txn, theirs: Stage -> nat)
    requires Compatible(s) && Bars(s, t, u)
    requires s.txns[t].script == Instance(path, mine) && s.txns[u].script == Instance(path, theirs)
    requires UpgradeAt(path, s.txns[t].done) && UpgradeAt(path, s.txns[u].done)
    ensures Bar(path, s.txns[t].done, s.txns[u].done)
  {
    var i, j := s.txns[t].done, s.txns[u].done;
    HeldTogether(s, path, t, mine, i, u, theirs, j, path[i].stage);
    BarredByHeld(s.txns[u].script, path, theirs, j, Wanted(s, t));
  }

  /** Of three upgrades in a row, some two, or one and itself, keep each other waiting. */
  lemma ThreeInARow(held: (int, int, int), wanted: (int, int, int))
    requires 0 <= held.0 < wanted.0 <= 3 && 0 <= held.1 < wanted.1 <= 3 && 0 <= held.2 < wanted.2 <= 3
    requires wanted.0 + held.1 >= 3 && wanted.1 + held.2 >= 3 && held.0 + held.1 < 3 && held.1 + held.2 < 3
    ensures || (wanted.0 + held.0 >= 3 && held.0 + held.0 < 3)
            || (wanted.1 + held.1 >= 3 && held.1 + held.1 < 3)
            || wanted.1 + held.0 >= 3
            || wanted.2 + held.1 >= 3
  {
  }

  lemma RingMeans(states: seq<State>, actions: seq<Action>, ring: seq<Txn>, path: Path)
    requires Run(states, actions) && Ring(states[|actions|], ring) && !GoesBack(path)
    requires forall t <- states[0].txns :: InLockOrder(states[0].txns[t].script) || Runs(path, states[0].txns[t].script)
    ensures UpgradesMeet(path)
  {
    RunConsistent(states, actions, |actions|);
    var s := states[|actions|];
    forall t <- s.txns ensures NeverBack(s.txns[t].script) {
      if InLockOrder(s.txns[t].script) {
        InOrderNeverUpgrades(s, t);
      } else {
        var rows: Stage -> nat :| s.txns[t].script == Instance(path, rows);
        InstanceNeverBack(path, rows);
      }
    }
    var t, u, v := RingIsOfUpgrades(s, ring);
    BarringGrades(s, path, t, u);
    BarringGrades(s, path, u, v);
    var i, j, k := s.txns[t].done, s.txns[u].done, s.txns[v].done;
    var stage := path[i].stage;
    ThreeInARow((Held(path, i, stage), Held(path, j, stage), Held(path, k, stage)),
                (Strength(path[i].mode), Strength(path[j].mode), Strength(path[k].mode)));
    assert MeetAt(path, i, i) || MeetAt(path, j, j) || MeetAt(path, i, j) || MeetAt(path, j, k);
  }

  /**
   * Exactly when a path can deadlock, beside runs of itself and scripts in order, in any number: it
   * goes back in the order, or two of its upgrades of one row can meet.
   */
  lemma PathIsExact(path: Path)
    ensures CanDeadlock(path) <==> GoesBack(path) || UpgradesMeet(path)
  {
    if CanDeadlock(path) {
      var states: seq<State>, actions: seq<Action>, ring: seq<Txn> :|
        && Run(states, actions) && Ring(states[|actions|], ring)
        && forall t <- states[0].txns :: InLockOrder(states[0].txns[t].script) || Runs(path, states[0].txns[t].script);
      if !GoesBack(path) {
        RingMeans(states, actions, ring, path);
      }
    }
    if i, j :| GoesBackAt(path, i, j) {
      GoingBackDeadlocks(path, i, j);
    }
    if i, j :| MeetAt(path, i, j) {
      MeetingUpgradesDeadlock(path, i, j);
    }
  }

  /** For a path that passes the pins and the audit, going back is an upgrade as well. */
  lemma PassingPathIsExact(path: Path)
    requires PassesPins(path) && PassesAudit(path)
    ensures CanDeadlock(path) <==> UpgradesMeet(path) || exists i, j :: GoesBackAt(path, i, j) && UpgradeAt(path, j)
    ensures NeverUpgrades(path) ==> !CanDeadlock(path)
  {
    PathIsExact(path);
    forall i, j | GoesBackAt(path, i, j) ensures UpgradeAt(path, j) {
      if !UpgradeAt(path, j) {
        FirstsDecide(path, i, j);
      }
    }
  }

  // ---- shipped paths ----

  lemma AscentPasses(path: Path)
    requires forall i, j :: 0 <= i < j < |path| && !path[i].implied && !path[j].implied ==>
             Rank(path[i].stage) <= Rank(path[j].stage)
    ensures PassesPins(path)
  {
    forall s: Stage, t: Stage | Rank(s) < Rank(t) ensures Before(path, s, t) {
    }
  }

  /** Where a stage is first taken, and where it is held as strongly, there is no upgrade. */
  lemma NoUpgradeAt(path: Path, j: nat)
    requires j < |path|
    requires (forall i :: 0 <= i < j ==> path[i].stage != path[j].stage) ||
             exists i :: 0 <= i < j && path[i].stage == path[j].stage &&
                 Strength(path[i].mode) >= Strength(path[j].mode)
    ensures !UpgradeAt(path, j)
  {
  }

  /** decide() once: the upsert, the lock its foreign key takes, and the mirror write. */
  const DECIDE_UNCLAIMED: Path :=
    [Lock(GrantRow, NoKeyUpdate, false), Lock(PluginRow, KeyShare, true), Lock(UnitRow, Update, false)]

  /** decide() now: the same behind a claim of the plugin row. */
  const DECIDE: Path := [Lock(PluginRow, Share, false)] + DECIDE_UNCLAIMED

  /** Without the claim the foreign-key check takes the plugin row last, and the path can deadlock. */
  lemma DecideNeedsItsClaim()
    ensures !PassesAudit(DECIDE_UNCLAIMED) && CanDeadlock(DECIDE_UNCLAIMED)
    ensures PassesPins(DECIDE) && PassesAudit(DECIDE) && !CanDeadlock(DECIDE)
  {
    NoUpgradeAt(DECIDE_UNCLAIMED, 1);
    assert GoesBackAt(DECIDE_UNCLAIMED, 0, 1);
    GoingBackDeadlocks(DECIDE_UNCLAIMED, 0, 1);
    AscentPasses(DECIDE);
    assert !DECIDE[0].implied;
    forall j | 0 <= j < |DECIDE| ensures !UpgradeAt(DECIDE, j) {
      assert DECIDE[0].stage == DECIDE[2].stage;
      NoUpgradeAt(DECIDE, j);
    }
    PassingPathIsExact(DECIDE);
  }

  /** Activation reads the plugin row FOR UPDATE and then writes it, ahead of the grants and the units. */
  const ACTIVATION: Path :=
    [Lock(PluginRow, Update, false), Lock(PluginRow, NoKeyUpdate, false),
     Lock(GrantRow, Update, false), Lock(UnitRow, NoKeyUpdate, false)]

  /** The config PATCH claims the plugin row in the very mode its write takes. */
  const CONFIG_PATCH: Path := [Lock(PluginRow, NoKeyUpdate, false), Lock(PluginRow, NoKeyUpdate, false)]

  /** The same with a share claim, which its write would have to upgrade. */
  const SHARED_PATCH: Path := [Lock(PluginRow, Share, false), Lock(PluginRow, NoKeyUpdate, false)]

  lemma RewritesAreSafe()
    ensures PassesPins(ACTIVATION) && PassesAudit(ACTIVATION) && !CanDeadlock(ACTIVATION)
    ensures PassesPins(CONFIG_PATCH) && PassesAudit(CONFIG_PATCH) && !CanDeadlock(CONFIG_PATCH)
  {
    AscentPasses(ACTIVATION);
    AscentPasses(CONFIG_PATCH);
    forall j | 0 <= j < |ACTIVATION| ensures !UpgradeAt(ACTIVATION, j) {
      assert ACTIVATION[0].stage == ACTIVATION[1].stage;
      NoUpgradeAt(ACTIVATION, j);
    }
    assert CONFIG_PATCH[0].stage == CONFIG_PATCH[1].stage;
    NoUpgradeAt(CONFIG_PATCH, 0);
    NoUpgradeAt(CONFIG_PATCH, 1);
    PassingPathIsExact(ACTIVATION);
    PassingPathIsExact(CONFIG_PATCH);
  }

  /** The pins and the audit let a share claim pass that deadlocks with another run of the same path. */
  lemma PinsMissAnUpgrade()
    ensures PassesPins(SHARED_PATCH) && PassesAudit(SHARED_PATCH) && CanDeadlock(SHARED_PATCH)
  {
    AscentPasses(SHARED_PATCH);
    assert Held(SHARED_PATCH, 1, PluginRow) == 1;
    MeetingUpgradesDeadlock(SHARED_PATCH, 1, 1);
  }

  /** Not every upgrade is one too many: no other run is there beside a mode that excludes itself. */
  lemma SomeUpgradesAreSafe()
    ensures var path := [Lock(PluginRow, NoKeyUpdate, false), Lock(PluginRow, Update, false)];
            PassesPins(path) && PassesAudit(path) && !NeverUpgrades(path) && !CanDeadlock(path)
  {
    var path := [Lock(PluginRow, NoKeyUpdate, false), Lock(PluginRow, Update, false)];
    AscentPasses(path);
    assert Held(path, 0, PluginRow) == -1 && Held(path, 1, PluginRow) == 2 && UpgradeAt(path, 1);
    PathIsExact(path);
  }
}
