/**
 * What the claimed lock order buys. Any number of transactions take locks through a lock manager
 * that queues conflicting requests. Scripts in order never deadlock, whatever they lock twice, as
 * long as what they hold covers it; and a script that goes back in the order always can.
 */
module Deadlock {
  import opened Prelude
  import opened LockOrder

  /** Row lock modes. An advisory lock excludes its like, as Update does. */
  datatype Mode = KeyShare | Share | NoKeyUpdate | Update

  /** The conflicts of section 13.3.2 of the PostgreSQL documentation. */
  predicate Conflicts(a: Mode, b: Mode) {
    match a
    case KeyShare => b.Update?
    case Share => b.NoKeyUpdate? || b.Update?
    case NoKeyUpdate => !b.KeyShare?
    case Update => true
  }

  /** A lock on one row of a stage, or on one key. */
  datatype Request = Request(stage: Stage, key: nat, mode: Mode)

  type Script = seq<Request>

  predicate SameLock(a: Request, b: Request) {
    a.stage == b.stage && a.key == b.key
  }

  /** The modes are graded. Two conflict when their grades come to three. */
  function Strength(m: Mode): (n: nat)
    ensures n <= 3
  {
    match m
    case KeyShare => 0
    case Share => 1
    case NoKeyUpdate => 2
    case Update => 3
  }

  lemma ConflictsByStrength(a: Mode, b: Mode)
    ensures Conflicts(a, b) <==> Strength(a) + Strength(b) >= 3
  {
  }

  /** Holding one mode, the other is not worth waiting for: it conflicts with nothing more. */
  predicate Covers(held: Mode, wanted: Mode) {
    forall other: Mode :: Conflicts(other, wanted) ==> Conflicts(other, held)
  }

  lemma CoversByStrength(held: Mode, wanted: Mode)
    ensures Covers(held, wanted) <==> Strength(held) >= Strength(wanted)
  {
    assert Conflicts(KeyShare, wanted) <==> wanted.Update?;
    assert Conflicts(Share, wanted) <==> wanted.NoKeyUpdate? || wanted.Update?;
    assert Conflicts(NoKeyUpdate, wanted) <==> !wanted.KeyShare?;
  }

  /** A request for what the script has locked already, in a mode that covers it. */
  predicate Reentrant(script: Script, j: nat)
    requires j < |script|
  {
    exists i :: 0 <= i < j && SameLock(script[i], script[j]) && Covers(script[i].mode, script[j].mode)
  }

  /** Every request is reentrant, or ranks above every request ahead of it. */
  predicate InLockOrder(script: Script) {
    forall j :: 0 <= j < |script| ==>
      Reentrant(script, j) || forall i :: 0 <= i < j ==> Rank(script[i].stage) < Rank(script[j].stage)
  }

  /** The same, but for upgrades of a lock that ranks as high as any the script holds. */
  predicate NeverBack(script: Script) {
    forall j :: 0 <= j < |script| ==>
      Reentrant(script, j) ||
      forall i :: 0 <= i < j ==> Rank(script[i].stage) < Rank(script[j].stage) || SameLock(script[i], script[j])
  }

  type Txn = nat

  /** `done` requests are granted; the next waits since `ticket`. Locks are kept to the end. */
  datatype Progress = Progress(script: Script, done: nat, ticket: Option<nat>, ended: bool)
  datatype State = State(txns: map<Txn, Progress>, nextTicket: nat)

  datatype Action = Arrive(txn: Txn) | Grant(txn: Txn) | End(txn: Txn)

  predicate Live(s: State, t: Txn) {
    t in s.txns && !s.txns[t].ended && s.txns[t].done <= |s.txns[t].script|
  }

  predicate Waiting(s: State, t: Txn) {
    Live(s, t) && s.txns[t].done < |s.txns[t].script| && s.txns[t].ticket.Some?
  }

  function Wanted(s: State, t: Txn): Request
    requires Waiting(s, t)
  {
    s.txns[t].script[s.txns[t].done]
  }

  predicate HoldsSame(s: State, t: Txn, r: Request)
    requires Live(s, t)
  {
    exists i :: 0 <= i < s.txns[t].done && SameLock(s.txns[t].script[i], r)
  }

  /** `u` holds a lock that keeps `r` from being granted. */
  predicate HoldsAgainst(s: State, u: Txn, r: Request)
    requires Live(s, u)
  {
    exists i :: 0 <= i < s.txns[u].done &&
      SameLock(s.txns[u].script[i], r) && Conflicts(r.mode, s.txns[u].script[i].mode)
  }

  /**
   * `t` waits for `u`: for a lock `u` holds, or, unless `t` already has some lock there, for its
   * turn behind `u` in the queue.
   */
  predicate WaitsFor(s: State, t: Txn, u: Txn) {
    && t != u && Waiting(s, t) && Live(s, u)
    && (|| HoldsAgainst(s, u, Wanted(s, t))
        || (&& Waiting(s, u) && SameLock(Wanted(s, t), Wanted(s, u))
            && s.txns[u].ticket.value < s.txns[t].ticket.value
            && Conflicts(Wanted(s, t).mode, Wanted(s, u).mode)
            && !HoldsSame(s, t, Wanted(s, t))))
  }

  predicate Blocked(s: State, t: Txn) {
    exists u <- s.txns :: WaitsFor(s, t, u)
  }

  predicate Enabled(s: State, a: Action) {
    match a
    case Arrive(t) => Live(s, t) && s.txns[t].done < |s.txns[t].script| && s.txns[t].ticket.None?
    case Grant(t) => Waiting(s, t) && !Blocked(s, t)
    case End(t) => Live(s, t)   // a commit, or at any other point a rollback
  }

  function Apply(s: State, a: Action): State
    requires Enabled(s, a)
  {
    var p := s.txns[a.txn];
    match a
    case Arrive(t) => State(s.txns[t := p.(ticket := Some(s.nextTicket))], s.nextTicket + 1)
    case Grant(t) => s.(txns := s.txns[t := p.(done := p.done + 1, ticket := None)])
    case End(t) => s.(txns := s.txns[t := p.(ended := true)])
  }

  predicate Init(s: State) {
    forall t <- s.txns :: s.txns[t].done == 0 && s.txns[t].ticket.None? && !s.txns[t].ended
  }

  ghost predicate Run(states: seq<State>, actions: seq<Action>) {
    && |states| == |actions| + 1
    && Init(states[0])
    && forall i :: 0 <= i < |actions| ==>
        Enabled(states[i], actions[i]) && states[i + 1] == Apply(states[i], actions[i])
  }

  /** No two live transactions hold conflicting locks. */
  ghost predicate Compatible(s: State) {
    forall t, u, i, j ::
      && Live(s, t) && Live(s, u) && t != u
      && 0 <= i < s.txns[t].done && 0 <= j < s.txns[u].done
      && SameLock(s.txns[t].script[i], s.txns[u].script[j]) ==>
        !Conflicts(s.txns[t].script[i].mode, s.txns[u].script[j].mode)
  }

  /** Each waits under a ticket of its own. */
  ghost predicate TicketsApart(s: State) {
    && (forall t <- s.txns :: s.txns[t].ticket.Some? ==> s.txns[t].ticket.value < s.nextTicket)
    && (forall t, u :: Waiting(s, t) && Waiting(s, u) && s.txns[t].ticket == s.txns[u].ticket ==> t == u)
  }

  ghost predicate Consistent(s: State) {
    && (forall t <- s.txns :: s.txns[t].done <= |s.txns[t].script|)
    && Compatible(s) && TicketsApart(s)
  }

  lemma ConflictsIsSymmetric(a: Mode, b: Mode)
    ensures Conflicts(a, b) <==> Conflicts(b, a)
  {
  }

  /** A grant conflicts with nothing held, since nothing held kept it waiting. */
  lemma GrantCompatible(s: State, t: Txn, u: Txn, j: nat)
    requires Waiting(s, t) && !Blocked(s, t) && Live(s, u) && t != u && j < s.txns[u].done
    requires SameLock(Wanted(s, t), s.txns[u].script[j])
    ensures !Conflicts(Wanted(s, t).mode, s.txns[u].script[j].mode)
  {
    assert !WaitsFor(s, t, u);
  }

  lemma StepCompatible(s: State, a: Action)
    requires Compatible(s) && Enabled(s, a)
    ensures Compatible(Apply(s, a))
  {
    var n := Apply(s, a);
    forall t, u, i, j | Live(n, t) && Live(n, u) && t != u
      && 0 <= i < n.txns[t].done && 0 <= j < n.txns[u].done
      && SameLock(n.txns[t].script[i], n.txns[u].script[j])
      ensures !Conflicts(n.txns[t].script[i].mode, n.txns[u].script[j].mode)
    {
      var x, y := n.txns[t].script[i], n.txns[u].script[j];
      if a == Grant(t) && i == s.txns[t].done {
        GrantCompatible(s, t, u, j);
      } else if a == Grant(u) && j == s.txns[u].done {
        GrantCompatible(s, u, t, i);
        ConflictsIsSymmetric(x.mode, y.mode);
      } else {
        assert Live(s, t) && Live(s, u);
      }
    }
  }

  lemma StepConsistent(s: State, a: Action)
    requires Consistent(s) && Enabled(s, a)
    ensures Consistent(Apply(s, a))
  {
    StepCompatible(s, a);
  }

  /** A transaction's script is fixed. */
  predicate SameScripts(s: State, n: State) {
    n.txns.Keys == s.txns.Keys && forall t <- s.txns :: n.txns[t].script == s.txns[t].script
  }

  lemma StepKeepsScripts(s: State, a: Action)
    requires Enabled(s, a)
    ensures SameScripts(s, Apply(s, a))
  {
  }

  lemma InitConsistent(s: State)
    requires Init(s)
    ensures Consistent(s)
  {
  }

  lemma {:induction false} RunConsistent(states: seq<State>, actions: seq<Action>, k: nat)
    requires Run(states, actions) && k < |states|
    ensures Consistent(states[k]) && SameScripts(states[0], states[k])
  {
    if k == 0 {
      InitConsistent(states[0]);
    } else {
      RunConsistent(states, actions, k - 1);
      var s, a := states[k - 1], actions[k - 1];
      assert Enabled(s, a) && states[k] == Apply(s, a);
      StepConsistent(s, a);
      StepKeepsScripts(s, a);
    }
  }

  predicate AllInOrder(s: State) {
    forall t <- s.txns :: InLockOrder(s.txns[t].script)
  }

  /** What a lock already held covers is never waited for. */
  lemma ReentrantNeverWaits(s: State, t: Txn, u: Txn)
    requires Consistent(s) && Waiting(s, t) && Reentrant(s.txns[t].script, s.txns[t].done)
    ensures !WaitsFor(s, t, u)
  {
    var r := Wanted(s, t);
    var i :| 0 <= i < s.txns[t].done && SameLock(s.txns[t].script[i], r) && Covers(s.txns[t].script[i].mode, r.mode);
    assert HoldsSame(s, t, r);
  }

  /** Along every wait, the stage waited for rises, or the place in its queue moves up. */
  predicate Ahead(s: State, t: Txn, u: Txn)
    requires Waiting(s, t) && Waiting(s, u)
  {
    var a, b := Rank(Wanted(s, t).stage), Rank(Wanted(s, u).stage);
    a < b || (a == b && s.txns[u].ticket.value < s.txns[t].ticket.value)
  }

  lemma WaitsMoveAhead(s: State, t: Txn, u: Txn, v: Txn)
    requires Consistent(s) && AllInOrder(s) && WaitsFor(s, t, u) && WaitsFor(s, u, v)
    ensures Ahead(s, t, u)
  {
    if Reentrant(s.txns[u].script, s.txns[u].done) {
      ReentrantNeverWaits(s, u, v);
    }
  }

  /** The place after `i` in a ring of `n`. */
  function Succ(n: nat, i: nat): (j: nat)
    requires i < n
    ensures j < n
  {
    if i + 1 < n then i + 1 else 0
  }

  lemma {:induction false} RisesTo(f: seq<nat>, i: nat, j: nat)
    requires i <= j < |f| && forall k {:trigger Succ(|f|, k)} :: 0 <= k < |f| ==> f[k] <= f[Succ(|f|, k)]
    ensures f[i] <= f[j]
    decreases j - i
  {
    if i < j {
      RisesTo(f, i, j - 1);
      assert Succ(|f|, j - 1) == j;
    }
  }

  /** What never falls around a ring stays the same. */
  lemma LevelAround(f: seq<nat>, i: nat)
    requires i < |f| && forall k {:trigger Succ(|f|, k)} :: 0 <= k < |f| ==> f[k] <= f[Succ(|f|, k)]
    ensures f[i] == f[0]
  {
    RisesTo(f, 0, i);
    RisesTo(f, i, |f| - 1);
    assert Succ(|f|, |f| - 1) == 0;
  }

  /** Nothing falls all the way around a ring. */
  lemma CannotFallAround(f: seq<nat>)
    requires f != []
    ensures exists k :: 0 <= k < |f| && f[k] <= f[Succ(|f|, k)]
  {
    assert Succ(1, 0) == 0;
    if |f| > 1 && forall k :: 0 <= k < |f| ==> f[Succ(|f|, k)] < f[k] {
      var back := seq(|f|, k requires 0 <= k < |f| => f[|f| - 1 - k]);
      forall k | 0 <= k < |f| ensures back[k] <= back[Succ(|f|, k)] {
        var l := |f| - 1 - Succ(|f|, k);
        assert Succ(|f|, l) == |f| - 1 - k;
      }
      LevelAround(back, 1);
      assert Succ(|f|, |f| - 2) == |f| - 1;
    }
  }

  /** A deadlock: each transaction waits for the next one, and the last for the first. */
  predicate Ring(s: State, ring: seq<Txn>) {
    ring != [] && forall i {:trigger Succ(|ring|, i)} :: 0 <= i < |ring| ==> WaitsFor(s, ring[i], ring[Succ(|ring|, i)])
  }

  /** The rank of the stage that `t` waits for, and its place in the queue there. */
  function WantedRank(s: State, t: Txn): nat {
    if Waiting(s, t) then Rank(Wanted(s, t).stage) else 0
  }

  function Place(s: State, t: Txn): nat {
    if Waiting(s, t) then s.txns[t].ticket.value else 0
  }

  predicate AllNeverBack(s: State) {
    forall t <- s.txns :: NeverBack(s.txns[t].script)
  }

  /** Waits to have a lock it holds in a stronger mode. */
  predicate Upgrading(s: State, t: Txn) {
    Waiting(s, t) && HoldsSame(s, t, Wanted(s, t)) && !Reentrant(s.txns[t].script, s.txns[t].done)
  }

  /** `t` waits to upgrade a lock that `u` holds as well, and waits to upgrade. */
  predicate Bars(s: State, t: Txn, u: Txn) {
    && t != u && Upgrading(s, t) && Upgrading(s, u) && SameLock(Wanted(s, t), Wanted(s, u))
    && HoldsAgainst(s, u, Wanted(s, t))
  }

  /** Along waits the stage waited for never falls; where it stays, the lock does. */
  lemma WaitsNeverFall(s: State, t: Txn, u: Txn, v: Txn)
    requires Consistent(s) && AllNeverBack(s) && WaitsFor(s, t, u) && WaitsFor(s, u, v)
    ensures WantedRank(s, t) <= WantedRank(s, u)
    ensures WantedRank(s, t) == WantedRank(s, u) ==>
              && (Upgrading(s, t) ==> Bars(s, t, u))
              && (Upgrading(s, u) || Place(s, u) < Place(s, t))
  {
    if Reentrant(s.txns[u].script, s.txns[u].done) {
      ReentrantNeverWaits(s, u, v);
    }
    if HoldsAgainst(s, u, Wanted(s, t)) {
      var i :| 0 <= i < s.txns[u].done && SameLock(s.txns[u].script[i], Wanted(s, t)) &&
               Conflicts(Wanted(s, t).mode, s.txns[u].script[i].mode);
      assert Rank(s.txns[u].script[i].stage) < Rank(Wanted(s, u).stage) || SameLock(s.txns[u].script[i], Wanted(s, u));
    }
  }

  lemma RankRises(s: State, ring: seq<Txn>, i: nat)
    requires Consistent(s) && AllNeverBack(s) && Ring(s, ring) && i < |ring|
    ensures WantedRank(s, ring[i]) <= WantedRank(s, ring[Succ(|ring|, i)])
  {
    var j := Succ(|ring|, i);
    WaitsNeverFall(s, ring[i], ring[j], ring[Succ(|ring|, j)]);
  }

  lemma RanksAreEqual(s: State, ring: seq<Txn>, i: nat)
    requires Consistent(s) && AllNeverBack(s) && Ring(s, ring) && i < |ring|
    ensures WantedRank(s, ring[i]) == WantedRank(s, ring[0])
  {
    var ranks := seq(|ring|, k requires 0 <= k < |ring| => WantedRank(s, ring[k]));
    forall k | 0 <= k < |ring| ensures ranks[k] <= ranks[Succ(|ranks|, k)] {
      RankRises(s, ring, k);
    }
    LevelAround(ranks, i);
  }

  /** One step along a ring: it stays with a lock, and once at an upgrade it stays with upgrades. */
  lemma RingStays(s: State, ring: seq<Txn>, i: nat)
    requires Consistent(s) && AllNeverBack(s) && Ring(s, ring) && i < |ring|
    ensures var t, u := ring[i], ring[Succ(|ring|, i)];
            && (Upgrading(s, t) ==> Bars(s, t, u))
            && (Upgrading(s, u) || Place(s, u) < Place(s, t))
  {
    var j := Succ(|ring|, i);
    RanksAreEqual(s, ring, i);
    RanksAreEqual(s, ring, j);
    WaitsNeverFall(s, ring[i], ring[j], ring[Succ(|ring|, j)]);
  }

  lemma SomeUpgrade(s: State, ring: seq<Txn>)
    requires Consistent(s) && AllNeverBack(s) && Ring(s, ring)
    ensures exists k :: 0 <= k < |ring| && Upgrading(s, ring[k])
  {
    var places := seq(|ring|, k requires 0 <= k < |ring| => Place(s, ring[k]));
    CannotFallAround(places);
    var k :| 0 <= k < |places| && places[k] <= places[Succ(|places|, k)];
    RingStays(s, ring, k);
  }

  /** A ring of scripts that never go back has upgrades in it: one bars another, which bars a third. */
  lemma RingIsOfUpgrades(s: State, ring: seq<Txn>) returns (t: Txn, u: Txn, v: Txn)
    requires Consistent(s) && AllNeverBack(s) && Ring(s, ring)
    ensures Bars(s, t, u) && Bars(s, u, v)
  {
    SomeUpgrade(s, ring);
    var k :| 0 <= k < |ring| && Upgrading(s, ring[k]);
    var l := Succ(|ring|, k);
    RingStays(s, ring, k);
    RingStays(s, ring, l);
    t, u, v := ring[k], ring[l], ring[Succ(|ring|, l)];
  }

  lemma InOrderNeverUpgrades(s: State, t: Txn)
    requires t in s.txns && InLockOrder(s.txns[t].script)
    ensures NeverBack(s.txns[t].script) && !Upgrading(s, t)
  {
    assert Waiting(s, t) && !Reentrant(s.txns[t].script, s.txns[t].done) ==>
             forall i :: 0 <= i < s.txns[t].done ==> Rank(s.txns[t].script[i].stage) < Rank(Wanted(s, t).stage);
  }

  /**
   * Deadlock freedom: any number of concurrent transactions whose scripts are in order, over every
   * interleaving, with rollbacks anywhere, never wait for each other in a ring. Nor do they beside
   * one whose script only never goes back.
   */
  lemma InOrderNeverDeadlocks(states: seq<State>, actions: seq<Action>, k: nat, ring: seq<Txn>, odd: Txn)
    requires Run(states, actions) && k < |states|
    requires forall t <- states[0].txns :: if t == odd then NeverBack(states[0].txns[t].script)
                                           else InLockOrder(states[0].txns[t].script)
    ensures !Ring(states[k], ring)
  {
    RunConsistent(states, actions, k);
    var s := states[k];
    forall t | t in s.txns && t != odd ensures NeverBack(s.txns[t].script) && !Upgrading(s, t) {
      InOrderNeverUpgrades(s, t);
    }
    assert AllNeverBack(s);
    if Ring(s, ring) {
      var t, u, v := RingIsOfUpgrades(s, ring);
      assert false;
    }
  }

  /** Of any waiting transactions, some is behind none: no other is ahead of it. */
  lemma {:induction false} FurthestExists(s: State, ts: set<Txn>) returns (t: Txn)
    requires ts != {} && forall u <- ts :: Waiting(s, u)
    ensures t in ts && forall u <- ts :: !Ahead(s, t, u)
    decreases ts
  {
    var first :| first in ts;
    t := first;
    if ts != {first} {
      var u := FurthestExists(s, ts - {first});
      assert forall w <- ts :: w == first || w in ts - {first};
      if Ahead(s, first, u) {
        t := u;
      }
    }
  }

  /** A step that brings a transaction on: not a rollback. */
  predicate Useful(s: State, a: Action) {
    Enabled(s, a) && (a.End? ==> s.txns[a.txn].done == |s.txns[a.txn].script|)
  }

  /** So something can always go on: a live transaction may ask, be granted its lock, or commit. */
  lemma SomethingGoesOn(s: State, live: Txn)
    requires Consistent(s) && AllInOrder(s) && Live(s, live)
    ensures exists a :: Useful(s, a)
  {
    if t :| t in s.txns && Live(s, t) && !Waiting(s, t) {
      assert Useful(s, if s.txns[t].done == |s.txns[t].script| then End(t) else Arrive(t));
    } else {
      var waiting := set t | t in s.txns && Live(s, t);
      assert live in waiting;
      var t := FurthestExists(s, waiting);
      if Blocked(s, t) {
        var u :| u in s.txns && WaitsFor(s, t, u);
        if Blocked(s, u) {
          var v :| v in s.txns && WaitsFor(s, u, v);
          WaitsMoveAhead(s, t, u, v);
        } else {
          assert Useful(s, Grant(u));
        }
      } else {
        assert Useful(s, Grant(t));
      }
    }
  }

  /** One row of each stage. A row may be locked any number of times. */
  predicate OneRowPerStage(script: Script) {
    forall i, j :: 0 <= i < j < |script| && script[i].stage == script[j].stage ==> SameLock(script[i], script[j])
  }

  /** Two transactions, 0 and 1, and how far each has come. */
  function Two(a: Script, doneA: nat, ticketA: Option<nat>, b: Script, doneB: nat, ticketB: Option<nat>,
      next: nat): State {
    State(map[0 := Progress(a, doneA, ticketA, false), 1 := Progress(b, doneB, ticketB, false)], next)
  }

  /** Whether two transactions with these scripts can run into a deadlock. */
  ghost predicate CanMeet(a: Script, b: Script) {
    exists states: seq<State>, actions: seq<Action>, ring: seq<Txn> ::
      Run(states, actions) && states[0] == Two(a, 0, None, b, 0, None, 0) && Ring(states[|actions|], ring)
  }

  lemma StepOn(states: seq<State>, actions: seq<Action>, a: Action, n: State)
    returns (longer: seq<State>, more: seq<Action>)
    requires Run(states, actions) && Enabled(states[|actions|], a) && n == Apply(states[|actions|], a)
    ensures Run(longer, more) && longer[0] == states[0] && longer[|more|] == n
  {
    longer, more := states + [n], actions + [a];
  }

  /** Nothing that `a` has locked in its first `i` requests is in the way of `b`'s first `j`. */
  predicate Apart(a: Script, i: nat, b: Script, j: nat)
    requires i <= |a| && j <= |b|
  {
    forall k, l :: 0 <= k < i && 0 <= l < j && SameLock(a[k], b[l]) ==> !Conflicts(b[l].mode, a[k].mode)
  }

  lemma FirstGoesOn(states: seq<State>, actions: seq<Action>, a: Script, i: nat, b: Script)
    returns (longer: seq<State>, more: seq<Action>)
    requires Run(states, actions) && i < |a| && states[|actions|] == Two(a, i, None, b, 0, None, i)
    ensures Run(longer, more) && longer[0] == states[0] && longer[|more|] == Two(a, i + 1, None, b, 0, None, i + 1)
  {
    var asked := Two(a, i, Some(i), b, 0, None, i + 1);
    longer, more := StepOn(states, actions, Arrive(0), asked);
    forall u ensures !WaitsFor(asked, 0, u) {
    }
    longer, more := StepOn(longer, more, Grant(0), Two(a, i + 1, None, b, 0, None, i + 1));
  }

  lemma SecondGoesOn(states: seq<State>, actions: seq<Action>, a: Script, i: nat, b: Script, j: nat)
    returns (longer: seq<State>, more: seq<Action>)
    requires Run(states, actions) && i <= |a| && j < |b| && Apart(a, i, b, j + 1)
    requires states[|actions|] == Two(a, i, None, b, j, None, i + j)
    ensures Run(longer, more) && longer[0] == states[0] && longer[|more|] == Two(a, i, None, b, j + 1, None, i + j + 1)
  {
    var asked := Two(a, i, None, b, j, Some(i + j), i + j + 1);
    longer, more := StepOn(states, actions, Arrive(1), asked);
    forall u ensures !WaitsFor(asked, 1, u) {
    }
    longer, more := StepOn(longer, more, Grant(1), Two(a, i, None, b, j + 1, None, i + j + 1));
  }

  /** `a` gets its first `i` locks, and then `b` its first `j`. */
  lemma {:induction false} BothGet(a: Script, i: nat, b: Script, j: nat)
    returns (states: seq<State>, actions: seq<Action>)
    requires i <= |a| && j <= |b| && Apart(a, i, b, j)
    ensures Run(states, actions) && states[0] == Two(a, 0, None, b, 0, None, 0)
    ensures states[|actions|] == Two(a, i, None, b, j, None, i + j)
    decreases j, i
  {
    if j > 0 {
      states, actions := BothGet(a, i, b, j - 1);
      states, actions := SecondGoesOn(states, actions, a, i, b, j - 1);
    } else if i > 0 {
      states, actions := BothGet(a, i - 1, b, 0);
      states, actions := FirstGoesOn(states, actions, a, i - 1, b);
    } else {
      states, actions := [Two(a, 0, None, b, 0, None, 0)], [];
    }
  }

  predicate InTheWay(a: Script, i: nat, r: Request)
    requires i <= |a|
  {
    exists k :: 0 <= k < i && SameLock(a[k], r) && Conflicts(r.mode, a[k].mode)
  }

  /** Each holds what the other asks for next. */
  lemma Collide(a: Script, i: nat, b: Script, j: nat)
    requires i < |a| && j < |b| && Apart(a, i, b, j) && InTheWay(a, i, b[j]) && InTheWay(b, j, a[i])
    ensures CanMeet(a, b)
  {
    var states, actions := BothGet(a, i, b, j);
    var n := i + j;
    states, actions := StepOn(states, actions, Arrive(0), Two(a, i, Some(n), b, j, None, n + 1));
    states, actions := StepOn(states, actions, Arrive(1), Two(a, i, Some(n), b, j, Some(n + 1), n + 2));
    var s := states[|actions|];
    assert HoldsAgainst(s, 1, Wanted(s, 0)) && HoldsAgainst(s, 0, Wanted(s, 1));
    assert WaitsFor(s, 0, 1) && WaitsFor(s, 1, 0);
    assert Succ(2, 0) == 1 && Succ(2, 1) == 0;
    assert Ring(s, [0, 1]);
  }

  /** The strongest mode, by its grade, in which a request's lock is held already; -1 for none. */
  function HeldBefore(script: Script, j: nat, r: Request): (h: int)
    requires j <= |script|
    ensures -1 <= h <= 3
    ensures forall i :: 0 <= i < j && SameLock(script[i], r) ==> Strength(script[i].mode) <= h
    ensures h >= 0 ==> exists i :: 0 <= i < j && SameLock(script[i], r) && Strength(script[i].mode) == h
  {
    if j == 0 then -1
    else
      var before := HeldBefore(script, j - 1, r);
      var mode := script[j - 1].mode;
      if SameLock(script[j - 1], r) && Strength(mode) > before then Strength(mode) else before
  }

  function Graded(n: int): (m: Mode)
    requires 0 <= n <= 3
    ensures Strength(m) == n
  {
    if n == 0 then KeyShare else if n == 1 then Share else if n == 2 then NoKeyUpdate else Update
  }

  lemma UncoveredIsStronger(script: Script, j: nat)
    requires j < |script| && !Reentrant(script, j)
    ensures HeldBefore(script, j, script[j]) < Strength(script[j].mode)
  {
    var h := HeldBefore(script, j, script[j]);
    if h >= 0 {
      var i :| 0 <= i < j && SameLock(script[i], script[j]) && Strength(script[i].mode) == h;
      CoversByStrength(script[i].mode, script[j].mode);
    }
  }

  /**
   * A script that goes back deadlocks with one in order: the other takes the lock it goes back for,
   * in a mode that what is held there allows, and then asks for the later lock.
   */
  lemma GoingBackCanDeadlock(script: Script, i: nat, j: nat)
    requires i < j < |script| && Rank(script[j].stage) < Rank(script[i].stage) && !Reentrant(script, j)
    ensures exists partner: Script :: InLockOrder(partner) && CanMeet(script, partner)
  {
    UncoveredIsStronger(script, j);
    var h := HeldBefore(script, j, script[j]);
    var partner := [Request(script[j].stage, script[j].key, Graded(2 - h)),
                    Request(script[i].stage, script[i].key, Update)];
    forall k, l | 0 <= k < j && 0 <= l < 1 && SameLock(script[k], partner[l])
      ensures !Conflicts(partner[l].mode, script[k].mode)
    {
      assert SameLock(script[k], script[j]);
      ConflictsByStrength(partner[l].mode, script[k].mode);
    }
    assert SameLock(script[i], partner[1]) && Conflicts(partner[1].mode, script[i].mode);
    ConflictsByStrength(script[j].mode, partner[0].mode);
    assert SameLock(partner[0], script[j]);
    Collide(script, j, partner, 1);
  }

  /**
   * The order is exactly what is needed beside scripts in order: a script with one row of each
   * stage can deadlock with one of them if and only if it goes back.
   */
  lemma OrderIsExact(script: Script)
    requires OneRowPerStage(script)
    ensures NeverBack(script) <==> !exists partner: Script :: InLockOrder(partner) && CanMeet(script, partner)
  {
    if NeverBack(script) {
      forall partner: Script | InLockOrder(partner) && CanMeet(script, partner) ensures false {
        var states: seq<State>, actions: seq<Action>, ring: seq<Txn> :|
          Run(states, actions) && states[0] == Two(script, 0, None, partner, 0, None, 0) &&
              Ring(states[|actions|], ring);
        InOrderNeverDeadlocks(states, actions, |actions|, ring, 0);
      }
    } else {
      var j :| 0 <= j < |script| && !Reentrant(script, j) &&
               !forall i :: 0 <= i < j ==>
                 Rank(script[i].stage) < Rank(script[j].stage) || SameLock(script[i], script[j]);
      var i :| 0 <= i < j && Rank(script[i].stage) >= Rank(script[j].stage) && !SameLock(script[i], script[j]);
      assert CLAIMED_LOCK_ORDER[Rank(script[i].stage)] == script[i].stage;
      GoingBackCanDeadlock(script, i, j);
    }
  }
}
