/**
 * How exact the claim check of shipped-function.ts is. Whether some execution reaches a write before
 * a claim is decided, for every file, scope and write, by a walk over the syntax that knows how
 * statements end. The check decides the same wherever what is ahead of the write claims on every
 * path as the check reads it, or lets control through without a claim.
 */
module ClaimExactness {
  import opened Prelude
  import opened ClaimAnalysis
  import opened ClaimSemantics
  import opened ClaimSoundness
  import opened ClaimDelegates
  import opened ClaimOutcomes
  import opened ClaimReplay
  import opened ClaimSure
  import opened ClaimWitnesses

  /** Whether control can come, without a claim, from the beginning of `s` to the child number `i`. */
  predicate Enters(s: Stmt, i: nat, sure: set<string>) {
    && Child(s, i).Some?
    && match s
       case Block(body) => forall j :: 0 <= j < i ==> Normal in EndsOf(body[j], sure)
       case Clause(_, body) => forall j :: 0 <= j < i ==> Normal in EndsOf(body[j], sure)
       case If(test, _, _) => !Mentions(test, sure)
       case Switch(subject, _) => !Mentions(subject, sure)
       case Try(a, _, _) => i == 1 ==> Threw in EndsOf(a, sure)
       case Loop(head, _) =>
         && (head.bodyFirst || !Mentions(head.first, sure))
         && (i == 1 ==> GoesOn(s, sure))
       case _ => true
  }

  /** The node has an expression of its own, and begins with it. */
  predicate StartsWithText(s: Stmt) {
    HasText(s) || (s.Loop? && !s.head.bodyFirst)
  }

  /** Whether control can come so to an expression of the node at `path`. */
  predicate Reached(s: Stmt, path: seq<nat>, sure: set<string>)
    decreases |path|
  {
    if path == [] then StartsWithText(s)
    else Enters(s, path[0], sure) && Reached(Child(s, path[0]).value, path[1..], sure)
  }

  // ---- what is not reached is guarded ----

  /** Whether control can come so from number `i` of a list to the node. */
  predicate ListReached(whole: seq<Stmt>, i: nat, path: seq<nat>, sure: set<string>) {
    && path != [] && i <= path[0] < |whole|
    && (forall j :: i <= j < path[0] ==> Normal in EndsOf(whole[j], sure))
    && Reached(whole[path[0]], path[1..], sure)
  }

  lemma {:induction false} UnreachedIsGuarded(file: File, s: Stmt, sure: set<string>, path: seq<nat>, st: St)
    requires SoundKnown(file, sure) && !st.unguarded && (st.claimed || !Reached(s, path, sure))
    ensures !Exec(file, s, Some(path), st).st.unguarded
    decreases |st.choices|, s, 1
  {
    if st.claimed {
      return;
    }
    match s
    case Block(body) => ListUnreached(file, body, body, 0, sure, path, st);
    case Clause(_, body) => ListUnreached(file, body, body, 0, sure, path, st);
    case If(_, _, _) => IfUnreached(file, s, sure, path, st);
    case Try(_, _, _) => TryUnreached(file, s, sure, path, st);
    case Loop(_, _) => LoopUnreached(file, s, sure, path, st);
    case Switch(_, _) => SwitchUnreached(file, s, sure, path, st);
    case Labeled(_, inner) =>
      if path != [] && path[0] == 0 {
        UnreachedIsGuarded(file, inner, sure, path[1..], st);
      }
    case _ =>
  }

  lemma SoundIsSoundBelow(file: File, sure: set<string>, n: nat)
    requires SoundKnown(file, sure)
    ensures SoundBelow(file, sure, n) && sure <= file.Keys
  {
    forall name, st: St | name in sure && name in file && |st.choices| < n
      ensures var r := Exec(file, file[name], None, st); r.outcome.Threw? || r.outcome.Cut? || r.st.claimed
    {
      assert SoundDelegate(file, name);
    }
  }

  lemma Foreseen(file: File, s: Stmt, sure: set<string>, target: Target, st: St)
    requires SoundKnown(file, sure)
    ensures var r := Exec(file, s, target, st);
            !r.st.claimed && !r.outcome.Cut? ==> r.outcome in EndsOf(s, sure)
  {
    SoundIsSoundBelow(file, sure, |st.choices|);
    EndForeseen(file, s, sure, target, st, |st.choices|);
  }

  lemma ForeseenText(file: File, text: Expr, sure: set<string>, target: Target, st: St)
    requires SoundKnown(file, sure) && Mentions(text, sure)
    ensures var r := Eval(file, text, target, st); r.outcome.Normal? ==> r.st.claimed
  {
    SoundIsSoundBelow(file, sure, |st.choices|);
    TextForeseen(file, text, sure, target, st, |st.choices|);
  }

  lemma {:induction false} IfUnreached(file: File, s: Stmt, sure: set<string>, path: seq<nat>, st: St)
    requires s.If? && SoundKnown(file, sure) && !st.unguarded && !Reached(s, path, sure)
    ensures !Exec(file, s, Some(path), st).st.unguarded
    decreases |st.choices|, s, 0
  {
    var r := Eval(file, s.test, Some(path), st);
    if Mentions(s.test, sure) {
      ForeseenText(file, s.test, sure, Some(path), st);
    }
    if r.outcome.Normal? && r.st.choices != [] {
      if path[0] == 0 {
        UnreachedIsGuarded(file, s.thenArm, sure, path[1..], Take(r.st));
      } else if path[0] == 1 && s.elseArm.Some? {
        UnreachedIsGuarded(file, s.elseArm.value, sure, path[1..], Take(r.st));
      }
    }
  }

  lemma {:induction false} TryUnreached(file: File, s: Stmt, sure: set<string>, path: seq<nat>, st: St)
    requires s.Try? && SoundKnown(file, sure) && !st.unguarded && !Reached(s, path, sure)
    ensures !Exec(file, s, Some(path), st).st.unguarded
    decreases |st.choices|, s, 0
  {
    if path != [] {
      var target := Some(path);
      var r := Exec(file, s.block, Below(target, 0), st);
      var caught := r.outcome.Threw? && s.handler.Some?;
      var h := if caught then Exec(file, s.handler.value, Below(target, 1), r.st) else r;
      if path[0] == 0 {
        UnreachedIsGuarded(file, s.block, sure, path[1..], st);
      } else if path[0] == 1 && caught {
        Foreseen(file, s.block, sure, None, st);
        UnreachedIsGuarded(file, s.handler.value, sure, path[1..], r.st);
      } else if path[0] == 2 && s.finalizer.Some? {
        UnreachedIsGuarded(file, s.finalizer.value, sure, path[1..], h.st);
      }
    }
  }

  lemma {:induction false} SwitchUnreached(file: File, s: Stmt, sure: set<string>, path: seq<nat>, st: St)
    requires s.Switch? && SoundKnown(file, sure) && !st.unguarded && !Reached(s, path, sure)
    ensures !Exec(file, s, Some(path), st).st.unguarded
    decreases |st.choices|, s, 0
  {
    var r := Eval(file, s.subject, Some(path), st);
    if Mentions(s.subject, sure) {
      ForeseenText(file, s.subject, sure, Some(path), st);
    }
    if r.outcome.Normal? && r.st.choices != [] && r.st.choices[0] < |s.clauses| {
      var entry := r.st.choices[0];
      ListUnreached(file, s.clauses, s.clauses[entry..], entry, sure, path, Take(r.st));
    }
  }

  lemma {:induction false} ListUnreached(
      file: File, whole: seq<Stmt>, body: seq<Stmt>, i: nat, sure: set<string>, path: seq<nat>, st: St)
    requires SoundKnown(file, sure) && i <= |whole| && body == whole[i..] && !st.unguarded
    requires st.claimed || !ListReached(whole, i, path, sure)
    ensures !ExecList(file, body, i, Some(path), st).st.unguarded
    decreases |st.choices|, body, 0
  {
    if body != [] && !st.claimed {
      var r := Exec(file, body[0], Below(Some(path), i), st);
      if path != [] && path[0] == i {
        UnreachedIsGuarded(file, body[0], sure, path[1..], st);
      }
      Foreseen(file, body[0], sure, Below(Some(path), i), st);
      if r.outcome.Normal? {
        ListUnreached(file, whole, body[1..], i + 1, sure, path, r.st);
      }
    }
  }

  lemma {:induction false} LoopUnreached(file: File, s: Stmt, sure: set<string>, path: seq<nat>, st: St)
    requires s.Loop? && SoundKnown(file, sure) && !st.unguarded && !Reached(s, path, sure)
    ensures !Exec(file, s, Some(path), st).st.unguarded
    decreases |st.choices|, s, 0
  {
    if s.head.bodyFirst {
      RoundsUnreached(file, s, false, sure, path, st);
    } else {
      if Mentions(s.head.first, sure) {
        ForeseenText(file, s.head.first, sure, Some(path), st);
      }
      var r := Eval(file, s.head.first, Some(path), st);
      if r.outcome.Normal? {
        RoundsUnreached(file, s, true, sure, path, r.st);
      }
    }
  }

  /** Whether control can come so from the beginning of a round to the node. */
  predicate RoundReached(s: Stmt, path: seq<nat>, sure: set<string>)
    requires s.Loop?
  {
    path != [] && Child(s, path[0]).Some? && (path[0] == 1 ==> GoesOn(s, sure)) &&
    Reached(Child(s, path[0]).value, path[1..], sure)
  }

  lemma {:induction false} RoundsUnreached(
      file: File, s: Stmt, mayEnd: bool, sure: set<string>, path: seq<nat>, st: St)
    requires s.Loop? && SoundKnown(file, sure) && !st.unguarded && (st.claimed || !RoundReached(s, path, sure))
    ensures !Iterate(file, s.head, s.inner, mayEnd, Some(path), st).st.unguarded
    decreases |st.choices|, s, -1
  {
    if st.choices != [] && st.choices[0] != 0 && !st.claimed {
      if path != [] && path[0] == 0 {
        UnreachedIsGuarded(file, s.inner, sure, path[1..], Take(st));
      }
      Foreseen(file, s.inner, sure, Below(Some(path), 0), Take(st));
      var r := Exec(file, s.inner, Below(Some(path), 0), Take(st));
      if GoesRound(r.outcome, s.head) {
        var e := Eval(file, s.head.again, Below(Some(path), 1), r.st);
        assert !e.st.unguarded;
        if e.outcome.Normal? {
          RoundsUnreached(file, s, true, sure, path, e.st);
        }
      }
    }
  }

  // ---- what is reached is not ----

  ghost predicate Unguarded(file: File, s: Stmt, path: seq<nat>, choices: seq<nat>) {
    Exec(file, s, Some(path), St(choices, false, false)).st.unguarded
  }

  /** Some execution comes to what is reached, without a claim. */
  lemma {:induction false} ReachesUnclaimed(file: File, s: Stmt, path: seq<nat>) returns (choices: seq<nat>)
    requires Reached(s, path, SoundNames(file))
    ensures Unguarded(file, s, path, choices)
    decreases |path|
  {
    if path == [] {
      choices := ReachedHere(file, s);
    } else {
      var child := Child(s, path[0]).value;
      var inner := ReachesUnclaimed(file, child, path[1..]);
      match s
      case Block(body) => choices := ListReaches(file, body, 0, path, inner);
        assert body[0..] == body;
      case Clause(_, body) => choices := ListReaches(file, body, 0, path, inner);
        assert body[0..] == body;
      case Try(_, _, _) => choices := TryReaches(file, s, path, inner);
      case Loop(_, _) => choices := LoopReaches(file, s, path, inner);
      case Labeled(_, _) => choices := inner;
      case If(_, _, _) => choices := IfReaches(file, s, path, inner);
      case Switch(_, _) => choices := SwitchReaches(file, s, path, inner);
    }
  }

  /** The write is in the node's own expression: it is reached, and then something throws. */
  lemma ReachedHere(file: File, s: Stmt) returns (choices: seq<nat>)
    requires StartsWithText(s)
    ensures Unguarded(file, s, [], choices)
  {
    var st := St([1], false, false);
    assert Reach(Take(st), Some([])).unguarded;
    choices := [1];
    assert forall text: Expr :: Eval(file, text, Some([]), st) == Res(Reach(Take(st), Some([])), Threw);
    assert Exec(file, s, Some([]), st).st.unguarded;
  }

  /** From number `i` of a list to the statement that holds the write. */
  lemma {:induction false} ListReaches(file: File, whole: seq<Stmt>, i: nat, path: seq<nat>, inner: seq<nat>)
    returns (choices: seq<nat>)
    requires path != [] && i <= path[0] < |whole| && Unguarded(file, whole[path[0]], path[1..], inner)
    requires forall j :: i <= j < path[0] ==> Normal in EndsOf(whole[j], SoundNames(file))
    ensures ExecList(file, whole[i..], i, Some(path), St(choices, false, false)).st.unguarded
    decreases path[0] - i
  {
    if i == path[0] {
      choices := inner;
    } else {
      var first := EndHappens(file, whole[i], SoundNames(file), Normal);
      var next := ListReaches(file, whole, i + 1, path, inner);
      choices := first + next;
      assert Exec(file, whole[i], None, St(first + next, false, false)) == Res(St(next, false, false), Normal);
    }
  }

  lemma LoopReaches(file: File, s: Stmt, path: seq<nat>, inner: seq<nat>) returns (choices: seq<nat>)
    requires s.Loop? && path != [] && Enters(s, path[0], SoundNames(file))
    requires Unguarded(file, Child(s, path[0]).value, path[1..], inner)
    ensures Unguarded(file, s, path, choices)
  {
    var round := if path[0] == 0 then [1] + inner else inner;
    if path[0] == 0 {
      BodyReaches(file, s, !s.head.bodyFirst, path, inner);
    } else {
      round := AgainReaches(file, s, !s.head.bodyFirst, path, inner);
    }
    choices := round;
    if !s.head.bodyFirst {
      var ofFirst := TextPasses(file, s.head.first, Some(path));
      choices := ofFirst + round;
      assert Eval(file, s.head.first, Some(path), St(choices, false, false)) == Res(St(round, false, false), Normal);
    }
  }

  ghost predicate RoundsUnguarded(file: File, s: Stmt, mayEnd: bool, path: seq<nat>, choices: seq<nat>)
    requires s.Loop?
  {
    Iterate(file, s.head, s.inner, mayEnd, Some(path), St(choices, false, false)).st.unguarded
  }

  lemma BodyReaches(file: File, s: Stmt, mayEnd: bool, path: seq<nat>, inner: seq<nat>)
    requires s.Loop? && path != [] && path[0] == 0 && Unguarded(file, s.inner, path[1..], inner)
    ensures RoundsUnguarded(file, s, mayEnd, path, [1] + inner)
  {
    assert Take(St([1] + inner, false, false)) == St(inner, false, false);
    assert Below(Some(path), 0) == Some(path[1..]);
  }

  lemma AgainReaches(file: File, s: Stmt, mayEnd: bool, path: seq<nat>, inner: seq<nat>) returns (choices: seq<nat>)
    requires s.Loop? && path != [] && path[0] == 1 && GoesOn(s, SoundNames(file))
    requires Unguarded(file, Leaf(s.head.again), path[1..], inner)
    ensures RoundsUnguarded(file, s, mayEnd, path, choices)
  {
    var goes: Outcome :| goes in EndsOf(s.inner, SoundNames(file)) && GoesRound(goes, s.head);
    var ofBody := EndHappens(file, s.inner, SoundNames(file), goes);
    choices := [1] + (ofBody + inner);
    assert Take(St(choices, false, false)) == St(ofBody + inner, false, false);
    assert Exec(file, s.inner, None, St(ofBody + inner, false, false)) == Res(St(inner, false, false), goes);
    assert Below(Some(path), 0) == None && Below(Some(path), 1) == Some(path[1..]);
    assert Exec(file, Leaf(s.head.again), Some(path[1..]), St(inner, false, false)) ==
           Eval(file, s.head.again, Some(path[1..]), St(inner, false, false));
  }

  lemma IfReaches(file: File, s: Stmt, path: seq<nat>, inner: seq<nat>) returns (choices: seq<nat>)
    requires s.If? && path != [] && Enters(s, path[0], SoundNames(file))
    requires Unguarded(file, Child(s, path[0]).value, path[1..], inner)
    ensures Unguarded(file, s, path, choices)
  {
    var ofTest := TextPasses(file, s.test, Some(path));
    choices := ofTest + ([path[0]] + inner);
    var st := St([path[0]] + inner, false, false);
    assert Eval(file, s.test, Some(path), St(choices, false, false)) == Res(st, Normal);
    assert Take(st) == St(inner, false, false) && Below(Some(path), path[0]) == Some(path[1..]);
  }

  lemma SwitchReaches(file: File, s: Stmt, path: seq<nat>, inner: seq<nat>) returns (choices: seq<nat>)
    requires s.Switch? && path != [] && Enters(s, path[0], SoundNames(file))
    requires Unguarded(file, Child(s, path[0]).value, path[1..], inner)
    ensures Unguarded(file, s, path, choices)
  {
    var ofSubject := TextPasses(file, s.subject, Some(path));
    var run := ListReaches(file, s.clauses, path[0], path, inner);
    choices := ofSubject + ([path[0]] + run);
    var st := St([path[0]] + run, false, false);
    assert Eval(file, s.subject, Some(path), St(choices, false, false)) == Res(st, Normal);
    assert Take(st) == St(run, false, false);
  }

  lemma TryReaches(file: File, s: Stmt, path: seq<nat>, inner: seq<nat>) returns (choices: seq<nat>)
    requires s.Try? && path != [] && Enters(s, path[0], SoundNames(file))
    requires Unguarded(file, Child(s, path[0]).value, path[1..], inner)
    ensures Unguarded(file, s, path, choices)
  {
    choices := inner;
    if path[0] == 1 {
      var ofBlock := EndHappens(file, s.block, SoundNames(file), Threw);
      choices := ofBlock + inner;
      assert Exec(file, s.block, None, St(choices, false, false)) == Res(St(inner, false, false), Threw);
    } else if path[0] == 2 {
      choices := FinallyReaches(file, s, path, inner);
    }
  }

  lemma FinallyReaches(file: File, s: Stmt, path: seq<nat>, inner: seq<nat>) returns (choices: seq<nat>)
    requires s.Try? && path != [] && path[0] == 2 && s.finalizer.Some?
    requires Unguarded(file, s.finalizer.value, path[1..], inner)
    ensures Unguarded(file, s, path, choices)
  {
    var o: Outcome :| o in EndsOfAttempt(s, SoundNames(file));
    var before := AttemptEnds(file, s, SoundNames(file), o);
    choices := before + inner;
    assert Attempt(file, s, St(choices, false, false)) == Res(St(inner, false, false), o);
    assert Below(Some(path), 0) == None && Below(Some(path), 1) == None && Below(Some(path), 2) == Some(path[1..]);
  }

  // ---- exactly ----

  /**
   * The exact condition, for every file, scope and write: no execution reaches the write before a
   * claim, if and only if the walk over the syntax does not.
   */
  lemma GuardedExactly(file: File, s: Stmt, path: seq<nat>)
    ensures Guarded(file, s, path) <==> !Reached(s, path, Sure(file))
  {
    SureIsSound(file);
    if Reached(s, path, Sure(file)) {
      var choices := ReachesUnclaimed(file, s, path);
      assert Unguarded(file, s, path, choices);
    } else {
      forall choices: seq<nat> ensures !Exec(file, s, Some(path), St(choices, false, false)).st.unguarded {
        UnreachedIsGuarded(file, s, Sure(file), path, St(choices, false, false));
      }
    }
  }

  /** What claims on every path, declared functions blanked, never ends normally without a claim. */
  lemma {:induction false} ClaimsEndsNotNormally(s: Stmt, sure: set<string>)
    requires ClaimsOnEveryPath(Blanked(s), sure)
    ensures Normal !in EndsOf(s, sure)
    decreases s, 1
  {
    match s
    case Block(body) => ListClaimsEndsNotNormally(body, sure);
    case If(_, a, b) =>
      ClaimsEndsNotNormally(a, sure);
      ClaimsEndsNotNormally(b.value, sure);
    case Try(a, h, _) =>
      ClaimsEndsNotNormally(a, sure);
      if h.Some? {
        ClaimsEndsNotNormally(h.value, sure);
      }
    case _ =>
  }

  lemma {:induction false} ListClaimsEndsNotNormally(body: seq<Stmt>, sure: set<string>)
    requires ListClaims(BlankedList(body), sure)
    ensures Normal !in EndsOfList(body, sure)
    decreases body, 0
  {
    assert BlankedList(body)[1..] == BlankedList(body[1..]);
    if ClaimsOnEveryPath(Blanked(body[0]), sure) {
      ClaimsEndsNotNormally(body[0], sure);
    } else {
      ListClaimsEndsNotNormally(body[1..], sure);
    }
  }

  /** It claims on every path, or some execution comes to its end without a claim. */
  predicate Plain(s: Stmt, sure: set<string>) {
    ClaimsOnEveryPath(Blanked(s), sure) || Normal in EndsOf(s, sure)
  }

  /**
   * All that is ahead of the node at `path` is plain: nothing there takes a claim on every path where
   * the check does not look for one, and nothing there bars the way.
   */
  predicate PlainAhead(s: Stmt, path: seq<nat>, sure: set<string>)
    decreases |path|
  {
    if path == [] then StartsWithText(s)
    else
      && Child(s, path[0]).Some?
      && PlainAhead(Child(s, path[0]).value, path[1..], sure)
      && match s
         case Block(body) => forall j :: 0 <= j < path[0] ==> Plain(body[j], sure)
         case Clause(_, body) => forall j :: 0 <= j < path[0] ==> Plain(body[j], sure)
         case If(test, _, _) => !Mentions(test, sure)
         case Switch(subject, _) => !Mentions(subject, sure)
         case Try(a, _, _) => path[0] == 1 ==> Threw in EndsOf(a, sure)
         case Loop(head, _) =>
           && (head.bodyFirst || !Mentions(head.first, sure))
           && (path[0] == 1 ==> GoesOn(s, sure))
         case _ => true
  }

  lemma {:induction false} PlainAheadIsReached(s: Stmt, path: seq<nat>, sure: set<string>)
    requires PlainAhead(s, path, sure)
    ensures Reached(s, path, sure) <==> !Dominated(Blanked(s), path, sure)
    decreases |path|
  {
    if path != [] {
      var child := Child(s, path[0]).value;
      assert Child(Blanked(s), path[0]) == Some(Blanked(child));
      PlainAheadIsReached(child, path[1..], sure);
      PrecededOrEntered(s, path[0], sure);
    }
  }

  lemma PrecededOrEntered(s: Stmt, i: nat, sure: set<string>)
    requires Child(s, i).Some? && (s.If? ==> !Mentions(s.test, sure)) && (s.Switch? ==> !Mentions(s.subject, sure))
    requires s.Block? || s.Clause? ==> forall j :: 0 <= j < i ==> Plain(s.body[j], sure)
    requires s.Try? && i == 1 ==> Threw in EndsOf(s.block, sure)
    requires s.Loop? ==>
               (s.head.bodyFirst || !Mentions(s.head.first, sure)) && (i == 1 ==> GoesOn(s, sure))
    ensures Enters(s, i, sure) <==> !PrecededByClaim(Blanked(s), i, sure)
  {
    if s.Block? || s.Clause? {
      assert StatementList(Blanked(s)) == Some(BlankedList(s.body));
      forall j | 0 <= j < i
        ensures Normal in EndsOf(s.body[j], sure) <==> !ClaimsOnEveryPath(BlankedList(s.body)[j], sure)
      {
        assert Plain(s.body[j], sure);
        if ClaimsOnEveryPath(Blanked(s.body[j]), sure) {
          ClaimsEndsNotNormally(s.body[j], sure);
        }
      }
    }
  }

  /**
   * Where all that is ahead of a write is plain, no execution reaches it before a claim if and only if
   * a claim dominates it, as the check decides it: with the texts of declared functions blanked, and
   * with the functions for delegates that are sure to take a claim.
   */
  lemma DominanceIsExact(file: File, s: Stmt, path: seq<nat>)
    requires PlainAhead(s, path, Sure(file))
    ensures Guarded(file, s, path) <==> Dominated(Blanked(s), path, Sure(file))
  {
    GuardedExactly(file, s, path);
    PlainAheadIsReached(s, path, Sure(file));
  }
}
