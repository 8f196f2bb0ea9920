/**
 * The claim check is sound: where it says that a claim dominates a write, no execution reaches the
 * write before a claim has been taken. Including claims taken through the file's own functions.
 */
module ClaimSoundness {
  import opened Prelude
  import opened ClaimAnalysis
  import opened ClaimSemantics

  /** Every completion of the function but a throw has taken a claim. */
  ghost predicate SoundDelegate(file: File, name: string) {
    name in file &&
    forall st: St ::
      var r := Exec(file, file[name], None, st);
      r.outcome.Threw? || r.outcome.Cut? || r.st.claimed
  }

  ghost predicate SoundKnown(file: File, known: set<string>) {
    forall name <- known :: SoundDelegate(file, name)
  }

  const NOTHING := Expr(false, [])

  function Blanked(s: Stmt): Stmt
    decreases s, 1
  {
    match s
    case FunctionDeclaration(_) => FunctionDeclaration(NOTHING)
    case Block(body) => Block(BlankedList(body))
    case Clause(isDefault, body) => Clause(isDefault, BlankedList(body))
    case Switch(subject, clauses) => Switch(subject, BlankedList(clauses))
    case If(test, a, b) => If(test, Blanked(a), if b.Some? then Some(Blanked(b.value)) else None)
    case Try(a, h, f) =>
      Try(Blanked(a),
          if h.Some? then Some(Blanked(h.value)) else None,
          if f.Some? then Some(Blanked(f.value)) else None)
    case Loop(head, t) => Loop(head, Blanked(t))
    case Labeled(name, t) => Labeled(name, Blanked(t))
    case _ => s
  }

  /**
   * The statements with the text of every function declared among them blanked: declaring a function
   * runs nothing of it.
   */
  function BlankedList(body: seq<Stmt>): (r: seq<Stmt>)
    ensures |r| == |body| && forall i :: 0 <= i < |body| ==> r[i] == Blanked(body[i])
    decreases body, 0
  {
    if body == [] then [] else [Blanked(body[0])] + BlankedList(body[1..])
  }

  /** No `finally` in `s` returns, breaks or continues. */
  predicate FinallyStays(s: Stmt) {
    match s
    case Block(body) => forall t <- body :: FinallyStays(t)
    case Clause(_, body) => forall t <- body :: FinallyStays(t)
    case Switch(_, clauses) => forall t <- clauses :: FinallyStays(t)
    case If(_, a, b) => FinallyStays(a) && (b.Some? ==> FinallyStays(b.value))
    case Try(a, h, f) =>
      && FinallyStays(a)
      && (h.Some? ==> FinallyStays(h.value))
      && (f.Some? ==> FinallyStays(f.value) && !CanLeaveEarly(f.value))
    case Loop(_, t) => FinallyStays(t)
    case Labeled(_, t) => FinallyStays(t)
    case _ => true
  }

  lemma {:induction false} BlankingLeaves(s: Stmt)
    ensures CanLeaveEarly(Blanked(s)) <==> CanLeaveEarly(s)
    decreases s, 1
  {
    match s
    case Block(body) => BlankingLeavesList(body);
    case Clause(_, body) => BlankingLeavesList(body);
    case Switch(_, clauses) => BlankingLeavesList(clauses);
    case If(_, a, b) =>
      BlankingLeaves(a);
      if b.Some? {
        BlankingLeaves(b.value);
      }
    case Try(a, h, f) =>
      BlankingLeaves(a);
      if h.Some? {
        BlankingLeaves(h.value);
      }
      if f.Some? {
        BlankingLeaves(f.value);
      }
    case Loop(_, t) => BlankingLeaves(t);
    case Labeled(_, t) => BlankingLeaves(t);
    case _ =>
  }

  lemma {:induction false} BlankingLeavesList(body: seq<Stmt>)
    ensures (exists t <- BlankedList(body) :: CanLeaveEarly(t)) <==> exists t <- body :: CanLeaveEarly(t)
    decreases body, 0
  {
    forall i | 0 <= i < |body| ensures CanLeaveEarly(BlankedList(body)[i]) <==> CanLeaveEarly(body[i]) {
      BlankingLeaves(body[i]);
    }
    assert forall i :: 0 <= i < |body| ==> body[i] in body && BlankedList(body)[i] in BlankedList(body);
  }

  predicate Stays(o: Outcome) {
    o.Normal? || o.Threw? || o.Cut?
  }

  /** What cannot leave early ends normally, throws, or is cut. */
  lemma {:induction false} StaysIn(file: File, s: Stmt, target: Target, st: St)
    requires !CanLeaveEarly(s)
    ensures Stays(Exec(file, s, target, st).outcome)
    decreases |st.choices|, s, 1
  {
    match s
    case Block(body) => ListStaysIn(file, body, 0, target, st);
    case Clause(_, body) => ListStaysIn(file, body, 0, target, st);
    case If(test, a, b) =>
      var r := Eval(file, test, target, st);
      if r.outcome.Normal? && r.st.choices != [] {
        if r.st.choices[0] == 0 {
          StaysIn(file, a, Below(target, 0), Take(r.st));
        } else if b.Some? {
          StaysIn(file, b.value, Below(target, 1), Take(r.st));
        }
      }
    case Try(block, handler, finalizer) =>
      var r := Exec(file, block, Below(target, 0), st);
      StaysIn(file, block, Below(target, 0), st);
      var h := if r.outcome.Threw? && handler.Some? then Exec(file, handler.value, Below(target, 1), r.st) else r;
      if r.outcome.Threw? && handler.Some? {
        StaysIn(file, handler.value, Below(target, 1), r.st);
      }
      if finalizer.Some? {
        StaysIn(file, finalizer.value, Below(target, 2), h.st);
      }
    case Loop(head, inner) =>
      if head.bodyFirst {
        LoopStaysIn(file, head, inner, false, target, st);
      } else {
        LoopStaysIn(file, head, inner, true, target, Eval(file, head.first, target, st).st);
      }
    case Switch(subject, clauses) =>
      var r := Eval(file, subject, target, st);
      if r.outcome.Normal? && r.st.choices != [] && r.st.choices[0] < |clauses| {
        ListStaysIn(file, clauses[r.st.choices[0]..], r.st.choices[0], target, Take(r.st));
      }
    case Labeled(_, inner) => StaysIn(file, inner, Below(target, 0), st);
    case _ =>
  }

  lemma {:induction false} ListStaysIn(file: File, body: seq<Stmt>, i: nat, target: Target, st: St)
    requires forall t <- body :: !CanLeaveEarly(t)
    ensures Stays(ExecList(file, body, i, target, st).outcome)
    decreases |st.choices|, body, 0
  {
    if body != [] {
      StaysIn(file, body[0], Below(target, i), st);
      ListStaysIn(file, body[1..], i + 1, target, Exec(file, body[0], Below(target, i), st).st);
    }
  }

  lemma {:induction false} LoopStaysIn(
      file: File, head: Head, inner: Stmt, mayEnd: bool, target: Target, st: St)
    requires !CanLeaveEarly(inner)
    ensures Stays(Iterate(file, head, inner, mayEnd, target, st).outcome)
    decreases |st.choices|, inner, 2
  {
    if st.choices != [] && st.choices[0] != 0 {
      StaysIn(file, inner, Below(target, 0), Take(st));
      var r := Exec(file, inner, Below(target, 0), Take(st));
      if r.outcome.Normal? {
        var e := Eval(file, head.again, Below(target, 1), r.st);
        if e.outcome.Normal? {
          LoopStaysIn(file, head, inner, true, target, e.st);
        }
      }
    }
  }

  /** A text that mentions a claim has taken one once it is evaluated to the end. */
  lemma MentionsTakes(file: File, text: Expr, known: set<string>, target: Target, st: St)
    requires Mentions(text, known) && SoundKnown(file, known)
    ensures var r := Eval(file, text, target, st); r.outcome.Normal? ==> r.st.claimed
  {
    if st.choices != [] && st.choices[0] >= 2 && !text.direct {
      CallsTake(file, text.calls, known, Reach(Take(st), target));
    }
  }

  lemma {:induction false} CallsTake(file: File, calls: seq<string>, known: set<string>, st: St)
    requires (exists name <- calls :: name in known) && SoundKnown(file, known)
    ensures var r := Calls(file, calls, st); r.outcome.Normal? ==> r.st.claimed
    decreases calls
  {
    if calls[0] in known {
      assert SoundDelegate(file, calls[0]);
    } else {
      assert exists name <- calls[1..] :: name in known;
      if calls[0] !in file {
        CallsTake(file, calls[1..], known, st);
      } else {
        CallsTake(file, calls[1..], known, Exec(file, file[calls[0]], None, st).st);
      }
    }
  }

  /**
   * The heart of the check. What claims on every path has taken a claim whenever it ends normally;
   * and, if no finally in it leaves early, whenever it ends other than by a throw.
   */
  lemma {:induction false} ClaimsTaken(file: File, s: Stmt, known: set<string>, target: Target, st: St)
    requires ClaimsOnEveryPath(Blanked(s), known) && SoundKnown(file, known)
    ensures var r := Exec(file, s, target, st);
            && (r.outcome.Normal? ==> r.st.claimed)
            && (FinallyStays(s) && !r.outcome.Threw? && !r.outcome.Cut? ==> r.st.claimed)
    decreases s, 1
  {
    match s
    case Leaf(text) => MentionsTakes(file, text, known, target, st);
    case Return(text) => MentionsTakes(file, text, known, target, st);
    case Throw(text) =>
    case Block(body) => ListClaimsTaken(file, body, known, 0, target, st);
    case If(test, a, b) =>
      var r := Eval(file, test, target, st);
      if r.outcome.Normal? && r.st.choices != [] {
        ClaimsTaken(file, a, known, Below(target, 0), Take(r.st));
        ClaimsTaken(file, b.value, known, Below(target, 1), Take(r.st));
      }
    case Try(_, _, _) => TryClaimsTaken(file, s, known, target, st);
  }

  lemma {:induction false} TryClaimsTaken(file: File, s: Stmt, known: set<string>, target: Target, st: St)
    requires s.Try? && ClaimsOnEveryPath(Blanked(s), known) && SoundKnown(file, known)
    ensures var r := Exec(file, s, target, st);
            && (r.outcome.Normal? ==> r.st.claimed)
            && (FinallyStays(s) && !r.outcome.Threw? && !r.outcome.Cut? ==> r.st.claimed)
    decreases s, 0
  {
    var r := Exec(file, s.block, Below(target, 0), st);
    ClaimsTaken(file, s.block, known, Below(target, 0), st);
    var caught := r.outcome.Threw? && s.handler.Some?;
    var h := if caught then Exec(file, s.handler.value, Below(target, 1), r.st) else r;
    if caught {
      ClaimsTaken(file, s.handler.value, known, Below(target, 1), r.st);
    }
    if s.finalizer.Some? && !CanLeaveEarly(s.finalizer.value) {
      StaysIn(file, s.finalizer.value, Below(target, 2), h.st);
    }
  }

  lemma {:induction false} ListClaimsTaken(
      file: File, body: seq<Stmt>, known: set<string>, i: nat, target: Target, st: St)
    requires ListClaims(BlankedList(body), known) && SoundKnown(file, known)
    ensures var r := ExecList(file, body, i, target, st);
            && (r.outcome.Normal? ==> r.st.claimed)
            && ((forall t <- body :: FinallyStays(t)) && !r.outcome.Threw? && !r.outcome.Cut? ==> r.st.claimed)
    decreases body, 0
  {
    var r := Exec(file, body[0], Below(target, i), st);
    var rest := BlankedList(body)[1..];
    assert rest == BlankedList(body[1..]);
    if ClaimsOnEveryPath(Blanked(body[0]), known) {
      ClaimsTaken(file, body[0], known, Below(target, i), st);
    } else {
      BlankingLeaves(body[0]);
      StaysIn(file, body[0], Below(target, i), st);
      ListClaimsTaken(file, body[1..], known, i + 1, target, r.st);
    }
  }

  /**
   * Dominance is sound: if a claim dominates the node at `path`, no execution of `s` reaches the
   * write in that node before a claim. Here `finally` blocks may do what they like.
   */
  lemma {:induction false} DominatedIsGuarded(file: File, s: Stmt, known: set<string>, path: seq<nat>, st: St)
    requires SoundKnown(file, known)
    requires Dominated(Blanked(s), path, known) || st.claimed
    requires !st.unguarded
    ensures !Exec(file, s, Some(path), st).st.unguarded
    decreases |st.choices|, s, 1
  {
    if st.claimed {
      return;
    }
    match s
    case Block(body) => ListIsGuarded(file, body, body, 0, known, path, st);
    case Clause(_, body) => ListIsGuarded(file, body, body, 0, known, path, st);
    case If(_, _, _) => IfIsGuarded(file, s, known, path, st);
    case Try(_, _, _) => TryIsGuarded(file, s, known, path, st);
    case Loop(_, _) => LoopIsGuarded(file, s, known, path, st);
    case Switch(_, _) => SwitchIsGuarded(file, s, known, path, st);
    case Labeled(_, inner) => DominatedIsGuarded(file, inner, known, path[1..], st);
  }

  lemma {:induction false} IfIsGuarded(file: File, s: Stmt, known: set<string>, path: seq<nat>, st: St)
    requires SoundKnown(file, known) && s.If? && Dominated(Blanked(s), path, known) && !st.unguarded
    ensures !Exec(file, s, Some(path), st).st.unguarded
    decreases |st.choices|, s, 0
  {
    var r := Eval(file, s.test, Some(path), st);
    if r.outcome.Normal? && r.st.choices != [] {
      if path[0] == 0 {
        DominatedIsGuarded(file, s.thenArm, known, path[1..], Take(r.st));
      } else {
        DominatedIsGuarded(file, s.elseArm.value, known, path[1..], Take(r.st));
      }
    }
  }

  lemma {:induction false} TryIsGuarded(file: File, s: Stmt, known: set<string>, path: seq<nat>, st: St)
    requires SoundKnown(file, known) && s.Try? && Dominated(Blanked(s), path, known) && !st.unguarded
    ensures !Exec(file, s, Some(path), st).st.unguarded
    decreases |st.choices|, s, 0
  {
    var target := Some(path);
    var r := Exec(file, s.block, Below(target, 0), st);
    var caught := r.outcome.Threw? && s.handler.Some?;
    var h := if caught then Exec(file, s.handler.value, Below(target, 1), r.st) else r;
    if path[0] == 0 {
      DominatedIsGuarded(file, s.block, known, path[1..], st);
    } else if path[0] == 1 && caught {
      DominatedIsGuarded(file, s.handler.value, known, path[1..], r.st);
    } else if path[0] == 2 {
      DominatedIsGuarded(file, s.finalizer.value, known, path[1..], h.st);
    }
  }

  /** The tail of the list `whole` from number `i`, run when nothing ahead of it has claimed. */
  lemma {:induction false} ListIsGuarded(
      file: File, whole: seq<Stmt>, body: seq<Stmt>, i: nat, known: set<string>, path: seq<nat>, st: St)
    requires SoundKnown(file, known)
    requires i <= |whole| && body == whole[i..] && !st.unguarded && path != [] && path[0] < |whole|
    requires
      || st.claimed
      || (exists j :: i <= j < path[0] && ClaimsOnEveryPath(Blanked(whole[j]), known))
      || Dominated(Blanked(whole[path[0]]), path[1..], known)
    ensures !ExecList(file, body, i, Some(path), st).st.unguarded
    decreases |st.choices|, body, 0
  {
    if body != [] && !st.claimed {
      var r := Exec(file, body[0], Below(Some(path), i), st);
      if i == path[0] {
        DominatedIsGuarded(file, body[0], known, path[1..], st);
      } else if ClaimsOnEveryPath(Blanked(whole[i]), known) {
        ClaimsTaken(file, whole[i], known, Below(Some(path), i), st);
      }
      if i < path[0] || r.st.claimed {
        if r.outcome.Normal? {
          ListIsGuarded(file, whole, body[1..], i + 1, known, path, r.st);
        }
      } else {
        RestUntargeted(file, body[1..], i + 1, path, r.st);
      }
    }
  }

  /** Past the statement that holds the write, nothing reaches it. */
  lemma {:induction false} RestUntargeted(file: File, body: seq<Stmt>, i: nat, path: seq<nat>, st: St)
    requires path != [] && path[0] < i
    ensures ExecList(file, body, i, Some(path), st).st.unguarded == st.unguarded
    decreases body
  {
    if body != [] {
      RestUntargeted(file, body[1..], i + 1, path, Exec(file, body[0], None, st).st);
    }
  }

  /** A switch may enter at any clause and fall through to the next. */
  lemma {:induction false} SwitchIsGuarded(file: File, s: Stmt, known: set<string>, path: seq<nat>, st: St)
    requires SoundKnown(file, known) && s.Switch? && Dominated(Blanked(s), path, known) && !st.unguarded
    ensures !Exec(file, s, Some(path), st).st.unguarded
    decreases |st.choices|, s, 0
  {
    var r := Eval(file, s.subject, Some(path), st);
    if r.outcome.Normal? && r.st.choices != [] && r.st.choices[0] < |s.clauses| {
      var entry := r.st.choices[0];
      ListIsGuarded(file, s.clauses, s.clauses[entry..], entry, known, path, Take(r.st));
    }
  }

  lemma {:induction false} LoopIsGuarded(file: File, s: Stmt, known: set<string>, path: seq<nat>, st: St)
    requires SoundKnown(file, known) && s.Loop? && Dominated(Blanked(s), path, known) && !st.unguarded
    ensures !Exec(file, s, Some(path), st).st.unguarded
    decreases |st.choices|, s, 0
  {
    assert path[0] == 0;
    if s.head.bodyFirst {
      RoundsAreGuarded(file, s.head, s.inner, false, known, path, st);
    } else {
      RoundsAreGuarded(file, s.head, s.inner, true, known, path, Eval(file, s.head.first, Some(path), st).st);
    }
  }

  lemma {:induction false} RoundsAreGuarded(
      file: File, head: Head, inner: Stmt, mayEnd: bool, known: set<string>, path: seq<nat>, st: St)
    requires SoundKnown(file, known) && !st.unguarded && path != [] && path[0] == 0
    requires Dominated(Blanked(inner), path[1..], known) || st.claimed
    ensures !Iterate(file, head, inner, mayEnd, Some(path), st).st.unguarded
    decreases |st.choices|, inner, 2
  {
    if st.choices != [] && st.choices[0] != 0 {
      DominatedIsGuarded(file, inner, known, path[1..], Take(st));
      var r := Exec(file, inner, Below(Some(path), 0), Take(st));
      if GoesRound(r.outcome, head) {
        RoundsAreGuarded(file, head, inner, true, known, path, Eval(file, head.again, None, r.st).st);
      }
    }
  }
}
