/**
 * Two places where the claim check of shipped-function.ts credits a claim that nothing takes, and
 * exactly when it can be relied on.
 */
module ClaimLimits {
  import opened Prelude
  import opened ClaimAnalysis
  import opened ClaimSemantics
  import opened ClaimSoundness
  import opened ClaimDelegates
  import opened ClaimOutcomes
  import opened ClaimReplay
  import opened ClaimSure
  import opened ClaimWitnesses
  import opened ClaimExactness

  /**
   * The verdict on any write of any scope, with whatever delegates: it is right if and only if it says
   * "not claimed", or the walk over the syntax does not reach the write.
   */
  lemma VerdictIsRightExactly(file: File, scope: Stmt, path: seq<nat>, known: set<string>)
    ensures (Dominated(scope, path, known) ==> Guarded(file, scope, path)) <==>
            (Dominated(scope, path, known) ==> !Reached(scope, path, Sure(file)))
  {
    GuardedExactly(file, scope, path);
  }

  const Claim := Expr(true, [])

  /**
   * A function DECLARED ahead of the write is judged on the text of its body, because the masking
   * skips the judged node itself (shipped-function.ts, line 1180). Here is the shortest such scope.
   */
  lemma ADeclarationIsCredited(scope: Stmt)
    requires scope == Block([FunctionDeclaration(Claim), Leaf(NOTHING)])
    ensures IsLeastFixpoint(map[], {}) && Dominated(scope, [1], {}) && !Guarded(map[], scope, [1])
  {
    var file: File := map[];
    assert Claimants(file, {}) == {};
    assert ClaimsOnEveryPath(scope.body[0], {}) && PrecededByClaim(scope, 1, {});
    assert Child(scope, 1) == Some(Leaf(NOTHING)) && Reached(Leaf(NOTHING), [1][1..], Sure(file));
    assert Enters(scope, 1, Sure(file)) && Reached(scope, [1], Sure(file));
    GuardedExactly(file, scope, [1]);
  }

  /** `try { block } catch { handler } finally { fin }` and then `rest`, as the body of a function. */
  function GuardedCall(block: Stmt, handler: Option<Stmt>, fin: Stmt, rest: seq<Stmt>): Stmt {
    Block([Try(block, handler, Some(fin))] + rest)
  }

  /** Claims on every path, declared functions blanked, and no `finally` in it hides that. */
  predicate Claiming(s: Stmt, sure: set<string>) {
    ClaimsOnEveryPath(Blanked(s), sure) && FinallyStays(s)
  }

  lemma {:induction false} StayingEnds(s: Stmt, sure: set<string>)
    requires !CanLeaveEarly(s)
    ensures EndsOf(s, sure) <= {Normal, Threw}
    decreases s, 1
  {
    match s
    case Block(body) => ListStayingEnds(body, sure);
    case Clause(_, body) => ListStayingEnds(body, sure);
    case If(_, a, b) =>
      StayingEnds(a, sure);
      if b.Some? {
        StayingEnds(b.value, sure);
      }
    case Try(a, h, f) =>
      StayingEnds(a, sure);
      if h.Some? {
        StayingEnds(h.value, sure);
      }
      if f.Some? {
        StayingEnds(f.value, sure);
      }
    case Loop(_, t) => StayingEnds(t, sure);
    case Switch(_, clauses) => ClausesStayingEnd(clauses, sure);
    case Labeled(_, t) => StayingEnds(t, sure);
    case _ =>
  }

  lemma {:induction false} ListStayingEnds(body: seq<Stmt>, sure: set<string>)
    requires forall t <- body :: !CanLeaveEarly(t)
    ensures EndsOfList(body, sure) <= {Normal, Threw}
    decreases body, 0
  {
    if body != [] {
      StayingEnds(body[0], sure);
      ListStayingEnds(body[1..], sure);
    }
  }

  lemma {:induction false} ClausesStayingEnd(clauses: seq<Stmt>, sure: set<string>)
    requires forall t <- clauses :: !CanLeaveEarly(t)
    ensures EndsOfClauses(clauses, sure) <= {Normal, Threw}
    decreases clauses, 1
  {
    if clauses != [] {
      ListStayingEnds(clauses, sure);
      ClausesStayingEnd(clauses[1..], sure);
    }
  }

  /** Such code ends without a claim in one way only. */
  lemma {:induction false} ClaimingThrows(s: Stmt, sure: set<string>)
    requires Claiming(s, sure)
    ensures EndsOf(s, sure) == {Threw}
    decreases s, 1
  {
    match s
    case Block(body) => ListClaimingThrows(body, sure);
    case If(_, a, b) =>
      ClaimingThrows(a, sure);
      ClaimingThrows(b.value, sure);
    case Try(a, h, f) =>
      ClaimingThrows(a, sure);
      if h.Some? {
        ClaimingThrows(h.value, sure);
      }
      if f.Some? {
        StayingEnds(f.value, sure);
      }
    case _ =>
  }

  lemma {:induction false} ListClaimingThrows(body: seq<Stmt>, sure: set<string>)
    requires ListClaims(BlankedList(body), sure) && forall t <- body :: FinallyStays(t)
    ensures EndsOfList(body, sure) == {Threw}
    decreases body, 0
  {
    assert BlankedList(body)[1..] == BlankedList(body[1..]);
    if ClaimsOnEveryPath(Blanked(body[0]), sure) {
      ClaimingThrows(body[0], sure);
    } else {
      BlankingLeaves(body[0]);
      StayingEnds(body[0], sure);
      ListClaimingThrows(body[1..], sure);
    }
  }

  /** Each time `fin` returns, breaks or continues, it has taken a claim. */
  ghost predicate LeavesClaimed(file: File, fin: Stmt) {
    forall st: St :: var r := Exec(file, fin, None, st); Stays(r.outcome) || r.st.claimed
  }

  /** That can be read off the syntax. */
  lemma LeavesClaimedExactly(file: File, fin: Stmt)
    ensures LeavesClaimed(file, fin) <==> EndsOf(fin, Sure(file)) <= {Normal, Threw}
  {
    SureIsSound(file);
    if EndsOf(fin, Sure(file)) <= {Normal, Threw} {
      forall st: St ensures var r := Exec(file, fin, None, st); Stays(r.outcome) || r.st.claimed {
        Foreseen(file, fin, Sure(file), None, st);
      }
    } else {
      var o :| o in EndsOf(fin, Sure(file)) && o != Normal && o != Threw;
      var pre := EndHappens(file, fin, Sure(file), o);
      assert Exec(file, fin, None, St(pre + [], false, false)) == Res(St([], false, false), o);
    }
  }

  lemma CallEnds(guarded: Stmt, call: Stmt, sure: set<string>)
    requires call.Block? && call.body != [] && call.body[0] == guarded && guarded.Try? && guarded.finalizer.Some?
    requires EndsOf(guarded.block, sure) == {Threw}
    requires guarded.handler.Some? ==> EndsOf(guarded.handler.value, sure) == {Threw}
    ensures EndsOf(call, sure) <= {Threw} <==> EndsOf(guarded.finalizer.value, sure) <= {Normal, Threw}
  {
    var fin := EndsOf(guarded.finalizer.value, sure);
    assert EndsOfAttempt(guarded, sure) == {Threw};
    assert EndsOf(call, sure) == EndsOf(guarded, sure);
    assert forall o <- fin :: o == Normal || o in EndsOf(guarded, sure);
    assert forall o <- EndsOf(guarded, sure) :: o == Threw || (o in fin && o != Normal);
  }

  lemma Credited(file: File, name: string, known: set<string>, guarded: Stmt)
    requires name in file && file[name].Block? && file[name].body != [] && file[name].body[0] == guarded && guarded.Try?
    requires ClaimsOnEveryPath(Blanked(guarded.block), known)
    requires guarded.handler.Some? ==> ClaimsOnEveryPath(Blanked(guarded.handler.value), known)
    ensures name in Claimants(file, known)
  {
    BlankingClaimsLess(guarded.block, known);
    if guarded.handler.Some? {
      BlankingClaimsLess(guarded.handler.value, known);
    }
    assert ClaimsOnEveryPath(guarded, known) && ClaimsOnEveryPath(file[name], known);
  }

  /**
   * The check never looks at a `finally`. A function that claims in a try, and whatever its finally
   * and what follows it are, is credited as a delegate; and it is one exactly when each return, break
   * or continue in that finally comes after a claim.
   */
  lemma ReturningFinallyIsCredited(
      file: File, name: string, known: set<string>, block: Stmt, handler: Option<Stmt>, fin: Stmt, rest: seq<Stmt>)
    requires name in file && file[name] == GuardedCall(block, handler, fin, rest) && SoundKnown(file, known)
    requires Claiming(block, known) && (handler.Some? ==> Claiming(handler.value, known))
    ensures name in Claimants(file, known)
    ensures SoundDelegate(file, name) <==> LeavesClaimed(file, fin)
    ensures !CanLeaveEarly(fin) ==> SoundDelegate(file, name)
  {
    var guarded := Try(block, handler, Some(fin));
    var sure := Sure(file);
    SureIsSound(file);
    assert known <= sure;
    Credited(file, name, known, guarded);
    ClaimsIsMonotone(Blanked(block), known, sure);
    ClaimingThrows(block, sure);
    if handler.Some? {
      ClaimsIsMonotone(Blanked(handler.value), known, sure);
      ClaimingThrows(handler.value, sure);
    }
    assert file[name].body[0] == guarded;
    CallEnds(guarded, file[name], sure);
    SureSettles(file);
    assert SoundDelegate(file, name) <==> name in SureWith(file, sure);
    LeavesClaimedExactly(file, fin);
    if !CanLeaveEarly(fin) {
      StayingEnds(fin, sure);
    }
  }
}
