/**
 * What the claim check of shipped-function.ts credits, said without it: the code that, read the
 * check's way, cannot end but by throwing until a claim is taken. And where that way of reading is
 * the code's own.
 */
module ClaimReading {
  import opened Prelude
  import opened ClaimAnalysis
  import opened ClaimSemantics
  import opened ClaimSoundness
  import opened ClaimDelegates
  import opened ClaimOutcomes
  import opened ClaimReplay
  import opened ClaimSure
  import opened ClaimWitnesses
  import opened ClaimExactness

  predicate IsWayOut(s: Stmt) {
    s.Return? || s.Break? || s.Continue?
  }

  /** A return, a break or a continue stands somewhere in the statement. */
  ghost predicate HoldsAWayOut(s: Stmt) {
    exists path :: Node(s, path).Some? && IsWayOut(Node(s, path).value)
  }

  lemma ChildLeaves(s: Stmt, i: nat)
    requires Child(s, i).Some? && HoldsAWayOut(Child(s, i).value)
    ensures HoldsAWayOut(s)
  {
    var path :| Node(Child(s, i).value, path).Some? && IsWayOut(Node(Child(s, i).value, path).value);
    assert ([i] + path)[1..] == path;
    assert Node(s, [i] + path).Some? && IsWayOut(Node(s, [i] + path).value);
  }

  lemma {:induction false} LeavesSomewhere(s: Stmt)
    requires CanLeaveEarly(s)
    ensures HoldsAWayOut(s)
    decreases s, 1
  {
    assert Node(s, []) == Some(s);
    match s
    case Block(body) => OneLeaves(s, body);
    case Clause(_, body) => OneLeaves(s, body);
    case Switch(_, clauses) => OneLeaves(s, clauses);
    case If(_, a, b) =>
      if CanLeaveEarly(a) {
        LeavesSomewhere(a);
        ChildLeaves(s, 0);
      } else {
        LeavesSomewhere(b.value);
        ChildLeaves(s, 1);
      }
    case Try(a, h, f) =>
      if CanLeaveEarly(a) {
        LeavesSomewhere(a);
        ChildLeaves(s, 0);
      } else if h.Some? && CanLeaveEarly(h.value) {
        LeavesSomewhere(h.value);
        ChildLeaves(s, 1);
      } else {
        LeavesSomewhere(f.value);
        ChildLeaves(s, 2);
      }
    case Loop(_, t) =>
      LeavesSomewhere(t);
      ChildLeaves(s, 0);
    case Labeled(_, t) =>
      LeavesSomewhere(t);
      ChildLeaves(s, 0);
    case _ =>
  }

  lemma {:induction false} OneLeaves(s: Stmt, body: seq<Stmt>)
    requires (s.Block? && s.body == body) || (s.Clause? && s.body == body) || (s.Switch? && s.clauses == body)
    requires exists t <- body :: CanLeaveEarly(t)
    ensures HoldsAWayOut(s)
    decreases s, 0
  {
    var i :| 0 <= i < |body| && CanLeaveEarly(body[i]);
    LeavesSomewhere(body[i]);
    ChildLeaves(s, i);
  }

  lemma {:induction false} WayOutLeaves(s: Stmt, path: seq<nat>)
    requires Node(s, path).Some? && IsWayOut(Node(s, path).value)
    ensures CanLeaveEarly(s)
    decreases |path|
  {
    if path != [] {
      WayOutLeaves(Child(s, path[0]).value, path[1..]);
    }
  }

  /** `canLeaveEarly` finds exactly the statements that hold a return, a break or a continue. */
  lemma LeavesExactly(s: Stmt)
    ensures CanLeaveEarly(s) <==> HoldsAWayOut(s)
  {
    if CanLeaveEarly(s) {
      LeavesSomewhere(s);
    }
    if path :| Node(s, path).Some? && IsWayOut(Node(s, path).value) {
      WayOutLeaves(s, path);
    }
  }

  /** Takes no claim, and may break off. */
  const MayLeave := If(NOTHING, Break(None), None)

  /**
   * A statement as the check reads it. A declaration and a throw are their text; a condition does
   * nothing; a `finally` is not there; loops, switches and what is labelled do nothing; and after
   * anything in a list that holds a way out, control may have left.
   */
  ghost function AsRead(s: Stmt): Stmt
    decreases s, 1
  {
    match s
    case FunctionDeclaration(text) => Leaf(text)
    case Throw(text) => Leaf(text)
    case Block(body) => Block(AsReadList(body))
    case If(_, a, b) => If(NOTHING, AsRead(a), if b.Some? then Some(AsRead(b.value)) else None)
    case Try(a, h, _) => Try(AsRead(a), if h.Some? then Some(AsRead(h.value)) else None, None)
    case Clause(_, _) => Leaf(NOTHING)
    case Loop(_, _) => Leaf(NOTHING)
    case Switch(_, _) => Leaf(NOTHING)
    case Labeled(_, _) => Leaf(NOTHING)
    case _ => s
  }

  ghost function AsReadList(body: seq<Stmt>): seq<Stmt>
    decreases body, 0
  {
    if body == [] then []
    else if HoldsAWayOut(body[0]) then [AsRead(body[0]), MayLeave] + AsReadList(body[1..])
    else [AsRead(body[0])] + AsReadList(body[1..])
  }

  lemma {:induction false} ReadingStays(s: Stmt, known: set<string>)
    requires !CanLeaveEarly(s)
    ensures EndsOf(AsRead(s), known) <= {Normal, Threw}
    decreases s, 1
  {
    match s
    case Block(body) => ReadingListStays(body, known);
    case If(_, a, b) =>
      ReadingStays(a, known);
      if b.Some? {
        ReadingStays(b.value, known);
      }
    case Try(a, h, _) =>
      ReadingStays(a, known);
      if h.Some? {
        ReadingStays(h.value, known);
      }
    case _ =>
  }

  lemma {:induction false} ReadingListStays(body: seq<Stmt>, known: set<string>)
    requires forall t <- body :: !CanLeaveEarly(t)
    ensures EndsOfList(AsReadList(body), known) <= {Normal, Threw}
    decreases body, 0
  {
    if body != [] {
      LeavesExactly(body[0]);
      ReadingStays(body[0], known);
      ReadingListStays(body[1..], known);
      assert AsReadList(body)[1..] == AsReadList(body[1..]);
    }
  }

  /** The check credits a statement exactly if, as it reads it, that ends only by throwing until a claim is taken. */
  lemma {:induction false} CreditsExactly(s: Stmt, known: set<string>)
    ensures ClaimsOnEveryPath(s, known) <==> EndsOf(AsRead(s), known) == {Threw}
    decreases s, 1
  {
    match s
    case Block(body) => CreditsListExactly(body, known);
    case If(_, a, b) =>
      CreditsExactly(a, known);
      if b.Some? {
        CreditsExactly(b.value, known);
      }
    case Try(a, h, _) =>
      CreditsExactly(a, known);
      if h.Some? {
        CreditsExactly(h.value, known);
      }
    case _ =>
  }

  lemma {:induction false} CreditsListExactly(body: seq<Stmt>, known: set<string>)
    ensures ListClaims(body, known) <==> EndsOfList(AsReadList(body), known) == {Threw}
    decreases body, 0
  {
    if body != [] {
      CreditsExactly(body[0], known);
      CreditsListExactly(body[1..], known);
      LeavesExactly(body[0]);
      var rest := AsReadList(body)[1..];
      if HoldsAWayOut(body[0]) {
        assert rest == [MayLeave] + AsReadList(body[1..]);
        assert rest[0] == MayLeave && rest[1..] == AsReadList(body[1..]);
        assert Broke(None) in EndsOfList(rest, known);
      } else {
        ReadingStays(body[0], known);
        assert rest == AsReadList(body[1..]);
      }
    }
  }

  /** Executions of `s` without a claim end by throwing, or are cut. */
  ghost predicate ClaimsOrThrows(file: File, s: Stmt) {
    forall st: St :: var r := Exec(file, s, None, st); r.outcome.Threw? || r.outcome.Cut? || r.st.claimed
  }

  lemma EndsClaimed(file: File, s: Stmt)
    ensures ClaimsOrThrows(file, s) <==> EndsOf(s, Sure(file)) == {Threw}
  {
    SureIsSound(file);
    assert (forall o <- EndsOf(s, Sure(file)) :: o == Threw) ==> EndsOf(s, Sure(file)) == {Threw};
    if EndsOf(s, Sure(file)) == {Threw} {
      forall st: St ensures var r := Exec(file, s, None, st); r.outcome.Threw? || r.outcome.Cut? || r.st.claimed {
        Foreseen(file, s, Sure(file), None, st);
      }
    } else {
      var o :| o in EndsOf(s, Sure(file)) && o != Threw;
      var pre := EndHappens(file, s, Sure(file), o);
      assert Exec(file, s, None, St(pre + [], false, false)) == Res(St([], false, false), o);
    }
  }

  /**
   * Said of executions: told the functions of the file that do claim, the check credits a statement
   * exactly if every execution of it, read the check's way, takes a claim or throws.
   */
  lemma CreditsWhatClaims(file: File, s: Stmt)
    ensures ClaimsOnEveryPath(s, Sure(file)) <==> ClaimsOrThrows(file, AsRead(s))
  {
    CreditsExactly(s, Sure(file));
    EndsClaimed(file, AsRead(s));
  }

  /** A pass over the file finds exactly the functions that, read so, end only by throwing until a claim is taken. */
  lemma PassFindsExactly(file: File, known: set<string>, name: string)
    ensures name in Claimants(file, known) <==> name in file && EndsOf(AsRead(file[name]), known) == {Threw}
  {
    if name in file {
      CreditsExactly(file[name], known);
    }
  }

  /** The `j`th of the statements directly inside `parent`, if it is one of a list. */
  function InList(parent: Stmt, j: nat): Option<Stmt> {
    match parent
    case Block(body) => if j < |body| then Some(body[j]) else None
    case Clause(_, body) => if j < |body| then Some(body[j]) else None
    case _ => None
  }

  /** At depth `k` of the way to the node, the statement `j` stands ahead of it in a list, and claims as it is read. */
  ghost predicate ClaimsAhead(s: Stmt, path: seq<nat>, k: nat, j: nat, known: set<string>) {
    && k < |path| && j < path[k] && Node(s, path[..k]).Some?
    && InList(Node(s, path[..k]).value, j).Some?
    && EndsOf(AsRead(InList(Node(s, path[..k]).value, j).value), known) == {Threw}
  }

  /** A node is dominated exactly if some list on the way to it holds such a statement ahead of it. */
  lemma DominatedExactly(s: Stmt, path: seq<nat>, known: set<string>)
    requires Node(s, path).Some?
    ensures Dominated(s, path, known) <==> exists k: nat, j: nat :: ClaimsAhead(s, path, k, j, known)
  {
    DominatedSomewhere(s, path, known);
    if Dominated(s, path, known) {
      var k :| 0 <= k < |path| && Node(s, path[..k]).Some? &&
               PrecededByClaim(Node(s, path[..k]).value, path[k], known);
      var list := StatementList(Node(s, path[..k]).value).value;
      var j :| 0 <= j < path[k] && j < |list| && ClaimsOnEveryPath(list[j], known);
      CreditsExactly(list[j], known);
      assert ClaimsAhead(s, path, k, j, known);
    }
    if k: nat, j: nat :| ClaimsAhead(s, path, k, j, known) {
      CreditsExactly(InList(Node(s, path[..k]).value, j).value, known);
      var list := StatementList(Node(s, path[..k]).value).value;
      assert list[j] == InList(Node(s, path[..k]).value, j).value && ClaimsOnEveryPath(list[j], known);
      assert PrecededByClaim(Node(s, path[..k]).value, path[k], known);
    }
  }

  // ---- where that reading is the code's own ----

  /**
   * Leaves, declarations, blocks, ifs and trys: no way out, no throw, no condition that mentions a
   * claim, and no `finally` that cannot complete without one.
   */
  predicate Simple(s: Stmt, sure: set<string>) {
    match s
    case Leaf(_) => true
    case FunctionDeclaration(_) => true
    case Block(body) => forall t <- body :: Simple(t, sure)
    case If(test, a, b) => !Mentions(test, sure) && Simple(a, sure) && (b.Some? ==> Simple(b.value, sure))
    case Try(a, h, f) =>
      && Simple(a, sure) && (h.Some? ==> Simple(h.value, sure))
      && (f.Some? ==> Simple(f.value, sure) && Normal in EndsOf(f.value, sure))
    case _ => false
  }

  /** In such code the check is exact: it credits what cannot complete without a claim, and nothing else. */
  lemma {:induction false} SimpleIsExact(s: Stmt, sure: set<string>)
    requires Simple(s, sure)
    ensures ClaimsOnEveryPath(Blanked(s), sure) <==> Normal !in EndsOf(s, sure)
    ensures EndsOf(s, sure) <= {Normal, Threw} && !CanLeaveEarly(Blanked(s))
    decreases s, 1
  {
    match s
    case Block(body) => SimpleListIsExact(body, sure);
    case If(_, a, b) =>
      SimpleIsExact(a, sure);
      if b.Some? {
        SimpleIsExact(b.value, sure);
      }
    case Try(a, h, f) =>
      SimpleIsExact(a, sure);
      if h.Some? {
        SimpleIsExact(h.value, sure);
      }
      if f.Some? {
        SimpleIsExact(f.value, sure);
      }
      assert Normal !in EndsOf(a, sure) ==> Threw in EndsOf(a, sure);
    case _ =>
  }

  lemma {:induction false} SimpleListIsExact(body: seq<Stmt>, sure: set<string>)
    requires forall t <- body :: Simple(t, sure)
    ensures ListClaims(BlankedList(body), sure) <==> Normal !in EndsOfList(body, sure)
    ensures EndsOfList(body, sure) <= {Normal, Threw} && forall t <- BlankedList(body) :: !CanLeaveEarly(t)
    decreases body, 0
  {
    if body != [] {
      SimpleIsExact(body[0], sure);
      SimpleListIsExact(body[1..], sure);
      assert BlankedList(body)[1..] == BlankedList(body[1..]);
      assert BlankedList(body) == [Blanked(body[0])] + BlankedList(body[1..]);
    }
  }
}
