/**
 * How the statements of ClaimAnalysis can end without a claim having been taken: exactly those
 * outcomes, read off the syntax, and exactly the functions of a file that cannot complete so.
 */
module ClaimOutcomes {
  import opened Prelude
  import opened ClaimAnalysis
  import opened ClaimSemantics
  import opened ClaimSoundness
  import opened ClaimDelegates
  import opened ClaimReplay

  type Ends = set<Outcome>

  /** The outcomes of one thing, and of another after it. */
  function Then(first: Ends, next: Ends): Ends {
    if Normal in first then first - {Normal} + next else first
  }

  /** What is left of them outside of what a `break` with that target leaves. */
  function Broken(ends: Ends, target: Option<string>): Ends {
    if Broke(target) in ends then ends - {Broke(target)} + {Normal} else ends
  }

  /** An expression can always throw ahead of any claim. */
  function EndsOfText(text: Expr, sure: set<string>): Ends {
    if Mentions(text, sure) then {Threw} else {Threw, Normal}
  }

  /**
   * The outcomes of `s` in which no claim has been taken, if the functions in `sure` are those that
   * do not complete without one.
   */
  function EndsOf(s: Stmt, sure: set<string>): (ends: Ends)
    ensures Cut !in ends && ends != {}
    decreases s, 1
  {
    match s
    case Leaf(text) => EndsOfText(text, sure)
    case FunctionDeclaration(_) => {Normal}
    case Return(text) => Then(EndsOfText(text, sure), {Returned})
    case Throw(_) => {Threw}
    case Break(to) => {Broke(to)}
    case Continue(to) => {Continued(to)}
    case Block(body) => EndsOfList(body, sure)
    case Clause(_, body) => EndsOfList(body, sure)
    case If(test, a, b) =>
      Then(EndsOfText(test, sure), EndsOf(a, sure) + if b.Some? then EndsOf(b.value, sure) else {Normal})
    case Try(_, _, f) =>
      var ofAttempt := EndsOfAttempt(s, sure);
      if f.None? then ofAttempt
      else
        var ofFinally := EndsOf(f.value, sure);
        if Normal in ofFinally then ofFinally - {Normal} + ofAttempt else ofFinally
    case Loop(head, _) =>
      if head.bodyFirst then EndsOfRounds(s, false, sure)
      else Then(EndsOfText(head.first, sure), EndsOfRounds(s, true, sure))
    case Switch(subject, clauses) =>
      Then(EndsOfText(subject, sure), EndsOfClauses(clauses, sure) + if HasDefault(clauses) then {} else {Normal})
    case Labeled(name, t) => Broken(EndsOf(t, sure), Some(name))
  }

  /** Those of a `try` block and, if it throws and there is one, its handler. */
  function EndsOfAttempt(s: Stmt, sure: set<string>): (ends: Ends)
    requires s.Try?
    ensures Cut !in ends && ends != {}
    decreases s, 0
  {
    var ofBlock := EndsOf(s.block, sure);
    if s.handler.Some? && Threw in ofBlock then ofBlock - {Threw} + EndsOf(s.handler.value, sure) else ofBlock
  }

  /** Whether a round of the loop can come, without a claim, to where the loop may go on. */
  predicate GoesOn(s: Stmt, sure: set<string>)
    requires s.Loop?
    decreases s, -1
  {
    exists o <- EndsOf(s.inner, sure) :: GoesRound(o, s.head)
  }

  /** Those of the rounds of a loop, which may end ahead of the first one or not. */
  function EndsOfRounds(s: Stmt, mayEnd: bool, sure: set<string>): (ends: Ends)
    requires s.Loop?
    ensures Cut !in ends && ends != {}
    decreases s, 0
  {
    var ofBody := EndsOf(s.inner, sure);
    var left := Broken((set o | o in ofBody && !GoesRound(o, s.head)), None);
    var ends := if mayEnd then left + {Normal} else left;
    if GoesOn(s, sure) then ends + EndsOfText(s.head.again, sure)
    else
      assert forall o <- ofBody :: o in left || o == Broke(None);
      ends
  }

  function EndsOfList(body: seq<Stmt>, sure: set<string>): (ends: Ends)
    ensures Cut !in ends && ends != {}
    decreases body, 0
  {
    if body == [] then {Normal} else Then(EndsOf(body[0], sure), EndsOfList(body[1..], sure))
  }

  /** Entered at any clause, and left by a `break`. */
  function EndsOfClauses(clauses: seq<Stmt>, sure: set<string>): (ends: Ends)
    ensures Cut !in ends
    decreases clauses, 1
  {
    if clauses == [] then {} else Broken(EndsOfList(clauses, sure), None) + EndsOfClauses(clauses[1..], sure)
  }

  lemma {:induction false} ClausesEnd(clauses: seq<Stmt>, sure: set<string>, o: Outcome)
    ensures o in EndsOfClauses(clauses, sure) <==>
            exists entry :: 0 <= entry < |clauses| && o in Broken(EndsOfList(clauses[entry..], sure), None)
    decreases |clauses|
  {
    if clauses != [] {
      ClausesEnd(clauses[1..], sure, o);
      assert clauses[0..] == clauses;
      assert forall entry :: 0 <= entry < |clauses| - 1 ==> clauses[1..][entry..] == clauses[entry + 1..];
      if entry :| 0 < entry < |clauses| && o in Broken(EndsOfList(clauses[entry..], sure), None) {
        assert clauses[1..][entry - 1..] == clauses[entry..];
      }
    }
  }

  // ---- nothing else happens ----

  /** What `sure` says of the functions is so of their executions with fewer than `n` choices. */
  ghost predicate SoundBelow(file: File, sure: set<string>, n: nat) {
    forall name, st: St :: name in sure && name in file && |st.choices| < n ==>
      var r := Exec(file, file[name], None, st);
      r.outcome.Threw? || r.outcome.Cut? || r.st.claimed
  }

  lemma {:induction false} CallsForeseen(file: File, calls: seq<string>, sure: set<string>, st: St, n: nat)
    requires SoundBelow(file, sure, n) && |st.choices| < n && sure <= file.Keys
    ensures var r := Calls(file, calls, st);
            r.outcome.Normal? && !r.st.claimed ==> forall name <- calls :: name !in sure
    decreases calls
  {
    if calls != [] {
      if calls[0] !in file {
        CallsForeseen(file, calls[1..], sure, st, n);
      } else {
        CallsForeseen(file, calls[1..], sure, Exec(file, file[calls[0]], None, st).st, n);
      }
    }
  }

  lemma TextForeseen(file: File, text: Expr, sure: set<string>, target: Target, st: St, n: nat)
    requires SoundBelow(file, sure, n) && |st.choices| <= n && sure <= file.Keys
    ensures var r := Eval(file, text, target, st);
            !r.st.claimed && !r.outcome.Cut? ==> r.outcome in EndsOfText(text, sure)
  {
    if st.choices != [] && st.choices[0] >= 2 {
      CallsForeseen(file, text.calls, sure, Reach(Take(st), target), n);
    }
  }

  /** An execution that takes no claim, and is not cut, ends in one of those outcomes. */
  lemma {:induction false} EndForeseen(file: File, s: Stmt, sure: set<string>, target: Target, st: St, n: nat)
    requires SoundBelow(file, sure, n) && |st.choices| <= n && sure <= file.Keys
    ensures var r := Exec(file, s, target, st);
            !r.st.claimed && !r.outcome.Cut? ==> r.outcome in EndsOf(s, sure)
    decreases |st.choices|, s, 1
  {
    match s
    case Leaf(text) => TextForeseen(file, text, sure, target, st, n);
    case Return(text) => TextForeseen(file, text, sure, target, st, n);
    case Throw(text) => TextForeseen(file, text, sure, target, st, n);
    case Block(body) => ListForeseen(file, body, 0, sure, target, st, n);
    case Clause(_, body) => ListForeseen(file, body, 0, sure, target, st, n);
    case If(_, _, _) => IfForeseen(file, s, sure, target, st, n);
    case Try(_, _, _) => TryForeseen(file, s, sure, target, st, n);
    case Loop(_, _) => LoopForeseen(file, s, sure, target, st, n);
    case Switch(_, _) => SwitchForeseen(file, s, sure, target, st, n);
    case Labeled(_, inner) => EndForeseen(file, inner, sure, Below(target, 0), st, n);
    case _ =>
  }

  lemma {:induction false} IfForeseen(file: File, s: Stmt, sure: set<string>, target: Target, st: St, n: nat)
    requires s.If? && SoundBelow(file, sure, n) && |st.choices| <= n && sure <= file.Keys
    ensures var r := Exec(file, s, target, st);
            !r.st.claimed && !r.outcome.Cut? ==> r.outcome in EndsOf(s, sure)
    decreases |st.choices|, s, 0
  {
    TextForeseen(file, s.test, sure, target, st, n);
    var r := Eval(file, s.test, target, st);
    if r.outcome.Normal? && r.st.choices != [] {
      if r.st.choices[0] == 0 {
        EndForeseen(file, s.thenArm, sure, Below(target, 0), Take(r.st), n);
      } else if s.elseArm.Some? {
        EndForeseen(file, s.elseArm.value, sure, Below(target, 1), Take(r.st), n);
      }
    }
  }

  lemma {:induction false} TryForeseen(file: File, s: Stmt, sure: set<string>, target: Target, st: St, n: nat)
    requires s.Try? && SoundBelow(file, sure, n) && |st.choices| <= n && sure <= file.Keys
    ensures var r := Exec(file, s, target, st);
            !r.st.claimed && !r.outcome.Cut? ==> r.outcome in EndsOf(s, sure)
    decreases |st.choices|, s, 0
  {
    EndForeseen(file, s.block, sure, Below(target, 0), st, n);
    var r := Exec(file, s.block, Below(target, 0), st);
    var caught := r.outcome.Threw? && s.handler.Some?;
    var h := if caught then Exec(file, s.handler.value, Below(target, 1), r.st) else r;
    if caught {
      EndForeseen(file, s.handler.value, sure, Below(target, 1), r.st, n);
    }
    assert !h.st.claimed && !h.outcome.Cut? ==> h.outcome in EndsOfAttempt(s, sure);
    if s.finalizer.Some? {
      EndForeseen(file, s.finalizer.value, sure, Below(target, 2), h.st, n);
    }
  }

  lemma {:induction false} SwitchForeseen(file: File, s: Stmt, sure: set<string>, target: Target, st: St, n: nat)
    requires s.Switch? && SoundBelow(file, sure, n) && |st.choices| <= n && sure <= file.Keys
    ensures var r := Exec(file, s, target, st);
            !r.st.claimed && !r.outcome.Cut? ==> r.outcome in EndsOf(s, sure)
    decreases |st.choices|, s, 0
  {
    TextForeseen(file, s.subject, sure, target, st, n);
    var r := Eval(file, s.subject, target, st);
    if r.outcome.Normal? && r.st.choices != [] && r.st.choices[0] < |s.clauses| {
      var entry := r.st.choices[0];
      var e := ExecList(file, s.clauses[entry..], entry, target, Take(r.st));
      ListForeseen(file, s.clauses[entry..], entry, sure, target, Take(r.st), n);
      ClausesEnd(s.clauses, sure, if e.outcome == Broke(None) then Normal else e.outcome);
    }
  }

  lemma {:induction false} ListForeseen(
      file: File, body: seq<Stmt>, i: nat, sure: set<string>, target: Target, st: St, n: nat)
    requires SoundBelow(file, sure, n) && |st.choices| <= n && sure <= file.Keys
    ensures var r := ExecList(file, body, i, target, st);
            !r.st.claimed && !r.outcome.Cut? ==> r.outcome in EndsOfList(body, sure)
    decreases |st.choices|, body, 0
  {
    if body != [] {
      EndForeseen(file, body[0], sure, Below(target, i), st, n);
      var r := Exec(file, body[0], Below(target, i), st);
      if r.outcome.Normal? {
        ListForeseen(file, body[1..], i + 1, sure, target, r.st, n);
      }
    }
  }

  lemma {:induction false} LoopForeseen(file: File, s: Stmt, sure: set<string>, target: Target, st: St, n: nat)
    requires s.Loop? && SoundBelow(file, sure, n) && |st.choices| <= n && sure <= file.Keys
    ensures var r := Exec(file, s, target, st);
            !r.st.claimed && !r.outcome.Cut? ==> r.outcome in EndsOf(s, sure)
    decreases |st.choices|, s, 0
  {
    if s.head.bodyFirst {
      RoundsForeseen(file, s, false, sure, target, st, n);
    } else {
      TextForeseen(file, s.head.first, sure, target, st, n);
      var r := Eval(file, s.head.first, target, st);
      if r.outcome.Normal? {
        RoundsForeseen(file, s, true, sure, target, r.st, n);
      }
    }
  }

  lemma {:induction false} RoundsForeseen(
      file: File, s: Stmt, mayEnd: bool, sure: set<string>, target: Target, st: St, n: nat)
    requires s.Loop? && SoundBelow(file, sure, n) && |st.choices| <= n && sure <= file.Keys
    ensures var r := Iterate(file, s.head, s.inner, mayEnd, target, st);
            !r.st.claimed && !r.outcome.Cut? ==> r.outcome in EndsOfRounds(s, mayEnd, sure)
    decreases |st.choices|, s, -1
  {
    if st.choices != [] && st.choices[0] != 0 {
      EndForeseen(file, s.inner, sure, Below(target, 0), Take(st), n);
      var r := Exec(file, s.inner, Below(target, 0), Take(st));
      if GoesRound(r.outcome, s.head) {
        TextForeseen(file, s.head.again, sure, Below(target, 1), r.st, n);
        var e := Eval(file, s.head.again, Below(target, 1), r.st);
        if e.outcome.Normal? {
          RoundsForeseen(file, s, true, sure, target, e.st, n);
        }
      }
    }
  }
}
