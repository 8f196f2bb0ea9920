/**
 * Each outcome of ClaimOutcomes happens: an execution of the statement that takes no claim ends in
 * it, written out as the choices that lead there. So the functions that are sure to take a claim
 * can be told from the syntax of the file.
 */
module ClaimWitnesses {
  import opened Prelude
  import opened ClaimAnalysis
  import opened ClaimSemantics
  import opened ClaimSoundness
  import opened ClaimDelegates
  import opened ClaimOutcomes
  import opened ClaimReplay

  /** From any state without a claim, the choices `pre` take `s` to the outcome `o`, still without one. */
  ghost predicate Passes(file: File, s: Stmt, pre: seq<nat>, o: Outcome) {
    forall rest: seq<nat>, u: bool :: Exec(file, s, None, St(pre + rest, false, u)) == Res(St(rest, false, u), o)
  }

  ghost predicate ListPasses(file: File, body: seq<Stmt>, i: nat, pre: seq<nat>, o: Outcome) {
    forall rest: seq<nat>, u: bool ::
        ExecList(file, body, i, None, St(pre + rest, false, u)) == Res(St(rest, false, u), o)
  }

  // ---- calls and expressions ----

  /** A function that is not sound has an execution that completes without a claim, and so calls to it pass. */
  lemma {:induction false} CallsPass(file: File, calls: seq<string>) returns (pre: seq<nat>)
    requires forall name <- calls :: name !in SoundNames(file)
    ensures forall rest: seq<nat>, u: bool ::
              Calls(file, calls, St(pre + rest, false, u)) == Res(St(rest, false, u), Normal)
    decreases calls
  {
    if calls == [] {
      pre := [];
      assert forall rest: seq<nat> :: [] + rest == rest;
    } else {
      var next := CallsPass(file, calls[1..]);
      if calls[0] !in file {
        pre := next;
      } else {
        pre := CallPasses(file, calls, next);
      }
    }
  }

  lemma CallPasses(file: File, calls: seq<string>, next: seq<nat>) returns (pre: seq<nat>)
    requires calls != [] && calls[0] in file && calls[0] !in SoundNames(file)
    requires forall rest: seq<nat>, u: bool ::
               Calls(file, calls[1..], St(next + rest, false, u)) == Res(St(rest, false, u), Normal)
    ensures forall rest: seq<nat>, u: bool ::
              Calls(file, calls, St(pre + rest, false, u)) == Res(St(rest, false, u), Normal)
  {
    var s := file[calls[0]];
    var st: St :| var r := Exec(file, s, None, st); !r.outcome.Threw? && !r.outcome.Cut? && !r.st.claimed;
    var left := Exec(file, s, None, st).st.choices;
    var used := st.choices[..|st.choices| - |left|];
    forall rest: seq<nat>, u: bool
      ensures Calls(file, calls, St((used + next) + rest, false, u)) == Res(St(rest, false, u), Normal)
    {
      var same := ExecReplays(file, s, st, next + rest, u);
      assert same == used;
      Chain(used, next, rest);
    }
    pre := used + next;
  }

  lemma TextPasses(file: File, text: Expr, target: Target) returns (pre: seq<nat>)
    requires !Mentions(text, SoundNames(file)) && target != Some([])
    ensures forall rest: seq<nat>, u: bool ::
              Eval(file, text, target, St(pre + rest, false, u)) == Res(St(rest, false, u), Normal)
  {
    var ofCalls := CallsPass(file, text.calls);
    pre := [3] + ofCalls;
    forall rest: seq<nat>, u: bool
      ensures Eval(file, text, target, St(pre + rest, false, u)) == Res(St(rest, false, u), Normal)
    {
      OneChoice(3, ofCalls, rest, false, u);
    }
  }

  /** Any expression throws, before it does anything, at the choice 0. */
  lemma TextThrows(file: File, text: Expr, rest: seq<nat>, u: bool)
    ensures Eval(file, text, None, St([0] + rest, false, u)) == Res(St(rest, false, u), Threw)
  {
    assert Take(St([0] + rest, false, u)) == St(rest, false, u);
  }

  predicate HasText(s: Stmt) {
    s.Leaf? || s.Return? || s.Throw? || s.If? || s.Switch?
  }

  lemma ThrowsAtOnce(file: File, s: Stmt)
    requires HasText(s)
    ensures Passes(file, s, [0], Threw)
  {
    forall rest: seq<nat>, u: bool
      ensures Exec(file, s, None, St([0] + rest, false, u)) == Res(St(rest, false, u), Threw)
    {
      match s
      case Leaf(text) => TextThrows(file, text, rest, u);
      case Return(text) => TextThrows(file, text, rest, u);
      case Throw(text) => TextThrows(file, text, rest, u);
      case If(test, _, _) => TextThrows(file, test, rest, u);
      case Switch(subject, _) => TextThrows(file, subject, rest, u);
    }
  }

  // ---- one after another ----

  lemma ListPassesOn(file: File, body: seq<Stmt>, i: nat, first: seq<nat>, next: seq<nat>, o: Outcome)
    requires body != [] && Passes(file, body[0], first, Normal) && ListPasses(file, body[1..], i + 1, next, o)
    ensures ListPasses(file, body, i, first + next, o)
  {
    forall rest: seq<nat>, u: bool
      ensures ExecList(file, body, i, None, St((first + next) + rest, false, u)) == Res(St(rest, false, u), o)
    {
      Chain(first, next, rest);
      assert Exec(file, body[0], None, St(first + (next + rest), false, u)) == Res(St(next + rest, false, u), Normal);
    }
  }

  lemma ListStops(file: File, body: seq<Stmt>, i: nat, first: seq<nat>, o: Outcome)
    requires body != [] && Passes(file, body[0], first, o) && !o.Normal?
    ensures ListPasses(file, body, i, first, o)
  {
    forall rest: seq<nat>, u: bool
      ensures ExecList(file, body, i, None, St(first + rest, false, u)) == Res(St(rest, false, u), o)
    {
    }
  }

  /** A block and, if it throws and there is one, the handler. */
  ghost predicate AttemptPasses(file: File, s: Stmt, pre: seq<nat>, o: Outcome)
    requires s.Try?
  {
    forall rest: seq<nat>, u: bool :: Attempt(file, s, St(pre + rest, false, u)) == Res(St(rest, false, u), o)
  }

  lemma HandlerPasses(file: File, s: Stmt, a: seq<nat>, h: seq<nat>, o: Outcome)
    requires s.Try? && Passes(file, s.block, a, Threw) && s.handler.Some? && Passes(file, s.handler.value, h, o)
    ensures AttemptPasses(file, s, a + h, o)
  {
    forall rest: seq<nat>, u: bool
      ensures Attempt(file, s, St((a + h) + rest, false, u)) == Res(St(rest, false, u), o)
    {
      Chain(a, h, rest);
    }
  }

  lemma TryPasses(file: File, s: Stmt, pre: seq<nat>, o: Outcome)
    requires s.Try? && AttemptPasses(file, s, pre, o) && s.finalizer.None?
    ensures Passes(file, s, pre, o)
  {
    forall rest: seq<nat>, u: bool ensures Exec(file, s, None, St(pre + rest, false, u)) == Res(St(rest, false, u), o) {
      TryRuns(file, s, St(pre + rest, false, u));
    }
  }

  lemma FinallyPassesHere(
      file: File, s: Stmt, pre: seq<nat>, o: Outcome, f: seq<nat>, of: Outcome, rest: seq<nat>, u: bool)
    requires s.Try? && AttemptPasses(file, s, pre, o) && o != Cut
    requires s.finalizer.Some? && Passes(file, s.finalizer.value, f, of)
    ensures Exec(file, s, None, St((pre + f) + rest, false, u)) ==
            Res(St(rest, false, u), if of.Normal? then o else of)
  {
    Chain(pre, f, rest);
    TryRuns(file, s, St((pre + f) + rest, false, u));
  }

  lemma FinallyPasses(file: File, s: Stmt, pre: seq<nat>, o: Outcome, f: seq<nat>, of: Outcome)
    requires s.Try? && AttemptPasses(file, s, pre, o) && o != Cut
    requires s.finalizer.Some? && Passes(file, s.finalizer.value, f, of)
    ensures Passes(file, s, pre + f, if of.Normal? then o else of)
  {
    forall rest: seq<nat>, u: bool
      ensures Exec(file, s, None, St((pre + f) + rest, false, u)) ==
              Res(St(rest, false, u), if of.Normal? then o else of)
    {
      FinallyPassesHere(file, s, pre, o, f, of, rest, u);
    }
  }

  // ---- every outcome ----

  lemma NothingUsed()
    ensures forall rest: seq<nat> :: [] + rest == rest
  {
  }

  /** Each of the outcomes happens. */
  lemma {:induction false} EndHappens(file: File, s: Stmt, sure: set<string>, o: Outcome) returns (pre: seq<nat>)
    requires SoundNames(file) <= sure && o in EndsOf(s, sure)
    ensures Passes(file, s, pre, o)
    decreases s, 1
  {
    pre := [];
    NothingUsed();
    match s
    case Leaf(_) => pre := LeafEnds(file, s, sure, o);
    case Return(_) => pre := LeafEnds(file, s, sure, o);
    case Throw(_) => pre := LeafEnds(file, s, sure, o);
    case Block(body) => pre := ListEnds(file, body, 0, sure, o);
    case Clause(_, body) => pre := ListEnds(file, body, 0, sure, o);
    case If(_, _, _) => pre := IfEnds(file, s, sure, o);
    case Try(_, _, _) => pre := TryEnds(file, s, sure, o);
    case Loop(_, _) => pre := LoopEnds(file, s, sure, o);
    case Switch(_, _) => pre := SwitchEnds(file, s, sure, o);
    case Labeled(_, _) => pre := LabeledEnds(file, s, sure, o);
    case _ =>
  }

  lemma LeafEnds(file: File, s: Stmt, sure: set<string>, o: Outcome) returns (pre: seq<nat>)
    requires s.Leaf? || s.Return? || s.Throw?
    requires SoundNames(file) <= sure && o in EndsOf(s, sure)
    ensures Passes(file, s, pre, o)
  {
    if o.Threw? {
      ThrowsAtOnce(file, s);
      pre := [0];
    } else {
      pre := TextPasses(file, s.text, None);
    }
  }

  lemma {:induction false} ListEnds(file: File, body: seq<Stmt>, i: nat, sure: set<string>, o: Outcome)
    returns (pre: seq<nat>)
    requires SoundNames(file) <= sure && o in EndsOfList(body, sure)
    ensures ListPasses(file, body, i, pre, o)
    decreases body, 0
  {
    if body == [] {
      pre := [];
      NothingUsed();
    } else if !o.Normal? && o in EndsOf(body[0], sure) {
      pre := EndHappens(file, body[0], sure, o);
      ListStops(file, body, i, pre, o);
    } else {
      var first := EndHappens(file, body[0], sure, Normal);
      var next := ListEnds(file, body[1..], i + 1, sure, o);
      ListPassesOn(file, body, i, first, next, o);
      pre := first + next;
    }
  }

  lemma {:induction false} IfEnds(file: File, s: Stmt, sure: set<string>, o: Outcome) returns (pre: seq<nat>)
    requires s.If? && SoundNames(file) <= sure && o in EndsOf(s, sure)
    ensures Passes(file, s, pre, o)
    decreases s, 0
  {
    if o.Threw? {
      ThrowsAtOnce(file, s);
      return [0];
    }
    var ofTest := TextPasses(file, s.test, None);
    var ofArm := ArmEnds(file, s, sure, o);
    pre := ofTest + ofArm;
    forall rest: seq<nat>, u: bool ensures Exec(file, s, None, St(pre + rest, false, u)) == Res(St(rest, false, u), o) {
      Chain(ofTest, ofArm, rest);
      IfRuns(file, s, St(pre + rest, false, u));
    }
  }

  lemma IfRuns(file: File, s: Stmt, st: St)
    requires s.If?
    ensures var r := Eval(file, s.test, None, st);
            Exec(file, s, None, st) == if r.outcome.Normal? then Arm(file, s, r.st) else r
  {
  }

  lemma {:induction false} ArmEnds(file: File, s: Stmt, sure: set<string>, o: Outcome) returns (pre: seq<nat>)
    requires s.If? && SoundNames(file) <= sure
    requires o in EndsOf(s.thenArm, sure) || o in if s.elseArm.Some? then EndsOf(s.elseArm.value, sure) else {Normal}
    ensures forall rest: seq<nat>, u: bool :: Arm(file, s, St(pre + rest, false, u)) == Res(St(rest, false, u), o)
    decreases s, -1
  {
    var arm, ofArm := 1, [];
    NothingUsed();
    if o in EndsOf(s.thenArm, sure) {
      arm := 0;
      ofArm := EndHappens(file, s.thenArm, sure, o);
    } else if s.elseArm.Some? {
      ofArm := EndHappens(file, s.elseArm.value, sure, o);
    }
    pre := [arm] + ofArm;
    forall rest: seq<nat>, u: bool ensures Arm(file, s, St(pre + rest, false, u)) == Res(St(rest, false, u), o) {
      OneChoice(arm, ofArm, rest, false, u);
    }
  }

  lemma {:induction false} AttemptEnds(file: File, s: Stmt, sure: set<string>, o: Outcome) returns (pre: seq<nat>)
    requires s.Try? && SoundNames(file) <= sure && o in EndsOfAttempt(s, sure)
    ensures AttemptPasses(file, s, pre, o)
    decreases s, -1
  {
    if o in EndsOf(s.block, sure) && (o.Threw? ==> s.handler.None?) {
      pre := EndHappens(file, s.block, sure, o);
    } else {
      pre := EndHappens(file, s.block, sure, Threw);
      var ofHandler := EndHappens(file, s.handler.value, sure, o);
      HandlerPasses(file, s, pre, ofHandler, o);
      pre := pre + ofHandler;
    }
  }

  lemma {:induction false} TryEnds(file: File, s: Stmt, sure: set<string>, o: Outcome) returns (pre: seq<nat>)
    requires s.Try? && SoundNames(file) <= sure && o in EndsOf(s, sure)
    ensures Passes(file, s, pre, o)
    decreases s, 0
  {
    if s.finalizer.None? {
      pre := AttemptEnds(file, s, sure, o);
      TryPasses(file, s, pre, o);
    } else {
      var leaves := !o.Normal? && o in EndsOf(s.finalizer.value, sure);
      var before, after := o, o;
      if leaves {
        before :| before in EndsOfAttempt(s, sure);
      } else {
        after := Normal;
      }
      pre := AttemptEnds(file, s, sure, before);
      var ofFinally := EndHappens(file, s.finalizer.value, sure, after);
      FinallyPasses(file, s, pre, before, ofFinally, after);
      pre := pre + ofFinally;
    }
  }

  lemma {:induction false} LoopEnds(file: File, s: Stmt, sure: set<string>, o: Outcome) returns (pre: seq<nat>)
    requires s.Loop? && SoundNames(file) <= sure && o in EndsOf(s, sure)
    ensures Passes(file, s, pre, o)
    decreases s, 0
  {
    if s.head.bodyFirst {
      pre := RoundsEnd(file, s, false, sure, o);
    } else if o.Threw? {
      pre := [0];
      forall rest: seq<nat>, u: bool
        ensures Exec(file, s, None, St([0] + rest, false, u)) == Res(St(rest, false, u), Threw)
      {
        TextThrows(file, s.head.first, rest, u);
      }
    } else {
      pre := TextPasses(file, s.head.first, None);
      var rounds := RoundsEnd(file, s, true, sure, o);
      forall rest: seq<nat>, u: bool
        ensures Exec(file, s, None, St((pre + rounds) + rest, false, u)) == Res(St(rest, false, u), o)
      {
        Chain(pre, rounds, rest);
      }
      pre := pre + rounds;
    }
  }

  ghost predicate RoundsPass(file: File, s: Stmt, mayEnd: bool, pre: seq<nat>, o: Outcome)
    requires s.Loop?
  {
    forall rest: seq<nat>, u: bool ::
      Iterate(file, s.head, s.inner, mayEnd, None, St(pre + rest, false, u)) == Res(St(rest, false, u), o)
  }

  lemma {:induction false} RoundsEnd(file: File, s: Stmt, mayEnd: bool, sure: set<string>, o: Outcome)
    returns (pre: seq<nat>)
    requires s.Loop? && SoundNames(file) <= sure && o in EndsOfRounds(s, mayEnd, sure)
    ensures RoundsPass(file, s, mayEnd, pre, o)
    decreases s, -1
  {
    if mayEnd && o.Normal? {
      pre := [0];
      assert forall rest: seq<nat>, u: bool :: Take(St([0] + rest, false, u)) == St(rest, false, u);
    } else if o in EndsOf(s.inner, sure) && !GoesRound(o, s.head) && o != Broke(None) {
      pre := EndHappens(file, s.inner, sure, o);
      RoundLeaves(file, s, mayEnd, pre, o);
      pre := [1] + pre;
    } else if o.Normal? && Broke(None) in EndsOf(s.inner, sure) {
      pre := EndHappens(file, s.inner, sure, Broke(None));
      RoundLeaves(file, s, mayEnd, pre, Broke(None));
      pre := [1] + pre;
    } else {
      var goes: Outcome :| goes in EndsOf(s.inner, sure) && GoesRound(goes, s.head);
      pre := EndHappens(file, s.inner, sure, goes);
      if o.Threw? {
        RoundThrows(file, s, mayEnd, pre, goes);
        pre := [1] + (pre + [0]);
      } else {
        pre := RoundStops(file, s, mayEnd, pre, goes);
      }
    }
  }

  lemma RoundLeavesHere(file: File, s: Stmt, mayEnd: bool, ofBody: seq<nat>, o: Outcome, rest: seq<nat>, u: bool)
    requires s.Loop? && Passes(file, s.inner, ofBody, o) && !GoesRound(o, s.head)
    ensures Iterate(file, s.head, s.inner, mayEnd, None, St(([1] + ofBody) + rest, false, u)) ==
            Res(St(rest, false, u), if o == Broke(None) then Normal else o)
  {
    OneChoice(1, ofBody, rest, false, u);
    RoundRuns(file, s.head, s.inner, mayEnd, St(([1] + ofBody) + rest, false, u));
  }

  lemma RoundLeaves(file: File, s: Stmt, mayEnd: bool, ofBody: seq<nat>, o: Outcome)
    requires s.Loop? && Passes(file, s.inner, ofBody, o) && !GoesRound(o, s.head)
    ensures RoundsPass(file, s, mayEnd, [1] + ofBody, if o == Broke(None) then Normal else o)
  {
    forall rest: seq<nat>, u: bool
      ensures Iterate(file, s.head, s.inner, mayEnd, None, St(([1] + ofBody) + rest, false, u)) ==
              Res(St(rest, false, u), if o == Broke(None) then Normal else o)
    {
      RoundLeavesHere(file, s, mayEnd, ofBody, o, rest, u);
    }
  }

  /** The body comes to where the loop may go on, and the text that is evaluated then throws. */
  lemma RoundThrowsHere(file: File, s: Stmt, mayEnd: bool, ofBody: seq<nat>, goes: Outcome, rest: seq<nat>, u: bool)
    requires s.Loop? && Passes(file, s.inner, ofBody, goes) && GoesRound(goes, s.head)
    ensures Iterate(file, s.head, s.inner, mayEnd, None, St(([1] + (ofBody + [0])) + rest, false, u)) ==
            Res(St(rest, false, u), Threw)
  {
    OneChoice(1, ofBody + [0], rest, false, u);
    Chain(ofBody, [0], rest);
    TextThrows(file, s.head.again, rest, u);
    RoundRuns(file, s.head, s.inner, mayEnd, St(([1] + (ofBody + [0])) + rest, false, u));
  }

  lemma RoundThrows(file: File, s: Stmt, mayEnd: bool, ofBody: seq<nat>, goes: Outcome)
    requires s.Loop? && Passes(file, s.inner, ofBody, goes) && GoesRound(goes, s.head)
    ensures RoundsPass(file, s, mayEnd, [1] + (ofBody + [0]), Threw)
  {
    forall rest: seq<nat>, u: bool
      ensures Iterate(file, s.head, s.inner, mayEnd, None, St(([1] + (ofBody + [0])) + rest, false, u)) ==
              Res(St(rest, false, u), Threw)
    {
      RoundThrowsHere(file, s, mayEnd, ofBody, goes, rest, u);
    }
  }

  /** The loop ends at its next choice. */
  lemma RoundsStop(file: File, s: Stmt, rest: seq<nat>, u: bool)
    requires s.Loop?
    ensures Iterate(file, s.head, s.inner, true, None, St([0] + rest, false, u)) == Res(St(rest, false, u), Normal)
  {
    assert Take(St([0] + rest, false, u)) == St(rest, false, u);
  }

  /** Or that text is evaluated to its end, and the loop ends. */
  lemma RoundStopsHere(
      file: File, s: Stmt, mayEnd: bool, ofBody: seq<nat>, goes: Outcome, ofText: seq<nat>, rest: seq<nat>, u: bool)
    requires s.Loop? && Passes(file, s.inner, ofBody, goes) && GoesRound(goes, s.head)
    requires Eval(file, s.head.again, None, St(ofText + ([0] + rest), false, u)) ==
             Res(St([0] + rest, false, u), Normal)
    ensures Iterate(file, s.head, s.inner, mayEnd, None, St(([1] + (ofBody + (ofText + [0]))) + rest, false, u)) ==
            Res(St(rest, false, u), Normal)
  {
    OneChoice(1, ofBody + (ofText + [0]), rest, false, u);
    Chain(ofBody, ofText + [0], rest);
    Chain(ofText, [0], rest);
    RoundsStop(file, s, rest, u);
    RoundRuns(file, s.head, s.inner, mayEnd, St(([1] + (ofBody + (ofText + [0]))) + rest, false, u));
  }

  lemma RoundStops(file: File, s: Stmt, mayEnd: bool, ofBody: seq<nat>, goes: Outcome) returns (pre: seq<nat>)
    requires s.Loop? && Passes(file, s.inner, ofBody, goes) && GoesRound(goes, s.head)
    requires !Mentions(s.head.again, SoundNames(file))
    ensures RoundsPass(file, s, mayEnd, pre, Normal)
  {
    var ofText := TextPasses(file, s.head.again, None);
    pre := [1] + (ofBody + (ofText + [0]));
    forall rest: seq<nat>, u: bool
      ensures Iterate(file, s.head, s.inner, mayEnd, None, St(pre + rest, false, u)) == Res(St(rest, false, u), Normal)
    {
      RoundStopsHere(file, s, mayEnd, ofBody, goes, ofText, rest, u);
    }
  }

  lemma {:induction false} SwitchEnds(file: File, s: Stmt, sure: set<string>, o: Outcome) returns (pre: seq<nat>)
    requires s.Switch? && SoundNames(file) <= sure && o in EndsOf(s, sure)
    ensures Passes(file, s, pre, o)
    decreases s, 0
  {
    if o.Threw? {
      ThrowsAtOnce(file, s);
      return [0];
    }
    var ofSubject := TextPasses(file, s.subject, None);
    var entry, run := |s.clauses|, [];
    if !o.Normal? || HasDefault(s.clauses) {
      entry, run := EntryEnds(file, s, sure, o);
    }
    pre := ofSubject + ([entry] + run);
    forall rest: seq<nat>, u: bool
      ensures Exec(file, s, None, St(pre + rest, false, u)) == Res(St(rest, false, u), o)
    {
      NothingUsed();
      Chain(ofSubject, [entry] + run, rest);
      SwitchRuns(file, s, St(pre + rest, false, u));
      OneChoice(entry, run, rest, false, u);
    }
  }

  /** What a `switch` does from the clause that is chosen on. */
  function Entered(file: File, s: Stmt, entry: nat, st: St): Res
    requires s.Switch?
  {
    if entry >= |s.clauses| then Res(st, Normal)
    else
      var e := ExecList(file, s.clauses[entry..], entry, None, st);
      if e.outcome == Broke(None) then Res(e.st, Normal) else e
  }

  lemma SwitchRuns(file: File, s: Stmt, st: St)
    requires s.Switch? && Eval(file, s.subject, None, st).outcome.Normal?
    requires var left := Eval(file, s.subject, None, st).st.choices;
             left != [] && (left[0] >= |s.clauses| ==> !HasDefault(s.clauses))
    ensures var after := Eval(file, s.subject, None, st).st;
            Exec(file, s, None, st) == Entered(file, s, after.choices[0], Take(after))
  {
  }

  lemma {:induction false} EntryEnds(file: File, s: Stmt, sure: set<string>, o: Outcome)
    returns (entry: nat, run: seq<nat>)
    requires s.Switch? && SoundNames(file) <= sure && o in EndsOfClauses(s.clauses, sure)
    ensures entry < |s.clauses|
    ensures forall rest: seq<nat>, u: bool ::
              Entered(file, s, entry, St(run + rest, false, u)) == Res(St(rest, false, u), o)
    decreases s, -1
  {
    ClausesEnd(s.clauses, sure, o);
    entry :| entry < |s.clauses| && o in Broken(EndsOfList(s.clauses[entry..], sure), None);
    var ends := if o in EndsOfList(s.clauses[entry..], sure) && o != Broke(None) then o else Broke(None);
    run := ListEnds(file, s.clauses[entry..], entry, sure, ends);
    forall rest: seq<nat>, u: bool
      ensures Entered(file, s, entry, St(run + rest, false, u)) == Res(St(rest, false, u), o)
    {
      assert ExecList(file, s.clauses[entry..], entry, None, St(run + rest, false, u)) == Res(St(rest, false, u), ends);
    }
  }

  lemma {:induction false} LabeledEnds(file: File, s: Stmt, sure: set<string>, o: Outcome) returns (pre: seq<nat>)
    requires s.Labeled? && SoundNames(file) <= sure && o in EndsOf(s, sure)
    ensures Passes(file, s, pre, o)
    decreases s, 0
  {
    if o in EndsOf(s.inner, sure) && o != Broke(Some(s.name)) {
      pre := EndHappens(file, s.inner, sure, o);
    } else {
      pre := EndHappens(file, s.inner, sure, Broke(Some(s.name)));
    }
    forall rest: seq<nat>, u: bool
      ensures Exec(file, s, None, St(pre + rest, false, u)) == Res(St(rest, false, u), o)
    {
    }
  }
}
