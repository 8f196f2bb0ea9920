/**
 * Executions of ClaimSemantics can be put together: one that was not cut uses up a stretch of the
 * choices, and from any other list that begins with that stretch it goes the same way.
 */
module ClaimReplay {
  import opened Prelude
  import opened ClaimAnalysis
  import opened ClaimSemantics

  /** `r`, with `rest` left of the choices. */
  function Ends(r: Res, rest: seq<nat>, unguarded: bool): Res {
    Res(St(rest, r.st.claimed, unguarded), r.outcome)
  }

  lemma Chain(first: seq<nat>, second: seq<nat>, rest: seq<nat>)
    ensures (first + second) + rest == first + (second + rest)
  {
  }

  lemma OneChoice(c: nat, used: seq<nat>, rest: seq<nat>, claimed: bool, u: bool)
    ensures var choices := ([c] + used) + rest;
            choices != [] && choices[0] == c && Take(St(choices, claimed, u)) == St(used + rest, claimed, u)
  {
    assert ([c] + used) + rest == [c] + (used + rest);
  }

  lemma {:induction false} EvalReplays(file: File, text: Expr, st: St, rest: seq<nat>, u: bool) returns (used: seq<nat>)
    requires !Eval(file, text, None, st).outcome.Cut?
    ensures var r := Eval(file, text, None, st);
            st.choices == used + r.st.choices &&
            Eval(file, text, None, St(used + rest, st.claimed, u)) == Ends(r, rest, u)
    decreases |st.choices|, 0, 0
  {
    used := [];
    if st.choices[0] >= 2 {
      used := CallsReplays(file, text.calls, Take(st), rest, u);
    }
    OneChoice(st.choices[0], used, rest, st.claimed, u);
    used := [st.choices[0]] + used;
  }

  lemma {:induction false} CallsReplays(file: File, calls: seq<string>, st: St, rest: seq<nat>, u: bool)
    returns (used: seq<nat>)
    requires !Calls(file, calls, st).outcome.Cut?
    ensures var r := Calls(file, calls, st);
            st.choices == used + r.st.choices && Calls(file, calls, St(used + rest, st.claimed, u)) == Ends(r, rest, u)
    decreases |st.choices|, 2, calls
  {
    if calls == [] {
      used := [];
    } else if calls[0] !in file {
      used := CallsReplays(file, calls[1..], st, rest, u);
    } else {
      var r, next := Exec(file, file[calls[0]], None, st), [];
      if !r.outcome.Threw? {
        next := CallsReplays(file, calls[1..], r.st, rest, u);
      }
      used := ExecReplays(file, file[calls[0]], st, next + rest, u);
      Chain(used, next, rest);
      used := used + next;
    }
  }

  lemma {:induction false} ExecReplays(file: File, s: Stmt, st: St, rest: seq<nat>, u: bool) returns (used: seq<nat>)
    requires !Exec(file, s, None, st).outcome.Cut?
    ensures var r := Exec(file, s, None, st);
            st.choices == used + r.st.choices && Exec(file, s, None, St(used + rest, st.claimed, u)) == Ends(r, rest, u)
    decreases |st.choices|, 1, s, 1
  {
    match s
    case Leaf(text) => used := EvalReplays(file, text, st, rest, u);
    case Return(text) => used := EvalReplays(file, text, st, rest, u);
    case Throw(text) => used := EvalReplays(file, text, st, rest, u);
    case Block(body) => used := ListReplays(file, body, 0, st, rest, u);
    case Clause(_, body) => used := ListReplays(file, body, 0, st, rest, u);
    case If(_, _, _) => used := IfReplays(file, s, st, rest, u);
    case Try(_, _, _) => used := TryReplays(file, s, st, rest, u);
    case Loop(_, _) => used := LoopReplays(file, s, st, rest, u);
    case Switch(_, _) => used := SwitchReplays(file, s, st, rest, u);
    case Labeled(_, inner) => used := ExecReplays(file, inner, st, rest, u);
    case _ => used := [];
  }

  lemma {:induction false} IfReplays(file: File, s: Stmt, st: St, rest: seq<nat>, u: bool) returns (used: seq<nat>)
    requires s.If? && !Exec(file, s, None, st).outcome.Cut?
    ensures var r := Exec(file, s, None, st);
            st.choices == used + r.st.choices && Exec(file, s, None, St(used + rest, st.claimed, u)) == Ends(r, rest, u)
    decreases |st.choices|, 1, s, 0
  {
    var r := Eval(file, s.test, None, st);
    if !r.outcome.Normal? {
      used := EvalReplays(file, s.test, st, rest, u);
    } else {
      var arm := ArmReplays(file, s, r.st, rest, u);
      used := EvalReplays(file, s.test, st, arm + rest, u);
      Chain(used, arm, rest);
      used := used + arm;
    }
  }

  /** What an `if` does once its test is evaluated. */
  function Arm(file: File, s: Stmt, st: St): Res
    requires s.If?
  {
    if st.choices == [] then Res(st, Cut)
    else if st.choices[0] == 0 then Exec(file, s.thenArm, None, Take(st))
    else if s.elseArm.Some? then Exec(file, s.elseArm.value, None, Take(st))
    else Res(Take(st), Normal)
  }

  lemma {:induction false} ArmReplays(file: File, s: Stmt, st: St, rest: seq<nat>, u: bool) returns (used: seq<nat>)
    requires s.If? && !Arm(file, s, st).outcome.Cut?
    ensures var r := Arm(file, s, st);
            st.choices == used + r.st.choices && Arm(file, s, St(used + rest, st.claimed, u)) == Ends(r, rest, u)
    decreases |st.choices|, 1, s, -1
  {
    used := [];
    if st.choices[0] == 0 {
      used := ExecReplays(file, s.thenArm, Take(st), rest, u);
    } else if s.elseArm.Some? {
      used := ExecReplays(file, s.elseArm.value, Take(st), rest, u);
    }
    OneChoice(st.choices[0], used, rest, st.claimed, u);
    used := [st.choices[0]] + used;
  }

  lemma {:induction false} SwitchReplays(file: File, s: Stmt, st: St, rest: seq<nat>, u: bool) returns (used: seq<nat>)
    requires s.Switch? && !Exec(file, s, None, st).outcome.Cut?
    ensures var r := Exec(file, s, None, st);
            st.choices == used + r.st.choices && Exec(file, s, None, St(used + rest, st.claimed, u)) == Ends(r, rest, u)
    decreases |st.choices|, 1, s, 0
  {
    var r := Eval(file, s.subject, None, st);
    if !r.outcome.Normal? {
      used := EvalReplays(file, s.subject, st, rest, u);
    } else {
      var entry, run := r.st.choices[0], [];
      if entry < |s.clauses| {
        run := ListReplays(file, s.clauses[entry..], entry, Take(r.st), rest, u);
      }
      OneChoice(entry, run, rest, r.st.claimed, u);
      run := [entry] + run;
      used := EvalReplays(file, s.subject, st, run + rest, u);
      Chain(used, run, rest);
      used := used + run;
    }
  }

  /** The block of a `try` and, if that threw, its handler. */
  function Attempt(file: File, s: Stmt, st: St): Res
    requires s.Try?
  {
    var r := Exec(file, s.block, None, st);
    if r.outcome.Threw? && s.handler.Some? then Exec(file, s.handler.value, None, r.st) else r
  }

  lemma TryRuns(file: File, s: Stmt, st: St)
    requires s.Try?
    ensures var h := Attempt(file, s, st);
            Exec(file, s, None, st) ==
              if s.finalizer.None? || h.outcome.Cut? then h
              else
                var f := Exec(file, s.finalizer.value, None, h.st);
                if f.outcome.Normal? then Res(f.st, h.outcome) else f
  {
  }

  lemma {:induction false} AttemptReplays(file: File, s: Stmt, st: St, rest: seq<nat>, u: bool) returns (used: seq<nat>)
    requires s.Try? && !Attempt(file, s, st).outcome.Cut?
    ensures var r := Attempt(file, s, st);
            st.choices == used + r.st.choices && Attempt(file, s, St(used + rest, st.claimed, u)) == Ends(r, rest, u)
    decreases |st.choices|, 1, s, -1
  {
    var r, next := Exec(file, s.block, None, st), [];
    if r.outcome.Threw? && s.handler.Some? {
      next := ExecReplays(file, s.handler.value, r.st, rest, u);
    }
    used := ExecReplays(file, s.block, st, next + rest, u);
    Chain(used, next, rest);
    used := used + next;
  }

  lemma {:induction false} TryReplays(file: File, s: Stmt, st: St, rest: seq<nat>, u: bool) returns (used: seq<nat>)
    requires s.Try? && !Exec(file, s, None, st).outcome.Cut?
    ensures var r := Exec(file, s, None, st);
            st.choices == used + r.st.choices && Exec(file, s, None, St(used + rest, st.claimed, u)) == Ends(r, rest, u)
    decreases |st.choices|, 1, s, 0
  {
    TryRuns(file, s, st);
    if s.finalizer.None? {
      used := AttemptReplays(file, s, st, rest, u);
      TryRuns(file, s, St(used + rest, st.claimed, u));
    } else {
      var next := ExecReplays(file, s.finalizer.value, Attempt(file, s, st).st, rest, u);
      used := AttemptReplays(file, s, st, next + rest, u);
      Chain(used, next, rest);
      used := used + next;
      TryRuns(file, s, St(used + rest, st.claimed, u));
    }
  }

  lemma {:induction false} ListReplays(file: File, body: seq<Stmt>, i: nat, st: St, rest: seq<nat>, u: bool)
    returns (used: seq<nat>)
    requires !ExecList(file, body, i, None, st).outcome.Cut?
    ensures var r := ExecList(file, body, i, None, st);
            st.choices == used + r.st.choices &&
            ExecList(file, body, i, None, St(used + rest, st.claimed, u)) == Ends(r, rest, u)
    decreases |st.choices|, 1, body, 0
  {
    used := [];
    if body != [] {
      var r, next := Exec(file, body[0], None, st), [];
      if r.outcome.Normal? {
        next := ListReplays(file, body[1..], i + 1, r.st, rest, u);
      }
      used := ExecReplays(file, body[0], st, next + rest, u);
      Chain(used, next, rest);
      used := used + next;
    }
  }

  lemma {:induction false} LoopReplays(file: File, s: Stmt, st: St, rest: seq<nat>, u: bool) returns (used: seq<nat>)
    requires s.Loop? && !Exec(file, s, None, st).outcome.Cut?
    ensures var r := Exec(file, s, None, st);
            st.choices == used + r.st.choices && Exec(file, s, None, St(used + rest, st.claimed, u)) == Ends(r, rest, u)
    decreases |st.choices|, 1, s, 0
  {
    if s.head.bodyFirst {
      used := RoundsReplay(file, s.head, s.inner, false, st, rest, u);
    } else {
      var r, next := Eval(file, s.head.first, None, st), [];
      if r.outcome.Normal? {
        next := RoundsReplay(file, s.head, s.inner, true, r.st, rest, u);
      }
      used := EvalReplays(file, s.head.first, st, next + rest, u);
      Chain(used, next, rest);
      used := used + next;
    }
  }

  /** One round of a loop, and what is evaluated after it if the loop is to go on. */
  function Round(file: File, head: Head, inner: Stmt, st: St): Res {
    var r := Exec(file, inner, None, st);
    if GoesRound(r.outcome, head) then Eval(file, head.again, None, r.st) else r
  }

  /** A round, and the rounds after it. */
  function AfterRound(file: File, head: Head, inner: Stmt, st: St): Res {
    var r := Round(file, head, inner, st);
    if r.outcome.Normal? then Iterate(file, head, inner, true, None, r.st)
    else if r.outcome == Broke(None) then Res(r.st, Normal)
    else r
  }

  lemma RoundRuns(file: File, head: Head, inner: Stmt, mayEnd: bool, st: St)
    requires st.choices != [] && st.choices[0] != 0
    ensures Iterate(file, head, inner, mayEnd, None, st) == AfterRound(file, head, inner, Take(st))
  {
  }

  lemma {:induction false} RoundReplays(file: File, head: Head, inner: Stmt, st: St, rest: seq<nat>, u: bool)
    returns (used: seq<nat>)
    requires !Round(file, head, inner, st).outcome.Cut?
    ensures var r := Round(file, head, inner, st);
            st.choices == used + r.st.choices &&
            Round(file, head, inner, St(used + rest, st.claimed, u)) == Ends(r, rest, u)
    decreases |st.choices|, 1, inner, 2
  {
    var r, next := Exec(file, inner, None, st), [];
    if GoesRound(r.outcome, head) {
      next := EvalReplays(file, head.again, r.st, rest, u);
    }
    used := ExecReplays(file, inner, st, next + rest, u);
    Chain(used, next, rest);
    used := used + next;
  }

  lemma {:induction false} RoundsReplay(
      file: File, head: Head, inner: Stmt, mayEnd: bool, st: St, rest: seq<nat>, u: bool)
    returns (used: seq<nat>)
    requires !Iterate(file, head, inner, mayEnd, None, st).outcome.Cut?
    ensures var r := Iterate(file, head, inner, mayEnd, None, st);
            st.choices == used + r.st.choices &&
            Iterate(file, head, inner, mayEnd, None, St(used + rest, st.claimed, u)) == Ends(r, rest, u)
    decreases |st.choices|, 1, inner, 5
  {
    if st.choices[0] == 0 {
      used := [0];
    } else {
      RoundRuns(file, head, inner, mayEnd, st);
      used := RoundAndOn(file, head, inner, Take(st), rest, u);
      OneChoice(st.choices[0], used, rest, st.claimed, u);
      used := [st.choices[0]] + used;
      RoundRuns(file, head, inner, mayEnd, St(used + rest, st.claimed, u));
    }
  }

  lemma {:induction false} RoundAndOn(file: File, head: Head, inner: Stmt, st: St, rest: seq<nat>, u: bool)
    returns (used: seq<nat>)
    requires !AfterRound(file, head, inner, st).outcome.Cut?
    ensures var r := AfterRound(file, head, inner, st);
            st.choices == used + r.st.choices &&
            AfterRound(file, head, inner, St(used + rest, st.claimed, u)) == Ends(r, rest, u)
    decreases |st.choices|, 1, inner, 4
  {
    var r := Round(file, head, inner, st);
    if r.outcome.Normal? {
      var next := RoundsReplay(file, head, inner, true, r.st, rest, u);
      used := RoundReplays(file, head, inner, st, next + rest, u);
      Chain(used, next, rest);
      used := used + next;
    } else {
      used := RoundReplays(file, head, inner, st, rest, u);
    }
  }
}
