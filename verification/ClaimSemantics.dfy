/**
 * What the statements of ClaimAnalysis do when they run. Conditions, loop counts, switch entries
 * and throws are decided by a list of choices, so "every execution" is "every list of choices".
 * When the list runs out, or a choice stands for nothing, the execution is cut there: loops that
 * never end are met by their prefixes.
 */
module ClaimSemantics {
  import opened Prelude
  import opened ClaimAnalysis

  datatype Outcome =
    | Normal
    | Returned
    | Threw
    | Broke(target: Option<string>)
    | Continued(target: Option<string>)
    | Cut

  /**
   * `claimed`: a claim has been taken. `unguarded`: the write under audit has been reached, and at
   * that moment no claim had been taken.
   */
  datatype St = St(choices: seq<nat>, claimed: bool, unguarded: bool)
  datatype Res = Res(st: St, outcome: Outcome)

  /** The write lies in the expression of the statement a path leads to; None when it is elsewhere. */
  type Target = Option<seq<nat>>

  function Below(target: Target, i: nat): Target {
    if target.Some? && target.value != [] && target.value[0] == i then Some(target.value[1..]) else None
  }

  function Reach(st: St, target: Target): St {
    if target == Some([]) && !st.claimed then st.(unguarded := true) else st
  }

  function Take(st: St): St
    requires st.choices != []
  {
    st.(choices := st.choices[1..])
  }

  /** What every execution keeps: a claim, once taken, guards whatever comes after. */
  predicate Follows(before: St, target: Target, after: St) {
    && |after.choices| <= |before.choices|
    && (before.claimed ==> after.claimed)
    && (before.unguarded ==> after.unguarded)
    && (before.claimed || target.None? ==> after.unguarded == before.unguarded)
  }

  /**
   * An expression: it may throw before it does anything, or half way, or at its end. The write in
   * it is reached ahead of the claims in it. Choices 0, 1 and 2 throw.
   */
  function Eval(file: File, text: Expr, target: Target, st: St): (r: Res)
    ensures Follows(st, target, r.st) && (r.outcome.Normal? || r.outcome.Threw? || r.outcome.Cut?)
    ensures !r.outcome.Cut? ==> |r.st.choices| < |st.choices|
    decreases |st.choices|, 0, 0
  {
    if st.choices == [] then Res(st, Cut)
    else if st.choices[0] == 0 then Res(Take(st), Threw)
    else if st.choices[0] == 1 then Res(Reach(Take(st), target), Threw)
    else
      var r := Calls(file, text.calls, Reach(Take(st), target));
      if !r.outcome.Normal? then r
      else
        var last := if text.direct then r.st.(claimed := true) else r.st;
        Res(last, if st.choices[0] == 2 then Threw else Normal)
  }

  /** Runs the called functions of the file one after another. A name it does not declare does nothing. */
  function Calls(file: File, calls: seq<string>, st: St): (r: Res)
    ensures Follows(st, None, r.st) && (r.outcome.Normal? || r.outcome.Threw? || r.outcome.Cut?)
    decreases |st.choices|, 2, calls
  {
    if calls == [] then Res(st, Normal)
    else if calls[0] !in file then Calls(file, calls[1..], st)
    else
      var r := Exec(file, file[calls[0]], None, st);
      if r.outcome.Threw? || r.outcome.Cut? then r else Calls(file, calls[1..], r.st)
  }

  function Exec(file: File, s: Stmt, target: Target, st: St): (r: Res)
    ensures Follows(st, target, r.st)
    decreases |st.choices|, 1, s, 1
  {
    match s
    case Leaf(text) => Eval(file, text, target, st)
    case FunctionDeclaration(_) => Res(st, Normal)
    case Return(text) =>
      var r := Eval(file, text, target, st);
      if r.outcome.Normal? then Res(r.st, Returned) else r
    case Throw(text) =>
      var r := Eval(file, text, target, st);
      if r.outcome.Normal? then Res(r.st, Threw) else r
    case Break(to) => Res(st, Broke(to))
    case Continue(to) => Res(st, Continued(to))
    case Block(body) => ExecList(file, body, 0, target, st)
    case Clause(_, body) => ExecList(file, body, 0, target, st)
    case If(test, a, b) =>
      var r := Eval(file, test, target, st);
      if !r.outcome.Normal? then r
      else if r.st.choices == [] then Res(r.st, Cut)
      else if r.st.choices[0] == 0 then Exec(file, a, Below(target, 0), Take(r.st))
      else if b.Some? then Exec(file, b.value, Below(target, 1), Take(r.st))
      else Res(Take(r.st), Normal)
    case Try(block, handler, finalizer) =>
      var r := Exec(file, block, Below(target, 0), st);
      var h := if r.outcome.Threw? && handler.Some? then Exec(file, handler.value, Below(target, 1), r.st) else r;
      if finalizer.None? || h.outcome.Cut? then h
      else
        var f := Exec(file, finalizer.value, Below(target, 2), h.st);
        if f.outcome.Normal? then Res(f.st, h.outcome) else f
    case Loop(head, inner) =>
      if head.bodyFirst then Iterate(file, head, inner, false, target, st)
      else
        var r := Eval(file, head.first, target, st);
        if r.outcome.Normal? then Iterate(file, head, inner, true, target, r.st) else r
    case Switch(subject, clauses) =>
      var r := Eval(file, subject, target, st);
      if !r.outcome.Normal? then r
      else if r.st.choices == [] then Res(r.st, Cut)
      else
        var entry := r.st.choices[0];
        if entry >= |clauses| then
          if HasDefault(clauses) then Res(r.st, Cut) else Res(Take(r.st), Normal)
        else
          var e := ExecList(file, clauses[entry..], entry, target, Take(r.st));
          if e.outcome == Broke(None) then Res(e.st, Normal) else e
    case Labeled(name, inner) =>
      var r := Exec(file, inner, Below(target, 0), st);
      if r.outcome == Broke(Some(name)) then Res(r.st, Normal) else r
  }

  /** Runs a list in order; its first statement is number `i` of the list it is the tail of. */
  function ExecList(file: File, body: seq<Stmt>, i: nat, target: Target, st: St): (r: Res)
    ensures Follows(st, target, r.st)
    decreases |st.choices|, 1, body, 0
  {
    if body == [] then Res(st, Normal)
    else
      var r := Exec(file, body[0], Below(target, i), st);
      if r.outcome.Normal? then ExecList(file, body[1..], i + 1, target, r.st) else r
  }

  /** The body has come to its end, or to a `continue` of this loop. */
  predicate GoesRound(o: Outcome, head: Head) {
    o.Normal? || (o.Continued? && (o.target.None? || o.target.value in head.labels))
  }

  /** The rounds of a loop. It may end ahead of each, except of the first one of a `do`. */
  function Iterate(file: File, head: Head, inner: Stmt, mayEnd: bool, target: Target, st: St): (r: Res)
    ensures Follows(st, target, r.st)
    decreases |st.choices|, 1, inner, 2
  {
    if st.choices == [] then Res(st, Cut)
    else if st.choices[0] == 0 then if mayEnd then Res(Take(st), Normal) else Res(st, Cut)
    else
      var r := Exec(file, inner, Below(target, 0), Take(st));
      if r.outcome == Broke(None) then Res(r.st, Normal)
      else if !GoesRound(r.outcome, head) then r
      else
        var e := Eval(file, head.again, Below(target, 1), r.st);
        if e.outcome.Normal? then Iterate(file, head, inner, true, target, e.st) else e
  }
}
