/**
 * Which functions of a file take a claim whenever they complete. That is said of executions, and
 * yet it can be read off the syntax, in as many passes as the file has functions, recursive or not.
 */
module ClaimSure {
  import opened Prelude
  import opened ClaimAnalysis
  import opened ClaimSemantics
  import opened ClaimSoundness
  import opened ClaimDelegates
  import opened ClaimOutcomes
  import opened ClaimWitnesses

  /** The functions that cannot complete without a claim, if those in `sure` cannot. */
  function SureWith(file: File, sure: set<string>): set<string> {
    set name | name in file && EndsOf(file[name], sure) <= {Threw}
  }

  function SureAfter(file: File, n: nat): (sure: set<string>)
    ensures sure <= file.Keys
  {
    if n == 0 then file.Keys else SureWith(file, SureAfter(file, n - 1))
  }

  function Sure(file: File): set<string> {
    SureAfter(file, |file|)
  }

  lemma {:induction false} MoreSureEndsLess(s: Stmt, sure: set<string>, more: set<string>)
    requires sure <= more
    ensures EndsOf(s, more) <= EndsOf(s, sure)
    decreases s, 1
  {
    match s
    case Block(body) => MoreSureEndsLessList(body, sure, more);
    case Clause(_, body) => MoreSureEndsLessList(body, sure, more);
    case If(_, a, b) =>
      MoreSureEndsLess(a, sure, more);
      if b.Some? {
        MoreSureEndsLess(b.value, sure, more);
      }
    case Try(_, _, f) =>
      MoreSureAttemptsLess(s, sure, more);
      if f.Some? {
        MoreSureEndsLess(f.value, sure, more);
      }
    case Loop(_, _) =>
      MoreSureRoundsLess(s, false, sure, more);
      MoreSureRoundsLess(s, true, sure, more);
    case Switch(_, clauses) => MoreSureEndsLessClauses(clauses, sure, more);
    case Labeled(_, t) => MoreSureEndsLess(t, sure, more);
    case _ =>
  }

  lemma {:induction false} MoreSureAttemptsLess(s: Stmt, sure: set<string>, more: set<string>)
    requires s.Try? && sure <= more
    ensures EndsOfAttempt(s, more) <= EndsOfAttempt(s, sure)
    decreases s, 0
  {
    MoreSureEndsLess(s.block, sure, more);
    if s.handler.Some? {
      MoreSureEndsLess(s.handler.value, sure, more);
    }
  }

  lemma {:induction false} MoreSureRoundsLess(s: Stmt, mayEnd: bool, sure: set<string>, more: set<string>)
    requires s.Loop? && sure <= more
    ensures EndsOfRounds(s, mayEnd, more) <= EndsOfRounds(s, mayEnd, sure)
    decreases s, 0
  {
    MoreSureEndsLess(s.inner, sure, more);
  }

  lemma {:induction false} MoreSureEndsLessList(body: seq<Stmt>, sure: set<string>, more: set<string>)
    requires sure <= more
    ensures EndsOfList(body, more) <= EndsOfList(body, sure)
    decreases body, 0
  {
    if body != [] {
      MoreSureEndsLess(body[0], sure, more);
      MoreSureEndsLessList(body[1..], sure, more);
    }
  }

  lemma {:induction false} MoreSureEndsLessClauses(clauses: seq<Stmt>, sure: set<string>, more: set<string>)
    requires sure <= more
    ensures EndsOfClauses(clauses, more) <= EndsOfClauses(clauses, sure)
    decreases clauses, 1
  {
    if clauses != [] {
      MoreSureEndsLessList(clauses, sure, more);
      MoreSureEndsLessClauses(clauses[1..], sure, more);
    }
  }

  /** Each pass keeps what the next one keeps. */
  lemma {:induction false} PassesNarrow(file: File, n: nat)
    ensures SureAfter(file, n + 1) <= SureAfter(file, n)
  {
    if n > 0 {
      PassesNarrow(file, n - 1);
      forall name <- SureAfter(file, n + 1) ensures name in SureAfter(file, n) {
        MoreSureEndsLess(file[name], SureAfter(file, n), SureAfter(file, n - 1));
      }
    }
  }

  lemma {:induction false} PassesNarrowOrSettle(file: File, n: nat)
    ensures SureAfter(file, n + 1) == SureAfter(file, n) || |SureAfter(file, n)| + n <= |file|
  {
    if n > 0 {
      PassesNarrowOrSettle(file, n - 1);
      PassesNarrow(file, n - 1);
      SubsetIsNoLarger(SureAfter(file, n), SureAfter(file, n - 1));
    } else {
      assert SureAfter(file, 0) == file.Keys && |file.Keys| == |file|;
    }
  }

  lemma SureSettles(file: File)
    ensures SureWith(file, Sure(file)) == Sure(file)
  {
    PassesNarrowOrSettle(file, |file|);
    PassesNarrow(file, |file|);
  }

  /** No pass loses a function that takes a claim whenever it completes. */
  lemma {:induction false} SoundStaysSure(file: File, n: nat)
    ensures SoundNames(file) <= SureAfter(file, n)
  {
    if n > 0 {
      SoundStaysSure(file, n - 1);
      forall name <- SoundNames(file) ensures name in SureAfter(file, n) {
        NothingElseEnds(file, name, SureAfter(file, n - 1));
      }
    }
  }

  lemma NothingElseEnds(file: File, name: string, sure: set<string>)
    requires name in SoundNames(file) && SoundNames(file) <= sure
    ensures EndsOf(file[name], sure) <= {Threw}
  {
    forall o <- EndsOf(file[name], sure) ensures o == Threw {
      var pre := EndHappens(file, file[name], sure, o);
      assert Exec(file, file[name], None, St(pre + [], false, false)) == Res(St([], false, false), o);
      assert SoundDelegate(file, name);
    }
  }

  /** What the passes settle on is so of all executions: of those with `n` choices by that of shorter ones. */
  lemma {:induction false} SureIsSoundBelow(file: File, n: nat)
    ensures SoundBelow(file, Sure(file), n)
  {
    if n > 0 {
      SureIsSoundBelow(file, n - 1);
      SureSettles(file);
      forall name, st: St | name in Sure(file) && name in file && |st.choices| < n
        ensures var r := Exec(file, file[name], None, st); r.outcome.Threw? || r.outcome.Cut? || r.st.claimed
      {
        EndForeseen(file, file[name], Sure(file), None, st, n - 1);
      }
    }
  }

  /** In any file, the functions that take a claim whenever they complete are those the passes settle on. */
  lemma SureIsSound(file: File)
    ensures SoundNames(file) == Sure(file)
  {
    SoundStaysSure(file, |file|);
    forall name, st: St | name in Sure(file)
      ensures var r := Exec(file, file[name], None, st); r.outcome.Threw? || r.outcome.Cut? || r.st.claimed
    {
      SureIsSoundBelow(file, |st.choices| + 1);
    }
  }
}
