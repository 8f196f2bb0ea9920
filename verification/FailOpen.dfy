/**
 * What redis-throttler.storage.ts does when Redis does not answer: the fail-open bookkeeping
 * (`reportFailure`, `noteRecovery`), and how often one request can run the script (`run` raced
 * against `withDeadline`).
 */
module FailOpen {
  import opened Prelude

  const FAILURE_LOG_INTERVAL_MS := 10_000

  /** A line of the log. `suppressed` is what it says about failures without a line of their own. */
  datatype Line = Failure(suppressed: nat, at: int) | Recovery(suppressed: nat)

  /** How many failures the lines account for: a failure line for itself too. */
  function Accounted(lines: seq<Line>): nat {
    if lines == [] then 0
    else
      var last := lines[|lines| - 1];
      Accounted(lines[..|lines| - 1]) + last.suppressed + if last.Failure? then 1 else 0
  }

  /** Two failure lines in a row, with no recovery between them, are an interval apart. */
  predicate Gated(lines: seq<Line>) {
    forall i, j :: 0 <= i < j == i + 1 < |lines| && lines[i].Failure? && lines[j].Failure? ==>
      lines[j].at - lines[i].at >= FAILURE_LOG_INTERVAL_MS
  }

  class Reporter {
    var failuresSinceLastLog: nat
    var lastFailureLogAt: int
    var lines: seq<Line>
    var failOpens: nat   // the `throttle.storage.fail_open` counter

    /** Every fail-open is on a line or pending, and the gate shows the last line. */
    ghost predicate Valid()
      reads this
    {
      && Accounted(lines) + failuresSinceLastLog == failOpens
      && Gated(lines)
      && (lastFailureLogAt == 0 <==> lines == [] || lines[|lines| - 1].Recovery?)
      && (lastFailureLogAt == 0 ==> failuresSinceLastLog == 0)
      && (lastFailureLogAt != 0 ==> lines[|lines| - 1].at == lastFailureLogAt)
    }

    constructor ()
      ensures Valid() && lines == [] && failOpens == 0
    {
      failuresSinceLastLog, lastFailureLogAt, lines, failOpens := 0, 0, [], 0;
    }

    /** Counts one fail-open at `now`, which `Date.now()` never gives as 0. */
    method ReportFailure(now: int)
      requires Valid() && now != 0
      modifies this
      ensures Valid() && failOpens == old(failOpens) + 1
      ensures lines ==
              if old(lastFailureLogAt) != 0 && now - old(lastFailureLogAt) < FAILURE_LOG_INTERVAL_MS then old(lines)
              else old(lines) + [Failure(old(failuresSinceLastLog), now)]
    {
      failOpens := failOpens + 1;
      failuresSinceLastLog := failuresSinceLastLog + 1;
      if lastFailureLogAt != 0 && now - lastFailureLogAt < FAILURE_LOG_INTERVAL_MS {
        return;
      }
      var suppressed := failuresSinceLastLog - 1;
      lastFailureLogAt := now;
      failuresSinceLastLog := 0;
      assert (lines + [Failure(suppressed, now)])[..|lines|] == lines;
      lines := lines + [Failure(suppressed, now)];
    }

    /** Closes an outage; between outages it says nothing. */
    method NoteRecovery()
      requires Valid()
      modifies this
      ensures Valid() && failOpens == old(failOpens) && failuresSinceLastLog == 0 && lastFailureLogAt == 0
      ensures lines == if old(lastFailureLogAt) == 0 then old(lines)
              else old(lines) + [Recovery(old(failuresSinceLastLog))]
    {
      if lastFailureLogAt == 0 {
        return;
      }
      var suppressed := failuresSinceLastLog;
      lastFailureLogAt := 0;
      failuresSinceLastLog := 0;
      assert (lines + [Recovery(suppressed)])[..|lines|] == lines;
      lines := lines + [Recovery(suppressed)];
    }
  }

  /** One step of a storage's life: a request that failed open, or one that was answered. */
  datatype Event = Failed(now: int) | Answered

  function FailedCount(events: seq<Event>): nat {
    if events == [] then 0
    else FailedCount(events[..|events| - 1]) + if events[|events| - 1].Failed? then 1 else 0
  }

  /**
   * Over every history: the failure lines, each with what it says was suppressed, the recovery
   * lines, and what is still pending add up to the requests let through uncounted.
   */
  method Replay(events: seq<Event>) returns (reporter: Reporter)
    requires forall e <- events :: e.Failed? ==> e.now != 0
    ensures fresh(reporter) && reporter.Valid() && reporter.failOpens == FailedCount(events)
    ensures Accounted(reporter.lines) + reporter.failuresSinceLastLog == FailedCount(events)
  {
    reporter := new Reporter();
    for k := 0 to |events|
      invariant fresh(reporter) && reporter.Valid() && reporter.failOpens == FailedCount(events[..k])
    {
      assert events[..k + 1][..k] == events[..k];
      assert events[k] in events;
      match events[k]
      case Failed(now) => reporter.ReportFailure(now);
      case Answered => reporter.NoteRecovery();
    }
    assert events[..|events|] == events;
  }

  datatype Command = EvalSha | Eval

  /**
   * What is between the client and the server for one request: a command on its way, the answer
   * NOSCRIPT to an EVALSHA, another answer to a command, or nothing more.
   */
  datatype Wire = Sent(command: Command) | NoScript | Reply(command: Command, ran: bool) | Nothing

  /**
   * One request: what is in flight, whether the deadline has fired, what the caller was told, and
   * how often the server has run the script for it. `resends` counts the times the client resent a
   * command that the server had run.
   */
  datatype Flight = Flight(wire: Wire, expired: bool, told: Option<bool>, runs: nat, resends: nat)

  datatype Move =
    | Runs            // the server has the script, and runs it
    | Lacks           // the server answers NOSCRIPT
    | Breaks          // the command fails some other way
    | Falls           // the client reads NOSCRIPT: sends EVAL, unless the deadline has fired
    | Answers         // the client reads the reply
    | Loses           // the script ran, but its reply is lost, or cannot be read
    | Expires         // the deadline fires first
    | Resends         // the connection drops before the client has read an answer, and the command is resent verbatim

  const START := Flight(Sent(EvalSha), false, None, 0, 0)

  predicate Can(f: Flight, m: Move) {
    match m
    case Runs => f.wire.Sent?
    case Lacks => f.wire == Sent(EvalSha)
    case Breaks => f.wire.Sent?
    case Falls => f.wire.NoScript?
    case Answers => f.wire.Reply?
    case Loses => f.wire.Reply? && f.wire.ran
    case Expires => !f.expired && f.told.None?
    case Resends => !f.wire.Nothing?
  }

  /** The caller is told true when the reply was counted, false when the request failed open. */
  function Tell(f: Flight, counted: bool): Flight {
    if f.told.None? then f.(told := Some(counted)) else f
  }

  function After(f: Flight, m: Move): Flight
    requires Can(f, m)
  {
    match m
    case Runs => f.(wire := Reply(f.wire.command, true), runs := f.runs + 1)
    case Lacks => f.(wire := NoScript)
    case Breaks => f.(wire := Reply(f.wire.command, false))
    case Falls => if f.expired then Tell(f.(wire := Nothing), false) else f.(wire := Sent(Eval))
    case Answers => Tell(f.(wire := Nothing), f.wire.ran)
    case Loses => Tell(f.(wire := Nothing), false)
    case Expires => Tell(f.(expired := true), false)
    case Resends =>
      f.(wire := Sent(if f.wire.NoScript? then EvalSha else f.wire.command),
         resends := if f.wire.Reply? && f.wire.ran then f.resends + 1 else f.resends)
  }

  ghost predicate Flies(flights: seq<Flight>, moves: seq<Move>) {
    && |flights| == |moves| + 1
    && flights[0] == START
    && forall i :: 0 <= i < |moves| ==> Can(flights[i], moves[i]) && flights[i + 1] == After(flights[i], moves[i])
  }

  /**
   * Over every interleaving of replies, NOSCRIPT, deadline and reconnects, one request runs the
   * script at most once, plus once for every time the client resent a command that had run.
   */
  lemma {:induction false} RunsAtMostOnce(flights: seq<Flight>, moves: seq<Move>, k: nat)
    requires Flies(flights, moves) && k < |flights|
    ensures
      var f := flights[k];
      && f.runs <= 1 + f.resends
      && (f.wire.Sent? || f.wire.NoScript? ==> f.runs == f.resends)
      && (f.wire.Reply? ==> f.runs == f.resends + if f.wire.ran then 1 else 0)
      && (f.told == Some(true) ==> f.runs == 1 + f.resends && f.wire.Nothing? && !f.expired)
      && (f.expired ==> f.told == Some(false))
  {
    if k > 0 {
      RunsAtMostOnce(flights, moves, k - 1);
    }
  }

  /** What the caller is told by: the reply, its loss, or the deadline. */
  predicate Settles(m: Move) {
    m.Answers? || m.Loses? || m.Expires?
  }

  /** The first of them decides: the request is counted if it is the reply of a script that ran, else let through. */
  lemma {:induction false} ToldByTheFirst(flights: seq<Flight>, moves: seq<Move>, k: nat)
    requires Flies(flights, moves) && k < |flights|
    ensures match flights[k].told
            case None => forall i :: 0 <= i < k ==> !Settles(moves[i])
            case Some(counted) =>
              exists i ::
                && 0 <= i < k && Settles(moves[i]) && (forall j :: 0 <= j < i ==> !Settles(moves[j]))
                && (counted <==> moves[i].Answers? && flights[i].wire.ran)
  {
    if k > 0 {
      ToldByTheFirst(flights, moves, k - 1);
      RunsAtMostOnce(flights, moves, k - 1);
      assert Can(flights[k - 1], moves[k - 1]) && flights[k] == After(flights[k - 1], moves[k - 1]);
    }
  }

  /** A request that is let through may have been charged all the same: the script ran, and its reply was lost. */
  lemma LetThroughYetCharged() returns (flights: seq<Flight>, moves: seq<Move>)
    ensures Flies(flights, moves) && flights[|moves|].told == Some(false) && flights[|moves|].runs == 1
    ensures forall f <- flights :: f.resends == 0 && !f.expired
  {
    moves := [Runs, Loses];
    flights := [START, After(START, Runs), After(After(START, Runs), Loses)];
  }

  /** The client has sent an EVAL, and has not read what became of it. */
  predicate EvalInPlay(f: Flight) {
    (f.wire.Sent? || f.wire.Reply?) && f.wire.command.Eval?
  }

  /**
   * Once the deadline has fired the request is settled as let through, and no new EVAL is sent for
   * it. An EVAL can yet get on the wire, only by a reconnect, and only one that had been sent before.
   */
  lemma {:induction false} NoEvalAfterDeadline(flights: seq<Flight>, moves: seq<Move>, j: nat, k: nat)
    requires Flies(flights, moves) && j <= k < |flights| && flights[j].expired
    ensures flights[k].expired && flights[k].told == Some(false)
    ensures EvalInPlay(flights[k]) ==> EvalInPlay(flights[j])
    ensures flights[k].wire == Sent(Eval) && flights[j].wire != Sent(Eval) ==>
              flights[j].wire.Reply? && exists i :: j <= i < k && moves[i].Resends?
    decreases k - j
  {
    if j == k {
      RunsAtMostOnce(flights, moves, j);
    } else {
      NoEvalAfterDeadline(flights, moves, j, k - 1);
    }
  }

  ghost predicate EvalMayFollow(flights: seq<Flight>, moves: seq<Move>) {
    exists longer: seq<Flight>, more: seq<Move> ::
      Flies(longer, more) && flights <= longer && moves <= more && longer[|more|].wire == Sent(Eval)
  }

  /** Exactly when the server may yet be sent the script, after the deadline: when an EVAL is in play. */
  lemma EvalFollowsExactly(flights: seq<Flight>, moves: seq<Move>)
    requires Flies(flights, moves) && flights[|moves|].expired
    ensures EvalMayFollow(flights, moves) <==> EvalInPlay(flights[|moves|])
  {
    var k := |moves|;
    if EvalInPlay(flights[k]) {
      var longer, more := flights + [After(flights[k], Resends)], moves + [Resends];
      assert Flies(longer, more) && longer[|more|].wire == Sent(Eval);
    }
    if longer: seq<Flight>, more: seq<Move> :|
      Flies(longer, more) && flights <= longer && moves <= more && longer[|more|].wire == Sent(Eval)
    {
      assert longer[k] == flights[k];
      NoEvalAfterDeadline(longer, more, k, |more|);
    }
  }

  /** Such a request: EVAL is sent and run, the deadline fires, the connection drops, and EVAL runs again. */
  lemma AResentEvalRunsAfterDeadline() returns (flights: seq<Flight>, moves: seq<Move>)
    ensures Flies(flights, moves)
    ensures exists j :: 0 <= j < |moves| && flights[j].expired && flights[j].wire != Sent(Eval) &&
                        flights[j + 1].wire == Sent(Eval)
    ensures flights[|moves|].told == Some(false) && flights[|moves|].runs == 2
  {
    moves := [Lacks, Falls, Runs, Expires, Resends, Runs];
    var lacking := After(START, Lacks);
    var falling := After(lacking, Falls);
    var run := After(falling, Runs);
    var expired := After(run, Expires);
    var resent := After(expired, Resends);
    flights := [START, lacking, falling, run, expired, resent, After(resent, Runs)];
    assert flights[4].expired && flights[5].wire == Sent(Eval);
  }
}
