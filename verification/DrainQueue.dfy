/**
 * Draining a queue: `markQueueEvents`, `waitForStableJobCount` and `drainQueue` of
 * apps/api-e2e/src/support/queues.ts, against a queue whose worker and producers go on meanwhile.
 */
module DrainQueue {
  import opened Prelude

  datatype Kind = Active | Completed | Failed | Delayed | Waiting(fromActive: bool) | Other

  /** One entry of the queue's events stream. Ids grow along the stream, and 0 stands for 0-0. */
  datatype Event = Event(id: nat, kind: Kind, job: string)

  datatype Error =
    | BadExpectation
    | OtherQueue
    | JobFailed(job: string)
    | JobRetried(job: string)
    | TooFew(finished: nat)
    | TooMany(finished: nat)
    | NeverReached(observed: nat)
    | Moved(observed: nat)

  datatype Mark = Mark(queueName: string, id: nat)

  /** The id of the last event, which is what a mark holds, or 0 for no event. */
  function LastId(stream: seq<Event>): nat {
    if stream == [] then 0 else stream[|stream| - 1].id
  }

  predicate Increasing(stream: seq<Event>) {
    stream == [] || (Increasing(stream[..|stream| - 1]) && LastId(stream) > LastId(stream[..|stream| - 1]))
  }

  /** XRANGE from an id on, that id included. */
  function From(stream: seq<Event>, id: nat): seq<Event> {
    if stream == [] then []
    else
      var before, last := From(stream[..|stream| - 1], id), stream[|stream| - 1];
      if last.id >= id then before + [last] else before
  }

  /** The events after an id. */
  function After(stream: seq<Event>, id: nat): seq<Event> {
    if stream == [] then []
    else
      var before, last := After(stream[..|stream| - 1], id), stream[|stream| - 1];
      if last.id > id then before + [last] else before
  }

  // ---- what a drain makes of events, one by one and as a whole ----

  /** Which jobs have started and not completed, and how many have completed. */
  datatype Progress = Progress(started: set<string>, finished: nat)

  function Step(p: Progress, e: Event): Result<Progress, Error> {
    match e.kind
    case Active => Ok(p.(started := p.started + {e.job}))
    case Completed => Ok(Progress(p.started - {e.job}, p.finished + 1))
    case Failed => Err(JobFailed(e.job))
    case Delayed => if e.job in p.started then Err(JobRetried(e.job)) else Ok(p)
    case Waiting(fromActive) => if fromActive then Err(JobRetried(e.job)) else Ok(p)
    case Other => Ok(p)
  }

  function Processed(events: seq<Event>): Result<Progress, Error> {
    if events == [] then Ok(Progress({}, 0))
    else
      var before := Processed(events[..|events| - 1]);
      if before.Err? then before else Step(before.value, events[|events| - 1])
  }

  function CompletedIn(events: seq<Event>): nat {
    if events == [] then 0
    else CompletedIn(events[..|events| - 1]) + if events[|events| - 1].kind.Completed? then 1 else 0
  }

  /** The job became active at `i`, and has not completed since. */
  predicate RunningSince(events: seq<Event>, i: nat, job: string) {
    && i < |events| && events[i].kind.Active? && events[i].job == job
    && forall k :: i < k < |events| ==> !(events[k].kind.Completed? && events[k].job == job)
  }

  ghost predicate Running(events: seq<Event>, job: string) {
    exists i :: 0 <= i < |events| && RunningSince(events, i, job)
  }

  ghost predicate ShowsFailure(events: seq<Event>, j: nat, job: string) {
    j < |events| && events[j].kind.Failed? && events[j].job == job
  }

  /** An attempt that failed or stalled: put back to waiting, or delayed while it was running. */
  ghost predicate ShowsRetry(events: seq<Event>, j: nat, job: string) {
    && j < |events| && events[j].job == job
    && (events[j].kind == Waiting(true) || (events[j].kind.Delayed? && Running(events[..j], job)))
  }

  /** None of the first `n` events shows a failure or a retry. */
  ghost predicate Quiet(events: seq<Event>, n: nat) {
    forall j, job :: 0 <= j < n && j < |events| ==> !ShowsFailure(events, j, job) && !ShowsRetry(events, j, job)
  }

  /** The error names the job of the first event that shows a failure or a retry, and which it was. */
  ghost predicate FirstTrouble(events: seq<Event>, error: Error) {
    exists j :: 0 <= j < |events| && Quiet(events, j) &&
      ((error.JobFailed? && ShowsFailure(events, j, error.job)) ||
          (error.JobRetried? && ShowsRetry(events, j, error.job)))
  }

  /** Exactly the expected jobs completed, none failed, and none was tried twice. */
  ghost predicate Clean(events: seq<Event>, expected: int) {
    CompletedIn(events) == expected && Quiet(events, |events|)
  }

  lemma RunningGoesOn(init: seq<Event>, e: Event, job: string)
    ensures Running(init + [e], job) <==>
            (e.job == job && e.kind.Active?) || (Running(init, job) && !(e.job == job && e.kind.Completed?))
  {
    var events := init + [e];
    assert events[|init|] == e && forall k :: 0 <= k < |init| ==> events[k] == init[k];
    if Running(events, job) {
      var i :| 0 <= i < |events| && RunningSince(events, i, job);
      if i < |init| {
        assert RunningSince(init, i, job);
      }
    }
    if Running(init, job) && !(e.job == job && e.kind.Completed?) {
      var i :| 0 <= i < |init| && RunningSince(init, i, job);
      assert RunningSince(events, i, job);
    }
    if e.job == job && e.kind.Active? {
      assert RunningSince(events, |init|, job);
    }
  }

  lemma ShownBefore(init: seq<Event>, e: Event, j: nat, job: string)
    requires j < |init|
    ensures ShowsFailure(init + [e], j, job) <==> ShowsFailure(init, j, job)
    ensures ShowsRetry(init + [e], j, job) <==> ShowsRetry(init, j, job)
  {
    assert (init + [e])[..j] == init[..j];
  }

  lemma QuietGoesOn(init: seq<Event>, e: Event, n: nat)
    requires Quiet(init, n) && n <= |init|
    ensures Quiet(init + [e], n)
  {
    forall j, job | 0 <= j < n ensures !ShowsFailure(init + [e], j, job) && !ShowsRetry(init + [e], j, job) {
      ShownBefore(init, e, j, job);
    }
  }

  lemma TroubleGoesOn(init: seq<Event>, e: Event, error: Error)
    requires FirstTrouble(init, error)
    ensures FirstTrouble(init + [e], error)
  {
    var j :| 0 <= j < |init| && Quiet(init, j) &&
             ((error.JobFailed? && ShowsFailure(init, j, error.job)) ||
                 (error.JobRetried? && ShowsRetry(init, j, error.job)));
    QuietGoesOn(init, e, j);
    ShownBefore(init, e, j, error.job);
  }

  /** What the events show, processed one by one: who is running, how many completed, and the first trouble. */
  lemma {:induction false} ProcessedMeans(events: seq<Event>)
    ensures match Processed(events)
            case Ok(p) =>
              && p.finished == CompletedIn(events)
              && (forall job :: job in p.started <==> Running(events, job))
              && Quiet(events, |events|)
            case Err(error) => FirstTrouble(events, error)
    decreases |events|
  {
    if events != [] {
      var init, e := events[..|events| - 1], events[|events| - 1];
      assert events == init + [e] && events[..|init|] == init;
      ProcessedMeans(init);
      forall job ensures Running(events, job) <==>
            (e.job == job && e.kind.Active?) || (Running(init, job) && !(e.job == job && e.kind.Completed?)) {
        RunningGoesOn(init, e, job);
      }
      if Processed(init).Err? {
        TroubleGoesOn(init, e, Processed(init).error);
      } else {
        QuietGoesOn(init, e, |init|);
        if Step(Processed(init).value, e).Err? {
          assert ShowsFailure(events, |init|, e.job) || ShowsRetry(events, |init|, e.job);
        }
      }
    }
  }

  /** A drain that got through all events is clean exactly if as many completed as expected. */
  lemma ProcessedIsClean(events: seq<Event>, expected: int)
    ensures Clean(events, expected) <==> Processed(events).Ok? && Processed(events).value.finished == expected
  {
    ProcessedMeans(events);
  }

  /** At least the first `n` events were read, with no trouble in what was, and as many had completed there. */
  ghost predicate CountedUpTo(events: seq<Event>, n: nat, finished: nat) {
    exists read :: n <= read <= |events| && Quiet(events, read) && finished == CompletedIn(events[..read])
  }

  /** An error says what the events after the mark show, or that they left something pending. */
  ghost predicate Justified(error: Error, events: seq<Event>, expected: int) {
    match error
    case BadExpectation => expected < 0
    case OtherQueue => true
    case JobFailed(_) => FirstTrouble(events, error)
    case JobRetried(_) => FirstTrouble(events, error)
    case TooFew(finished) => finished < expected && CountedUpTo(events, 0, finished)
    case TooMany(finished) => finished == CompletedIn(events) && finished > expected && Quiet(events, |events|)
    case NeverReached(observed) => observed != 0 && Clean(events, expected)
    case Moved(observed) => observed != 0 && Clean(events, expected)
  }

  lemma Verdict(events: seq<Event>, expected: int)
    ensures Processed(events).Err? ==>
              && (Processed(events).error.JobFailed? || Processed(events).error.JobRetried?)
              && Justified(Processed(events).error, events, expected)
    ensures Processed(events).Ok? ==>
              && Processed(events).value.finished == CompletedIn(events) && Quiet(events, |events|)
              && (Processed(events).value.finished == expected <==> Clean(events, expected))
              && (Processed(events).value.finished > expected ==>
                    Justified(TooMany(Processed(events).value.finished), events, expected))
  {
    ProcessedMeans(events);
  }

  // ---- which events a mark and a cursor leave ----

  lemma Appended(events: seq<Event>, e: Event, id: nat)
    ensures LastId(events + [e]) == e.id
    ensures Increasing(events + [e]) <==> Increasing(events) && e.id > LastId(events)
    ensures After(events + [e], id) == if e.id > id then After(events, id) + [e] else After(events, id)
  {
    assert (events + [e])[..|events|] == events;
  }

  lemma {:induction false} NothingAfterTheLast(stream: seq<Event>, id: nat)
    requires Increasing(stream) && LastId(stream) <= id
    ensures After(stream, id) == []
    decreases |stream|
  {
    if stream != [] {
      NothingAfterTheLast(stream[..|stream| - 1], id);
    }
  }

  /** Everything appended after the mark was taken is the drain's to account for, and nothing before it. */
  lemma {:induction false} MarkSplits(before: seq<Event>, stream: seq<Event>)
    requires Increasing(stream) && before <= stream
    ensures After(stream, LastId(before)) == stream[|before|..] && LastId(before) <= LastId(stream)
    decreases |stream|
  {
    if stream == before {
      NothingAfterTheLast(stream, LastId(before));
    } else {
      MarkSplits(before, stream[..|stream| - 1]);
      assert stream[|before|..] == stream[|before|..|stream| - 1] + [stream[|stream| - 1]];
    }
  }

  /** The last event taken in after a mark, or the mark. */
  function Cursor(mark: nat, seen: seq<Event>): nat {
    if seen == [] then mark else LastId(seen)
  }

  lemma {:induction false} AfterIsIncreasing(stream: seq<Event>, id: nat)
    requires Increasing(stream)
    ensures Increasing(After(stream, id)) && LastId(After(stream, id)) <= LastId(stream)
    ensures LastId(stream) <= Cursor(id, After(stream, id)) && id <= Cursor(id, After(stream, id))
    decreases |stream|
  {
    if stream != [] {
      var init, last := stream[..|stream| - 1], stream[|stream| - 1];
      AfterIsIncreasing(init, id);
      if last.id > id {
        assert After(stream, id)[..|After(stream, id)| - 1] == After(init, id);
      }
    }
  }

  /** Reading on from the cursor misses nothing and repeats nothing. */
  lemma {:induction false} ReadingOn(read: seq<Event>, stream: seq<Event>, mark: nat)
    requires Increasing(stream) && read <= stream && Increasing(read)
    ensures After(stream, mark) == After(read, mark) + After(stream, Cursor(mark, After(read, mark)))
    decreases |stream|
  {
    AfterIsIncreasing(read, mark);
    if stream == read {
      NothingAfterTheLast(stream, Cursor(mark, After(read, mark)));
    } else {
      var init := stream[..|stream| - 1];
      ReadingOn(read, init, mark);
      MarkSplits(read, init);
    }
  }

  lemma {:induction false} FromIsIncreasing(stream: seq<Event>, id: nat)
    requires Increasing(stream)
    ensures Increasing(From(stream, id)) && LastId(From(stream, id)) <= LastId(stream)
    decreases |stream|
  {
    if stream != [] {
      var init, last := stream[..|stream| - 1], stream[|stream| - 1];
      FromIsIncreasing(init, id);
      Appended(From(init, id), last, id);
    }
  }

  /** XRANGE repeats the cursor's own entry, if there is one, and what it adds comes after it. */
  lemma {:induction false} AfterFrom(stream: seq<Event>, id: nat)
    ensures After(From(stream, id), id) == After(stream, id)
    decreases |stream|
  {
    if stream != [] {
      var init, last := stream[..|stream| - 1], stream[|stream| - 1];
      AfterFrom(init, id);
      Appended(From(init, id), last, id);
    }
  }

  lemma NewEntries(read: seq<Event>, stream: seq<Event>, mark: nat)
    requires Increasing(read) && Increasing(stream) && read <= stream
    ensures var cursor := Cursor(mark, After(read, mark));
            && Increasing(From(stream, cursor))
            && After(stream, mark) == After(read, mark) + After(From(stream, cursor), cursor)
  {
    ReadingOn(read, stream, mark);
    FromIsIncreasing(stream, Cursor(mark, After(read, mark)));
    AfterFrom(stream, Cursor(mark, After(read, mark)));
  }

  lemma {:induction false} FromReachesBack(stream: seq<Event>, id: nat, k: nat)
    requires Increasing(stream) && k < |From(stream, id)|
    ensures From(stream, id)[k].id >= id
    decreases |stream|
  {
    var init := stream[..|stream| - 1];
    if k < |From(init, id)| {
      FromReachesBack(init, id, k);
    }
  }

  lemma {:induction false} PrefixIsIncreasing(stream: seq<Event>, k: nat)
    requires Increasing(stream) && k <= |stream|
    ensures Increasing(stream[..k])
    decreases |stream|
  {
    if k < |stream| {
      PrefixIsIncreasing(stream[..|stream| - 1], k);
      assert stream[..|stream| - 1][..k] == stream[..k];
    } else {
      assert stream[..k] == stream;
    }
  }

  /** One entry of an XRANGE reply: it is skipped exactly if it is the cursor's own. */
  lemma EntryIsNew(entries: seq<Event>, k: nat, id: nat)
    requires Increasing(entries) && k < |entries| && entries[k].id >= id
    ensures var cursor, done := Cursor(id, After(entries[..k], id)), After(entries[..k], id);
            After(entries[..k + 1], id) == if entries[k].id == cursor then done else done + [entries[k]]
  {
    PrefixIsIncreasing(entries, k);
    PrefixIsIncreasing(entries, k + 1);
    AfterIsIncreasing(entries[..k], id);
    assert entries[..k + 1][..k] == entries[..k];
  }

  lemma {:induction false} TroubleStays(events: seq<Event>, more: seq<Event>)
    requires Processed(events).Err?
    ensures Processed(events + more) == Processed(events)
    decreases |more|
  {
    if more == [] {
      assert events + more == events;
    } else {
      TroubleStays(events, more[..|more| - 1]);
      assert (events + more)[..|events + more| - 1] == events + more[..|more| - 1];
    }
  }

  // ---- what the waits look like from outside ----

  /** What a wait asks for: the time, a sleep, the number of pending jobs, or the stream. */
  datatype Call = Looked(time: int) | Slept(ms: int) | Counted(at: int, count: nat) | Scanned(read: seq<Event>)

  function Last(s: seq<Call>): Call
    requires s != []
  {
    s[|s| - 1]
  }

  predicate OnlyCounts(s: seq<Call>, expected: int) {
    forall i :: 0 <= i < |s| && s[i].Counted? ==> s[i].count == expected
  }

  predicate NeverCounts(s: seq<Call>, expected: int) {
    forall i :: 0 <= i < |s| && s[i].Counted? ==> s[i].count != expected
  }

  predicate EndsCounting(s: seq<Call>, observed: int) {
    s != [] && Last(s).Counted? && Last(s).count == observed
  }

  predicate EndsOverdue(s: seq<Call>, deadline: int) {
    s != [] && Last(s).Looked? && Last(s).time >= deadline
  }

  /** Between two polls of a loop, the clock shows that its deadline has not passed, and one interval is slept. */
  predicate Paced(look: Call, sleep: Call, deadline: int, interval: int) {
    look.Looked? && look.time < deadline && sleep == Slept(interval)
  }

  /** Counting, for as long as something else than the expected count comes. */
  predicate CountOn(s: seq<Call>, expected: int, deadline: int, interval: int) {
    && s != [] && Last(s).Counted?
    && (|s| == 1 ||
        (&& |s| >= 4 && CountOn(s[..|s| - 3], expected, deadline, interval)
         && !EndsCounting(s[..|s| - 3], expected)
         && Paced(s[|s| - 3], s[|s| - 2], deadline, interval)))
  }

  /** Counting on, for as long as the expected count comes. */
  predicate HoldOn(s: seq<Call>, expected: int, until: int, interval: int) {
    s == [] ||
    (&& |s| >= 3 && HoldOn(s[..|s| - 3], expected, until, interval)
     && Paced(s[|s| - 3], s[|s| - 2], until, interval)
     && EndsCounting(s, expected))
  }

  /** Counting for at most `timeoutMs`, until the expected count comes. */
  predicate Awaited(s: seq<Call>, expected: int, timeoutMs: int, interval: int) {
    |s| >= 2 && s[0].Looked? && CountOn(s[1..], expected, s[0].time + timeoutMs, interval)
  }

  /** Counting for at most `settleMs`, and so far the expected count came. */
  predicate Held(s: seq<Call>, expected: int, settleMs: int, interval: int) {
    s != [] && s[0].Looked? && HoldOn(s[1..], expected, s[0].time + settleMs, interval)
  }

  /** The count stayed for `settleMs`, or moved before that. */
  ghost predicate Watched(s: seq<Call>, r: Option<Error>, expected: int, settleMs: int, interval: int) {
    match r
    case None =>
      && |s| >= 2 && Held(s[..|s| - 1], expected, settleMs, interval)
      && EndsOverdue(s, s[0].time + settleMs)
    case Some(Moved(observed)) =>
      && |s| >= 4 && Held(s[..|s| - 3], expected, settleMs, interval)
      && Paced(s[|s| - 3], s[|s| - 2], s[0].time + settleMs, interval)
      && EndsCounting(s, observed) && observed != expected
    case _ => false
  }

  /** The first calls found the expected count; the others watch over it. */
  ghost predicate Turns(s: seq<Call>, first: seq<Call>, others: seq<Call>, r: Option<Error>, expected: int,
                        timeoutMs: int, settleMs: int, interval: int)
  {
    && s == first + others
    && Awaited(first, expected, timeoutMs, interval) && EndsCounting(first, expected)
    && Watched(others, r, expected, settleMs, interval)
  }

  /** What a wait for a stable count asks for, and what its answer says about that. */
  ghost predicate Waited(s: seq<Call>, r: Option<Error>, expected: int, timeoutMs: int, settleMs: int, interval: int) {
    match r
    case Some(NeverReached(observed)) =>
      && s != [] && Awaited(s[..|s| - 1], expected, timeoutMs, interval)
      && EndsOverdue(s, s[0].time + timeoutMs)
      && EndsCounting(s[..|s| - 1], observed) && observed != expected
    case Some(BadExpectation) => s == [] && expected < 0
    case _ =>
      exists first, others :: Turns(s, first, others, r, expected, timeoutMs, settleMs, interval)
  }

  /** Reading the stream until as many have completed as expected, or until the deadline. */
  predicate ReadOn(s: seq<Call>, mark: nat, expected: int, deadline: int, interval: int) {
    && s != [] && Last(s).Scanned?
    && (|s| == 1 ||
        (&& |s| >= 4 && ReadOn(s[..|s| - 3], mark, expected, deadline, interval)
         && CompletedIn(After(Last(s[..|s| - 3]).read, mark)) < expected
         && Paced(s[|s| - 3], s[|s| - 2], deadline, interval)))
  }

  /** Reads found the jobs finished, and what was left of the time went to the wait for no pending job. */
  ghost predicate Settled(s: seq<Call>, scans: seq<Call>, waits: seq<Call>, waited: Option<Error>, mark: nat,
                          expected: int, timeoutMs: int, settleMs: int, interval: int)
  {
    && |s| == |scans| + |waits| + 3 && s == [s[0]] + scans + [s[|scans| + 1]] + waits + [Last(s)]
    && s[0].Looked? && s[|scans| + 1].Looked? && Last(s).Scanned?
    && var left := s[0].time + timeoutMs - s[|scans| + 1].time;
    && ReadOn(scans, mark, expected, s[0].time + timeoutMs, interval)
    && Waited(waits, waited, 0, if left > 0 then left else 0, settleMs, interval)
  }

  /** What a drain asks for, and what its answer says about that. */
  ghost predicate Drained(s: seq<Call>, r: Option<Error>, mark: nat, expected: int,
                          timeoutMs: int, settleMs: int, interval: int)
  {
    match r
    case Some(BadExpectation) => s == []
    case Some(OtherQueue) => s == []
    case Some(TooFew(finished)) =>
      && |s| >= 3 && s[0].Looked? && ReadOn(s[1..|s| - 1], mark, expected, s[0].time + timeoutMs, interval)
      && EndsOverdue(s, s[0].time + timeoutMs)
      && s[|s| - 2].Scanned? && finished == CompletedIn(After(s[|s| - 2].read, mark)) && finished < expected
    case Some(JobFailed(_)) => Interrupted(s, mark, expected, timeoutMs, settleMs, interval)
    case Some(JobRetried(_)) => Interrupted(s, mark, expected, timeoutMs, settleMs, interval)
    case Some(TooMany(_)) => Interrupted(s, mark, expected, timeoutMs, settleMs, interval)
    case _ => exists scans, waits :: Settled(s, scans, waits, r, mark, expected, timeoutMs, settleMs, interval)
  }

  /** A read of the stream ended the drain, before the wait for no pending job or after it. */
  ghost predicate Interrupted(s: seq<Call>, mark: nat, expected: int, timeoutMs: int, settleMs: int, interval: int) {
    || (s != [] && s[0].Looked? && ReadOn(s[1..], mark, expected, s[0].time + timeoutMs, interval))
    || exists scans, waits, waited :: Settled(s, scans, waits, waited, mark, expected, timeoutMs, settleMs, interval)
  }

  /** The `k`th call counted `expected`, and so did every count since. */
  predicate HeldSince(calls: seq<Call>, k: nat, expected: int) {
    k < |calls| && calls[k].Counted? && forall i :: k <= i < |calls| && calls[i].Counted? ==> calls[i].count == expected
  }

  /** The count was `expected` at each poll, from some poll on, for at least `settleMs`. */
  ghost predicate Stable(calls: seq<Call>, now: int, from: nat, expected: int, settleMs: int) {
    exists k :: from <= k < |calls| && HeldSince(calls, k, expected) && now >= calls[k].at + settleMs
  }

  lemma HeldLongEnough(before: seq<Call>, held: seq<Call>, now: int, from: nat, expected: int, settleMs: int)
    requires EndsCounting(before, expected) && OnlyCounts(held, expected)
    requires from < |before| && now >= Last(before).at + settleMs
    ensures Stable(before + held, now, from, expected, settleMs)
  {
    var calls := before + held;
    forall i | |before| - 1 <= i < |calls| && calls[i].Counted? ensures calls[i].count == expected {
      if i >= |before| {
        assert calls[i] == held[i - |before|];
      }
    }
    assert HeldSince(calls, |before| - 1, expected);
  }

  lemma StillStable(calls: seq<Call>, read: seq<Event>, was: int, now: int, from: nat, expected: int, settleMs: int)
    requires Stable(calls, was, from, expected, settleMs) && was <= now
    ensures Stable(calls + [Scanned(read)], now, from, expected, settleMs)
  {
    var k :| from <= k < |calls| && HeldSince(calls, k, expected) && was >= calls[k].at + settleMs;
    assert HeldSince(calls + [Scanned(read)], k, expected);
  }

  lemma CountingGoesOn(s: seq<Call>, expected: int, deadline: int, interval: int, time: int, poll: Call)
    requires CountOn(s, expected, deadline, interval) && !EndsCounting(s, expected) && time < deadline && poll.Counted?
    ensures CountOn(s + [Looked(time), Slept(interval), poll], expected, deadline, interval)
  {
    var more := s + [Looked(time), Slept(interval), poll];
    assert more[..|more| - 3] == s;
  }

  lemma HoldingGoesOn(s: seq<Call>, expected: int, until: int, interval: int, time: int, poll: Call)
    requires HoldOn(s, expected, until, interval) && time < until && poll.Counted? && poll.count == expected
    ensures HoldOn(s + [Looked(time), Slept(interval), poll], expected, until, interval)
  {
    var more := s + [Looked(time), Slept(interval), poll];
    assert more[..|more| - 3] == s;
  }

  lemma {:induction false} CountedOther(s: seq<Call>, expected: int, deadline: int, interval: int)
    requires CountOn(s, expected, deadline, interval) && !EndsCounting(s, expected)
    ensures NeverCounts(s, expected)
    decreases |s|
  {
    if |s| > 1 {
      CountedOther(s[..|s| - 3], expected, deadline, interval);
      assert s == s[..|s| - 3] + [s[|s| - 3], s[|s| - 2], s[|s| - 1]];
    }
  }

  lemma {:induction false} CountedSame(s: seq<Call>, expected: int, until: int, interval: int)
    requires HoldOn(s, expected, until, interval)
    ensures OnlyCounts(s, expected)
    decreases |s|
  {
    if s != [] {
      CountedSame(s[..|s| - 3], expected, until, interval);
      assert s == s[..|s| - 3] + [s[|s| - 3], s[|s| - 2], s[|s| - 1]];
    }
  }

  lemma FirstRead(read: seq<Event>, mark: nat, expected: int, deadline: int, interval: int)
    ensures ReadOn([Scanned(read)], mark, expected, deadline, interval)
  {
  }

  lemma FirstCount(first: int, at: int, count: nat, expected: int, timeoutMs: int, interval: int)
    ensures Awaited([Looked(first), Counted(at, count)], expected, timeoutMs, interval)
  {
  }

  lemma FirstLook(first: int, expected: int, settleMs: int, interval: int)
    ensures Held([Looked(first)], expected, settleMs, interval)
  {
  }

  lemma ReadingGoesOn(s: seq<Call>, mark: nat, expected: int, deadline: int, interval: int, time: int, poll: Call)
    requires ReadOn(s, mark, expected, deadline, interval) && time < deadline && poll.Scanned?
    requires CompletedIn(After(Last(s).read, mark)) < expected
    ensures ReadOn(s + [Looked(time), Slept(interval), poll], mark, expected, deadline, interval)
  {
    var more := s + [Looked(time), Slept(interval), poll];
    assert more[..|more| - 3] == s;
  }

  lemma AwaitingGoesOn(s: seq<Call>, expected: int, timeoutMs: int, interval: int, time: int, poll: Call)
    requires Awaited(s, expected, timeoutMs, interval) && !EndsCounting(s, expected)
    requires time < s[0].time + timeoutMs && poll.Counted?
    ensures Awaited(s + [Looked(time), Slept(interval), poll], expected, timeoutMs, interval)
  {
    CountingGoesOn(s[1..], expected, s[0].time + timeoutMs, interval, time, poll);
    assert (s + [Looked(time), Slept(interval), poll])[1..] == s[1..] + [Looked(time), Slept(interval), poll];
  }

  lemma HeldGoesOn(s: seq<Call>, expected: int, settleMs: int, interval: int, time: int, poll: Call)
    requires Held(s, expected, settleMs, interval) && time < s[0].time + settleMs
    requires poll.Counted? && poll.count == expected
    ensures Held(s + [Looked(time), Slept(interval), poll], expected, settleMs, interval)
  {
    HoldingGoesOn(s[1..], expected, s[0].time + settleMs, interval, time, poll);
    assert (s + [Looked(time), Slept(interval), poll])[1..] == s[1..] + [Looked(time), Slept(interval), poll];
  }

  /** The count never came. */
  lemma AwaitedInVain(s: seq<Call>, last: int, observed: nat, expected: int, timeoutMs: int, settleMs: int,
                      interval: int)
    requires Awaited(s, expected, timeoutMs, interval) && EndsCounting(s, observed) && observed != expected
    requires last >= s[0].time + timeoutMs
    ensures Waited(s + [Looked(last)], Some(NeverReached(observed)), expected, timeoutMs, settleMs, interval)
    ensures NeverCounts(s + [Looked(last)], expected)
  {
    assert (s + [Looked(last)])[..|s|] == s && s == [s[0]] + s[1..];
    CountedOther(s[1..], expected, s[0].time + timeoutMs, interval);
  }

  /** The count stayed. */
  lemma HeldToTheEnd(s: seq<Call>, last: int, expected: int, settleMs: int, interval: int)
    requires Held(s, expected, settleMs, interval) && last >= s[0].time + settleMs
    ensures Watched(s + [Looked(last)], None, expected, settleMs, interval)
    ensures OnlyCounts(s + [Looked(last)], expected)
  {
    assert (s + [Looked(last)])[..|s|] == s && s == [s[0]] + s[1..];
    CountedSame(s[1..], expected, s[0].time + settleMs, interval);
  }

  /** The count moved. */
  lemma HeldNoLonger(s: seq<Call>, time: int, poll: Call, expected: int, settleMs: int, interval: int)
    requires Held(s, expected, settleMs, interval) && time < s[0].time + settleMs
    requires poll.Counted? && poll.count != expected
    ensures Watched(s + [Looked(time), Slept(interval), poll], Some(Moved(poll.count)), expected, settleMs, interval)
  {
    var all := s + [Looked(time), Slept(interval), poll];
    assert all[..|all| - 3] == s;
  }

  /** The count came, and went or stayed. */
  lemma AwaitedThenHeld(s: seq<Call>, held: seq<Call>, r: Option<Error>, expected: int, timeoutMs: int,
                        settleMs: int, interval: int)
    requires Awaited(s, expected, timeoutMs, interval) && EndsCounting(s, expected)
    requires Watched(held, r, expected, settleMs, interval)
    ensures Waited(s + held, r, expected, timeoutMs, settleMs, interval)
  {
    assert Turns(s + held, s, held, r, expected, timeoutMs, settleMs, interval);
  }

  lemma {:induction false} NothingCounted(s: seq<Call>, count: nat, mark: nat, expected: int, deadline: int,
                                           interval: int)
    requires ReadOn(s, mark, expected, deadline, interval)
    ensures NeverCounts(s, count)
    decreases |s|
  {
    if |s| > 1 {
      NothingCounted(s[..|s| - 3], count, mark, expected, deadline, interval);
      assert s == s[..|s| - 3] + [s[|s| - 3], s[|s| - 2], s[|s| - 1]];
    }
  }

  lemma DrainRefused(events: seq<Event>, mark: nat, expected: int, timeoutMs: int, settleMs: int, interval: int)
    ensures forall error :: error == BadExpectation || error == OtherQueue ==>
                              Drained([], Some(error), mark, expected, timeoutMs, settleMs, interval)
    ensures expected < 0 ==> Justified(BadExpectation, events, expected)
    ensures Justified(OtherQueue, events, expected)
  {
  }

  lemma DrainGivesUp(s: seq<Call>, first: int, last: int, finished: nat, mark: nat, expected: int, timeoutMs: int,
                     settleMs: int, interval: int)
    requires ReadOn(s, mark, expected, first + timeoutMs, interval) && last >= first + timeoutMs
    requires finished == CompletedIn(After(Last(s).read, mark)) && finished < expected
    ensures Drained([Looked(first)] + s + [Looked(last)], Some(TooFew(finished)), mark, expected, timeoutMs, settleMs,
                    interval)
  {
    var all := [Looked(first)] + s + [Looked(last)];
    assert all[1..|all| - 1] == s;
  }

  lemma DrainIsInterrupted(s: seq<Call>, first: int, r: Option<Error>, mark: nat, expected: int, timeoutMs: int,
                           settleMs: int, interval: int)
    requires ReadOn(s, mark, expected, first + timeoutMs, interval)
    requires r.Some? && (r.value.JobFailed? || r.value.JobRetried? || r.value.TooMany?)
    ensures Drained([Looked(first)] + s, r, mark, expected, timeoutMs, settleMs, interval)
  {
    assert ([Looked(first)] + s)[1..] == s;
  }

  lemma DrainSettles(scans: seq<Call>, first: int, later: int, waits: seq<Call>, poll: Call, waited: Option<Error>,
                     r: Option<Error>, mark: nat, expected: int, timeoutMs: int, settleMs: int, interval: int)
    requires ReadOn(scans, mark, expected, first + timeoutMs, interval) && poll.Scanned?
    requires var left := first + timeoutMs - later;
             Waited(waits, waited, 0, if left > 0 then left else 0, settleMs, interval)
    requires r == waited || (r.Some? && (r.value.JobFailed? || r.value.JobRetried? || r.value.TooMany?))
    ensures var s := [Looked(first)] + scans + [Looked(later)] + waits + [poll];
            && Drained(s, r, mark, expected, timeoutMs, settleMs, interval)
            && (NeverCounts(waits, 0) ==> NeverCounts(s, 0))
  {
    var s := [Looked(first)] + scans + [Looked(later)] + waits + [poll];
    NothingCounted(scans, 0, mark, expected, first + timeoutMs, interval);
    assert Settled(s, scans, waits, waited, mark, expected, timeoutMs, settleMs, interval);
  }

  /** What a read without trouble counts, and what trouble can be. */
  lemma TakenIn(events: seq<Event>)
    ensures match Processed(events)
            case Ok(p) => p.finished == CompletedIn(events)
            case Err(error) => error.JobFailed? || error.JobRetried?
  {
    ProcessedMeans(events);
  }

  // ---- the queue and what is read of it ----

  /** The queue: other processes append to its stream and change its jobs, and time goes on. */
  class Queue {
    const name: string
    var stream: seq<Event>
    var now: int
    /** Everything asked of the queue and the clock so far. */
    ghost var calls: seq<Call>

    ghost predicate Valid()
      reads this
    {
      Increasing(stream)
    }

    twostate predicate Continues()
      reads this
    {
      Valid() && old(stream) <= stream && old(now) <= now
    }

    constructor (name: string)
      ensures Valid() && this.name == name && stream == [] && calls == []
    {
      this.name, stream, now, calls := name, [], 0, [];
    }

    method Interfere()
      requires Valid()
      modifies this`stream, this`now
      ensures Continues()
    {
      assert stream + [] == stream;
      var more: seq<Event> :| Increasing(stream + more);
      var passed: nat :| true;
      stream, now := stream + more, now + passed;
    }

    method Now() returns (time: int)
      requires Valid()
      modifies this
      ensures Continues() && time == now && calls == old(calls) + [Looked(time)]
    {
      Interfere();
      time := now;
      calls := calls + [Looked(time)];
    }

    /** A timer rings no earlier than asked, and a timer of less than a millisecond is one of one. */
    method Sleep(ms: int)
      requires Valid()
      modifies this
      ensures Continues() && now >= old(now) + ms && now > old(now) && calls == old(calls) + [Slept(ms)]
    {
      Interfere();
      now := now + if ms < 1 then 1 else ms;
      calls := calls + [Slept(ms)];
    }

    method Xrange(from: nat) returns (entries: seq<Event>)
      requires Valid()
      modifies this
      ensures Continues() && entries == From(stream, from) && calls == old(calls) + [Scanned(stream)]
    {
      Interfere();
      entries := From(stream, from);
      calls := calls + [Scanned(stream)];
    }

    /** `countPendingJobs`: any count, since jobs come and go. */
    method CountPending() returns (count: nat)
      requires Valid()
      modifies this
      ensures Continues() && calls == old(calls) + [Counted(now, count)]
    {
      Interfere();
      count :| true;
      calls := calls + [Counted(now, count)];
    }

    /** `markQueueEvents`. */
    method MarkEvents() returns (mark: Mark)
      requires Valid()
      modifies this`stream, this`now
      ensures Continues() && mark == Mark(name, LastId(stream))
    {
      Interfere();
      mark := Mark(name, LastId(stream));
    }

    /** The first loop: until the count is as expected, or the deadline has passed. */
    method AwaitCount(expected: int, timeoutMs: int, pollIntervalMs: int, ghost settleMs: int)
      returns (r: Result<nat, Error>, ghost asked: seq<Call>)
      requires Valid()
      modifies this
      ensures Continues() && calls == old(calls) + asked
      ensures match r
              case Ok(observed) =>
                && observed == expected && EndsCounting(asked, expected) && Last(asked).at <= now
                && Awaited(asked, expected, timeoutMs, pollIntervalMs)
              case Err(error) =>
                && error.NeverReached? && now >= old(now) + timeoutMs && NeverCounts(asked, expected)
                && Waited(asked, Some(error), expected, timeoutMs, settleMs, pollIntervalMs)
    {
      hide Increasing, Awaited, Waited, NeverCounts;
      var first := Now();
      var deadline := first + timeoutMs;
      var observed := CountPending();
      FirstCount(first, Last(calls).at, observed, expected, timeoutMs, pollIntervalMs);
      asked := [Looked(first), Last(calls)];
      while observed != expected
        invariant Continues() && calls == old(calls) + asked && deadline >= old(now) + timeoutMs
        invariant Awaited(asked, expected, timeoutMs, pollIntervalMs) && asked != [] && asked[0] == Looked(first)
        invariant EndsCounting(asked, observed) && Last(asked).at <= now
        decreases deadline - now
      {
        var time := Now();
        if time >= deadline {
          AwaitedInVain(asked, time, observed, expected, timeoutMs, settleMs, pollIntervalMs);
          return Err(NeverReached(observed)), asked + [Looked(time)];
        }
        Sleep(pollIntervalMs);
        observed := CountPending();
        AwaitingGoesOn(asked, expected, timeoutMs, pollIntervalMs, time, Last(calls));
        asked := asked + [Looked(time), Slept(pollIntervalMs), Last(calls)];
      }
      r := Ok(observed);
    }

    /** The second loop: for `settleMs` the count stays as expected. */
    method HoldCount(expected: int, settleMs: int, pollIntervalMs: int)
      returns (r: Option<Error>, ghost asked: seq<Call>)
      requires Valid() && expected >= 0
      modifies this
      ensures Continues() && calls == old(calls) + asked
      ensures Watched(asked, r, expected, settleMs, pollIntervalMs)
      ensures r.None? ==> now >= old(now) + settleMs && OnlyCounts(asked, expected)
    {
      hide Increasing, Held, Watched, OnlyCounts;
      var first := Now();
      var settleUntil := first + settleMs;
      FirstLook(first, expected, settleMs, pollIntervalMs);
      asked := [Looked(first)];
      var time := Now();
      while time < settleUntil
        invariant Continues() && calls == old(calls) + asked + [Looked(time)] && time <= now
        invariant Held(asked, expected, settleMs, pollIntervalMs) && asked != [] && asked[0] == Looked(first)
        invariant settleUntil >= old(now) + settleMs
        decreases settleUntil - time
      {
        Sleep(pollIntervalMs);
        var observed := CountPending();
        if observed != expected {
          HeldNoLonger(asked, time, Last(calls), expected, settleMs, pollIntervalMs);
          return Some(Moved(observed)), asked + [Looked(time), Slept(pollIntervalMs), Last(calls)];
        }
        HeldGoesOn(asked, expected, settleMs, pollIntervalMs, time, Last(calls));
        asked := asked + [Looked(time), Slept(pollIntervalMs), Last(calls)];
        time := Now();
      }
      HeldToTheEnd(asked, time, expected, settleMs, pollIntervalMs);
      r, asked := None, asked + [Looked(time)];
    }

    /** `waitForStableJobCount`: it returns once the count has held for `settleMs`, or says what went wrong. */
    method WaitForStableJobCount(expected: int, timeoutMs: int, settleMs: int, pollIntervalMs: int)
      returns (r: Option<Error>, ghost asked: seq<Call>)
      requires Valid()
      modifies this
      ensures Continues() && calls == old(calls) + asked
      ensures Waited(asked, r, expected, timeoutMs, settleMs, pollIntervalMs)
      ensures r == Some(BadExpectation) <==> expected < 0
      ensures r.None? ==> Stable(calls, now, |old(calls)|, expected, settleMs)
      ensures r.Some? && r.value.NeverReached? ==> now >= old(now) + timeoutMs && NeverCounts(asked, expected)
    {
      asked := [];
      if expected < 0 {
        return Some(BadExpectation), asked;
      }
      var reached;
      reached, asked := AwaitCount(expected, timeoutMs, pollIntervalMs, settleMs);
      if reached.Err? {
        return Some(reached.error), asked;
      }
      ghost var before, held := calls, [];
      r, held := HoldCount(expected, settleMs, pollIntervalMs);
      AwaitedThenHeld(asked, held, r, expected, timeoutMs, settleMs, pollIntervalMs);
      asked := asked + held;
      if r.None? {
        HeldLongEnough(before, held, now, |old(calls)|, expected, settleMs);
      }
    }
  }

  /** What `drainQueue` keeps while it runs. */
  class Drain {
    const queue: Queue
    const mark: nat
    var cursor: nat
    var started: set<string>
    var finished: nat
    /** The stream as it was last read. */
    ghost var read: seq<Event>

    ghost function Seen(): seq<Event>
      reads this
    {
      After(read, mark)
    }

    ghost predicate Valid()
      reads this, queue
    {
      && queue.Valid() && read <= queue.stream && Increasing(read)
      && cursor == Cursor(mark, Seen())
      && Processed(Seen()) == Ok(Progress(started, finished))
    }

    constructor (queue: Queue, mark: nat)
      requires queue.Valid()
      ensures Valid() && this.queue == queue && this.mark == mark && finished == 0
    {
      this.queue, this.mark := queue, mark;
      cursor, started, finished, read := mark, {}, 0, [];
    }

    /** What is made of one event. */
    method Take(e: Event) returns (r: Option<Error>)
      modifies this`started, this`finished
      ensures match Step(Progress(old(started), old(finished)), e)
              case Ok(p) => r.None? && p == Progress(started, finished)
              case Err(error) => r == Some(error)
      ensures finished >= old(finished)
    {
      r := None;
      match e.kind {
        case Active =>
          started := started + {e.job};
        case Completed =>
          finished, started := finished + 1, started - {e.job};
        case Failed =>
          r := Some(JobFailed(e.job));
        case Delayed =>
          if e.job in started { r := Some(JobRetried(e.job)); }
        case Waiting(fromActive) =>
          if fromActive { r := Some(JobRetried(e.job)); }
        case Other =>
      }
    }

    /** The loop of `readNewEvents` over an XRANGE reply: all but the cursor's own entry, up to the first trouble. */
    method TakeEntries(entries: seq<Event>, ghost was: seq<Event>) returns (r: Option<Error>)
      requires Increasing(entries) && forall k :: 0 <= k < |entries| ==> entries[k].id >= cursor
      requires Processed(was) == Ok(Progress(started, finished))
      modifies this`cursor, this`started, this`finished
      ensures r.None? ==>
                && Processed(was + After(entries, old(cursor))) == Ok(Progress(started, finished))
                && cursor == Cursor(old(cursor), After(entries, old(cursor)))
                && finished >= old(finished)
      ensures r.Some? ==> Processed(was + After(entries, old(cursor))) == Err(r.value)
    {
      ghost var from, done: seq<Event> := cursor, [];
      assert was + done == was;
      r := None;
      for k := 0 to |entries|
        invariant r.None? && done == After(entries[..k], from) && cursor == Cursor(from, done) &&
                  finished >= old(finished)
        invariant Processed(was + done) == Ok(Progress(started, finished))
      {
        var e := entries[k];
        EntryIsNew(entries, k, from);
        if e.id == cursor {
          continue;
        }
        ProcessedNext(was, done, e);
        done := done + [e];
        cursor := e.id;
        r := Take(e);
        if r.Some? {
          StopsHere(was, entries, k + 1, from);
          return;
        }
      }
      assert entries[..|entries|] == entries;
    }

    /**
     * `readNewEvents`: each event appended since the last read, and after the mark, once. It stops
     * at the first one that shows a failure or a retry.
     */
    method ReadNewEvents() returns (r: Option<Error>)
      requires Valid()
      modifies this, queue
      ensures queue.Continues() && queue.calls == old(queue.calls) + [Scanned(queue.stream)]
      ensures r.None? ==> Valid() && read == queue.stream && finished >= old(finished)
      ensures r.None? ==> finished == CompletedIn(After(queue.stream, mark))
      ensures r.Some? ==> Processed(After(queue.stream, mark)) == Err(r.value)
      ensures r.Some? ==> r.value.JobFailed? || r.value.JobRetried?
    {
      ghost var was, from := Seen(), cursor;
      var entries := queue.Xrange(cursor);
      NewEntries(read, queue.stream, mark);
      forall k | 0 <= k < |entries| ensures entries[k].id >= cursor {
        FromReachesBack(queue.stream, cursor, k);
      }
      r := TakeEntries(entries, was);
      CursorMoves(mark, was, After(entries, from));
      read := queue.stream;
      TakenIn(Seen());
    }

    /**
     * The rest of `drainQueue`, once the expected jobs have finished: the queue must stay at none
     * pending, and one more read, whether it did or not, must show nothing more.
     */
    method Settle(expected: int, deadline: int, settleMs: int, pollIntervalMs: int)
      returns (r: Option<Error>, ghost waited: Option<Error>, ghost later: int, ghost asked: seq<Call>)
      requires Valid() && finished == expected
      modifies this, queue
      ensures queue.Continues()
      ensures queue.calls == old(queue.calls) + [Looked(later)] + asked + [Scanned(queue.stream)]
      ensures Waited(asked, waited, 0, if deadline > later then deadline - later else 0, settleMs, pollIntervalMs)
      ensures r == waited || (r.Some? && (r.value.JobFailed? || r.value.JobRetried? || r.value.TooMany?))
      ensures r.None? ==>
                && Clean(After(queue.stream, mark), expected)
                && Stable(queue.calls, queue.now, |old(queue.calls)|, 0, settleMs)
      ensures r.Some? ==> Justified(r.value, After(queue.stream, mark), expected)
      ensures r.Some? ==> !r.value.BadExpectation? && !r.value.OtherQueue? && !r.value.TooFew?
      ensures r.Some? && r.value.NeverReached? ==>
                queue.now >= deadline && NeverCounts(asked, 0)
    {
      var time := queue.Now();
      later := time;
      var unsettled;
      unsettled, asked :=
        queue.WaitForStableJobCount(0, if deadline > time then deadline - time else 0, settleMs, pollIntervalMs);
      waited := unsettled;
      ghost var calls, was := queue.calls, queue.now;
      r := ReadNewEvents();
      if waited.None? {
        StillStable(calls, queue.stream, was, queue.now, |old(queue.calls)|, 0, settleMs);
      }
      Verdict(After(queue.stream, mark), expected);
      if r.None? && finished > expected {
        r := Some(TooMany(finished));
      } else if r.None? {
        r := unsettled;
      }
    }

    /** One round of the loop of `drainQueue`. */
    method SleepAndRead(pollIntervalMs: int) returns (r: Option<Error>)
      requires Valid()
      modifies this, queue
      ensures queue.Continues() && queue.now > old(queue.now)
      ensures queue.calls == old(queue.calls) + [Slept(pollIntervalMs), Scanned(queue.stream)]
      ensures r.None? ==> Valid() && read == queue.stream && finished == CompletedIn(After(queue.stream, mark))
      ensures r.Some? ==> Processed(After(queue.stream, mark)) == Err(r.value)
      ensures r.Some? ==> r.value.JobFailed? || r.value.JobRetried?
    {
      queue.Sleep(pollIntervalMs);
      r := ReadNewEvents();
    }

    /** The loop of `drainQueue`: until `expected` jobs have finished, or the deadline has passed. */
    method AwaitFinished(expected: int, deadline: int, pollIntervalMs: int)
      returns (r: Option<Error>, ghost asked: seq<Call>, ghost last: seq<Call>)
      requires Valid()
      modifies this, queue
      ensures queue.Continues() && queue.calls == old(queue.calls) + asked + last
      ensures ReadOn(asked, mark, expected, deadline, pollIntervalMs)
      ensures r.None? ==> Valid() && read == queue.stream && finished >= expected
      ensures r.Some? && r.value.TooFew? ==>
                && r.value.finished == finished < expected && queue.now >= deadline
                && Valid() && old(queue.stream) <= read && Last(asked) == Scanned(read)
                && |last| == 1 && EndsOverdue(last, deadline)
      ensures r.Some? && !r.value.TooFew? ==>
                (r.value.JobFailed? || r.value.JobRetried?) && Processed(After(queue.stream, mark)) == Err(r.value)
      ensures r.None? || !r.value.TooFew? ==> last == []
    {
      hide Increasing, After, From, Processed, CompletedIn, ReadOn;
      r := ReadNewEvents();
      FirstRead(queue.stream, mark, expected, deadline, pollIntervalMs);
      asked, last := [Scanned(queue.stream)], [];
      while r.None? && finished < expected
        invariant queue.Continues() && queue.calls == old(queue.calls) + asked
        invariant r.None? ==> old(queue.stream) <= read
        invariant if r.None? then Valid() && read == queue.stream
                  else Processed(After(queue.stream, mark)) == Err(r.value)
        invariant r.Some? ==> r.value.JobFailed? || r.value.JobRetried?
        invariant r.None? ==> finished == CompletedIn(After(queue.stream, mark))
        invariant asked != [] && ReadOn(asked, mark, expected, deadline, pollIntervalMs) &&
                  Last(asked) == Scanned(queue.stream)
        decreases r.None?, deadline - queue.now
      {
        var time := queue.Now();
        if time >= deadline {
          return Some(TooFew(finished)), asked, [Looked(time)];
        }
        r := SleepAndRead(pollIntervalMs);
        ReadingGoesOn(asked, mark, expected, deadline, pollIntervalMs, time, Last(queue.calls));
        asked := asked + [Looked(time), Slept(pollIntervalMs), Last(queue.calls)];
      }
    }

    /** `drainQueue` up to its wait for no pending job: exactly the expected jobs have finished, or why not. */
    method FinishJobs(expected: int, timeoutMs: int, ghost settleMs: int, pollIntervalMs: int)
      returns (r: Option<Error>, deadline: int, ghost first: int, ghost asked: seq<Call>)
      requires Valid()
      modifies this, queue
      ensures queue.Continues() && deadline == first + timeoutMs >= old(queue.now) + timeoutMs
      ensures r.None? ==>
                && Valid() && finished == expected && ReadOn(asked, mark, expected, deadline, pollIntervalMs)
                && queue.calls == old(queue.calls) + [Looked(first)] + asked
      ensures r.Some? ==>
                && queue.calls == old(queue.calls) + asked
                && Drained(asked, r, mark, expected, timeoutMs, settleMs, pollIntervalMs)
                && Justified(r.value, After(queue.stream, mark), expected)
                && (r.value.JobFailed? || r.value.JobRetried? || r.value.TooFew? || r.value.TooMany?)
      ensures r.Some? && r.value.TooFew? ==>
                && queue.now >= deadline
                && CountedUpTo(After(queue.stream, mark), |After(old(queue.stream), mark)|, r.value.finished)
    {
      hide Increasing, After, From, Processed, CompletedIn, ReadOn, Drained, Justified, CountedUpTo;
      var time := queue.Now();
      first, deadline := time, time + timeoutMs;
      ghost var last;
      r, asked, last := AwaitFinished(expected, deadline, pollIntervalMs);
      if r.Some? && r.value.TooFew? {
        ReadSoFar(old(queue.stream), read, queue.stream, mark, expected);
        DrainGivesUp(asked, first, last[0].time, finished, mark, expected, timeoutMs, settleMs, pollIntervalMs);
        assert last == [Looked(last[0].time)];
        asked := [Looked(first)] + asked + last;
        return;
      }
      Verdict(After(queue.stream, mark), expected);
      if r.None? && finished > expected {
        r := Some(TooMany(finished));
      }
      if r.Some? {
        DrainIsInterrupted(asked, first, r, mark, expected, timeoutMs, settleMs, pollIntervalMs);
        asked := [Looked(first)] + asked;
      }
    }
  }

  lemma ProcessedNext(was: seq<Event>, done: seq<Event>, e: Event)
    requires Processed(was + done).Ok?
    ensures Processed(was + (done + [e])) == Step(Processed(was + done).value, e)
  {
    var all := was + (done + [e]);
    assert all[..|all| - 1] == was + done;
  }

  lemma CursorMoves(mark: nat, was: seq<Event>, done: seq<Event>)
    ensures Cursor(mark, was + done) == Cursor(Cursor(mark, was), done)
  {
  }

  lemma {:induction false} AfterSplits(entries: seq<Event>, k: nat, id: nat)
    requires k <= |entries|
    ensures After(entries[..k], id) <= After(entries, id)
    decreases |entries|
  {
    if k < |entries| {
      AfterSplits(entries[..|entries| - 1], k, id);
      assert entries[..|entries| - 1][..k] == entries[..k];
    } else {
      assert entries[..k] == entries;
    }
  }

  lemma StopsHere(was: seq<Event>, entries: seq<Event>, k: nat, id: nat)
    requires k <= |entries| && Processed(was + After(entries[..k], id)).Err?
    ensures Processed(was + After(entries, id)) == Processed(was + After(entries[..k], id))
  {
    AfterSplits(entries, k, id);
    var done, all := After(entries[..k], id), After(entries, id);
    TroubleStays(was + done, all[|done|..]);
    assert (was + done) + all[|done|..] == was + all;
  }

  /** What was read without trouble counts the completions in it, and all that came before it was read. */
  lemma ReadSoFar(before: seq<Event>, read: seq<Event>, stream: seq<Event>, id: nat, expected: int)
    requires before <= read <= stream && Processed(After(read, id)).Ok?
    ensures var finished := Processed(After(read, id)).value.finished;
            && finished == CompletedIn(After(read, id))
            && CountedUpTo(After(stream, id), |After(before, id)|, finished)
            && (finished < expected ==> Justified(TooFew(finished), After(stream, id), expected))
  {
    var events, seen := After(stream, id), After(read, id);
    assert stream[..|read|] == read && read[..|before|] == before;
    AfterSplits(stream, |read|, id);
    AfterSplits(read, |before|, id);
    ProcessedMeans(seen);
    assert events[..|seen|] == seen;
    forall j, job | 0 <= j < |seen| ensures !ShowsFailure(events, j, job) && !ShowsRetry(events, j, job) {
      assert events[..j] == seen[..j] && !ShowsFailure(seen, j, job) && !ShowsRetry(seen, j, job);
    }
  }

  /**
   * `drainQueue`. A normal return means that, of the events after the mark, every one up to the last
   * read was looked at, and together they are clean: exactly `expected` completions, no failure and
   * no retry; and that nothing was pending for `settleMs` before that read. An error names what the
   * stream or the counts show, and the two that give up do so only when `timeoutMs` have passed.
   */
  method DrainQueue(queue: Queue, mark: Mark, expected: int, timeoutMs: int, settleMs: int, pollIntervalMs: int)
    returns (r: Option<Error>, ghost asked: seq<Call>)
    requires queue.Valid()
    modifies queue
    ensures queue.Continues() && queue.calls == old(queue.calls) + asked
    ensures Drained(asked, r, mark.id, expected, timeoutMs, settleMs, pollIntervalMs)
    ensures r == Some(BadExpectation) <==> expected < 0
    ensures r == Some(OtherQueue) <==> expected >= 0 && mark.queueName != queue.name
    ensures r.None? ==>
              && Clean(After(queue.stream, mark.id), expected)
              && Stable(queue.calls, queue.now, |old(queue.calls)|, 0, settleMs)
    ensures r.Some? ==> Justified(r.value, After(queue.stream, mark.id), expected)
    ensures r.Some? && r.value.TooFew? ==>
              && queue.now >= old(queue.now) + timeoutMs
              && CountedUpTo(After(queue.stream, mark.id), |After(old(queue.stream), mark.id)|, r.value.finished)
    ensures r.Some? && r.value.NeverReached? ==>
              queue.now >= old(queue.now) + timeoutMs && NeverCounts(asked, 0)
  {
    hide Increasing, After, From, Processed, CompletedIn, ReadOn, Waited, Drained, Justified, Clean;
    asked := [];
    DrainRefused(After(queue.stream, mark.id), mark.id, expected, timeoutMs, settleMs, pollIntervalMs);
    if expected < 0 {
      return Some(BadExpectation), asked;
    }
    if mark.queueName != queue.name {
      return Some(OtherQueue), asked;
    }
    var drain := new Drain(queue, mark.id);
    var deadline;
    ghost var first, scans;
    r, deadline, first, scans := drain.FinishJobs(expected, timeoutMs, settleMs, pollIntervalMs);
    if r.Some? {
      asked := scans;
      return;
    }
    ghost var waited, later, counts;
    r, waited, later, counts := drain.Settle(expected, deadline, settleMs, pollIntervalMs);
    DrainSettles(scans, first, later, counts, Last(queue.calls), waited, r, mark.id, expected, timeoutMs, settleMs,
                 pollIntervalMs);
    asked := [Looked(first)] + scans + [Looked(later)] + counts + [Last(queue.calls)];
  }
}
