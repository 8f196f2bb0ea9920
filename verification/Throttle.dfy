/**
 * The rate limiter of apps/api/src/app/lib/redis-throttler.storage.ts: the Lua script over its two
 * keys, and the one-counter fixed window it cannot be told apart from.
 */
module Throttle {
  import opened Prelude

  /** A Redis key: its number, and when it expires, if it does. Times are milliseconds. */
  datatype Key = Key(value: nat, expiresAt: Option<int>)

  datatype Store = Store(hit: Option<Key>, block: Option<Key>)

  datatype Reply = Reply(totalHits: nat, timeToExpire: int, blocked: bool, timeToBlockExpire: int)

  /** What a throttler is configured with. */
  datatype Policy = Policy(ttl: int, limit: int, blockDuration: int)

  predicate Positive(p: Policy) {
    p.ttl > 0 && p.blockDuration > 0
  }

  /** The key as a command at `now` finds it. */
  function Live(key: Option<Key>, now: int): Option<Key> {
    if key.Some? && key.value.expiresAt.Some? && key.value.expiresAt.value <= now then None else key
  }

  /** PTTL: -2 without a key, -1 without an expiry. */
  function Pttl(key: Option<Key>, now: int): int {
    match Live(key, now)
    case None => -2
    case Some(Key(_, None)) => -1
    case Some(Key(_, Some(at))) => at - now
  }

  function Min(a: int, b: int): int {
    if a <= b then a else b
  }

  /**
   * INCREMENT_SCRIPT at `now`, as what it leaves and answers. `gap` is how much later the block
   * marker is written than the counter's life was read.
   */
  function Script(p: Policy, s: Store, now: int, gap: nat): (Store, Reply) {
    var held := Live(s.hit, now);
    if Pttl(s.block, now) > 0 && held.Some? && Pttl(s.hit, now) > 0 then
      (s, Reply(held.value.value, Pttl(s.hit, now), true, Pttl(s.block, now)))
    else
      var block := if Pttl(s.block, now) > 0 then None else s.block;
      var total := if held.Some? then held.value.value + 1 else 1;
      var left := if held.Some? && Pttl(s.hit, now) > 0 then Pttl(s.hit, now) else p.ttl;
      var hit := Some(Key(total, Some(now + left)));
      if total > p.limit then
        var px := Min(p.blockDuration, left);
        (Store(hit, Some(Key(1, Some(now + gap + px)))), Reply(total, left, true, px))
      else
        (Store(hit, block), Reply(total, left, false, 0))
  }

  /** The server's two keys, and the script as the commands it sends. */
  class Server {
    var hit: Option<Key>
    var block: Option<Key>

    constructor ()
      ensures hit == None && block == None
    {
      hit, block := None, None;
    }

    method Increment(p: Policy, now: int, gap: nat) returns (reply: Reply)
      modifies this
      ensures (Store(hit, block), reply) == Script(p, old(Store(hit, block)), now, gap)
    {
      var blockTtl := Pttl(block, now);
      if blockTtl > 0 {
        var held := Live(hit, now);
        var heldTtl := Pttl(hit, now);
        if held.None? || heldTtl <= 0 {
          block := None;
        } else {
          return Reply(held.value.value, heldTtl, true, blockTtl);
        }
      }

      var counter := Live(hit, now);
      var totalHits := if counter.Some? then counter.value.value + 1 else 1;
      hit := Some(Key(totalHits, if counter.Some? then counter.value.expiresAt else None));
      var timeToExpire := Pttl(hit, now);
      if timeToExpire <= 0 {
        hit := Some(Key(totalHits, Some(now + p.ttl)));
        timeToExpire := p.ttl;
      }

      if totalHits > p.limit {
        var px := p.blockDuration;
        if px > timeToExpire {
          px := timeToExpire;
        }
        block := Some(Key(1, Some(now + gap + px)));
        return Reply(totalHits, timeToExpire, true, px);
      }
      reply := Reply(totalHits, timeToExpire, false, 0);
    }
  }

  /** A timed request: when it comes, and the script's gap then. */
  datatype Request = Request(now: int, gap: nat)

  /**
   * The ideal: one window, opened by its first request; how many came since; how many of them were
   * counted, and the last one that was.
   */
  datatype Window = Window(openedAt: int, requests: nat, counted: nat, last: Request)

  /** What is left of the window at `now`. */
  function Left(p: Policy, w: Window, now: int): int {
    w.openedAt + p.ttl - now
  }

  /** For how long a request that is counted past the limit is told to stay away. */
  function Penalty(p: Policy, w: Window): int {
    Min(p.blockDuration, Left(p, w, w.last.now))
  }

  /** Until when nothing is counted. */
  function BlockedUntil(p: Policy, w: Window): int {
    w.last.now + w.last.gap + Penalty(p, w)
  }

  predicate Counts(p: Policy, w: Window, now: int) {
    w.counted <= p.limit || BlockedUntil(p, w) <= now
  }

  function Admit(p: Policy, w: Option<Window>, req: Request): Window {
    if w.None? || Left(p, w.value, req.now) <= 0 then Window(req.now, 1, 1, req)
    else if Counts(p, w.value, req.now) then
      Window(w.value.openedAt, w.value.requests + 1, w.value.counted + 1, req)
    else w.value.(requests := w.value.requests + 1)
  }

  predicate Refuses(p: Policy, w: Window) {
    w.requests > p.limit
  }

  /** What a request is answered, once the window has admitted it. */
  function Answer(p: Policy, w: Window, req: Request): Reply {
    Reply(w.counted, Left(p, w, req.now), Refuses(p, w),
          if !Refuses(p, w) then 0
          else if w.last == req then Penalty(p, w)
          else BlockedUntil(p, w) - req.now)
  }

  /**
   * The store stands for the window. A blocked caller is not counted, so past the limit the counter
   * falls behind; and a marker from an earlier window has run out by the time this one opened.
   */
  predicate Represents(p: Policy, s: Store, w: Option<Window>) {
    match w
    case None => s == Store(None, None)
    case Some(w) =>
      && s.hit == Some(Key(w.counted, Some(w.openedAt + p.ttl)))
      && 1 <= w.counted <= w.requests && w.openedAt <= w.last.now < w.openedAt + p.ttl
      && (w.counted <= p.limit ==> w.counted == w.requests)
      && (if w.counted > p.limit then s.block == Some(Key(1, Some(BlockedUntil(p, w))))
          else s.block.Some? ==> s.block.value.expiresAt.Some? && s.block.value.expiresAt.value <= w.openedAt)
  }

  /** The request comes when the script of the last one counted has run. */
  predicate After(w: Option<Window>, req: Request) {
    w.Some? ==> w.value.openedAt <= req.now && w.value.last.now + w.value.last.gap <= req.now
  }

  /**
   * One request: the script answers what the ideal limiter would, all of it, and still stands for it.
   * Of a refusal, that is: the count, what is left of the window, and what is left of the block.
   */
  lemma ScriptRefinesWindow(p: Policy, s: Store, w: Option<Window>, req: Request)
    requires Positive(p) && Represents(p, s, w) && After(w, req)
    ensures
      var (t, reply) := Script(p, s, req.now, req.gap);
      var v := Admit(p, w, req);
      && Represents(p, t, Some(v)) && v.openedAt <= req.now
      && reply == Answer(p, v, req)
      && 0 < reply.timeToExpire <= p.ttl && (reply.blocked ==> 0 < reply.timeToBlockExpire)
      && (!reply.blocked ==> reply.totalHits == v.requests)
  {
  }

  /**
   * And of every refusal, by the keys it leaves: the caller is told the counter, its life, and what is
   * left of the marker: from now on, or from when it was written.
   */
  lemma RefusalTellsTheKeys(p: Policy, s: Store, w: Option<Window>, req: Request)
    requires Positive(p) && Represents(p, s, w) && After(w, req)
    ensures
      var (t, reply) := Script(p, s, req.now, req.gap);
      reply.blocked ==>
        && t.hit == Some(Key(reply.totalHits, Some(req.now + reply.timeToExpire)))
        && t.block.Some? && t.block.value.expiresAt.Some?
        && t.block.value.expiresAt.value ==
           (if t == s then req.now else req.now + req.gap) + reply.timeToBlockExpire
        && (t != s ==> reply.timeToBlockExpire == Min(p.blockDuration, reply.timeToExpire))
  {
  }

  /** The server runs one script at a time. */
  predicate InTime(reqs: seq<Request>) {
    forall i, j :: 0 <= i < j == i + 1 < |reqs| ==> reqs[i].now + reqs[i].gap <= reqs[j].now
  }

  function Serve(p: Policy, s: Store, reqs: seq<Request>): (replies: seq<Reply>)
    ensures |replies| == |reqs|
    decreases |reqs|
  {
    if reqs == [] then []
    else
      var (t, reply) := Script(p, s, reqs[0].now, reqs[0].gap);
      [reply] + Serve(p, t, reqs[1..])
  }

  /** The windows of the ideal limiter, as each request leaves them. */
  function Windows(p: Policy, w: Option<Window>, reqs: seq<Request>): (windows: seq<Window>)
    ensures |windows| == |reqs|
    decreases |reqs|
  {
    if reqs == [] then []
    else
      var v := Admit(p, w, reqs[0]);
      [v] + Windows(p, Some(v), reqs[1..])
  }

  lemma {:induction false} ServeFollows(p: Policy, s: Store, w: Option<Window>, reqs: seq<Request>)
    requires Positive(p) && Represents(p, s, w) && InTime(reqs) && (reqs != [] ==> After(w, reqs[0]))
    ensures forall i :: 0 <= i < |reqs| ==> Serve(p, s, reqs)[i] == Answer(p, Windows(p, w, reqs)[i], reqs[i])
    decreases |reqs|
  {
    if reqs != [] {
      ScriptRefinesWindow(p, s, w, reqs[0]);
      LaterOn(p, w, reqs);
      ServeFollows(p, Script(p, s, reqs[0].now, reqs[0].gap).0, Some(Admit(p, w, reqs[0])), reqs[1..]);
    }
  }

  lemma LaterOn(p: Policy, w: Option<Window>, reqs: seq<Request>)
    requires InTime(reqs) && reqs != [] && After(w, reqs[0])
    ensures InTime(reqs[1..]) && (|reqs| > 1 ==> After(Some(Admit(p, w, reqs[0])), reqs[1]))
  {
    assert forall i, j :: 0 <= i < j == i + 1 < |reqs[1..]| ==>
             reqs[1..][i] == reqs[i + 1] && reqs[1..][j] == reqs[j + 1];
    if |reqs| > 1 {
      assert reqs[0].now + reqs[0].gap <= reqs[1].now;
    }
  }

  /**
   * The limiter, over every timed sequence of requests on one key: the n-th request since its window
   * opened is refused exactly when n > limit, whatever the block duration, and the time it is told
   * is what is left of that window. A block marker that outlives its counter changes nothing.
   */
  lemma RefusedExactlyPastTheLimit(p: Policy, reqs: seq<Request>, i: nat)
    requires Positive(p) && InTime(reqs) && i < |reqs|
    ensures
      var reply, v := Serve(p, Store(None, None), reqs)[i], Windows(p, None, reqs)[i];
      && (reply.blocked <==> v.requests > p.limit)
      && reply.timeToExpire == v.openedAt + p.ttl - reqs[i].now
  {
    ServeFollows(p, Store(None, None), None, reqs);
  }

  /**
   * And the rest of the answer. The count told is that of the requests counted, which are those within
   * the limit and, past it, each first one after a block; a caller that is refused is told the block's
   * length, capped at what is left of the window, if it is counted, and else what is left of the block.
   */
  lemma ToldWhatIsLeft(p: Policy, reqs: seq<Request>, i: nat)
    requires Positive(p) && InTime(reqs) && i < |reqs|
    ensures
      var reply, v := Serve(p, Store(None, None), reqs)[i], Windows(p, None, reqs)[i];
      && reply.totalHits == v.counted
      && reply.timeToBlockExpire ==
         if v.requests <= p.limit then 0
         else if v.last == reqs[i] then Min(p.blockDuration, reply.timeToExpire)
         else v.last.now + v.last.gap + Min(p.blockDuration, v.openedAt + p.ttl - v.last.now) - reqs[i].now
  {
    ServeFollows(p, Store(None, None), None, reqs);
  }

  /** Past the limit the counter grows by one a block; so it grows at most so many times a window. */
  predicate CountsBlocks(p: Policy, s: Store) {
    s.hit.Some? && s.hit.value.expiresAt.Some? && s.hit.value.value > p.limit ==>
      var over, openedAt := s.hit.value.value - p.limit, s.hit.value.expiresAt.value - p.ttl;
      && s.block.Some? && s.block.value.expiresAt.Some?
      && (over - 1) * p.blockDuration < p.ttl
      && (s.block.value.expiresAt.value >= openedAt + p.ttl ||
         over * p.blockDuration <= s.block.value.expiresAt.value - openedAt)
  }

  function CeilDiv(a: int, b: int): int
    requires b > 0
  {
    (a + b - 1) / b
  }

  lemma TimesIsMonotone(x: int, y: int, b: int)
    requires x >= y && b > 0
    ensures x * b >= y * b
  {
  }

  lemma AtMostCeil(k: int, a: int, b: int)
    requires b > 0 && (k - 1) * b < a
    ensures k <= CeilDiv(a, b)
  {
    var q := CeilDiv(a, b);
    assert q * b + (a + b - 1) % b == a + b - 1;
    assert q * b >= a;
    if k - 1 >= q {
      TimesIsMonotone(k - 1, q, b);
    }
  }

  lemma OneBlockFillsTheWindow(a: int, b: int)
    requires 0 < a <= b
    ensures CeilDiv(a, b) == 1
  {
    assert b <= a + b - 1 < b + b;
  }

  lemma ScriptCountsBlocks(p: Policy, s: Store, w: Option<Window>, req: Request)
    requires Positive(p) && p.limit >= 0 && Represents(p, s, w) && After(w, req)
    requires CountsBlocks(p, s)
    ensures CountsBlocks(p, Script(p, s, req.now, req.gap).0)
    ensures Script(p, s, req.now, req.gap).1.totalHits <= p.limit + CeilDiv(p.ttl, p.blockDuration)
  {
    var (t, reply) := Script(p, s, req.now, req.gap);
    var over := t.hit.value.value - p.limit;
    if over == 1 {
      assert over * p.blockDuration == p.blockDuration && (over - 1) * p.blockDuration == 0;
    } else if over > 1 && t != s {
      assert over * p.blockDuration == (over - 1) * p.blockDuration + p.blockDuration;
    }
    if over >= 1 {
      AtMostCeil(over, p.ttl, p.blockDuration);
    } else {
      AtMostCeil(1, p.ttl, p.blockDuration);
    }
  }

  lemma {:induction false} ServeCountsBlocks(p: Policy, s: Store, w: Option<Window>, reqs: seq<Request>)
    requires Positive(p) && p.limit >= 0 && Represents(p, s, w) && CountsBlocks(p, s) && InTime(reqs)
    requires reqs != [] ==> After(w, reqs[0])
    ensures forall reply <- Serve(p, s, reqs) :: reply.totalHits <= p.limit + CeilDiv(p.ttl, p.blockDuration)
    decreases |reqs|
  {
    if reqs != [] {
      ScriptRefinesWindow(p, s, w, reqs[0]);
      ScriptCountsBlocks(p, s, w, reqs[0]);
      LaterOn(p, w, reqs);
      ServeCountsBlocks(p, Script(p, s, reqs[0].now, reqs[0].gap).0, Some(Admit(p, w, reqs[0])), reqs[1..]);
    }
  }

  /**
   * However hard a caller hammers, its count stays within limit + ceil(ttl / blockDuration): one
   * past the limit when the block is the window.
   */
  lemma CountStaysBounded(p: Policy, reqs: seq<Request>, i: nat)
    requires Positive(p) && p.limit >= 0 && InTime(reqs) && i < |reqs|
    ensures Serve(p, Store(None, None), reqs)[i].totalHits <= p.limit + CeilDiv(p.ttl, p.blockDuration)
    ensures p.blockDuration >= p.ttl ==> Serve(p, Store(None, None), reqs)[i].totalHits <= p.limit + 1
  {
    var replies := Serve(p, Store(None, None), reqs);
    ServeCountsBlocks(p, Store(None, None), None, reqs);
    assert replies[i] in replies;
    if p.blockDuration >= p.ttl {
      OneBlockFillsTheWindow(p.ttl, p.blockDuration);
    }
  }

  /** Milliseconds to whole seconds, rounding up: never a moment early, and never a second late. */
  function ToSeconds(ms: int): (s: int)
    ensures s >= 0 && s * 1000 >= ms && (ms > 0 ==> (s - 1) * 1000 < ms)
  {
    if ms <= 0 then 0 else (ms + 999) / 1000
  }
}
