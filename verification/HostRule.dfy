/**
 * The Host rule of apps/api/src/app/lib/host-rule.ts: its wildcard matcher against what `*` and `?`
 * mean, its cost, and the rule that refuses a rebound page's name.
 */
module HostRule {
  import opened Prelude

  /** The meaning of a pattern: `*` is any run of characters, `?` any one. */
  ghost predicate Glob(pattern: string, text: string)
    decreases |pattern|
  {
    if pattern == [] then text == []
    else if pattern[0] == '*' then exists k :: 0 <= k <= |text| && Glob(pattern[1..], text[k..])
    else text != [] && (pattern[0] == '?' || pattern[0] == text[0]) && Glob(pattern[1..], text[1..])
  }

  predicate AllStars(pattern: string) {
    forall i :: 0 <= i < |pattern| ==> pattern[i] == '*'
  }

  /** Whether the loop matches what is left, as it stands: `p`, `t`, and the last `*` it may back up to. */
  predicate Matches(pattern: string, text: string, p: nat, t: nat, star: Option<(nat, nat)>)
    requires p <= |pattern| && t <= |text|
    requires star.Some? ==> star.value.0 < p && star.value.1 <= t
    decreases |text| - (if star.Some? then star.value.1 else 0), |pattern| - p
  {
    if t == |text| then AllStars(pattern[p..])
    else if p < |pattern| && (pattern[p] == '?' || pattern[p] == text[t]) then
      Matches(pattern, text, p + 1, t + 1, star)
    else if p < |pattern| && pattern[p] == '*' then
      Matches(pattern, text, p + 1, t, Some((p, t)))
    else if star.Some? then
      Matches(pattern, text, star.value.0 + 1, star.value.1 + 1, Some((star.value.0, star.value.1 + 1)))
    else false
  }

  /** `x` rounds of `w` steps. */
  ghost function Rounds(x: nat, w: nat): nat {
    if x == 0 then 0 else Rounds(x - 1, w) + w
  }

  lemma {:induction false} RoundsIsProduct(x: nat, w: nat)
    ensures Rounds(x, w) == x * w
  {
    if x > 0 {
      RoundsIsProduct(x - 1, w);
    }
  }

  lemma {:induction false} RoundsIsMonotone(x: nat, y: nat, w: nat)
    requires x <= y
    ensures Rounds(x, w) <= Rounds(y, w)
  {
    if x < y {
      RoundsIsMonotone(x, y - 1, w);
    }
  }

  /** `matchesWildcard`, with the number of times it goes round its first loop. */
  method MatchesWildcard(pattern: string, text: string) returns (matches: bool, rounds: nat)
    ensures matches <==> Matches(pattern, text, 0, 0, None)
    ensures rounds < (|text| + 1) * (|pattern| + 1)
  {
    var p, t := 0, 0;
    var star: Option<(nat, nat)> := None;
    ghost var from, w: nat := 0, |pattern| + 1;
    rounds := 0;
    while t < |text|
      invariant p <= |pattern| && from <= t <= |text| && from == (if star.Some? then star.value.1 else 0)
      invariant star.Some? ==> star.value.0 < p
      invariant Matches(pattern, text, p, t, star) <==> Matches(pattern, text, 0, 0, None)
      invariant rounds <= Rounds(from, w) + p
      decreases |text| - from, |pattern| - p
    {
      rounds := rounds + 1;
      if p < |pattern| && (pattern[p] == '?' || pattern[p] == text[t]) {
        p := p + 1;
        t := t + 1;
      } else if p < |pattern| && pattern[p] == '*' {
        RoundsIsMonotone(from, t, w);
        star, from := Some((p, t)), t;
        p := p + 1;
      } else if star.Some? {
        var (starAt, starText) := star.value;
        p := starAt + 1;
        t := starText + 1;
        star, from := Some((starAt, t)), t;
      } else {
        RoundsIsMonotone(from, |text|, w);
        RoundsIsProduct(|text| + 1, w);
        return false, rounds;
      }
    }
    RoundsIsMonotone(from, |text|, w);
    RoundsIsProduct(|text| + 1, w);
    matches := OnlyStarsLeft(pattern, p);
  }

  /** The loop over the stars at the end of the pattern. */
  method OnlyStarsLeft(pattern: string, from: nat) returns (only: bool)
    requires from <= |pattern|
    ensures only <==> AllStars(pattern[from..])
  {
    var p := from;
    while p < |pattern| && pattern[p] == '*'
      invariant from <= p <= |pattern| && forall i :: from <= i < p ==> pattern[i] == '*'
    {
      p := p + 1;
    }
    assert p < |pattern| ==> pattern[from..][p - from] == pattern[p];
    only := p == |pattern|;
  }

  lemma {:induction false} EmptyTextNeedsStars(pattern: string)
    ensures Glob(pattern, []) <==> AllStars(pattern)
    decreases |pattern|
  {
    if pattern != [] {
      EmptyTextNeedsStars(pattern[1..]);
      if pattern[0] == '*' {
        assert AllStars(pattern) <==> AllStars(pattern[1..]) by {
          assert forall i :: 1 <= i < |pattern| ==> pattern[i] == pattern[1..][i - 1];
        }
        assert ""[0..] == "";
      }
    }
  }

  /** A pattern's first characters, when none is a star, match the text's one for one. */
  lemma {:induction false} StarFreePrefixMatches(pattern: string, n: nat, text: string)
    requires n <= |pattern| && '*' !in pattern[..n] && Glob(pattern, text)
    ensures n <= |text| && Glob(pattern[n..], text[n..])
    decreases n
  {
    if n > 0 {
      assert pattern[..n][0] == pattern[0] && pattern[..n][1..] == pattern[1..][..n - 1];
      StarFreePrefixMatches(pattern[1..], n - 1, text[1..]);
      assert pattern[1..][n - 1..] == pattern[n..] && text[1..][n - 1..] == text[n..];
    }
  }

  /** A star takes in whatever lies ahead of a match. */
  lemma StarTakesMore(pattern: string, text: string, i: nat, j: nat)
    requires pattern != [] && pattern[0] == '*' && i <= j <= |text| && Glob(pattern, text[j..])
    ensures Glob(pattern, text[i..])
  {
    var k :| 0 <= k <= |text[j..]| && Glob(pattern[1..], text[j..][k..]);
    assert text[j..][k..] == text[i..][j - i + k..];
  }

  /** The loop's own state: since its last star it has matched one for one, over no further star. */
  predicate SinceStar(pattern: string, p: nat, t: nat, star: Option<(nat, nat)>)
    requires p <= |pattern|
  {
    star.Some? ==>
      var (at, from) := star.value;
      at < p && pattern[at] == '*' && from <= t && t - from == p - at - 1 && '*' !in pattern[at + 1..p]
  }

  /** What backing up could still find: the last star taking in more than it has. */
  ghost predicate Later(pattern: string, text: string, star: Option<(nat, nat)>)
    requires star.Some? ==> star.value.0 < |pattern|
  {
    star.Some? && exists k :: star.value.1 < k <= |text| && Glob(pattern[star.value.0 + 1..], text[k..])
  }

  /**
   * The core: at the next star, the one before it can be forgotten. Whatever it could still match by
   * taking in more, the new star matches from here.
   */
  lemma OnlyTheLastStarMatters(pattern: string, text: string, p: nat, t: nat, star: Option<(nat, nat)>)
    requires p < |pattern| && t <= |text| && pattern[p] == '*' && SinceStar(pattern, p, t, star)
    requires Later(pattern, text, star)
    ensures Glob(pattern[p..], text[t..])
  {
    var (at, from) := star.value;
    var k :| from < k <= |text| && Glob(pattern[at + 1..], text[k..]);
    var n := p - at - 1;
    assert pattern[at + 1..][..n] == pattern[at + 1..p] && pattern[at + 1..][n..] == pattern[p..];
    StarFreePrefixMatches(pattern[at + 1..], n, text[k..]);
    assert text[k..][n..] == text[k + n..];
    StarTakesMore(pattern[p..], text, t, k + n);
  }

  lemma StarSplits(pattern: string, text: string, p: nat, t: nat)
    requires p < |pattern| && t <= |text| && pattern[p] == '*'
    ensures Glob(pattern[p..], text[t..]) <==>
            Glob(pattern[p + 1..], text[t..]) || Later(pattern, text, Some((p, t)))
  {
    assert pattern[p..][1..] == pattern[p + 1..];
    assert forall k :: 0 <= k <= |text[t..]| ==> text[t..][k..] == text[t + k..];
    if Later(pattern, text, Some((p, t))) {
      var k :| t < k <= |text| && Glob(pattern[p + 1..], text[k..]);
      assert text[t..][k - t..] == text[k..];
    }
    assert text[t..][0..] == text[t..];
  }

  /** A character of the pattern that is no star, against a character of the text. */
  lemma OneForOne(pattern: string, text: string, p: nat, t: nat)
    requires p <= |pattern| && t < |text| && (p < |pattern| ==> pattern[p] != '*')
    ensures Glob(pattern[p..], text[t..]) <==>
            p < |pattern| && (pattern[p] == '?' || pattern[p] == text[t]) && Glob(pattern[p + 1..], text[t + 1..])
  {
    assert p < |pattern| ==> pattern[p..][1..] == pattern[p + 1..];
    assert text[t..][1..] == text[t + 1..];
  }

  lemma StillSinceStar(pattern: string, p: nat, t: nat, star: Option<(nat, nat)>)
    requires p < |pattern| && pattern[p] != '*' && SinceStar(pattern, p, t, star)
    ensures SinceStar(pattern, p + 1, t + 1, star)
  {
    if star.Some? {
      assert pattern[star.value.0 + 1..p + 1] == pattern[star.value.0 + 1..p] + [pattern[p]];
    }
  }

  lemma BackingUp(pattern: string, text: string, at: nat, from: nat)
    requires at < |pattern| && from < |text|
    ensures Later(pattern, text, Some((at, from))) <==>
            Glob(pattern[at + 1..], text[from + 1..]) || Later(pattern, text, Some((at, from + 1)))
  {
    if Later(pattern, text, Some((at, from))) {
      var k :| from < k <= |text| && Glob(pattern[at + 1..], text[k..]);
      assert k == from + 1 || Later(pattern, text, Some((at, from + 1)));
    }
  }

  /** What is left matches, here or further back. */
  ghost predicate Can(pattern: string, text: string, p: nat, t: nat, star: Option<(nat, nat)>)
    requires p <= |pattern| && t <= |text| && (star.Some? ==> star.value.0 < |pattern|)
  {
    Glob(pattern[p..], text[t..]) || Later(pattern, text, star)
  }

  lemma CanAtStar(pattern: string, text: string, p: nat, t: nat, star: Option<(nat, nat)>)
    requires p < |pattern| && t <= |text| && pattern[p] == '*' && SinceStar(pattern, p, t, star)
    ensures Can(pattern, text, p, t, star) <==> Can(pattern, text, p + 1, t, Some((p, t)))
  {
    StarSplits(pattern, text, p, t);
    if Later(pattern, text, star) {
      OnlyTheLastStarMatters(pattern, text, p, t, star);
    }
  }

  lemma CanAtMismatch(pattern: string, text: string, p: nat, t: nat, at: nat, from: nat)
    requires p <= |pattern| && t < |text| && at < p && from <= t
    requires p < |pattern| ==> pattern[p] != '*' && pattern[p] != '?' && pattern[p] != text[t]
    ensures Can(pattern, text, p, t, Some((at, from))) <==> Can(pattern, text, at + 1, from + 1, Some((at, from + 1)))
  {
    OneForOne(pattern, text, p, t);
    BackingUp(pattern, text, at, from);
  }

  lemma CanAtEnd(pattern: string, text: string, p: nat, star: Option<(nat, nat)>)
    requires p <= |pattern| && SinceStar(pattern, p, |text|, star)
    ensures Can(pattern, text, p, |text|, star) <==> AllStars(pattern[p..])
  {
    EmptyTextNeedsStars(pattern[p..]);
    TooLittleTextIsLeft(pattern, text, p, star);
  }

  /** At every moment, the loop's answer is whether what is left matches, here or further back. */
  lemma {:induction false} MatchesMeans(pattern: string, text: string, p: nat, t: nat, star: Option<(nat, nat)>)
    requires '*' !in text && p <= |pattern| && t <= |text| && SinceStar(pattern, p, t, star)
    ensures Matches(pattern, text, p, t, star) <==> Can(pattern, text, p, t, star)
    decreases |text| - (if star.Some? then star.value.1 else 0), |pattern| - p
  {
    if t == |text| {
      CanAtEnd(pattern, text, p, star);
    } else if p < |pattern| && pattern[p] == '*' {
      CanAtStar(pattern, text, p, t, star);
      MatchesMeans(pattern, text, p + 1, t, Some((p, t)));
    } else if p < |pattern| && (pattern[p] == '?' || pattern[p] == text[t]) {
      OneForOne(pattern, text, p, t);
      StillSinceStar(pattern, p, t, star);
      MatchesMeans(pattern, text, p + 1, t + 1, star);
    } else if star.Some? {
      var (at, from) := star.value;
      CanAtMismatch(pattern, text, p, t, at, from);
      MatchesMeans(pattern, text, at + 1, from + 1, Some((at, from + 1)));
    } else {
      OneForOne(pattern, text, p, t);
    }
  }

  /** At the end of the text, taking in more at the last star leaves too little for what follows it. */
  lemma TooLittleTextIsLeft(pattern: string, text: string, p: nat, star: Option<(nat, nat)>)
    requires p <= |pattern| && SinceStar(pattern, p, |text|, star)
    ensures !Later(pattern, text, star)
  {
    if Later(pattern, text, star) {
      var (at, from) := star.value;
      var k :| from < k <= |text| && Glob(pattern[at + 1..], text[k..]);
      assert pattern[at + 1..][..p - at - 1] == pattern[at + 1..p];
      StarFreePrefixMatches(pattern[at + 1..], p - at - 1, text[k..]);
    }
  }

  /** The matcher is the relation, for every pattern and every text without a star. */
  lemma MatcherIsGlob(pattern: string, text: string)
    requires '*' !in text
    ensures Matches(pattern, text, 0, 0, None) <==> Glob(pattern, text)
  {
    MatchesMeans(pattern, text, 0, 0, None);
    assert pattern[0..] == pattern && text[0..] == text;
  }

  /** `n` question marks. */
  function Any(n: nat): (q: string)
    ensures |q| == n && forall i :: 0 <= i < n ==> q[i] == '?'
  {
    seq(n, _ => '?')
  }

  /** For a text with a star at `k`: it should match, the star of the pattern taking in nothing. */
  function Breaker(text: string, k: nat): (pattern: string)
    requires k < |text|
    ensures |pattern| == |text| + 1 && pattern[k] == '*'
    ensures forall i :: 0 <= i < |pattern| && i != k ==> pattern[i] == '?'
  {
    Any(k) + "*" + Any(|text| - k)
  }

  lemma {:induction false} AnyMatches(n: nat, rest: string, text: string)
    requires n <= |text| && Glob(rest, text[n..])
    ensures Glob(Any(n) + rest, text)
    decreases n
  {
    if n == 0 {
      assert Any(0) + rest == rest && text[0..] == text;
    } else {
      assert text[1..][n - 1..] == text[n..];
      AnyMatches(n - 1, rest, text[1..]);
      var pattern := Any(n) + rest;
      assert pattern[0] == '?' && pattern[1..] == Any(n - 1) + rest;
    }
  }

  /** The literal branch comes first, so the pattern's star is spent on the text's star. */
  lemma {:induction false} BreakerFails(text: string, k: nat, i: nat)
    requires k < |text| && text[k] == '*' && i <= |text|
    ensures !Matches(Breaker(text, k), text, i, i, None)
    decreases |text| - i
  {
    if i < |text| {
      BreakerFails(text, k, i + 1);
    } else {
      assert Breaker(text, k)[i..][0] == '?';
    }
  }

  /**
   * Exactly which texts the matcher reads right: it agrees with the relation on every pattern if and
   * only if the text holds no star.
   */
  lemma MatcherIsExactOffStars(text: string)
    ensures (forall pattern :: Matches(pattern, text, 0, 0, None) <==> Glob(pattern, text)) <==> '*' !in text
  {
    if k :| 0 <= k < |text| && text[k] == '*' {
      var pattern := Breaker(text, k);
      BreakerFails(text, k, 0);
      assert Any(|text| - k) + "" == Any(|text| - k) && text[k..][|text| - k..] == "";
      AnyMatches(|text| - k, "", text[k..]);
      assert ("*" + Any(|text| - k))[1..] == Any(|text| - k) && text[k..][0..] == text[k..];
      AnyMatches(k, "*" + Any(|text| - k), text);
      assert Any(k) + ("*" + Any(|text| - k)) == pattern;
      assert Matches(pattern, text, 0, 0, None) != Glob(pattern, text);
    } else {
      forall pattern ensures Matches(pattern, text, 0, 0, None) <==> Glob(pattern, text) {
        MatcherIsGlob(pattern, text);
      }
    }
  }

  predicate IsNameChar(c: char) {
    'a' <= c <= 'z' || 'A' <= c <= 'Z' || IsDigit(c) || c == '.' || c == '_' || c == '-'
  }

  /** Nothing, or a colon and digits. */
  predicate IsPort(s: string) {
    s == "" || (|s| > 1 && s[0] == ':' && forall i :: 1 <= i < |s| ==> IsDigit(s[i]))
  }

  /** Letter by letter the same name, without its capitals. */
  predicate IsLowered(s: string, l: string) {
    && |l| == |s|
    && forall i :: 0 <= i < |s| ==>
         !('A' <= l[i] <= 'Z') && (l[i] == s[i] || ('A' <= s[i] <= 'Z' && l[i] as int == s[i] as int + 32))
  }

  lemma LoweredOnce(s: string, l: string, m: string)
    requires IsLowered(s, l) && IsLowered(s, m)
    ensures l == m
  {
    forall i | 0 <= i < |s| ensures l[i] == m[i] {
    }
  }

  function Lower(s: string): (l: string)
    ensures IsLowered(s, l)
  {
    seq(|s|, i requires 0 <= i < |s| => if 'A' <= s[i] <= 'Z' then s[i] + 32 as char else s[i])
  }

  /** How far a run of characters with a property goes. */
  function Span(s: string, ok: char -> bool): (n: nat)
    ensures n <= |s| && (forall i :: 0 <= i < n ==> ok(s[i])) && (n < |s| ==> !ok(s[n]))
  {
    if s == "" || !ok(s[0]) then 0 else 1 + Span(s[1..], ok)
  }

  /** `readHost`: the host in a `Host` value, or None when the value is not a well-formed host. */
  function ReadHost(header: string, isIPv6: string -> bool): Option<string> {
    if header != "" && header[0] == '[' then
      var n := Span(header[1..], c => c != ']');
      var inner := header[1..][..n];
      if n == 0 || n == |header| - 1 || !IsPort(header[n + 2..]) || !isIPv6(inner) then None else Some(inner)
    else
      var n := Span(header, IsNameChar);
      if n == 0 || n > 253 || !IsPort(header[n..]) then None
      else
        var name := Lower(header[..n]);
        var host := if name[n - 1] == '.' then name[..n - 1] else name;
        if host == "" then None else Some(host)
  }

  /** An IPv6 address in brackets, then perhaps a port. */
  ghost predicate NamesAddress(header: string, host: string, isIPv6: string -> bool) {
    && host != "" && ']' !in host && isIPv6(host)
    && exists port :: IsPort(port) && header == "[" + host + "]" + port
  }

  /** The name: all but a port, without its capitals and without one dot at the end. */
  ghost predicate IsNameOf(header: string, host: string, name: string, port: string) {
    && header == name + port && IsPort(port)
    && 1 <= |name| <= 253 && (forall c <- name :: IsNameChar(c))
    && (if name[|name| - 1] == '.' then IsLowered(name, host + ".") else IsLowered(name, host))
  }

  ghost predicate NamesName(header: string, host: string) {
    host != "" && exists name, port :: IsNameOf(header, host, name, port)
  }

  lemma {:induction false} SpanIs(s: string, ok: char -> bool, n: nat)
    requires n <= |s| && (forall i :: 0 <= i < n ==> ok(s[i])) && (n < |s| ==> !ok(s[n]))
    ensures Span(s, ok) == n
  {
  }

  lemma ReadsAddress(header: string, host: string, isIPv6: string -> bool)
    ensures NamesAddress(header, host, isIPv6) <==>
            ReadHost(header, isIPv6) == Some(host) && header != "" && header[0] == '['
  {
    if NamesAddress(header, host, isIPv6) {
      var port :| IsPort(port) && header == "[" + host + "]" + port;
      assert header[1..] == host + "]" + port && header[1..][..|host|] == host && header[|host| + 2..] == port;
      SpanIs(header[1..], c => c != ']', |host|);
    }
    if ReadHost(header, isIPv6) == Some(host) && header != "" && header[0] == '[' {
      var n := Span(header[1..], c => c != ']');
      assert header == "[" + host + "]" + header[n + 2..];
    }
  }

  lemma NameEndsThere(header: string, name: string, port: string)
    requires header == name + port && IsPort(port) && forall c <- name :: IsNameChar(c)
    ensures Span(header, IsNameChar) == |name| && header[..|name|] == name && header[|name|..] == port
  {
    forall i | 0 <= i < |name| ensures IsNameChar(header[i]) {
      assert header[i] == name[i];
    }
    assert |name| < |header| ==> header[|name|] == port[0];
    SpanIs(header, IsNameChar, |name|);
  }

  /** Without its capitals and the dot at its end, a name is what `readHost` makes of it. */
  lemma LoweredName(name: string, host: string)
    requires name != "" && forall c <- name :: IsNameChar(c)
    ensures var lowered := Lower(name);
            (if name[|name| - 1] == '.' then IsLowered(name, host + ".") else IsLowered(name, host)) <==>
              host == if lowered[|name| - 1] == '.' then lowered[..|name| - 1] else lowered
  {
    var lowered, n := Lower(name), |name|;
    assert lowered[n - 1] == '.' <==> name[n - 1] == '.';
    var whole := if name[n - 1] == '.' then host + "." else host;
    if IsLowered(name, whole) {
      LoweredOnce(name, lowered, whole);
      assert name[n - 1] == '.' ==> whole[..n - 1] == host;
    }
    if lowered[n - 1] == '.' {
      assert lowered == lowered[..n - 1] + ".";
    }
  }

  lemma ReadsName(header: string, host: string, isIPv6: string -> bool)
    ensures NamesName(header, host) <==>
            ReadHost(header, isIPv6) == Some(host) && header != "" && header[0] != '['
  {
    hide IsLowered;
    if NamesName(header, host) {
      var name, port :| IsNameOf(header, host, name, port);
      NameEndsThere(header, name, port);
      LoweredName(name, host);
      assert header[0] == name[0] && name[0] in name;
    }
    if ReadHost(header, isIPv6) == Some(host) && header != "" && header[0] != '[' {
      var n := Span(header, IsNameChar);
      assert forall c <- header[..n] :: IsNameChar(c);
      LoweredName(header[..n], host);
      assert IsNameOf(header, host, header[..n], header[n..]);
    }
  }

  /** `readHost` reads exactly the hosts that a `Host` value can name. */
  lemma ReadsExactly(header: string, host: string, isIPv6: string -> bool)
    ensures ReadHost(header, isIPv6) == Some(host) <==>
            NamesAddress(header, host, isIPv6) || NamesName(header, host)
  {
    ReadsAddress(header, host, isIPv6);
    ReadsName(header, host, isIPv6);
  }

  /** A name that reaches the patterns holds no star, which is what the matcher needs. */
  lemma HostHasNoStar(header: string, isIPv6: string -> bool)
    requires ReadHost(header, isIPv6).Some? && !isIPv6(ReadHost(header, isIPv6).value)
    ensures '*' !in ReadHost(header, isIPv6).value
  {
  }

  /** `createHostRule`: whether this server answers to a raw `Host` header. */
  predicate Answers(header: Option<string>, own: set<string>, patterns: seq<string>, isIP: string -> bool,
      isIPv6: string -> bool) {
    header.None? ||
    var host := ReadHost(header.value, isIPv6);
    host.Some? &&
    (isIP(host.value) || host.value == "localhost" || host.value in own ||
     exists pattern <- patterns :: Matches(pattern, host.value, 0, 0, None))
  }

  /** One of the server's own: an IP literal, localhost, a name of its own, or one that a pattern takes in. */
  ghost predicate IsOwn(host: string, own: set<string>, patterns: seq<string>, isIP: string -> bool) {
    isIP(host) || host == "localhost" || host in own || exists pattern <- patterns :: Glob(pattern, host)
  }

  /**
   * What the rule lets through: no header, or a `Host` value that names an IP literal, localhost,
   * one of the server's own names, or one within a configured pattern, wildcards meaning what they mean.
   */
  lemma AnswersMeans(header: Option<string>, own: set<string>, patterns: seq<string>, isIP: string -> bool,
      isIPv6: string -> bool)
    requires forall s :: isIPv6(s) ==> isIP(s)
    ensures Answers(header, own, patterns, isIP, isIPv6) <==>
            header.None? ||
            exists host ::
              && (NamesAddress(header.value, host, isIPv6) || NamesName(header.value, host))
              && IsOwn(host, own, patterns, isIP)
  {
    if header.Some? {
      forall host ensures ReadHost(header.value, isIPv6) == Some(host) <==>
                          NamesAddress(header.value, host, isIPv6) || NamesName(header.value, host) {
        ReadsExactly(header.value, host, isIPv6);
      }
      var host := ReadHost(header.value, isIPv6);
      if host.Some? && !isIP(host.value) {
        HostHasNoStar(header.value, isIPv6);
        forall pattern <- patterns
          ensures Matches(pattern, host.value, 0, 0, None) <==> Glob(pattern, host.value) {
          MatcherIsGlob(pattern, host.value);
        }
      }
      if host.Some? {
        assert NamesAddress(header.value, host.value, isIPv6) || NamesName(header.value, host.value);
      }
    }
  }
}
