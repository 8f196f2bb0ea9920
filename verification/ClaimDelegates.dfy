/**
 * Claims taken through the functions of the same file (shipped-function.ts,
 * `unconditionalClaimants` and `claimsIncludingDelegates`), and the whole audit.
 */
module ClaimDelegates {
  import opened Prelude
  import opened ClaimAnalysis
  import opened ClaimSemantics
  import opened ClaimSoundness

  const DELEGATE_PASS_LIMIT: nat := 16

  /** `unconditionalClaimants`: the functions that claim on every path, given those already known. */
  function Claimants(file: File, known: set<string>): set<string> {
    set name | name in file && ClaimsOnEveryPath(file[name], known)
  }

  /** What is known after `n` passes. */
  function KnownAfter(file: File, n: nat): set<string> {
    if n == 0 then {} else Claimants(file, KnownAfter(file, n - 1))
  }

  lemma {:induction false} ClaimsIsMonotone(s: Stmt, known: set<string>, more: set<string>)
    requires known <= more && ClaimsOnEveryPath(s, known)
    ensures ClaimsOnEveryPath(s, more)
    decreases s, 1
  {
    match s
    case Block(body) => ListClaimsIsMonotone(body, known, more);
    case If(_, a, b) =>
      ClaimsIsMonotone(a, known, more);
      ClaimsIsMonotone(b.value, known, more);
    case Try(a, h, _) =>
      ClaimsIsMonotone(a, known, more);
      if h.Some? {
        ClaimsIsMonotone(h.value, known, more);
      }
    case _ =>
  }

  lemma {:induction false} ListClaimsIsMonotone(body: seq<Stmt>, known: set<string>, more: set<string>)
    requires known <= more && ListClaims(body, known)
    ensures ListClaims(body, more)
    decreases body, 0
  {
    if ClaimsOnEveryPath(body[0], known) {
      ClaimsIsMonotone(body[0], known, more);
    } else {
      ListClaimsIsMonotone(body[1..], known, more);
    }
  }

  lemma ClaimantsIsMonotone(file: File, known: set<string>, more: set<string>)
    requires known <= more
    ensures Claimants(file, known) <= Claimants(file, more)
  {
    forall name <- Claimants(file, known) ensures name in Claimants(file, more) {
      ClaimsIsMonotone(file[name], known, more);
    }
  }

  /** Each pass finds what the one before it found, and perhaps more. */
  lemma {:induction false} PassesWiden(file: File, n: nat)
    ensures KnownAfter(file, n) <= KnownAfter(file, n + 1)
  {
    if n > 0 {
      PassesWiden(file, n - 1);
      ClaimantsIsMonotone(file, KnownAfter(file, n - 1), KnownAfter(file, n));
    }
  }

  /** The set of delegates is closed, and every closed set contains it. */
  ghost predicate IsLeastFixpoint(file: File, known: set<string>) {
    && Claimants(file, known) == known
    && forall closed: set<string> :: Claimants(file, closed) <= closed ==> known <= closed
  }

  lemma {:induction false} PassesStayBelow(file: File, n: nat, closed: set<string>)
    requires Claimants(file, closed) <= closed
    ensures KnownAfter(file, n) <= closed
  {
    if n > 0 {
      PassesStayBelow(file, n - 1, closed);
      ClaimantsIsMonotone(file, KnownAfter(file, n - 1), closed);
    }
  }

  /** A set of delegates that a pass does not enlarge is the least fixpoint. */
  lemma SettledIsLeastFixpoint(file: File, n: nat)
    requires KnownAfter(file, n + 1) == KnownAfter(file, n)
    ensures IsLeastFixpoint(file, KnownAfter(file, n))
  {
    forall closed: set<string> | Claimants(file, closed) <= closed ensures KnownAfter(file, n) <= closed {
      PassesStayBelow(file, n, closed);
    }
  }

  /**
   * `claimsIncludingDelegates`. It compares only sizes, and yet answers the least fixpoint; it
   * throws exactly when sixteen passes each found something new.
   */
  method ClaimsIncludingDelegates(file: File) returns (r: Result<set<string>, string>)
    ensures r.Ok? ==> IsLeastFixpoint(file, r.value)
    ensures r.Err? <==> KnownAfter(file, DELEGATE_PASS_LIMIT) != KnownAfter(file, DELEGATE_PASS_LIMIT - 1)
  {
    var delegates := {};
    var known := 0;
    for pass := 0 to DELEGATE_PASS_LIMIT
      invariant delegates == KnownAfter(file, pass) && known == |delegates|
      invariant pass > 0 ==> KnownAfter(file, pass) != KnownAfter(file, pass - 1)
    {
      var found := Claimants(file, delegates);
      assert found == KnownAfter(file, pass + 1);
      PassesWiden(file, pass);
      if |found| == known {
        SubsetIsNoLarger(delegates, found);
        SettledIsLeastFixpoint(file, pass);
        StaysSettled(file, pass, DELEGATE_PASS_LIMIT - 1);
        StaysSettled(file, pass, DELEGATE_PASS_LIMIT);
        return Ok(delegates);
      }
      known := |found|;
      delegates := found;
    }
    r := Err("Delegate resolution did not settle");
  }

  lemma {:induction false} StaysSettled(file: File, n: nat, m: nat)
    requires KnownAfter(file, n + 1) == KnownAfter(file, n) && n <= m
    ensures KnownAfter(file, m) == KnownAfter(file, n)
    decreases m
  {
    if n < m {
      StaysSettled(file, n, m - 1);
    }
  }

  /** Until the passes settle, each finds something new; and there are only so many functions. */
  lemma {:induction false} PassesSettle(file: File, n: nat) returns (m: nat)
    requires |KnownAfter(file, n)| >= n
    ensures KnownAfter(file, m + 1) == KnownAfter(file, m)
    decreases |file| + 1 - n
  {
    assert KnownAfter(file, n) <= file.Keys && KnownAfter(file, n + 1) <= file.Keys;
    SubsetIsNoLarger(KnownAfter(file, n), file.Keys);
    PassesWiden(file, n);
    m := n;
    if KnownAfter(file, n + 1) != KnownAfter(file, n) {
      SubsetIsNoLarger(KnownAfter(file, n), KnownAfter(file, n + 1));
      m := PassesSettle(file, n + 1);
    }
  }

  /** Every file has the delegates that the check looks for, though sixteen passes may not find them. */
  lemma LeastFixpointExists(file: File)
    ensures exists known: set<string> :: IsLeastFixpoint(file, known)
  {
    var n := PassesSettle(file, 0);
    SettledIsLeastFixpoint(file, n);
  }

  /**
   * The file as it may be relied on: its functions whose `finally` blocks do not leave early, with
   * the texts of the functions declared inside them blanked.
   */
  function Trusted(file: File): File {
    map name | name in file && FinallyStays(file[name]) :: Blanked(file[name])
  }

  /** The functions of the file that have taken a claim whenever they complete. */
  ghost function SoundNames(file: File): set<string> {
    set name | name in file && SoundDelegate(file, name)
  }

  lemma SoundNamesAreClosed(file: File)
    ensures Claimants(Trusted(file), SoundNames(file)) <= SoundNames(file)
  {
    var sound := SoundNames(file);
    forall name, st: St | name in Claimants(Trusted(file), sound)
      ensures var r := Exec(file, file[name], None, st); r.outcome.Threw? || r.outcome.Cut? || r.st.claimed
    {
      ClaimsTaken(file, file[name], sound, None, st);
    }
  }

  /** The delegates of the trusted file take a claim each time they complete, in any file. */
  lemma DelegatesAreSound(file: File, trusted: set<string>)
    requires IsLeastFixpoint(Trusted(file), trusted)
    ensures SoundKnown(file, trusted)
  {
    SoundNamesAreClosed(file);
    assert trusted <= SoundNames(file);
  }

  lemma {:induction false} BlankingClaimsLess(s: Stmt, known: set<string>)
    requires ClaimsOnEveryPath(Blanked(s), known)
    ensures ClaimsOnEveryPath(s, known)
    decreases s, 1
  {
    match s
    case Block(body) => BlankingClaimsLessList(body, known);
    case If(_, a, b) =>
      BlankingClaimsLess(a, known);
      BlankingClaimsLess(b.value, known);
    case Try(a, h, _) =>
      BlankingClaimsLess(a, known);
      if h.Some? {
        BlankingClaimsLess(h.value, known);
      }
    case _ =>
  }

  lemma {:induction false} BlankingClaimsLessList(body: seq<Stmt>, known: set<string>)
    requires ListClaims(BlankedList(body), known)
    ensures ListClaims(body, known)
    decreases body, 0
  {
    assert BlankedList(body)[1..] == BlankedList(body[1..]);
    if ClaimsOnEveryPath(Blanked(body[0]), known) {
      BlankingClaimsLess(body[0], known);
    } else {
      BlankingLeaves(body[0]);
      BlankingClaimsLessList(body[1..], known);
    }
  }

  /** What the check credits contains what it may rely on. */
  lemma TrustedAreCredited(file: File, known: set<string>, trusted: set<string>)
    requires IsLeastFixpoint(file, known) && IsLeastFixpoint(Trusted(file), trusted)
    ensures trusted <= known
  {
    forall name <- Claimants(Trusted(file), known) ensures name in known {
      BlankingClaimsLess(file[name], known);
    }
  }

  lemma {:induction false} BlankingDominatesLess(s: Stmt, path: seq<nat>, known: set<string>, more: set<string>)
    requires Dominated(Blanked(s), path, known) && known <= more
    ensures Dominated(s, path, more)
    decreases |path|
  {
    assert Child(s, path[0]).Some? && Child(Blanked(s), path[0]).value == Blanked(Child(s, path[0]).value);
    if PrecededByClaim(Blanked(s), path[0], known) {
      var whole := StatementList(s).value;
      var j :| 0 <= j < path[0] && j < |whole| && ClaimsOnEveryPath(Blanked(whole[j]), known);
      BlankingClaimsLess(whole[j], known);
      ClaimsIsMonotone(whole[j], known, more);
      assert PrecededByClaim(s, path[0], more);
    } else {
      BlankingDominatesLess(Child(s, path[0]).value, path[1..], known, more);
    }
  }

  /** No execution of `scope` reaches the write at `path` before a claim is taken. */
  ghost predicate Guarded(file: File, scope: Stmt, path: seq<nat>) {
    forall choices: seq<nat> :: !Exec(file, scope, Some(path), St(choices, false, false)).st.unguarded
  }

  /** The check of the trusted file and the blanked scope is right, and goes no further than the check. */
  lemma TrustedDominanceGuards(file: File, scope: Stmt, path: seq<nat>, known: set<string>, trusted: set<string>)
    requires IsLeastFixpoint(file, known) && IsLeastFixpoint(Trusted(file), trusted)
    requires Dominated(Blanked(scope), path, trusted)
    ensures Guarded(file, scope, path) && Dominated(scope, path, known)
  {
    TrustedAreCredited(file, known, trusted);
    BlankingDominatesLess(scope, path, trusted, known);
    DelegatesAreSound(file, trusted);
    forall choices: seq<nat> ensures !Exec(file, scope, Some(path), St(choices, false, false)).st.unguarded {
      DominatedIsGuarded(file, scope, trusted, path, St(choices, false, false));
    }
  }

  /**
   * The audit, end to end. The file's delegates are resolved, and the write at `path` in `scope` is
   * judged with them. Whatever the file and the scope hold: where that verdict agrees with the one on
   * the trusted file and the blanked scope, it is right, in that a claimed write is a guarded one; and
   * where they differ, it is the audit that says "claimed".
   */
  method Audit(file: File, scope: Stmt, path: seq<nat>) returns (claimed: Result<bool, string>)
    requires Node(scope, path).Some?
    ensures claimed.Ok? ==>
      exists known: set<string> :: IsLeastFixpoint(file, known) && (claimed.value <==> Dominated(scope, path, known))
    ensures claimed.Ok? ==>
      forall trusted: set<string> ::
        IsLeastFixpoint(Trusted(file), trusted) && Dominated(Blanked(scope), path, trusted) ==>
          claimed.value && Guarded(file, scope, path)
  {
    var delegates := ClaimsIncludingDelegates(file);
    if delegates.Err? {
      return Err(delegates.error);
    }
    var known := delegates.value;
    var verdict := DominatedByClaim(scope, path, known);
    forall trusted: set<string> | IsLeastFixpoint(Trusted(file), trusted) && Dominated(Blanked(scope), path, trusted)
      ensures verdict && Guarded(file, scope, path)
    {
      TrustedDominanceGuards(file, scope, path, known, trusted);
    }
    claimed := Ok(verdict);
  }
}
