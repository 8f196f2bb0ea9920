/**
 * The proto export of libs/scripts/src/proto-export/export.js: each run exports into a directory
 * of its own, then, holding the lock, moves that into place unless the same files are there.
 */
module ProtoExport {
  import opened Prelude

  /** Every file under a directory, by path. None where the directory is missing. */
  type Files = map<string, string>
  type Dir = Option<Files>

  const ATTEMPTS: nat := 3

  /** What becomes of the output while a move runs: somebody without the lock may replace it. */
  datatype Intrusion = Quiet | Replaces(dir: Dir)

  function Intrude(dir: Dir, intrusion: Intrusion): Dir {
    if intrusion.Quiet? then dir else intrusion.dir
  }

  /** A rename onto a directory that holds files fails with ENOTEMPTY or EEXIST. */
  predicate Occupied(dir: Dir) {
    dir.Some? && dir.value != map[]
  }

  /** `sameFiles`: compares the sizes, then every file of the one with the other's. */
  method SameFiles(a: Dir, b: Dir) returns (same: bool)
    ensures same <==> a.Some? && b.Some? && a.value == b.value
  {
    if a.None? || b.None? {
      return false;
    }
    var left, right := a.value, b.value;
    if |left| != |right| {
      return false;
    }
    var rest := left.Keys;
    while rest != {}
      invariant rest <= left.Keys
      invariant forall file <- left.Keys - rest :: file in right && right[file] == left[file]
      decreases rest
    {
      var file :| file in rest;
      if file !in right || right[file] != left[file] {
        return false;
      }
      rest := rest - {file};
    }
    SubsetIsNoLarger(left.Keys, right.Keys);
    same := true;
  }

  datatype Moved = Wrote | Same | Collided

  /** What attempt `n` compares, `first` having been there at first, and each attempt before it having collided. */
  function Compared(first: Dir, before: nat -> Intrusion, between: nat -> Intrusion, n: nat): Dir {
    Intrude(if n == 0 then first else Intrude(None, between(n - 1)), before(n))
  }

  /** Each of the first `n` attempts found other files, deleted them, and met a directory with files at its rename. */
  predicate CollidedBelow(first: Dir, staging: Files, before: nat -> Intrusion, between: nat -> Intrusion, n: nat) {
    forall k :: 0 <= k < n ==>
      Compared(first, before, between, k) != Some(staging) && Occupied(Intrude(None, between(k)))
  }

  lemma NoneCollided(first: Dir, staging: Files, before: nat -> Intrusion, between: nat -> Intrusion)
    ensures CollidedBelow(first, staging, before, between, 0)
  {
  }

  lemma CollidedAtFirst(first: Dir, staging: Files, before: nat -> Intrusion, between: nat -> Intrusion, n: nat)
    requires CollidedBelow(first, staging, before, between, n) && n > 0
    ensures Compared(first, before, between, 0) != Some(staging) && Occupied(Intrude(None, between(0)))
  {
  }

  lemma CollidedNext(first: Dir, staging: Files, before: nat -> Intrusion, between: nat -> Intrusion, n: nat)
    requires CollidedBelow(first, staging, before, between, n)
    requires Compared(first, before, between, n) != Some(staging) && Occupied(Intrude(None, between(n)))
    ensures CollidedBelow(first, staging, before, between, n + 1)
  {
  }

  class Output {
    var dir: Dir

    constructor (dir: Dir)
      ensures this.dir == dir
    {
      this.dir := dir;
    }

    /**
     * `moveIntoPlace`. Attempt k meets `before(k)` ahead of its comparison and `between(k)` between
     * its delete and its rename. It answers Wrote or Same only with `staging`'s files in place,
     * touches nothing when they are there already, and gives up only after three collisions.
     */
    method MoveIntoPlace(staging: Files, before: nat -> Intrusion, between: nat -> Intrusion) returns (moved: Moved)
      modifies this
      ensures !moved.Collided? ==> dir == Some(staging)
      ensures Intrude(old(dir), before(0)) == Some(staging) ==> moved.Same?
      ensures match moved
              case Same =>
                exists n :: 0 <= n < ATTEMPTS && CollidedBelow(old(dir), staging, before, between, n) &&
                  Compared(old(dir), before, between, n) == Some(staging)
              case Wrote =>
                exists n :: 0 <= n < ATTEMPTS && CollidedBelow(old(dir), staging, before, between, n) &&
                  Compared(old(dir), before, between, n) != Some(staging) && !Occupied(Intrude(None, between(n)))
              case Collided => CollidedBelow(old(dir), staging, before, between, ATTEMPTS)
      ensures (forall k :: before(k).Quiet? && between(k).Quiet?) ==>
                moved == if old(dir) == Some(staging) then Same else Wrote
    {
      hide CollidedBelow;
      NoneCollided(dir, staging, before, between);
      for attempt := 0 to ATTEMPTS
        invariant dir == if attempt == 0 then old(dir) else Intrude(None, between(attempt - 1))
        invariant CollidedBelow(old(dir), staging, before, between, attempt)
      {
        if attempt > 0 {
          CollidedAtFirst(old(dir), staging, before, between, attempt);
        }
        dir := Intrude(dir, before(attempt));
        var same := SameFiles(Some(staging), dir);
        if same {
          return Same;
        }
        dir := None;
        dir := Intrude(dir, between(attempt));
        if !Occupied(dir) {
          dir := Some(staging);
          return Wrote;
        }
        CollidedNext(old(dir), staging, before, between, attempt);
      }
      CollidedAtFirst(old(dir), staging, before, between, ATTEMPTS);
      moved := Collided;
    }
  }
}
