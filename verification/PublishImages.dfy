/**
 * Publishing (libs/scripts/src/bin/publish-images.js): one run at a time writes each image's
 * `sha-` tag, then reads every `edge`, decides, and moves them, the BGE image's first. Between
 * any two calls people may remove tags and master may move forward, and any call may be the run's
 * last: it throws, or the runner dies, a write's effect made or not.
 */
module PublishImages {
  import opened Prelude
  import opened ImageRules

  /** Images are numbered as the run names them. The BGE image is 0. */
  type Image = nat

  /**
   * What the registry and GitHub hold. `last` is a history variable: the commit each image's
   * `edge` was last written to name, whether or not the tag has been removed since.
   */
  datatype Tags = Tags(
    tip: Commit, sha: map<(Image, string), Digest>, edge: map<Image, Digest>, last: map<Image, Commit>)

  function ShaOf(t: Tags, image: Image, tag: string): Option<Digest> {
    if (image, tag) in t.sha then Some(t.sha[(image, tag)]) else None
  }

  function EdgeOf(t: Tags, image: Image): Option<Digest> {
    if image in t.edge then Some(t.edge[image]) else None
  }

  function ShaTag(commit: Commit): string
    requires IsCommit(commit)
  {
    "sha-" + commit[..7]
  }

  /**
   * What the repository and the registry never change: ancestry, what a digest stands for, and so
   * the commit it names.
   */
  datatype World = World(
    history: History, manifests: Digest -> Manifest, labels: Labels, named: Digest -> Option<Commit>)
  {
    function At(digest: Digest): Published {
      Published(digest, manifests(digest), labels)
    }

    ghost predicate Exact(commit: Commit, digest: Digest, tested: Tested) {
      ListsExactly(commit, manifests(digest), tested, labels)
    }

    ghost predicate Valid() {
      && ValidHistory(history)
      && forall digest {:trigger At(digest)} :: named(digest) == NamedCommit(At(digest))
    }

    /** Every `edge` names what was last written, no gateway's is ahead of BGE's, and that is on master. */
    ghost predicate Safe(t: Tags) {
      && t.tip in history
      && (forall i <- t.edge :: i in t.last && named(t.edge[i]) == Some(t.last[i]))
      && forall i <- t.last ::
           0 in t.last && Ancestor(history, t.last[i], t.last[0]) && Ancestor(history, t.last[0], t.tip)
    }

    /** Master and every `edge` only move forward, and a `sha-` tag that stays is the same tag. */
    ghost predicate Forward(t: Tags, u: Tags) {
      && Ancestor(history, t.tip, u.tip)
      && (forall i <- t.last :: i in u.last && Ancestor(history, t.last[i], u.last[i]))
      && forall k <- t.sha :: k in u.sha ==> u.sha[k] == t.sha[k]
    }

    /** What others may do: move master forward and remove tags. */
    predicate Outside(t: Tags, u: Tags) {
      && u.tip in history && Ancestor(history, t.tip, u.tip)
      && (forall k <- u.sha :: k in t.sha && u.sha[k] == t.sha[k])
      && (forall i <- u.edge :: i in t.edge && u.edge[i] == t.edge[i])
      && u.last == t.last
    }

    /**
     * What a run knows from the edges it read, in order: each tag there now is as it was read, and
     * what was read names what was last written.
     */
    ghost predicate ReadAs(edges: seq<Option<Digest>>, t: Tags) {
      && (forall i <- t.edge :: i < |edges| ==> edges[i] == Some(t.edge[i]))
      && forall i :: 0 <= i < |edges| && edges[i].Some? ==> i in t.last && named(edges[i].value) == Some(t.last[i])
    }

    lemma ReadOneMore(edges: seq<Option<Digest>>, t: Tags, u: Tags)
      requires ReadAs(edges, t) && Outside(t, u) && Safe(u)
      ensures ReadAs(edges + [EdgeOf(u, |edges|)], u)
    {
    }

    /** Whether `edge` is to move, said of what was seen: master's tip, and every `edge`, the BGE image's first. */
    ghost predicate MayMove(commit: Commit, tip: Commit, edges: seq<Option<Digest>>)
      requires edges != []
    {
      && Ancestor(history, commit, tip)
      && match edges[0]
         case None => tip == commit && forall other <- edges[1..] :: other.None?
         case Some(bge) => named(bge).Some? && Ancestor(history, named(bge).value, commit)
    }

    /** `edgeDecision` as the run asks it: of the first image's `edge`, the others', and GitHub. */
    function Decide(commit: Commit, tip: Commit, edges: seq<Option<Digest>>): Decision
      requires edges != []
    {
      var edge := if edges[0].Some? then Some(At(edges[0].value)) else None;
      EdgeDecision(commit, tip, edge, edges[1..], (base, head) => Compare(history, base, head))
    }

    /** Removals after the edges were read cannot turn the decision wrong. */
    lemma DecidesByTheFirst(commit: Commit, edges: seq<Option<Digest>>, t: Tags)
      requires Valid() && Safe(t) && edges != [] && ReadAs(edges, t)
      ensures Decide(commit, t.tip, edges).Move? ==>
                Ancestor(history, commit, t.tip) && (0 in t.last ==> Ancestor(history, t.last[0], commit))
      ensures Decide(commit, t.tip, edges).Move? <==> MayMove(commit, t.tip, edges)
    {
      assert edges[0].Some? ==> named(edges[0].value) == NamedCommit(At(edges[0].value));
      var edge := if edges[0].Some? then Some(At(edges[0].value)) else None;
      MovesExactlyForward(history, commit, t.tip, edge, edges[1..]);
    }

    ghost predicate ValidPast(past: seq<Tags>) {
      && past != []
      && (forall k {:trigger Safe(past[k])} :: 0 <= k < |past| ==> Safe(past[k]))
      && forall k, l {:trigger Forward(past[k], past[l])} ::
           0 <= k < |past| && l == k + 1 && l < |past| ==> Forward(past[k], past[l])
    }
  }

  /** Over any part of the past, master and each `edge` have only moved forward. */
  lemma {:induction false} PastMovesForward(world: World, past: seq<Tags>, i: nat, j: nat)
    requires world.Valid() && world.ValidPast(past)
    requires i <= j < |past|
    ensures Ancestor(world.history, past[i].tip, past[j].tip)
    ensures forall image <- past[i].last ::
              image in past[j].last && Ancestor(world.history, past[i].last[image], past[j].last[image])
    decreases j - i
  {
    if i < j {
      PastMovesForward(world, past, i, j - 1);
      assert world.Forward(past[j - 1], past[j]);
    }
  }

  /** `edge` never moves back, over any number of runs, crashes and removals in between. */
  lemma EdgeNeverMovesBack(world: World, past: seq<Tags>, i: nat, j: nat, image: Image)
    requires world.Valid() && world.ValidPast(past)
    requires i <= j < |past| && image in past[i].edge && image in past[j].edge
    ensures exists was, now ::
              && NamedCommit(world.At(past[i].edge[image])) == Some(was)
              && NamedCommit(world.At(past[j].edge[image])) == Some(now)
              && Ancestor(world.history, was, now)
  {
    PastMovesForward(world, past, i, j);
    assert world.Safe(past[i]) && world.Safe(past[j]);
  }

  /** Whenever the BGE image has an `edge`, no gateway's is ahead of it, and neither is ahead of master. */
  lemma GatewaysNeverGetAhead(world: World, past: seq<Tags>, k: nat, image: Image)
    requires world.Valid() && world.ValidPast(past)
    requires k < |past| && 0 in past[k].edge && image in past[k].edge
    ensures exists bge, gateway ::
              && NamedCommit(world.At(past[k].edge[0])) == Some(bge)
              && NamedCommit(world.At(past[k].edge[image])) == Some(gateway)
              && Ancestor(world.history, gateway, bge) && Ancestor(world.history, bge, past[k].tip)
  {
    assert world.Safe(past[k]);
  }

  /** A `sha-` tag is write-once: for as long as it is there it is the same index. */
  lemma {:induction false} ShaTagsAreWriteOnce(world: World, past: seq<Tags>, i: nat, j: nat, key: (Image, string))
    requires world.ValidPast(past)
    requires i <= j < |past|
    requires forall k :: i <= k <= j ==> key in past[k].sha
    ensures past[j].sha[key] == past[i].sha[key]
    decreases j - i
  {
    if i < j {
      ShaTagsAreWriteOnce(world, past, i, j - 1, key);
      assert world.Forward(past[j - 1], past[j]);
      assert key in past[j - 1].sha && key in past[j].sha;
    }
  }

  /** Two tags name revisions of master, the first no later than the second. */
  ghost predicate NoLater(world: World, a: Digest, b: Digest) {
    var (was, now) := (NamedCommit(world.At(a)), NamedCommit(world.At(b)));
    was.Some? && now.Some? && Ancestor(world.history, was.value, now.value)
  }

  /** What people are promised of the tags, of any list of states the registry went through. */
  ghost predicate Promised(world: World, past: seq<Tags>) {
    && (forall i, j, image ::
          0 <= i <= j < |past| && image in past[i].edge && image in past[j].edge ==>
            NoLater(world, past[i].edge[image], past[j].edge[image]))
    && (forall k, image ::
          0 <= k < |past| && 0 in past[k].edge && image in past[k].edge ==>
            && NoLater(world, past[k].edge[image], past[k].edge[0])
            && Ancestor(world.history, NamedCommit(world.At(past[k].edge[0])).value, past[k].tip))
    && forall i, j, key ::
         0 <= i <= j < |past| && (forall k :: i <= k <= j ==> key in past[k].sha) ==>
             past[j].sha[key] == past[i].sha[key]
  }

  lemma PastIsAsPromised(world: World, past: seq<Tags>)
    requires world.Valid() && world.ValidPast(past)
    ensures Promised(world, past)
  {
    forall i, j, image | 0 <= i <= j < |past| && image in past[i].edge && image in past[j].edge
      ensures NoLater(world, past[i].edge[image], past[j].edge[image])
    {
      EdgeNeverMovesBack(world, past, i, j, image);
    }
    forall k, image | 0 <= k < |past| && 0 in past[k].edge && image in past[k].edge
      ensures NoLater(world, past[k].edge[image], past[k].edge[0])
      ensures Ancestor(world.history, NamedCommit(world.At(past[k].edge[0])).value, past[k].tip)
    {
      GatewaysNeverGetAhead(world, past, k, image);
    }
    forall i, j, key | 0 <= i <= j < |past| && (forall k :: i <= k <= j ==> key in past[k].sha)
      ensures past[j].sha[key] == past[i].sha[key]
    {
      ShaTagsAreWriteOnce(world, past, i, j, key);
    }
  }

  /** The digests the smoke tested, in the order of their platforms. */
  function TestedDigests(tested: Tested): seq<Digest>
    requires forall p <- tested.platforms :: p in tested.digests
  {
    seq(|tested.platforms|, k requires 0 <= k < |tested.platforms| => tested.digests[tested.platforms[k]])
  }

  /** The edges below `i` now name the commit, and the others what they named. */
  ghost predicate MovedSoFar(was: map<Image, Commit>, now: map<Image, Commit>, i: nat, commit: Commit) {
    && (forall k :: 0 <= k < i ==> k in now && now[k] == commit)
    && (forall k <- now :: k < i || (k in was && now[k] == was[k]))
    && forall k <- was :: k >= i ==> k in now
  }

  lemma MovedOneMore(was: map<Image, Commit>, now: map<Image, Commit>, i: nat, commit: Commit)
    requires MovedSoFar(was, now, i, commit)
    ensures MovedSoFar(was, now[i := commit], i + 1, commit)
  {
  }

  /** At some state from `from` on, the image's `edge` was as it was read. */
  ghost predicate EdgeSeen(past: seq<Tags>, from: nat, image: Image, read: Option<Digest>) {
    exists k :: from <= k < |past| && EdgeOf(past[k], image) == read
  }

  ghost predicate EdgesSeen(past: seq<Tags>, from: nat, edges: seq<Option<Digest>>) {
    forall i :: 0 <= i < |edges| ==> EdgeSeen(past, from, i, edges[i])
  }

  lemma SeenInAll(past: seq<Tags>, more: seq<Tags>, from: nat, since: nat, edges: seq<Option<Digest>>)
    requires EdgesSeen(past, from, edges) && past <= more && since <= from
    ensures EdgesSeen(more, since, edges)
  {
    forall i | 0 <= i < |edges| ensures EdgeSeen(more, since, i, edges[i]) {
      var k :| from <= k < |past| && EdgeOf(past[k], i) == edges[i];
      assert EdgeOf(more[k], i) == edges[i];
    }
  }

  /** The first `n` images' edges were read, or seen from `from` on, at their digests. */
  ghost predicate EdgesMoved(past: seq<Tags>, from: nat, n: nat, edges: seq<Option<Digest>>, digests: seq<Digest>) {
    && n <= |edges| && n <= |digests|
    && forall i :: 0 <= i < n ==> edges[i] == Some(digests[i]) || EdgeSeen(past, from, i, Some(digests[i]))
  }

  lemma MovedInAll(past: seq<Tags>, more: seq<Tags>, from: nat, n: nat, edges: seq<Option<Digest>>,
                   digests: seq<Digest>)
    requires EdgesMoved(past, from, n, edges, digests) && past <= more
    ensures EdgesMoved(more, from, n, edges, digests)
  {
    forall i | 0 <= i < n && edges[i] != Some(digests[i]) ensures EdgeSeen(more, from, i, Some(digests[i])) {
      var k :| from <= k < |past| && EdgeOf(past[k], i) == Some(digests[i]);
      assert EdgeOf(more[k], i) == Some(digests[i]);
    }
  }

  lemma MovedNext(past: seq<Tags>, from: nat, n: nat, edges: seq<Option<Digest>>, digests: seq<Digest>)
    requires EdgesMoved(past, from, n, edges, digests) && n < |edges| && n < |digests| && from < |past|
    requires edges[n] == Some(digests[n]) || EdgeOf(past[|past| - 1], n) == Some(digests[n])
    ensures EdgesMoved(past, from, n + 1, edges, digests)
  {
  }

  lemma NoneMoved(past: seq<Tags>, from: nat, edges: seq<Option<Digest>>, digests: seq<Digest>)
    ensures EdgesMoved(past, from, 0, edges, digests)
  {
  }

  /** Master's tip was this at some state from `from` on. */
  ghost predicate TipSeen(past: seq<Tags>, from: nat, tip: Commit) {
    exists k :: from <= k < |past| && past[k].tip == tip
  }

  lemma SeenNext(past: seq<Tags>, from: nat, edges: seq<Option<Digest>>, read: Option<Digest>)
    requires EdgesSeen(past, from, edges) && from < |past| && EdgeOf(past[|past| - 1], |edges|) == read
    ensures EdgesSeen(past, from, edges + [read])
  {
  }

  /** What `checkShaTag` found: the digest of a tag that stays, or None for one to be written. */
  type Plan = Option<Digest>

  class Registry {
    const world: World
    const images: nat
    /** The index `imagetools create --dry-run` shows for some digests. */
    const planIndex: seq<Digest> -> Manifest
    var tags: Tags
    ghost var past: seq<Tags>
    /** How many calls have failed. */
    ghost var failed: nat

    ghost predicate Valid()
      reads this
    {
      && world.Valid() && images > 0
      && past != [] && world.ValidPast(past) && past[|past| - 1] == tags && world.Safe(tags)
    }

    twostate predicate Continues()
      reads this
    {
      Valid() && old(past) <= past && old(failed) <= failed
    }

    /** The index of the tested images, as it is planned, is this commit's. */
    ghost predicate PlansExactly(commit: Commit, tested: Tested)
      requires tested.Valid()
    {
      ListsExactly(commit, planIndex(TestedDigests(tested)), tested, world.labels)
    }

    /** The tag was there, exactly this commit's, at some state from `from` on. */
    ghost predicate Stood(past: seq<Tags>, from: nat, image: Image, tag: string, commit: Commit, tested: Tested) {
      exists k :: from <= k < |past| && ShaOf(past[k], image, tag).Some? &&
                  world.Exact(commit, ShaOf(past[k], image, tag).value, tested)
    }

    /**
     * Something in the registry that a run can't get over: another index under the `sha-` tag, or none
     * and a plan that is not this commit's, or a tag removed from under the run.
     */
    ghost predicate Hinders(past: seq<Tags>, j: nat, k: nat, image: Image, tag: string, commit: Commit, tested: Tested)
      requires tested.Valid() && j <= k < |past|
    {
      var sha := ShaOf(past[k], image, tag);
      || (sha.Some? && !world.Exact(commit, sha.value, tested))
      || (sha.None? && (!PlansExactly(commit, tested) || ShaOf(past[j], image, tag).Some?))
      || (EdgeOf(past[k], image).None? && EdgeOf(past[j], image).Some?)
    }

    ghost predicate Hindered(past: seq<Tags>, from: nat, image: Image, tag: string, commit: Commit, tested: Tested)
      requires tested.Valid()
    {
      exists j, k :: from <= j <= k < |past| && Hinders(past, j, k, image, tag, commit, tested)
    }

    /** The first `n` images' tags stood, each exactly this commit's. */
    ghost predicate AllStood(past: seq<Tags>, from: nat, n: nat, tag: string, commit: Commit, tested: seq<Tested>) {
      n <= |tested| && forall i :: 0 <= i < n ==> Stood(past, from, i, tag, commit, tested[i])
    }

    ghost predicate AnyHindered(past: seq<Tags>, from: nat, tag: string, commit: Commit, tested: seq<Tested>) {
      exists i :: 0 <= i < |tested| && tested[i].Valid() && Hindered(past, from, i, tag, commit, tested[i])
    }

    lemma AllStoodInAll(past: seq<Tags>, more: seq<Tags>, from: nat, since: nat, n: nat, tag: string, commit: Commit,
                        tested: seq<Tested>)
      requires AllStood(past, from, n, tag, commit, tested) && past <= more && since <= from
      ensures AllStood(more, since, n, tag, commit, tested)
    {
      forall i | 0 <= i < n ensures Stood(more, since, i, tag, commit, tested[i]) {
        var k :| from <= k < |past| && ShaOf(past[k], i, tag).Some? &&
                 world.Exact(commit, ShaOf(past[k], i, tag).value, tested[i]);
        assert more[k] == past[k];
      }
    }

    lemma HinderedHere(past: seq<Tags>, from: nat, since: nat, image: Image, tag: string, commit: Commit,
                       tested: seq<Tested>)
      requires image < |tested| && tested[image].Valid() && since <= from
      ensures Hindered(past, from, image, tag, commit, tested[image]) ==>
                AnyHindered(past, since, tag, commit, tested)
      ensures Stood(past, from, image, tag, commit, tested[image]) ==>
                Stood(past, since, image, tag, commit, tested[image])
    {
      HinderedInAll(past, past, from, since, image, tag, commit, tested[image]);
    }

    lemma AnyHinderedInAll(past: seq<Tags>, from: nat, since: nat, tag: string, commit: Commit, tested: seq<Tested>)
      requires AnyHindered(past, from, tag, commit, tested) && since <= from
      ensures AnyHindered(past, since, tag, commit, tested)
    {
      var i :| 0 <= i < |tested| && tested[i].Valid() && Hindered(past, from, i, tag, commit, tested[i]);
      HinderedInAll(past, past, from, since, i, tag, commit, tested[i]);
    }

    lemma HinderedInAll(past: seq<Tags>, more: seq<Tags>, from: nat, since: nat, image: Image, tag: string,
                        commit: Commit, tested: Tested)
      requires tested.Valid() && past <= more && since <= from
      ensures Hindered(past, from, image, tag, commit, tested) ==> Hindered(more, since, image, tag, commit, tested)
      ensures Stood(past, from, image, tag, commit, tested) ==> Stood(more, since, image, tag, commit, tested)
    {
      if Hindered(past, from, image, tag, commit, tested) {
        var j, k :| from <= j <= k < |past| && Hinders(past, j, k, image, tag, commit, tested);
        assert Hinders(more, j, k, image, tag, commit, tested);
      }
      if Stood(past, from, image, tag, commit, tested) {
        var k :| from <= k < |past| && ShaOf(past[k], image, tag).Some? &&
                 world.Exact(commit, ShaOf(past[k], image, tag).value, tested);
        assert more[k] == past[k];
      }
    }

    constructor (world: World, images: nat, planIndex: seq<Digest> -> Manifest, tags: Tags)
      requires world.Valid() && images > 0 && world.Safe(tags)
      ensures Valid() && past == [tags] && this.tags == tags && this.world == world && this.images == images
    {
      this.world, this.images, this.planIndex, this.tags := world, images, planIndex, tags;
      past, failed := [tags], 0;
    }

    method Become(next: Tags)
      requires Valid() && world.Safe(next) && world.Forward(tags, next)
      modifies this`tags, this`past
      ensures Continues() && tags == next && past == old(past) + [next]
    {
      tags := next;
      past := past + [next];
    }

    method Interfere()
      requires Valid()
      modifies this`tags, this`past
      ensures Continues() && world.Outside(old(tags), tags)
    {
      assert world.Outside(tags, tags);
      var next :| world.Outside(tags, next);
      assert world.Outside(tags, next);
      Become(next);
    }

    /** Reads a `sha-` tag. The outer None is a failed call, the inner one a missing tag. */
    method ReadSha(image: Image, tag: string) returns (r: Option<Option<Digest>>)
      requires Valid()
      modifies this
      ensures Continues() && world.Outside(old(tags), tags)
      ensures if r.Some? then failed == old(failed) && r.value == ShaOf(tags, image, tag) else failed > old(failed)
    {
      Interfere();
      if * {
        failed := failed + 1;
        return None;
      }
      r := Some(ShaOf(tags, image, tag));
    }

    method ReadEdge(image: Image) returns (r: Option<Option<Digest>>)
      requires Valid()
      modifies this
      ensures Continues() && world.Outside(old(tags), tags)
      ensures if r.Some? then failed == old(failed) && r.value == EdgeOf(tags, image) else failed > old(failed)
    {
      Interfere();
      if * {
        failed := failed + 1;
        return None;
      }
      r := Some(EdgeOf(tags, image));
    }

    /** Master's tip, as GitHub tells it. */
    method BranchTip() returns (r: Option<Commit>)
      requires Valid()
      modifies this
      ensures Continues() && world.Outside(old(tags), tags)
      ensures if r.Some? then failed == old(failed) && r.value == tags.tip else failed > old(failed)
    {
      Interfere();
      if * {
        failed := failed + 1;
        return None;
      }
      r := Some(tags.tip);
    }

    /** Writes a `sha-` tag that is not there. The registry makes the index, so it may be any. */
    method WriteSha(image: Image, tag: string) returns (ok: bool)
      requires Valid() && (image, tag) !in tags.sha
      modifies this
      ensures Continues() && tags.last == old(tags).last
      ensures Ancestor(world.history, old(tags).tip, tags.tip)
      ensures forall k <- tags.sha :: k != (image, tag) ==> k in old(tags).sha
      ensures if ok then failed == old(failed) && ShaOf(tags, image, tag).Some? else failed > old(failed)
    {
      Interfere();
      if * {
        failed := failed + 1;
        return false;
      }
      var digest: Digest :| true;
      Become(tags.(sha := tags.sha[(image, tag) := digest]));
      ok := *;
      failed := if ok then failed else failed + 1;
    }

    /** Points an image's `edge` at an index that names `commit`. */
    method WriteEdge(image: Image, digest: Digest, ghost commit: Commit) returns (ok: bool)
      requires Valid() && world.named(digest) == Some(commit)
      requires image in tags.last ==> Ancestor(world.history, tags.last[image], commit)
      requires if image == 0 then Ancestor(world.history, commit, tags.tip)
               else 0 in tags.last && Ancestor(world.history, commit, tags.last[0])
      modifies this
      ensures Continues() && Ancestor(world.history, old(tags).tip, tags.tip)
      ensures tags.last == old(tags).last[image := commit] || (!ok && tags.last == old(tags).last)
      ensures if ok then failed == old(failed) && EdgeOf(tags, image) == Some(digest) else failed > old(failed)
    {
      Interfere();
      if * {
        failed := failed + 1;
        return false;
      }
      var next := tags.(edge := tags.edge[image := digest], last := tags.last[image := world.named(digest).value]);
      Become(next);
      ok := *;
      failed := if ok then failed else failed + 1;
    }

    /**
     * `checkShaTag`: nothing is written, and a tag that stays is exactly this commit's, as is the index
     * that is to be written where there is none. It errs for no other reason.
     */
    method CheckShaTag(image: Image, tag: string, commit: Commit, tested: Tested) returns (r: Result<Plan, string>)
      requires Valid() && tested.Valid()
      modifies this
      ensures Continues() && world.Outside(old(tags), tags)
      ensures r.Ok? ==> failed == old(failed) && r.value == ShaOf(tags, image, tag)
      ensures r.Ok? ==> if r.value.Some? then world.Exact(commit, r.value.value, tested)
                        else PlansExactly(commit, tested)
      ensures r.Err? ==> failed > old(failed) || Hindered(past, |old(past)| - 1, image, tag, commit, tested)
    {
      var read := ReadSha(image, tag);
      if read.None? {
        return Err("could not read the tag");
      }
      if read.value.Some? {
        var problems := PublishProblems(commit, world.manifests(read.value.value), tested, world.labels);
        if problems != [] {
          assert Hinders(past, |past| - 1, |past| - 1, image, tag, commit, tested);
          return Err("the tag can't stand as this commit's");
        }
        return Ok(read.value);
      }
      var problems := PublishProblems(commit, planIndex(TestedDigests(tested)), tested, world.labels);
      if problems != [] {
        assert Hinders(past, |past| - 1, |past| - 1, image, tag, commit, tested);
        return Err("an index of the tested images can't be published");
      }
      r := Ok(None);
    }

    /** `writeShaTag`: what it returns is exactly this commit's index, read back if it was written. */
    method WriteShaTag(plan: Plan, image: Image, tag: string, commit: Commit, tested: Tested)
      returns (r: Result<Digest, string>)
      requires Valid() && tested.Valid()
      requires if plan.Some? then world.Exact(commit, plan.value, tested) else (image, tag) !in tags.sha
      modifies this
      ensures Continues() && tags.last == old(tags).last
      ensures Ancestor(world.history, old(tags).tip, tags.tip)
      ensures forall k <- tags.sha :: k != (image, tag) ==> k in old(tags).sha
      ensures r.Ok? ==> failed == old(failed) && world.Exact(commit, r.value, tested)
      ensures r.Ok? && plan.Some? ==> r.value == plan.value
      ensures r.Ok? && plan.None? ==> Stood(past, |old(past)| - 1, image, tag, commit, tested)
      ensures r.Err? ==> failed > old(failed) || Hindered(past, |old(past)| - 1, image, tag, commit, tested)
    {
      if plan.Some? {
        return Ok(plan.value);
      }
      var ok := WriteSha(image, tag);
      if !ok {
        return Err("the write failed");
      }
      ghost var wrote := |past| - 1;
      var written := ReadSha(image, tag);
      if written.None? || written.value.None? {
        assert written.Some? ==> Hinders(past, wrote, |past| - 1, image, tag, commit, tested);
        return Err("the tag can't be read back");
      }
      var problems := PublishProblems(commit, world.manifests(written.value.value), tested, world.labels);
      if problems != [] {
        assert Hinders(past, wrote, |past| - 1, image, tag, commit, tested);
        return Err("the tag was written, but is not this commit's");
      }
      r := Ok(written.value.value);
    }

    /** `moveEdge`: writes unless `edge` was read pointing there already, and checks the registry agrees. */
    method MoveEdge(image: Image, digest: Digest, was: Option<Digest>, ghost commit: Commit) returns (ok: bool)
      requires Valid() && world.named(digest) == Some(commit)
      requires image in tags.last ==> Ancestor(world.history, tags.last[image], commit)
      requires if image == 0 then Ancestor(world.history, commit, tags.tip)
               else 0 in tags.last && Ancestor(world.history, commit, tags.last[0])
      requires was == Some(digest) ==> image in tags.last && tags.last[image] == commit
      modifies this
      ensures Continues() && Ancestor(world.history, old(tags).tip, tags.tip)
      ensures tags.last == old(tags).last[image := commit] || (!ok && tags.last == old(tags).last)
      ensures ok ==> failed == old(failed) && (was != Some(digest) ==> EdgeOf(tags, image) == Some(digest))
      ensures !ok ==>
                || failed > old(failed)
                || (EdgeOf(tags, image).None? && EdgeSeen(past, |old(past)| - 1, image, Some(digest)))
    {
      if was != Some(digest) {
        ok := WriteEdge(image, digest, commit);
        if !ok {
          return;
        }
        assert EdgeOf(past[|past| - 1], image) == Some(digest);
        var now := ReadEdge(image);
        return now == Some(Some(digest));
      }
      ok := true;
    }

    /** A sha tag of this run that is absent stays absent until the run writes it. */
    ghost predicate StillToWrite(plans: seq<Plan>, from: nat, tag: string)
      reads this
    {
      forall i :: from <= i < |plans| && plans[i].None? ==> (i, tag) !in tags.sha
    }

    ghost predicate StandExact(plans: seq<Plan>, commit: Commit, tested: seq<Tested>) {
      |plans| <= |tested| &&
      forall i :: 0 <= i < |plans| && plans[i].Some? ==> world.Exact(commit, plans[i].value, tested[i])
    }

    /** Each digest is exactly the tested images' index, and so names the commit. */
    ghost predicate AllExact(digests: seq<Digest>, commit: Commit, tested: seq<Tested>) {
      |digests| <= |tested| && forall i :: 0 <= i < |digests| ==> world.Exact(commit, digests[i], tested[i])
    }

    /** Checks every image's `sha-` tag, and writes nothing: those that stay are this commit's. */
    method CheckShaTags(tag: string, commit: Commit, tested: seq<Tested>) returns (r: Result<seq<Plan>, string>)
      requires Valid()
      requires |tested| == images && forall t <- tested :: t.Valid()
      modifies this
      ensures Continues() && world.Outside(old(tags), tags)
      ensures r.Ok? ==> |r.value| == images && StillToWrite(r.value, 0, tag) && StandExact(r.value, commit, tested)
      ensures r.Ok? ==> failed == old(failed) && Standing(r.value, past, |old(past)| - 1, tag, commit, tested)
      ensures r.Err? ==> failed > old(failed) || AnyHindered(past, |old(past)| - 1, tag, commit, tested)
    {
      hide Stood, Hindered, NamedCommit, World.ValidPast, AnyHindered;
      var plans: seq<Plan> := [];
      for i := 0 to images
        invariant Continues() && world.Outside(old(tags), tags) && failed == old(failed)
        invariant |plans| == i && StillToWrite(plans, 0, tag) && StandExact(plans, commit, tested)
        invariant Standing(plans, past, |old(past)| - 1, tag, commit, tested)
      {
        ghost var since := past;
        var plan := CheckShaTag(i, tag, commit, tested[i]);
        HinderedHere(past, |since| - 1, |old(past)| - 1, i, tag, commit, tested);
        if plan.Err? {
          return Err(plan.error);
        }
        StandingInAll(plans, since, past, |old(past)| - 1, tag, commit, tested);
        if plan.value.Some? {
          StandsNow(past, |old(past)| - 1, i, tag, commit, tested[i]);
        }
        plans := plans + [plan.value];
      }
      r := Ok(plans);
    }

    lemma StandsNow(past: seq<Tags>, from: nat, image: Image, tag: string, commit: Commit, tested: Tested)
      requires from < |past| && ShaOf(past[|past| - 1], image, tag).Some?
      requires world.Exact(commit, ShaOf(past[|past| - 1], image, tag).value, tested)
      ensures Stood(past, from, image, tag, commit, tested)
    {
    }

    /** The tags that were found stood. */
    ghost predicate Standing(plans: seq<Plan>, past: seq<Tags>, from: nat, tag: string, commit: Commit,
                             tested: seq<Tested>)
    {
      |plans| <= |tested| &&
      forall i :: 0 <= i < |plans| && plans[i].Some? ==> Stood(past, from, i, tag, commit, tested[i])
    }

    lemma StandingInAll(plans: seq<Plan>, past: seq<Tags>, more: seq<Tags>, from: nat, tag: string, commit: Commit,
                        tested: seq<Tested>)
      requires Standing(plans, past, from, tag, commit, tested) && past <= more
      ensures Standing(plans, more, from, tag, commit, tested)
    {
      forall i | 0 <= i < |plans| && plans[i].Some? ensures Stood(more, from, i, tag, commit, tested[i]) {
        var k :| from <= k < |past| && ShaOf(past[k], i, tag).Some? &&
                 world.Exact(commit, ShaOf(past[k], i, tag).value, tested[i]);
        assert more[k] == past[k];
      }
    }

    /** Writes the `sha-` tags that were planned. Each one then holds exactly the tested images' index. */
    method WriteShaTags(plans: seq<Plan>, tag: string, commit: Commit, tested: seq<Tested>, ghost from: nat)
      returns (r: Result<seq<Digest>, string>)
      requires Valid() && forall t <- tested :: t.Valid()
      requires |tested| == |plans| == images && StillToWrite(plans, 0, tag) && StandExact(plans, commit, tested)
      requires from < |past| && Standing(plans, past, from, tag, commit, tested)
      modifies this
      ensures Continues() && tags.last == old(tags).last
      ensures Ancestor(world.history, old(tags).tip, tags.tip)
      ensures r.Ok? ==> |r.value| == images && AllExact(r.value, commit, tested)
      ensures r.Ok? ==> failed == old(failed) && AllStood(past, from, images, tag, commit, tested)
      ensures r.Err? ==> failed > old(failed) || AnyHindered(past, from, tag, commit, tested)
    {
      hide Stood, Hindered, NamedCommit, World.ValidPast, World.Safe, AnyHindered;
      var digests: seq<Digest> := [];
      for i := 0 to images
        invariant Continues() && tags.last == old(tags).last && failed == old(failed)
        invariant Ancestor(world.history, old(tags).tip, tags.tip)
        invariant StillToWrite(plans, i, tag) && Standing(plans, past, from, tag, commit, tested)
        invariant |digests| == i && AllExact(digests, commit, tested)
        invariant AllStood(past, from, i, tag, commit, tested)
      {
        ghost var since := past;
        assert tested[i] in tested;
        var written := WriteShaTag(plans[i], i, tag, commit, tested[i]);
        HinderedHere(past, |since| - 1, from, i, tag, commit, tested);
        if written.Err? {
          return Err(written.error);
        }
        AllStoodInAll(since, past, from, from, i, tag, commit, tested);
        StandingInAll(plans, since, past, from, tag, commit, tested);
        digests := digests + [written.value];
      }
      r := Ok(digests);
    }

    /** Reads every `edge`, the BGE image's first. */
    method ReadEdges() returns (r: Option<seq<Option<Digest>>>)
      requires Valid()
      modifies this
      ensures Continues() && world.Outside(old(tags), tags)
      ensures r.Some? ==> |r.value| == images && world.ReadAs(r.value, tags)
      ensures r.Some? ==> EdgesSeen(past, |old(past)| - 1, r.value)
      ensures if r.Some? then failed == old(failed) else failed > old(failed)
    {
      hide EdgesSeen, NamedCommit, World.ValidPast, World.ReadAs;
      var edges: seq<Option<Digest>> := [];
      NoneRead(past, |old(past)| - 1, tags);
      for i := 0 to images
        invariant Continues() && world.Outside(old(tags), tags) && failed == old(failed)
        invariant |edges| == i && world.ReadAs(edges, tags) && EdgesSeen(past, |old(past)| - 1, edges)
      {
        ghost var was, since := tags, past;
        var edge := ReadEdge(i);
        if edge.None? {
          return None;
        }
        world.ReadOneMore(edges, was, tags);
        SeenInAll(since, past, |old(past)| - 1, |old(past)| - 1, edges);
        SeenNext(past, |old(past)| - 1, edges, edge.value);
        edges := edges + [edge.value];
      }
      r := Some(edges);
    }

    lemma NoneRead(past: seq<Tags>, from: nat, t: Tags)
      ensures EdgesSeen(past, from, []) && world.ReadAs([], t)
    {
    }

    /** At some state from `from` on, each image's `edge` held an index that is exactly this commit's. */
    ghost predicate AllPlaced(past: seq<Tags>, from: nat, commit: Commit, tested: seq<Tested>) {
      forall i :: 0 <= i < |tested| ==> IsPlaced(past, from, i, commit, tested[i])
    }

    ghost predicate IsPlaced(past: seq<Tags>, from: nat, image: Image, commit: Commit, tested: Tested) {
      exists digest :: EdgeSeen(past, from, image, Some(digest)) && world.Exact(commit, digest, tested)
    }

    lemma AllPlacedSince(past: seq<Tags>, from: nat, since: nat, commit: Commit, tested: seq<Tested>)
      requires AllPlaced(past, from, commit, tested) && since <= from
      ensures AllPlaced(past, since, commit, tested)
    {
      forall i | 0 <= i < |tested| ensures IsPlaced(past, since, i, commit, tested[i]) {
        assert IsPlaced(past, from, i, commit, tested[i]);
        var digest :| EdgeSeen(past, from, i, Some(digest)) && world.Exact(commit, digest, tested[i]);
        assert EdgeSeen(past, since, i, Some(digest));
      }
    }

    /**
     * A whole run. It ends with every `sha-` tag exactly the tested images' and `edge` moved or left, or
     * throws: with an `edge` here and there moved to the commit, and none moved anywhere else. It moves
     * `edge` exactly if what it saw allows it, `seen` being each `edge` and `tip` master's tip at some
     * state of the run; and it throws only for a failed call or for something it saw in the registry.
     */
    method Publish(commit: Commit, tested: seq<Tested>)
      returns (moved: Result<bool, string>, ghost seen: seq<Option<Digest>>, ghost tip: Commit)
      requires Valid()
      requires |tested| == images && forall t <- tested :: t.Valid()
      modifies this
      ensures Continues() && Ancestor(world.history, old(tags).tip, tags.tip)
      ensures forall i <- tags.last ::
              tags.last[i] == commit || (i in old(tags).last && tags.last[i] == old(tags).last[i])
      ensures tags.last != old(tags).last && 0 in old(tags).last ==> Ancestor(world.history, old(tags).last[0], commit)
      ensures moved.Ok? ==>
                && IsCommit(commit) && AllStood(past, |old(past)| - 1, images, ShaTag(commit), commit, tested)
                && |seen| == images && EdgesSeen(past, |old(past)| - 1, seen) && TipSeen(past, |old(past)| - 1, tip)
                && (moved.value <==> world.MayMove(commit, tip, seen))
      ensures moved == Ok(true) ==>
                && Ancestor(world.history, commit, tags.tip)
                && (forall i :: 0 <= i < images ==> i in tags.last && tags.last[i] == commit)
                && AllPlaced(past, |old(past)| - 1, commit, tested)
      ensures moved == Ok(false) ==> tags.last == old(tags).last
      ensures moved.Err? && IsCommit(commit) ==>
                || failed > old(failed)
                || AnyHindered(past, |old(past)| - 1, ShaTag(commit), commit, tested)
    {
      hide Hindered, EdgeSeen, IsPlaced, Stood, AnyHindered, AllStood, EdgesSeen, AllPlaced;
      seen, tip := [], commit;
      if !IsCommit(commit) {
        return Err("not a full commit SHA"), seen, tip;
      }
      var tag := ShaTag(commit);
      var published := PublishShaTags(tag, commit, tested);
      if published.Err? {
        return Err(published.error), seen, tip;
      }
      forall i | 0 <= i < images ensures world.named(published.value[i]) == Some(commit) {
        ExactIndexNamesItsCommit(world.At(published.value[i]), tested[i], commit);
      }
      ghost var pushed := past;
      moved, seen, tip := FollowMaster(tag, commit, tested, published.value);
      if moved.Ok? {
        AllStoodInAll(pushed, past, |old(past)| - 1, |old(past)| - 1, images, tag, commit, tested);
        SeenInAll(past, past, |pushed| - 1, |old(past)| - 1, seen);
        if moved.value {
          AllPlacedSince(past, |pushed| - 1, |old(past)| - 1, commit, tested);
        }
      } else if AnyHindered(past, |pushed| - 1, tag, commit, tested) {
        AnyHinderedInAll(past, |pushed| - 1, |old(past)| - 1, tag, commit, tested);
      }
    }

    /** Every `sha-` tag, checked, then written. */
    method PublishShaTags(tag: string, commit: Commit, tested: seq<Tested>) returns (r: Result<seq<Digest>, string>)
      requires Valid()
      requires |tested| == images && forall t <- tested :: t.Valid()
      modifies this
      ensures Continues() && tags.last == old(tags).last
      ensures Ancestor(world.history, old(tags).tip, tags.tip)
      ensures r.Ok? ==> |r.value| == images && AllExact(r.value, commit, tested)
      ensures r.Ok? ==> failed == old(failed) && AllStood(past, |old(past)| - 1, images, tag, commit, tested)
      ensures r.Err? ==> failed > old(failed) || AnyHindered(past, |old(past)| - 1, tag, commit, tested)
    {
      var plans := CheckShaTags(tag, commit, tested);
      if plans.Err? {
        return Err(plans.error);
      }
      r := WriteShaTags(plans.value, tag, commit, tested, |old(past)| - 1);
    }

    /** Then `edge`: read, decided, and moved if it should. */
    method FollowMaster(tag: string, commit: Commit, tested: seq<Tested>, published: seq<Digest>)
      returns (moved: Result<bool, string>, ghost seen: seq<Option<Digest>>, ghost tip: Commit)
      requires Valid()
      requires |tested| == |published| == images && forall t <- tested :: t.Valid()
      requires AllExact(published, commit, tested)
      requires forall i :: 0 <= i < images ==> world.named(published[i]) == Some(commit)
      modifies this
      ensures Continues() && Ancestor(world.history, old(tags).tip, tags.tip)
      ensures forall i <- tags.last ::
              tags.last[i] == commit || (i in old(tags).last && tags.last[i] == old(tags).last[i])
      ensures tags.last != old(tags).last && 0 in old(tags).last ==> Ancestor(world.history, old(tags).last[0], commit)
      ensures moved.Ok? ==>
                && |seen| == images && EdgesSeen(past, |old(past)| - 1, seen) && TipSeen(past, |old(past)| - 1, tip)
                && (moved.value <==> world.MayMove(commit, tip, seen))
      ensures moved == Ok(true) ==>
                && Ancestor(world.history, commit, tags.tip)
                && (forall i :: 0 <= i < images ==> i in tags.last && tags.last[i] == commit)
                && AllPlaced(past, |old(past)| - 1, commit, tested)
      ensures moved == Ok(false) ==> tags.last == old(tags).last
      ensures moved.Err? ==> failed > old(failed) || AnyHindered(past, |old(past)| - 1, tag, commit, tested)
    {
      hide AnyHindered, EdgesSeen, EdgesMoved, AllPlaced, AllExact;
      seen, tip := [], commit;
      var read := ReadEdges();
      if read.None? {
        return Err("could not read edge"), seen, tip;
      }
      var edges := read.value;
      ghost var edgesRead := past;
      var master := BranchTip();
      if master.None? {
        return Err("could not read master's tip"), seen, tip;
      }
      ghost var asked := past;
      seen, tip := edges, master.value;
      SeenInAll(edgesRead, asked, |old(past)| - 1, |old(past)| - 1, seen);
      assert asked[|asked| - 1].tip == tip;
      var decision := world.Decide(commit, master.value, edges);
      world.DecidesByTheFirst(commit, edges, tags);
      if !decision.Move? {
        return Ok(false), seen, tip;
      }
      var ok := MoveEdges(commit, published, edges, tag, tested);
      SeenInAll(asked, past, |old(past)| - 1, |old(past)| - 1, seen);
      assert past[|asked| - 1].tip == tip;
      if ok {
        Placed(past, |asked| - 1, |old(past)| - 1, edges, published, commit, tested);
      } else if AnyHindered(past, |asked| - 1, tag, commit, tested) {
        AnyHinderedInAll(past, |asked| - 1, |old(past)| - 1, tag, commit, tested);
      }
      moved := if ok then Ok(true) else Err("a move failed");
    }

    lemma Placed(past: seq<Tags>, from: nat, since: nat, edges: seq<Option<Digest>>, digests: seq<Digest>,
                 commit: Commit, tested: seq<Tested>)
      requires |edges| == |digests| == |tested| && since <= from && AllExact(digests, commit, tested)
      requires EdgesSeen(past, since, edges) && EdgesMoved(past, from, |edges|, edges, digests)
      ensures AllPlaced(past, since, commit, tested)
    {
      forall i | 0 <= i < |tested| ensures IsPlaced(past, since, i, commit, tested[i]) {
        if edges[i] == Some(digests[i]) {
          assert EdgeSeen(past, since, i, Some(digests[i]));
        } else {
          var k :| from <= k < |past| && EdgeOf(past[k], i) == Some(digests[i]);
          assert EdgeSeen(past, since, i, Some(digests[i]));
        }
        assert world.Exact(commit, digests[i], tested[i]);
      }
    }

    /** The moves of a run that decided to make them, the BGE image's first. */
    method MoveEdges(commit: Commit, digests: seq<Digest>, edges: seq<Option<Digest>>, ghost tag: string,
                     ghost tested: seq<Tested>)
      returns (ok: bool)
      requires Valid() && |digests| == |edges| == |tested| == images
      requires forall t <- tested :: t.Valid()
      requires forall i :: 0 <= i < images ==> world.named(digests[i]) == Some(commit)
      requires world.ReadAs(edges, tags)
      requires Ancestor(world.history, commit, tags.tip)
      requires 0 in tags.last ==> Ancestor(world.history, tags.last[0], commit)
      modifies this
      ensures Continues() && Ancestor(world.history, old(tags).tip, tags.tip)
      ensures forall i <- tags.last ::
              tags.last[i] == commit || (i in old(tags).last && tags.last[i] == old(tags).last[i])
      ensures ok ==> forall i :: 0 <= i < images ==> i in tags.last && tags.last[i] == commit
      ensures Ancestor(world.history, commit, tags.tip)
      ensures ok ==> failed == old(failed) && EdgesMoved(past, |old(past)| - 1, images, edges, digests)
      ensures !ok ==> failed > old(failed) || AnyHindered(past, |old(past)| - 1, tag, commit, tested)
    {
      hide AnyHindered, EdgesMoved, NamedCommit, World.ValidPast, World.Safe, EdgeOf;
      ghost var was := tags.last;
      NoneMoved(past, |old(past)| - 1, edges, digests);
      for i := 0 to images
        invariant Continues() && Ancestor(world.history, old(tags).tip, tags.tip) &&
                  Ancestor(world.history, commit, tags.tip)
        invariant MovedSoFar(was, tags.last, i, commit)
        invariant failed == old(failed) && EdgesMoved(past, |old(past)| - 1, i, edges, digests)
      {
        ghost var before, since := tags.last, past;
        NextMoves(was, i, commit);
        ok := MoveEdge(i, digests[i], edges[i], commit);
        MovedOneMore(was, before, i, commit);
        if !ok {
          assert tested[i] in tested;
          if failed == old(failed) {
            RemovedMeanwhile(past, |since| - 1, |old(past)| - 1, i, digests[i], tag, commit, tested);
          }
          return;
        }
        MovedInAll(since, past, |old(past)| - 1, i, edges, digests);
        MovedNext(past, |old(past)| - 1, i, edges, digests);
      }
      ok := true;
    }

    lemma NextMoves(was: map<Image, Commit>, i: nat, commit: Commit)
      requires Valid() && MovedSoFar(was, tags.last, i, commit) && Ancestor(world.history, commit, tags.tip)
      requires 0 in was ==> Ancestor(world.history, was[0], commit)
      ensures i in tags.last ==> Ancestor(world.history, tags.last[i], commit)
      ensures if i == 0 then Ancestor(world.history, commit, tags.tip)
              else 0 in tags.last && Ancestor(world.history, commit, tags.last[0])
    {
    }

    lemma RemovedMeanwhile(past: seq<Tags>, from: nat, since: nat, image: Image, digest: Digest, tag: string,
                           commit: Commit, tested: seq<Tested>)
      requires image < |tested| && tested[image].Valid() && since <= from < |past|
      requires EdgeSeen(past, from, image, Some(digest)) && EdgeOf(past[|past| - 1], image).None?
      ensures AnyHindered(past, since, tag, commit, tested)
    {
      var k :| from <= k < |past| && EdgeOf(past[k], image) == Some(digest);
      assert Hinders(past, k, |past| - 1, image, tag, commit, tested[image]);
      assert Hindered(past, since, image, tag, commit, tested[image]);
    }

    /**
     * The job's concurrency group: one run after another, for any runs of any commits, each of which
     * may stop anywhere, with tags removed and master moving between any two of its calls. In all the
     * states the registry goes through, `edge` never moves back; no gateway's is ahead of the BGE
     * image's, nor that ahead of master; and a `sha-` tag is the same index for as long as it is there.
     */
    method Serve(commits: seq<Commit>, tested: seq<seq<Tested>>)
      requires Valid() && |tested| == |commits|
      requires forall ts <- tested :: |ts| == images && forall t <- ts :: t.Valid()
      modifies this
      ensures Continues() && Promised(world, past)
    {
      for i := 0 to |commits|
        invariant Continues()
      {
        var moved, _, _ := Publish(commits[i], tested[i]);
      }
      PastIsAsPromised(world, past);
    }
  }
}
