/**
 * The rules the image jobs publish by (libs/scripts/src/image-tags/rules.js): what an index must
 * list to be a commit's, which commit a tag names, and whether `edge` moves.
 */
module ImageRules {
  import opened Prelude

  type Commit = string
  type Digest = string
  type Platform = string

  /** One image an index lists. An entry without a platform has the platform "no platform". */
  datatype Entry = Entry(digest: Digest, platform: Platform)
  datatype Manifest = SingleImage | Index(entries: seq<Entry>)

  /** The revision label of each image, by digest. None where an image has none. */
  type Labels = map<Digest, Option<string>>

  datatype Published = Published(digest: Digest, manifest: Manifest, labels: Labels)

  function Revision(labels: Labels, digest: Digest): Option<string> {
    if digest in labels then labels[digest] else None
  }

  /** A full commit SHA: forty lower-case hexadecimal digits. */
  predicate IsCommit(s: string) {
    |s| == 40 && forall c <- s :: '0' <= c <= '9' || 'a' <= c <= 'f'
  }

  datatype Problem =
    | NotAnIndex
    | Untested(digest: Digest, platform: Platform)
    | WrongDigest(digest: Digest, platform: Platform, tested: Digest)
    | WrongCommit(platform: Platform, named: Option<string>)
    | Unlisted(platform: Platform)
    | Repeated(platform: Platform, entries: nat)

  /** The digests the smoke tested, by platform, and the platforms in the order they were named. */
  datatype Tested = Tested(digests: map<Platform, Digest>, platforms: seq<Platform>) {
    ghost predicate Valid() {
      && |platforms| > 0
      && (forall p :: p in platforms <==> p in digests)
      && forall i, j :: 0 <= i < j < |platforms| ==> platforms[i] != platforms[j]
    }
  }

  function EntryProblem(commit: Commit, tested: Tested, labels: Labels, e: Entry): Option<Problem> {
    if e.platform !in tested.digests then Some(Untested(e.digest, e.platform))
    else if e.digest != tested.digests[e.platform]
        then Some(WrongDigest(e.digest, e.platform, tested.digests[e.platform]))
    else if Revision(labels, e.digest) != Some(commit) then Some(WrongCommit(e.platform, Revision(labels, e.digest)))
    else None
  }

  function EntryProblems(commit: Commit, tested: Tested, labels: Labels, entries: seq<Entry>): seq<Problem> {
    if entries == [] then []
    else
      var problem := EntryProblem(commit, tested, labels, entries[|entries| - 1]);
      EntryProblems(commit, tested, labels, entries[..|entries| - 1]) + if problem.Some? then [problem.value] else []
  }

  function Count(entries: seq<Entry>, p: Platform): nat {
    if entries == [] then 0
    else Count(entries[..|entries| - 1], p) + if entries[|entries| - 1].platform == p then 1 else 0
  }

  function PlatformProblem(entries: seq<Entry>, p: Platform): Option<Problem> {
    var n := Count(entries, p);
    if n == 0 then Some(Unlisted(p)) else if n > 1 then Some(Repeated(p, n)) else None
  }

  function PlatformProblems(entries: seq<Entry>, platforms: seq<Platform>): seq<Problem> {
    if platforms == [] then []
    else
      var problem := PlatformProblem(entries, platforms[|platforms| - 1]);
      PlatformProblems(entries, platforms[..|platforms| - 1]) + if problem.Some? then [problem.value] else []
  }

  function Problems(commit: Commit, manifest: Manifest, tested: Tested, labels: Labels): seq<Problem> {
    match manifest
    case SingleImage => [NotAnIndex]
    case Index(entries) =>
      EntryProblems(commit, tested, labels, entries) + PlatformProblems(entries, tested.platforms)
  }

  /** Entry `i`, and no other, is for platform `p`. */
  predicate OnlyEntryFor(entries: seq<Entry>, p: Platform, i: nat) {
    i < |entries| && entries[i].platform == p && forall j :: 0 <= j < |entries| && j != i ==> entries[j].platform != p
  }

  predicate ListedOnce(entries: seq<Entry>, p: Platform) {
    exists i :: 0 <= i < |entries| && OnlyEntryFor(entries, p, i)
  }

  /**
   * The index is this commit's: it lists each tested platform once, with the digest tested on it,
   * naming the commit; and it lists nothing else.
   */
  predicate ListsExactly(commit: Commit, manifest: Manifest, tested: Tested, labels: Labels) {
    && manifest.Index?
    && (forall e <- manifest.entries ::
          && e.platform in tested.digests && e.digest == tested.digests[e.platform]
          && Revision(labels, e.digest) == Some(commit))
    && (forall p <- tested.platforms :: ListedOnce(manifest.entries, p))
  }

  /** `publishProblems`: the problems in order, and none exactly when the index is this commit's. */
  method PublishProblems(commit: Commit, manifest: Manifest, tested: Tested, labels: Labels)
    returns (problems: seq<Problem>)
    ensures problems == Problems(commit, manifest, tested, labels)
    ensures problems == [] <==> ListsExactly(commit, manifest, tested, labels)
  {
    if manifest.SingleImage? {
      return [NotAnIndex];
    }
    var listed := manifest.entries;
    problems := [];
    for k := 0 to |listed|
      invariant problems == EntryProblems(commit, tested, labels, listed[..k])
    {
      var e := listed[k];
      assert listed[..k + 1][..k] == listed[..k];
      if e.platform !in tested.digests {
        problems := problems + [Untested(e.digest, e.platform)];
      } else if e.digest != tested.digests[e.platform] {
        problems := problems + [WrongDigest(e.digest, e.platform, tested.digests[e.platform])];
      } else {
        var revision := Revision(labels, e.digest);
        if revision != Some(commit) {
          problems := problems + [WrongCommit(e.platform, revision)];
        }
      }
    }
    assert listed[..|listed|] == listed;
    ghost var ofEntries := problems;
    for k := 0 to |tested.platforms|
      invariant problems == ofEntries + PlatformProblems(listed, tested.platforms[..k])
    {
      var platform := tested.platforms[k];
      assert tested.platforms[..k + 1][..k] == tested.platforms[..k];
      var entries := Count(listed, platform);
      if entries == 0 {
        problems := problems + [Unlisted(platform)];
      }
      if entries > 1 {
        problems := problems + [Repeated(platform, entries)];
      }
    }
    assert tested.platforms[..|tested.platforms|] == tested.platforms;
    NoProblemsMeansExact(commit, manifest, tested, labels);
  }

  lemma {:induction false} CountOne(entries: seq<Entry>, p: Platform)
    ensures Count(entries, p) == 0 <==> forall e <- entries :: e.platform != p
    ensures Count(entries, p) == 1 <==> ListedOnce(entries, p)
    decreases |entries|
  {
    if entries != [] {
      var rest, n := entries[..|entries| - 1], |entries| - 1;
      CountOne(rest, p);
      assert forall e <- entries :: e in rest || e == entries[n];
      if Count(entries, p) == 1 {
        if entries[n].platform == p {
          assert OnlyEntryFor(entries, p, n);
        } else {
          var i :| 0 <= i < |rest| && OnlyEntryFor(rest, p, i);
          assert OnlyEntryFor(entries, p, i);
        }
      }
      if ListedOnce(entries, p) {
        var i :| 0 <= i < |entries| && OnlyEntryFor(entries, p, i);
        if i < n {
          assert OnlyEntryFor(rest, p, i);
        } else {
          assert forall e <- rest :: e.platform != p;
        }
      }
    }
  }

  lemma {:induction false} NoEntryProblems(commit: Commit, tested: Tested, labels: Labels, entries: seq<Entry>)
    ensures EntryProblems(commit, tested, labels, entries) == [] <==>
            forall e <- entries :: EntryProblem(commit, tested, labels, e).None?
    decreases |entries|
  {
    if entries != [] {
      NoEntryProblems(commit, tested, labels, entries[..|entries| - 1]);
      assert entries == entries[..|entries| - 1] + [entries[|entries| - 1]];
    }
  }

  lemma {:induction false} NoPlatformProblems(entries: seq<Entry>, platforms: seq<Platform>)
    ensures PlatformProblems(entries, platforms) == [] <==>
            forall p <- platforms :: ListedOnce(entries, p)
    decreases |platforms|
  {
    if platforms != [] {
      var last := platforms[|platforms| - 1];
      NoPlatformProblems(entries, platforms[..|platforms| - 1]);
      CountOne(entries, last);
      assert PlatformProblem(entries, last).None? <==> ListedOnce(entries, last);
      assert platforms == platforms[..|platforms| - 1] + [last];
    }
  }

  lemma NoProblemsMeansExact(commit: Commit, manifest: Manifest, tested: Tested, labels: Labels)
    ensures Problems(commit, manifest, tested, labels) == [] <==> ListsExactly(commit, manifest, tested, labels)
  {
    if manifest.Index? {
      NoEntryProblems(commit, tested, labels, manifest.entries);
      NoPlatformProblems(manifest.entries, tested.platforms);
    }
  }

  /** The places at which an index lists an image for the platform. */
  function Places(entries: seq<Entry>, p: Platform): set<nat> {
    set i: nat | i < |entries| && entries[i].platform == p
  }

  lemma {:induction false} CountsPlaces(entries: seq<Entry>, p: Platform)
    ensures Count(entries, p) == |Places(entries, p)|
    decreases |entries|
  {
    if entries != [] {
      var rest, n: nat := entries[..|entries| - 1], |entries| - 1;
      CountsPlaces(rest, p);
      assert Places(entries, p) == Places(rest, p) + if entries[n].platform == p then {n} else {};
    } else {
      assert Places(entries, p) == {};
    }
  }

  /** What a problem says of the index. */
  ghost predicate Holds(problem: Problem, commit: Commit, manifest: Manifest, tested: Tested, labels: Labels) {
    match problem
    case NotAnIndex => manifest.SingleImage?
    case Untested(digest, platform) =>
      manifest.Index? && Entry(digest, platform) in manifest.entries && platform !in tested.digests
    case WrongDigest(digest, platform, other) =>
      && manifest.Index? && Entry(digest, platform) in manifest.entries
      && platform in tested.digests && tested.digests[platform] == other && other != digest
    case WrongCommit(platform, named) =>
      && manifest.Index? && platform in tested.digests && Entry(tested.digests[platform], platform) in manifest.entries
      && named == Revision(labels, tested.digests[platform]) && named != Some(commit)
    case Unlisted(platform) =>
      manifest.Index? && platform in tested.platforms && forall e <- manifest.entries :: e.platform != platform
    case Repeated(platform, n) =>
      manifest.Index? && platform in tested.platforms && n == |Places(manifest.entries, platform)| && n > 1
  }

  lemma {:induction false} EntryProblemsHold(commit: Commit, tested: Tested, labels: Labels, entries: seq<Entry>,
                                             problem: Problem)
    ensures problem in EntryProblems(commit, tested, labels, entries) <==>
            exists e <- entries :: EntryProblem(commit, tested, labels, e) == Some(problem)
    decreases |entries|
  {
    if entries != [] {
      EntryProblemsHold(commit, tested, labels, entries[..|entries| - 1], problem);
      assert entries == entries[..|entries| - 1] + [entries[|entries| - 1]];
    }
  }

  lemma {:induction false} PlatformProblemsHold(entries: seq<Entry>, platforms: seq<Platform>, problem: Problem)
    ensures problem in PlatformProblems(entries, platforms) <==>
            exists p <- platforms :: PlatformProblem(entries, p) == Some(problem)
    decreases |platforms|
  {
    if platforms != [] {
      PlatformProblemsHold(entries, platforms[..|platforms| - 1], problem);
      assert platforms == platforms[..|platforms| - 1] + [platforms[|platforms| - 1]];
    }
  }

  /** The problems are those that hold of the index, each of them and no other. */
  lemma ProblemsAreThoseThatHold(commit: Commit, manifest: Manifest, tested: Tested, labels: Labels, problem: Problem)
    ensures problem in Problems(commit, manifest, tested, labels) <==> Holds(problem, commit, manifest, tested, labels)
  {
    if manifest.Index? {
      EntryProblemsHold(commit, tested, labels, manifest.entries, problem);
      PlatformProblemsHold(manifest.entries, tested.platforms, problem);
      if problem.Unlisted? || problem.Repeated? {
        CountOne(manifest.entries, problem.platform);
        CountsPlaces(manifest.entries, problem.platform);
      }
      if problem.WrongCommit? && Holds(problem, commit, manifest, tested, labels) {
        var e := Entry(tested.digests[problem.platform], problem.platform);
        assert EntryProblem(commit, tested, labels, e) == Some(problem);
      }
    }
  }

  /** The images under a tag: those its index lists, or its single image. */
  function Digests(published: Published): seq<Digest> {
    match published.manifest
    case SingleImage => [published.digest]
    case Index(entries) => seq(|entries|, i requires 0 <= i < |entries| => entries[i].digest)
  }

  /** `namedCommit`: the revision of the first image, if every image has the same one. */
  function NamedCommit(published: Published): Option<Commit> {
    var digests := Digests(published);
    var named := set d <- digests :: Revision(published.labels, d);
    if digests == [] || |named| != 1 then None
    else
      var first := Revision(published.labels, digests[0]);
      if first.Some? && IsCommit(first.value) then first else None
  }

  lemma SingletonsAreEqual<T>(s: set<T>, x: T)
    requires x in s
    ensures |s| == 1 <==> s == {x}
  {
    if |s| == 1 {
      assert |s - {x}| == 0;
    }
  }

  /** A tag names a commit exactly when there are images under it and each of them names that commit, in full. */
  lemma NamedMeansAllName(published: Published, commit: Commit)
    ensures NamedCommit(published) == Some(commit) <==>
            && IsCommit(commit)
            && Digests(published) != []
            && forall d <- Digests(published) :: Revision(published.labels, d) == Some(commit)
  {
    var digests := Digests(published);
    if digests != [] {
      var named := set d <- digests :: Revision(published.labels, d);
      var first := Revision(published.labels, digests[0]);
      SingletonsAreEqual(named, first);
      assert forall d <- digests :: Revision(published.labels, d) in named;
      if forall d <- digests :: Revision(published.labels, d) == first {
        assert named == {first};
      }
    }
  }

  /** What `publishProblems` passes as a commit's, `namedCommit` reads back as that commit's. */
  lemma ExactIndexNamesItsCommit(published: Published, tested: Tested, commit: Commit)
    requires tested.Valid() && IsCommit(commit)
    requires ListsExactly(commit, published.manifest, tested, published.labels)
    ensures NamedCommit(published) == Some(commit)
  {
    var entries := published.manifest.entries;
    assert ListedOnce(entries, tested.platforms[0]);
    forall d <- Digests(published) ensures Revision(published.labels, d) == Some(commit) {
      var i :| 0 <= i < |entries| && Digests(published)[i] == d;
      assert entries[i] in entries;
    }
    NamedMeansAllName(published, commit);
  }

  datatype Reuse = Build | Reuse(digest: Digest) | Stop

  function FirstFor(entries: seq<Entry>, platform: Platform): (r: Option<Entry>)
    ensures r.Some? ==> r.value in entries && r.value.platform == platform
    ensures r.None? ==> forall e <- entries :: e.platform != platform
  {
    if entries == [] then None
    else if entries[0].platform == platform then Some(entries[0])
    else FirstFor(entries[1..], platform)
  }

  /** `reuseDecision`: what build-push does about one platform, given what the commit's sha tag holds. */
  function ReuseDecision(commit: Commit, platform: Platform, published: Option<Published>): Reuse {
    if published.None? then Build
    else if published.value.manifest.SingleImage? then Stop
    else
      var image := FirstFor(published.value.manifest.entries, platform);
      if image.None? then Stop
      else if Revision(published.value.labels, image.value.digest) != Some(commit) then Stop
      else Reuse.Reuse(image.value.digest)
  }

  /** Entry `i` is the first for platform `p`. */
  predicate FirstEntryFor(entries: seq<Entry>, p: Platform, i: nat) {
    i < |entries| && entries[i].platform == p && forall j :: 0 <= j < i ==> entries[j].platform != p
  }

  lemma {:induction false} FirstForIsFirst(entries: seq<Entry>, p: Platform, i: nat)
    requires FirstEntryFor(entries, p, i)
    ensures FirstFor(entries, p) == Some(entries[i])
    decreases i
  {
    if i > 0 {
      assert entries[1..][i - 1] == entries[i];
      assert forall j :: 0 <= j < i - 1 ==> entries[1..][j] == entries[j + 1];
      FirstForIsFirst(entries[1..], p, i - 1);
    }
  }

  lemma {:induction false} FirstForIsSomewhere(entries: seq<Entry>, p: Platform) returns (i: nat)
    requires FirstFor(entries, p).Some?
    ensures FirstEntryFor(entries, p, i) && FirstFor(entries, p) == Some(entries[i])
  {
    if entries[0].platform == p {
      i := 0;
    } else {
      var k := FirstForIsSomewhere(entries[1..], p);
      i := k + 1;
      assert entries[1..][k] == entries[i];
      assert forall j :: 0 < j < i ==> entries[j] == entries[1..][j - 1];
    }
  }

  /** The tag lists an image for the platform, first for it, with this digest and naming the commit. */
  ghost predicate Offers(published: Published, platform: Platform, commit: Commit, digest: Digest) {
    && published.manifest.Index?
    && exists i :: 0 <= i < |published.manifest.entries| &&
                   FirstEntryFor(published.manifest.entries, platform, i) &&
                   published.manifest.entries[i].digest == digest &&
                   Revision(published.labels, digest) == Some(commit)
  }

  /**
   * It builds exactly where there is no tag, takes up exactly the image the tag offers, and where a tag
   * offers none it stops.
   */
  lemma ReusesExactly(commit: Commit, platform: Platform, published: Option<Published>, digest: Digest)
    ensures ReuseDecision(commit, platform, published) == Build <==> published.None?
    ensures ReuseDecision(commit, platform, published) == Reuse.Reuse(digest) <==>
            published.Some? && Offers(published.value, platform, commit, digest)
    ensures ReuseDecision(commit, platform, published) == Stop <==>
            published.Some? && forall d :: !Offers(published.value, platform, commit, d)
  {
    if published.Some? && published.value.manifest.Index? {
      var entries := published.value.manifest.entries;
      if FirstFor(entries, platform).Some? {
        var i := FirstForIsSomewhere(entries, platform);
        assert Revision(published.value.labels, entries[i].digest) == Some(commit) ==>
            Offers(published.value, platform, commit, entries[i].digest);
      }
      forall d | Offers(published.value, platform, commit, d)
        ensures ReuseDecision(commit, platform, published) == Reuse.Reuse(d)
      {
        var i :| 0 <= i < |entries| && FirstEntryFor(entries, platform, i) && entries[i].digest == d;
        FirstForIsFirst(entries, platform, i);
      }
    }
  }

  /**
   * A repeat agrees with the publish before it: over a sha tag that passed as `commit`'s, a build
   * of `commit` takes up the very digest tested on each platform and builds nothing, and a build
   * of any other commit, whose short name is the same, stops.
   */
  lemma RepeatReusesWhatWasTested(commit: Commit, asked: Commit, published: Published, tested: Tested,
      platform: Platform)
    requires tested.Valid() && platform in tested.digests
    requires ListsExactly(commit, published.manifest, tested, published.labels)
    ensures ReuseDecision(asked, platform, Some(published)) ==
            if asked == commit then Reuse.Reuse(tested.digests[platform]) else Stop
  {
    var entries := published.manifest.entries;
    assert platform in tested.platforms;
    var i :| 0 <= i < |entries| && OnlyEntryFor(entries, platform, i);
    assert entries[i] in entries;
  }

  /** Each commit with its ancestors, itself among them. */
  type History = map<Commit, set<Commit>>

  ghost predicate ValidHistory(history: History) {
    && (forall c <- history :: c in history[c] && history[c] <= history.Keys)
    && (forall a, b, c {:trigger Ancestor(history, a, b), Ancestor(history, b, c)} ::
          Ancestor(history, a, b) && Ancestor(history, b, c) ==> Ancestor(history, a, c))
    && forall a, b {:trigger Ancestor(history, a, b), Ancestor(history, b, a)} ::
         Ancestor(history, a, b) && Ancestor(history, b, a) ==> a == b
  }

  /** `a` is `b`, or an ancestor of it. */
  predicate Ancestor(history: History, a: Commit, b: Commit) {
    a == b || (b in history && a in history[b])
  }

  datatype Comparison = Identical | Ahead | Behind | Diverged | Missing

  /** GitHub's answer for base...head. */
  function Compare(history: History, base: Commit, head: Commit): Comparison {
    if base !in history || head !in history then Missing
    else if base == head then Identical
    else if base in history[head] then Ahead
    else if head in history[base] then Behind
    else Diverged
  }

  datatype Decision = Move | Stay(warning: bool)

  /** `edgeDecision`, which asks how two commits stand only where it must. */
  function EdgeDecision(commit: Commit, tip: Commit, edge: Option<Published>, others: seq<Option<Digest>>,
                        compare: (Commit, Commit) -> Comparison): Decision
  {
    var onMaster := if tip == commit then Identical else compare(commit, tip);
    if !onMaster.Identical? && !onMaster.Ahead? then Stay(false)
    else if edge.None? && exists other <- others :: other.Some? then Stay(true)
    else if edge.None? && tip != commit then Stay(false)
    else if edge.None? then Move
    else
      var revision := NamedCommit(edge.value);
      if revision.None? then Stay(true)
      else
        var comparison := if revision.value == commit then Identical else compare(revision.value, commit);
        match comparison
        case Identical => Move
        case Ahead => Move
        case Behind => Stay(false)
        case Diverged => Stay(true)
        case Missing => Stay(true)
  }

  /**
   * `edge` moves exactly when the commit is on master and comes no earlier than what `edge` names,
   * or, with no `edge` anywhere, is master's tip: both questions are asked the right way round. It
   * warns exactly when such a commit finds BGE's `edge` alone removed, naming nothing, or on another line.
   */
  lemma MovesExactlyForward(history: History, commit: Commit, tip: Commit, edge: Option<Published>,
      others: seq<Option<Digest>>)
    requires ValidHistory(history)
    ensures EdgeDecision(commit, tip, edge, others, (base, head) => Compare(history, base, head)).Move? <==>
            && Ancestor(history, commit, tip)
            && match edge
               case None => tip == commit && forall other <- others :: other.None?
               case Some(published) =>
                 NamedCommit(published).Some? && Ancestor(history, NamedCommit(published).value, commit)
    ensures EdgeDecision(commit, tip, edge, others, (base, head) => Compare(history, base, head)) == Stay(true) <==>
            && Ancestor(history, commit, tip)
            && match edge
               case None => exists other <- others :: other.Some?
               case Some(published) =>
                 var named := NamedCommit(published);
                 named.None? || (!Ancestor(history, named.value, commit) && !Ancestor(history, commit, named.value))
  {
  }

  /**
   * The warning says that no commit will move `edge`. That is so while `edge` names nothing; but if it
   * names a revision, every later commit on master moves it that descends from the revision, and no
   * other does.
   */
  lemma AWarnedEdgeMovesExactly(
      history: History, commit: Commit, tip: Commit, edge: Published, others: seq<Option<Digest>>,
      later: Commit, laterTip: Commit, othersThen: seq<Option<Digest>>)
    requires ValidHistory(history) && Ancestor(history, tip, laterTip) && Ancestor(history, later, laterTip)
    requires EdgeDecision(commit, tip, Some(edge), others, (base, head) => Compare(history, base, head)) == Stay(true)
    ensures EdgeDecision(later, laterTip, Some(edge), othersThen,
                         (base, head) => Compare(history, base, head)).Move? <==>
            NamedCommit(edge).Some? && Ancestor(history, NamedCommit(edge).value, later)
    ensures EdgeDecision(later, laterTip, Some(edge), othersThen,
                         (base, head) => Compare(history, base, head)).Move? ==>
              !Ancestor(history, later, commit)
  {
    MovesExactlyForward(history, commit, tip, Some(edge), others);
    MovesExactlyForward(history, later, laterTip, Some(edge), othersThen);
  }

  /** And such a commit there is: the merge of the revision and the commit that was asked about. */
  lemma AMergeMovesAWarnedEdge(edge: Published, revision: Commit, commit: Commit, merge: Commit, history: History)
    requires NamedCommit(edge) == Some(revision)
    requires revision != commit && merge != revision && merge != commit
    requires history == map[revision := {revision}, commit := {commit}, merge := {revision, commit, merge}]
    ensures ValidHistory(history)
    ensures EdgeDecision(commit, commit, Some(edge), [], (base, head) => Compare(history, base, head)) == Stay(true)
    ensures EdgeDecision(merge, merge, Some(edge), [], (base, head) => Compare(history, base, head)) == Move
  {
  }
}
