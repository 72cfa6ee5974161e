/** Fetching and staging the sources of an element, some of which can only be
    fetched or staged on top of the sources listed before them. */
module SourceFetching {
  import opened Wrappers

  import opened SourceCaches

  /** `directory` is meant relative to the build directory; one that is written with
      a leading slash (`absolute`) has the slash stripped for staging only. */
  datatype Source = Source(
    name: Name,
    needsPreviousToFetch: bool,
    needsPreviousToStage: bool,
    directory: Path,
    absolute: bool
  ) {
    /** It cannot be kept in the source cache on its own. */
    predicate Dependent() { needsPreviousToFetch || needsPreviousToStage }
  }

  // ---------------------------------------------------------------- directories

  function OpenDirectory(tree: Tree, d: Path): Tree {
    map p | p in Below(tree, d) :: tree[d + p]
  }

  function Below(tree: Tree, d: Path): (r: set<Path>)
    ensures forall p :: p in r <==> d + p in tree
  {
    assert forall p: Path :: (d + p)[|d|..] == p && d <= d + p;
    assert forall q: Path :: d <= q ==> d + q[|d|..] == q;
    set q | q in tree && d <= q :: q[|d|..]
  }

  /** The tree with everything below d replaced. */
  function WithDirectory(tree: Tree, d: Path, sub: Tree): Tree {
    map q | q in (set q | q in tree && !(d <= q)) + Moved(d, sub) ::
      if d <= q then sub[q[|d|..]] else tree[q]
  }

  function Moved(d: Path, sub: Tree): (r: set<Path>)
    ensures forall q :: q in r <==> d <= q && q[|d|..] in sub
  {
    assert forall p: Path :: (d + p)[|d|..] == p && d <= d + p;
    assert forall q: Path :: d <= q ==> d + q[|d|..] == q;
    set p | p in sub :: d + p
  }

  /** Files of the second tree take the place of those of the first. */
  function Overlay(tree: Tree, other: Tree): Tree {
    map p | p in tree.Keys + other.Keys :: if p in other then other[p] else tree[p]
  }

  /** The operations on directories that staging uses. */
  datatype Directories = Directories(
    open: (Tree, Path) -> Tree,
    replace: (Tree, Path, Tree) -> Tree,
    overlay: (Tree, Tree) -> Tree
  )

  const PLAIN := Directories(OpenDirectory, WithDirectory, Overlay)

  /** A directory that is replaced is what it was replaced with, and nothing else
      changes. */
  lemma DirectoryIsReplaced(tree: Tree, d: Path, sub: Tree)
    ensures PLAIN.open(PLAIN.replace(tree, d, sub), d) == sub
    ensures forall q :: !(d <= q) ==>
      && (q in PLAIN.replace(tree, d, sub) <==> q in tree)
      && (q in tree ==> PLAIN.replace(tree, d, sub)[q] == tree[q])
  {
    var tree' := WithDirectory(tree, d, sub);
    forall p ensures p in OpenDirectory(tree', d) <==> p in sub {
      assert (d + p)[|d|..] == p && d <= d + p;
      if p in Below(tree', d) {
        var q :| q in tree' && d <= q && q[|d|..] == p;
        assert d + q[|d|..] == q;
      }
      if p in sub { assert d + p in tree'; }
    }
    forall p | p in sub ensures OpenDirectory(tree', d)[p] == sub[p] { assert (d + p)[|d|..] == p; }
  }

  // ---------------------------------------------------------------- staging

  /** Steps 0 to k - 1, one after the other. */
  function Fold(step: (nat, Tree) -> Tree, k: nat): Tree {
    if k == 0 then map[] else step(k - 1, Fold(step, k - 1))
  }

  /** Steps i to k - 1, from a given tree. */
  function Continue(step: (nat, Tree) -> Tree, tree: Tree, i: nat, k: nat): Tree
    requires i <= k
    decreases k - i
  {
    if i == k then tree else Continue(step, step(i, tree), i + 1, k)
  }

  lemma {:induction false} FoldContinues(step: (nat, Tree) -> Tree, i: nat, k: nat)
    requires i <= k
    ensures Fold(step, k) == Continue(step, Fold(step, i), i, k)
    decreases k - i
  {
    if i < k {
      assert Fold(step, i + 1) == step(i, Fold(step, i));
      FoldContinues(step, i + 1, k);
    }
  }

  /** The sources of an element in order, what a source in the source cache
      consists of, what staging a dependent one does to its directory, and the
      operations on directories (`PLAIN`, if directories hold nothing but files). */
  datatype Sources = Sources(list: seq<Source>, content: Name -> Tree, stage: (nat, Tree) -> Tree, dirs: Directories) {
    /** Staging one source on top of a tree. */
    function Staged(i: nat, tree: Tree): Tree {
      if i >= |list| then tree
      else
        var sub := dirs.open(tree, list[i].directory);
        dirs.replace(tree, list[i].directory,
          if list[i].Dependent() then stage(i, sub) else dirs.overlay(sub, content(list[i].name)))
    }

    function Steps(): (nat, Tree) -> Tree {
      (i: nat, tree: Tree) => Staged(i, tree)
    }

    /** The first k sources, staged one on top of the other. */
    function StagedBefore(k: nat): Tree {
      Fold(Steps(), k)
    }

    function All(): Tree { StagedBefore(|list|) }

    /** What a source that depends on previous ones gets to see of them. */
    function Previous(i: nat): Tree
      requires i < |list|
    {
      dirs.open(StagedBefore(i), list[i].directory)
    }
  }

  lemma OverlaidFile(tree: Tree, d: Path, files: Tree, p: Path)
    requires p in files
    ensures var staged := WithDirectory(tree, d, Overlay(OpenDirectory(tree, d), files));
            d + p in staged && staged[d + p] == files[p]
  {
    assert (d + p)[|d|..] == p && d <= d + p;
  }

  lemma OtherFile(tree: Tree, d: Path, files: Tree, q: Path)
    requires !(d <= q) || q[|d|..] !in files
    ensures var staged := WithDirectory(tree, d, Overlay(OpenDirectory(tree, d), files));
            (q in staged <==> q in tree) && (q in tree ==> staged[q] == tree[q])
  {
    if d <= q {
      assert d + q[|d|..] == q;
    }
  }

  /** Where directories hold nothing but files, staging a plain source puts its files
      below its directory, in the place of others of the same name, and changes no
      other file. */
  lemma PlainSourceIsStaged(s: Sources, i: nat, tree: Tree)
    requires s.dirs == PLAIN && i < |s.list| && !s.list[i].needsPreviousToFetch && !s.list[i].needsPreviousToStage
    ensures var d, files, staged := s.list[i].directory, s.content(s.list[i].name), s.Staged(i, tree);
      && (forall p :: p in files ==> d + p in staged && staged[d + p] == files[p])
      && (forall q :: (!(d <= q) || q[|d|..] !in files) ==>
            && (q in staged <==> q in tree) && (q in tree ==> staged[q] == tree[q]))
  {
    var d, files, staged := s.list[i].directory, s.content(s.list[i].name), s.Staged(i, tree);
    assert staged == WithDirectory(tree, d, Overlay(OpenDirectory(tree, d), files));
    forall p | p in files ensures d + p in staged && staged[d + p] == files[p] { OverlaidFile(tree, d, files, p); }
    forall q | !(d <= q) || q[|d|..] !in files
      ensures (q in staged <==> q in tree) && (q in tree ==> staged[q] == tree[q])
    {
      OtherFile(tree, d, files, q);
    }
  }

  /** A source that depends on previous ones sees what is in its directory, and what it
      makes of that takes its place. */
  lemma DependentSourceIsStaged(s: Sources, i: nat, tree: Tree)
    requires s.dirs == PLAIN && i < |s.list| && (s.list[i].needsPreviousToFetch || s.list[i].needsPreviousToStage)
    ensures var d, staged := s.list[i].directory, s.Staged(i, tree);
      && OpenDirectory(staged, d) == s.stage(i, OpenDirectory(tree, d))
      && (forall p :: p in OpenDirectory(tree, d) <==> d + p in tree)
      && (forall p :: d + p in tree ==> OpenDirectory(tree, d)[p] == tree[d + p])
      && (forall q :: !(d <= q) ==> (q in staged <==> q in tree) && (q in tree ==> staged[q] == tree[q]))
  {
    DirectoryIsReplaced(tree, s.list[i].directory, s.stage(i, OpenDirectory(tree, s.list[i].directory)));
  }

  lemma StagedNext(s: Sources, k: nat)
    ensures s.StagedBefore(0) == map[] && s.StagedBefore(k + 1) == s.Staged(k, s.StagedBefore(k))
  { }

  /** The directory that a source sees when it is fetched is the one that it is staged
      on later: staging all sources passes through what was staged before it, stages it
      in that directory, and goes on with the others. */
  lemma PreviousSourcesArePrefix(s: Sources, i: nat)
    requires i < |s.list|
    ensures s.All() == Continue(s.Steps(), s.StagedBefore(i), i, |s.list|)
    ensures s.All() == Continue(s.Steps(), s.dirs.replace(s.StagedBefore(i), s.list[i].directory,
        if s.list[i].Dependent() then s.stage(i, s.Previous(i))
        else s.dirs.overlay(s.Previous(i), s.content(s.list[i].name))), i + 1, |s.list|)
  {
    FoldContinues(s.Steps(), i, |s.list|);
  }

  /** How often sources are fetched through their plugins before position k, if the
      given dependent ones were not there at first. */
  function Fetches(list: seq<Source>, missing: set<nat>, k: nat): nat
    requires k <= |list|
    decreases k, 0
  {
    if k == 0 then 0
    else Fetches(list, missing, k - 1) + FetchesOf(list, missing, k - 1)
  }

  function FetchesOf(list: seq<Source>, missing: set<nat>, i: nat): nat
    requires i < |list|
    decreases i, 1
  {
    if !list[i].Dependent() || i !in missing then 0
    else 1 + if list[i].needsPreviousToFetch then Fetches(list, missing, i) else 0
  }

  function MissingBefore(list: seq<Source>, missing: set<nat>, k: nat): set<nat>
    requires k <= |list|
  {
    set i: nat | i < k && i in missing && list[i].Dependent()
  }

  ghost predicate MissingOnTopOfMissing(list: seq<Source>, missing: set<nat>, k: nat)
    requires k <= |list|
  {
    exists i: nat, j: nat ::
      && i < j < k && i in missing && j in missing
      && list[i].Dependent() && list[j].needsPreviousToFetch
  }

  lemma MissingNext(list: seq<Source>, missing: set<nat>, k: nat)
    requires k < |list|
    ensures MissingBefore(list, missing, k + 1) ==
      MissingBefore(list, missing, k) + if k in missing && list[k].Dependent() then {k} else {}
    ensures |MissingBefore(list, missing, k + 1)| ==
      |MissingBefore(list, missing, k)| + if k in missing && list[k].Dependent() then 1 else 0
  {
    assert MissingBefore(list, missing, k + 1) ==
      MissingBefore(list, missing, k) + if k in missing && list[k].Dependent() then {k} else {};
  }

  lemma MissingGrows(list: seq<Source>, missing: set<nat>, k: nat)
    requires k < |list|
    ensures MissingOnTopOfMissing(list, missing, k + 1) <==>
      || MissingOnTopOfMissing(list, missing, k)
      || (k in missing && list[k].needsPreviousToFetch && MissingBefore(list, missing, k) != {})
  {
    if k in missing && list[k].needsPreviousToFetch && MissingBefore(list, missing, k) != {} {
      var i :| i in MissingBefore(list, missing, k);
      assert MissingOnTopOfMissing(list, missing, k + 1);
    }
    if i: nat, j: nat :|
      && i < j < k + 1 && i in missing && j in missing
      && list[i].Dependent() && list[j].needsPreviousToFetch
    {
      if j == k { assert i in MissingBefore(list, missing, k); }
    }
  }

  /** Only what is missing should be fetched. That is so exactly if no missing source
      that is fetched on top of previous ones comes after a missing dependent one. */
  lemma {:induction false} MissingFetchedOnce(list: seq<Source>, missing: set<nat>, k: nat)
    requires k <= |list|
    ensures Fetches(list, missing, k) >= |MissingBefore(list, missing, k)|
    ensures Fetches(list, missing, k) == |MissingBefore(list, missing, k)| <==>
      !MissingOnTopOfMissing(list, missing, k)
  {
    if k == 0 {
      assert MissingBefore(list, missing, k) == {};
    } else {
      var h := k - 1;
      MissingFetchedOnce(list, missing, h);
      MissingNext(list, missing, h);
      MissingGrows(list, missing, h);
      assert FetchesOf(list, missing, h) ==
        if !list[h].Dependent() || h !in missing then 0
        else 1 + if list[h].needsPreviousToFetch then Fetches(list, missing, h) else 0;
      assert |MissingBefore(list, missing, h)| == 0 <==> MissingBefore(list, missing, h) == {};
    }
  }

  function PowerOfTwo(n: nat): nat {
    if n == 0 then 1 else 2 * PowerOfTwo(n - 1)
  }

  /** What was found missing stays marked as missing, and so fetching a source on
      top of previous ones fetches all of these again: at worst, twice as many fetches
      for each further source. */
  lemma {:induction false} FetchesDouble(list: seq<Source>, missing: set<nat>, k: nat)
    requires 1 <= k <= |list| && !list[0].Dependent()
    requires forall i :: 1 <= i < k ==> list[i].needsPreviousToFetch && i in missing
    ensures Fetches(list, missing, k) == PowerOfTwo(k - 1) - 1
  {
    if k == 1 {
      assert FetchesOf(list, missing, 0) == 0 && Fetches(list, missing, 0) == 0;
    } else {
      FetchesDouble(list, missing, k - 1);
    }
  }

  // ---------------------------------------------------------------- fetching

  /** What a storage remote does when asked for all sources together: whether it has
      what is stored under their key, and how fetching the files ends. */
  datatype TogetherAnswer = TogetherAnswer(protoArrives: bool, files: Files)
  datatype Files = AllComplete | SomeMissing | RemoteFails | CacheFails

  function TogetherStatus(storage: seq<TogetherAnswer>, failed: bool): Status {
    if storage == [] then if failed then Failed else NotAvailable
    else match storage[0].files
      case AllComplete => Pulled
      case SomeMissing => TogetherStatus(storage[1..], failed)
      case RemoteFails => Failed
      case CacheFails => TogetherStatus(storage[1..], true)
  }

  predicate Knows(index: seq<IndexAnswer>) {
    exists i :: 0 <= i < |index| && index[i].Known?
  }

  function PullTogetherStatus(index: seq<IndexAnswer>, storage: seq<TogetherAnswer>): Status {
    if Knows(index) then TogetherStatus(storage, false)
    else if exists i :: 0 <= i < |index| && index[i].IndexFailed? then Failed
    else NotAvailable
  }

  /** Files arrive exactly if some remote has them all and no remote before it fails;
      otherwise a failure counts. */
  lemma {:induction false} TogetherStatusMeans(storage: seq<TogetherAnswer>, failed: bool)
    ensures TogetherStatus(storage, failed).Pulled? <==> exists i ::
      0 <= i < |storage| && storage[i].files.AllComplete? && forall j :: 0 <= j < i ==> !storage[j].files.RemoteFails?
    ensures TogetherStatus(storage, failed).NotAvailable? <==>
      !failed && forall i :: 0 <= i < |storage| ==> storage[i].files.SomeMissing?
  {
    if storage != [] {
      var rest := storage[1..];
      TogetherStatusMeans(rest, failed || storage[0].files.CacheFails?);
      assert forall i :: 0 < i < |storage| ==> storage[i] == rest[i - 1];
      assert forall i :: 0 <= i < |rest| ==> rest[i] == storage[i + 1];
      if !storage[0].files.AllComplete? && !storage[0].files.RemoteFails? {
        if i :|
          0 <= i < |rest| && rest[i].files.AllComplete? && forall j :: 0 <= j < i ==> !rest[j].files.RemoteFails?
        {
          assert storage[i + 1].files.AllComplete?;
        }
      }
    }
  }

  class ElementSources {
    const sources: Sources
    const cache: SourceCache
    const remotes: bool
    const works: bool                 // neither plugins nor remotes fail
    var isCached: seq<Option<bool>>   // what is remembered of the originals, per source
    var originals: set<nat>           // sources whose originals are there
    ghost var fetches: nat            // how many dependent sources were fetched so far
    var stored: Option<Tree>          // what is stored under the key of all sources together
    var cached: Option<bool>
    var proto: Option<Tree>

    constructor(sources: Sources, cache: SourceCache, remotes: bool, works: bool, originals: set<nat>)
      requires cache.Honest() && cache.content == sources.content
      ensures this.sources == sources && this.cache == cache && this.originals == originals
      ensures this.remotes == remotes && this.works == works
      ensures stored == None && cached == None
      ensures Valid() && AllValid() && fetches == 0
      ensures isCached == seq(|sources.list|, _ => None)
    {
      this.sources, this.cache, this.originals := sources, cache, originals;
      this.remotes, this.works := remotes, works;
      isCached := seq(|sources.list|, _ => None);
      fetches := 0;
      stored, cached, proto := None, None, None;
    }

    ghost predicate Valid()
      reads this, cache
    {
      && cache.Honest() && cache.content == sources.content && |isCached| == |sources.list|
      && forall i :: 0 <= i < |isCached| && isCached[i] == Some(true) ==> i in originals
    }

    /** What is stored and known of all sources together is right. */
    ghost predicate AllValid()
      reads this, cache
    {
      && (stored.Some? ==> stored.value == sources.All())
      && (cached == Some(true) ==> proto == Some(sources.All()) && proto.value in cache.local)
    }

    /** Sources that are taken to be missing, whatever has been fetched since. */
    ghost function Missing(): set<nat>
      requires Valid()
      reads this, cache
    {
      set i | 0 <= i < |isCached| && (isCached[i] == Some(false) || (isCached[i].None? && i !in originals))
    }

    /** A source can be staged: from the source cache, or from its original. */
    ghost predicate Stageable(i: nat)
      requires i < |sources.list|
      reads this, cache
    {
      if sources.list[i].Dependent() then i in originals else cache.Contains(sources.list[i].name)
    }

    ghost predicate AllStageable(k: nat)
      requires k <= |sources.list|
      reads this, cache
    {
      forall j :: 0 <= j < k ==> Stageable(j)
    }

    /** Fetching it through its plugin always fails. */
    ghost predicate NeverFetched(i: nat)
      requires i < |sources.list|
    {
      sources.list[i].needsPreviousToFetch && sources.list[i].absolute
    }

    /** No source before position k that is missing is one of those. */
    ghost predicate Fetchable(k: nat)
      requires Valid() && k <= |sources.list|
      reads this, cache
    {
      forall j :: 0 <= j < k && j in Missing() ==> !NeverFetched(j)
    }

    twostate predicate Kept()
      reads this, cache
    {
      && Valid() && old(Valid()) && cache.Keeps() && old(originals) <= originals
      && Missing() == old(Missing())
      && forall i {:trigger Stageable(i)} :: 0 <= i < |sources.list| && old(Stageable(i)) ==> Stageable(i)
    }

    method IsCached(i: nat) returns (b: bool)
      requires Valid() && i < |sources.list|
      modifies `isCached
      ensures Kept() && (b ==> i in originals) && (b <==> i !in Missing()) && isCached[i] == Some(b)
      ensures forall j :: 0 <= j < |isCached| && j != i ==> isCached[j] == old(isCached)[j]
    {
      if isCached[i].None? { isCached := isCached[i := Some(i in originals)]; }
      b := isCached[i].value;
    }

    /** Fetches a source through its plugin, which may fail. */
    method FetchOriginal(i: nat, previous: Option<Tree>) returns (ok: bool)
      requires Valid() && i < |sources.list| && isCached[i] == Some(false)
      requires sources.list[i].needsPreviousToFetch ==> previous == Some(sources.Previous(i))
      modifies `originals, `fetches
      ensures Kept() && (ok ==> i in originals) && (works ==> ok)
      ensures fetches == old(fetches) + if ok && sources.list[i].Dependent() then 1 else 0
    {
      var lucky: bool := *;
      ok := works || lucky;
      if ok {
        originals := originals + {i};
        if sources.list[i].Dependent() { fetches := fetches + 1; }
      }
    }

    method FetchOriginalSource(i: nat) returns (ok: bool)
      requires Valid() && i < |sources.list| && isCached[i] == Some(false)
      modifies `isCached, `originals, `fetches, cache
      ensures Kept() && (ok ==> i in originals && !NeverFetched(i))
      ensures works ==>
        (ok <==> !NeverFetched(i) && (sources.list[i].needsPreviousToFetch ==> Fetchable(i)))
      ensures ok && sources.list[i].Dependent() ==> fetches == old(fetches) + FetchesOf(sources.list, Missing(), i)
      ensures forall j :: i <= j < |isCached| ==> isCached[j] == old(isCached)[j]
      decreases i, 2
    {
      if sources.list[i].needsPreviousToFetch {
        var previous := StagePreviousSources(i);
        if previous.None? { return false; }
        ok := FetchOriginal(i, previous);
      } else {
        ok := FetchOriginal(i, None);
      }
    }

    /** What remotes say about a source. */
    method Answers() returns (index: seq<IndexAnswer>, storage: seq<StorageAnswer>)
      ensures works ==> PullStatus(index, storage) != Failed
    {
      index, storage := *, *;
      if works && PullStatus(index, storage).Failed? { index := []; }
    }

    /** A plain source ends up in the source cache. */
    method FetchSource(i: nat) returns (ok: bool)
      requires Valid() && i < |sources.list| && !sources.list[i].Dependent()
      modifies `isCached, `originals, `fetches, cache
      ensures Kept() && (ok ==> Stageable(i)) && fetches == old(fetches) && (works ==> ok)
      ensures forall j :: 0 <= j < |isCached| && j != i ==> isCached[j] == old(isCached)[j]
    {
      var name := sources.list[i].name;
      if cache.Contains(name) { return true; }
      var cached := IsCached(i);
      if !cached {
        if remotes {
          var index, storage := Answers();
          var status := cache.Pull(name, index, storage);
          if status.Pulled? { return true; }
          if status.Failed? { return false; }
        }
        ok := FetchOriginal(i, None);
        if !ok { return; }
      }
      cache.Commit(name, sources.content(name));
      return true;
    }

    /** Fetches all sources before a position, each after those it depends on. */
    method FetchSources(fetchOriginal: bool, stop: nat) returns (ok: bool)
      requires Valid() && stop <= |sources.list|
      modifies `isCached, `originals, `fetches, cache
      ensures Kept() && forall j :: stop <= j < |isCached| ==> isCached[j] == old(isCached)[j]
      ensures ok ==> forall j :: 0 <= j < stop ==> if fetchOriginal then j in originals else Stageable(j)
      ensures ok ==> forall j :: 0 <= j < stop ==>
        (sources.list[j].needsPreviousToFetch || sources.list[j].needsPreviousToStage ==> j in originals)
      ensures (ok ==> Fetchable(stop)) && (works ==> (ok <==> Fetchable(stop)))
      ensures ok && !fetchOriginal ==> fetches == old(fetches) + Fetches(sources.list, Missing(), stop)
      decreases stop, 0
    {
      for i := 0 to stop
        invariant Kept() && forall j :: stop <= j < |isCached| ==> isCached[j] == old(isCached)[j]
        invariant forall j :: 0 <= j < i ==> if fetchOriginal then j in originals else Stageable(j)
        invariant Fetchable(i)
        invariant !fetchOriginal ==> fetches == old(fetches) + Fetches(sources.list, Missing(), i)
      {
        if fetchOriginal || sources.list[i].Dependent() {
          var cached := IsCached(i);
          if !cached {
            ok := FetchOriginalSource(i);
            if !ok { return; }
          }
        } else {
          ok := FetchSource(i);
          if !ok { return; }
        }
      }
      return true;
    }

    /** Stages the sources before a position. */
    method Stage(stop: nat) returns (tree: Tree)
      requires Valid() && stop <= |sources.list| && forall j :: 0 <= j < stop ==> Stageable(j)
      ensures tree == sources.StagedBefore(stop)
    {
      tree := map[];
      StagedNext(sources, 0);
      for i := 0 to stop
        invariant tree == sources.StagedBefore(i) && AllStageable(stop)
      {
        assert Stageable(i);
        StagedNext(sources, i);
        tree := StageOne(i, tree);
      }
    }

    method StageOne(i: nat, tree: Tree) returns (tree': Tree)
      requires Valid() && i < |sources.list| && Stageable(i)
      ensures tree' == sources.Staged(i, tree)
    {
      var source := sources.list[i];
      var sub := sources.dirs.open(tree, source.directory);
      if source.Dependent() {
        sub := sources.stage(i, sub);
      } else {
        var exported := cache.Export(source.name);
        sub := sources.dirs.overlay(sub, exported);
      }
      tree' := sources.dirs.replace(tree, source.directory, sub);
    }

    /** What a source gets to see of the sources before it; its directory is opened as
        it is written here. */
    method StagePreviousSources(i: nat) returns (previous: Option<Tree>)
      requires Valid() && i < |sources.list|
      modifies `isCached, `originals, `fetches, cache
      ensures Kept()
      ensures previous.Some? ==> !sources.list[i].absolute && previous.value == sources.Previous(i)
      ensures previous.Some? ==> Fetchable(i)
      ensures works ==> (previous.Some? <==> !sources.list[i].absolute && Fetchable(i))
      ensures previous.Some? ==> forall j :: 0 <= j < i ==> Stageable(j)
      ensures forall j :: i <= j < |isCached| ==> isCached[j] == old(isCached)[j]
      ensures previous.Some? ==> fetches == old(fetches) + Fetches(sources.list, Missing(), i)
      decreases i, 1
    {
      var ok := FetchSources(false, i);
      if !ok { return None; }
      var tree := Stage(i);
      if sources.list[i].absolute { return None; }
      previous := Some(sources.dirs.open(tree, sources.list[i].directory));
    }

    // -------------------------------------------------------------- all sources together

    method QueryCache()
      requires Valid() && AllValid()
      modifies `cached, `proto
      ensures Valid() && AllValid() && cached == Some(stored.Some? && stored.value in cache.local)
    {
      if stored.None? || stored.value !in cache.local {
        cached := Some(false);
      } else {
        proto, cached := stored, Some(true);
      }
    }

    /** Takes note of fetched sources. */
    method FetchDone(fetchedOriginal: bool)
      requires Valid() && AllValid() && stored.Some? && stored.value in cache.local
      requires fetchedOriginal ==> forall i :: 0 <= i < |sources.list| ==> i in originals
      modifies `cached, `proto, `isCached
      ensures Valid() && AllValid() && cached == Some(true)
      ensures isCached == seq(|sources.list|, _ => if fetchedOriginal then Some(true) else None)
    {
      proto, cached := stored, Some(true);
      isCached := seq(|sources.list|, _ => if fetchedOriginal then Some(true) else None);
    }

    method StageAndCache()
      requires Valid() && AllValid() && forall j :: 0 <= j < |sources.list| ==> Stageable(j)
      modifies `cached, `proto, `stored, cache
      ensures Valid() && AllValid() && cached == Some(true)
    {
      var tree := Stage(|sources.list|);
      cache.local := cache.local + {tree};
      stored, proto, cached := Some(tree), Some(tree), Some(true);
    }

    /** All sources together are known to be in the local cache, or will be found there. */
    ghost predicate AllThere()
      reads this, cache
    {
      cached == Some(true) || (cached.None? && stored.Some? && stored.value in cache.local)
    }

    /** What remotes say about all sources together. */
    method AnswersTogether() returns (index: seq<IndexAnswer>, storage: seq<TogetherAnswer>)
      ensures works ==> PullTogetherStatus(index, storage) != Failed
    {
      index, storage := *, *;
      if works && PullTogetherStatus(index, storage).Failed? { index := []; }
    }

    /** Makes the sources of the element available: whichever way that comes about,
        they are the fold of all sources, in order. */
    method Fetch(fetchOriginal: bool) returns (ok: bool)
      requires Valid() && AllValid()
      modifies this, cache
      ensures Valid() && AllValid()
      ensures ok ==> cached == Some(true) && proto == Some(sources.All()) && proto.value in cache.local
      ensures ok && fetchOriginal ==> forall i :: 0 <= i < |sources.list| ==> i in originals
      ensures works && old(Fetchable(|sources.list|)) ==> ok
      ensures works && fetchOriginal ==> (ok <==> old(Fetchable(|sources.list|)))
      ensures works && !remotes && !fetchOriginal ==> (ok <==> old(Fetchable(|sources.list|) || AllThere()))
    {
      if fetchOriginal {
        ok := FetchSources(true, |sources.list|);
        if !ok { return; }
      }
      if cached.None? { QueryCache(); }
      if cached.value { return true; }
      if remotes {
        var index, storage := AnswersTogether();
        var status := PullAll(index, storage);
        if status.Failed? { return false; }
        if status.Pulled? {
          FetchDone(false);
          return true;
        }
      }
      ok := FetchSources(false, |sources.list|);
      if ok { StageAndCache(); }
    }

    /** Pulls all sources together: the first index remote that knows them decides, and
        storage remotes are tried in turn while files are missing or the local cache
        fails.  What is stored under their key is stored before any file arrives. */
    method PullAll(index: seq<IndexAnswer>, storage: seq<TogetherAnswer>) returns (r: Status)
      requires Valid() && AllValid()
      modifies `stored, cache
      ensures Valid() && AllValid() && (r.Pulled? ==> stored.Some? && stored.value in cache.local)
      ensures cache.Keeps() && cache.protos == old(cache.protos)
      ensures r == PullTogetherStatus(index, storage)
      ensures (exists i :: 0 <= i < |index| && index[i].Known?) ==> r == TogetherStatus(storage, false)
      ensures (forall i :: 0 <= i < |index| ==> !index[i].Known?) ==>
        r == if exists i :: 0 <= i < |index| && index[i].IndexFailed? then Failed else NotAvailable
      ensures !Knows(index) ==> stored == old(stored) && cache.local == old(cache.local)
    {
      var known, failed := false, false;
      for i := 0 to |index|
        invariant !known && forall j :: 0 <= j < i ==> !index[j].Known?
        invariant failed <==> exists j :: 0 <= j < i && index[j].IndexFailed?
      {
        if index[i].Known? {
          known := true;
          break;
        }
        if index[i].IndexFailed? { failed := true; }
      }
      if !known { return if failed then Failed else NotAvailable; }
      failed := false;
      for i := 0 to |storage|
        invariant Valid() && AllValid() && cache.Keeps() && cache.protos == old(cache.protos)
        invariant TogetherStatus(storage, false) == TogetherStatus(storage[i..], failed)
      {
        assert storage[i..][1..] == storage[i + 1..];
        if storage[i].protoArrives || storage[i].files.AllComplete? { stored := Some(sources.All()); }
        match storage[i].files
        case AllComplete =>
          cache.local := cache.local + {sources.All()};
          return Pulled;
        case SomeMissing =>
        case RemoteFails => return Failed;
        case CacheFails => failed := true;
      }
      return if failed then Failed else NotAvailable;
    }
  }

  /** A plain source, and one that is fetched on top of it into a directory. */
  function TwoSources(absolute: bool): Sources {
    Sources([Source(0, false, false, [], false), Source(1, true, false, ["sub"], absolute)],
            (name: Name) => map[], (i: nat, tree: Tree) => tree, PLAIN)
  }

  /** Where nothing ever fails, two missing sources can be fetched, unless the
      directory is written with a slash. */
  method AbsoluteDirectory(absolute: bool) returns (ok: bool)
    ensures ok <==> !absolute
  {
    var sources := TwoSources(absolute);
    var cache := new SourceCache(sources.content);
    var es := new ElementSources(sources, cache, false, true, {});
    assert 1 in es.Missing() && (es.NeverFetched(1) <==> absolute) && !es.NeverFetched(0);
    ok := es.Fetch(false);
  }
}
