/** What happens to a session from outside: artifacts are loaded or pulled,
    builds and fetches complete, the build queue registers its callbacks. */
module SessionEvents {
  import opened Wrappers

  import opened Graphs
  import opened Dependencies
  import opened Readiness
  import opened CacheKeys
  import opened SessionState
  import opened SessionPlan

  // ---------------------------------------------------------------- loading artifacts

  /** What an artifact proto says of itself. */
  datatype Stored = Stored(strong: Key, success: bool)

  datatype PullResult = Pulled(stored: Stored) | NotAvailable | PullError

  /** What one attempt at loading an artifact finds in the local cache and in the
      remotes, first under the strict key, then under the weak one. */
  datatype Surroundings = Surroundings(
    strictQuery: Option<Stored>, strictPull: PullResult, weakQuery: Option<Stored>, weakPull: PullResult,
    buildtreeMissing: bool, remotes: bool, workspaced: bool)

  /** The user's choices. */
  datatype Options = Options(strict: bool, pullBuildtrees: bool, building: bool, retryFailed: bool)

  /** The artifact object and its key, if any was set, and whether a pull is to
      follow; or an error from a remote. */
  datatype Loading = Loading(artifact: Option<Artifact>, key: Option<Key>, pullPending: bool) | LoadingError

  const UNCACHED := Artifact(false, "", false)

  function Found(query: Option<Stored>): Artifact {
    match query
    case Some(stored) => Artifact(true, stored.strong, stored.success)
    case None => UNCACHED
  }

  /** The local query, improved by a pull. */
  function FoundOrPulled(query: Option<Stored>, pull: bool, result: PullResult): Artifact {
    if pull && result.Pulled? then Artifact(true, result.stored.strong, result.stored.success) else Found(query)
  }

  function LoadingOutcome(o: Options, env: Surroundings, pull: bool, own: Option<Key>,
                          strictKey: Option<Key>): Loading {
    var pullBuildtrees := o.pullBuildtrees && !env.workspaced;
    var missing := env.strictQuery.None? || (pullBuildtrees && env.buildtreeMissing);
    var pending := !pull && missing && env.remotes && !env.workspaced;
    if pull && env.strictPull.PullError? then LoadingError
    else
      var first := FoundOrPulled(env.strictQuery, pull, env.strictPull);
      var ignoreFailed := o.building && o.retryFailed;
      if first.cached || o.strict then
        if first.cached && ignoreFailed && !first.success then Loading(Some(UNCACHED), own, pending)
        else Loading(Some(first), strictKey, pending)
      else if pending then Loading(None, None, true)
      else if pull && env.weakPull.PullError? then LoadingError
      else
        var second := FoundOrPulled(env.weakQuery, pull, env.weakPull);
        if o.building && second.cached && !second.success && (ignoreFailed || Some(second.strong) != strictKey)
        then Loading(Some(UNCACHED), None, false)
        else Loading(Some(second), None, false)
  }

  /** Unless a pull is to follow, loading leaves an artifact object behind; after
      an attempt to pull, no pull is pending any more; and while building, a
      failed artifact is only kept if it was built from the very same inputs, and
      not if failed builds are to be retried. */
  lemma LoadedArtifact(o: Options, env: Surroundings, pull: bool, own: Option<Key>, strictKey: Option<Key>)
    ensures var r := LoadingOutcome(o, env, pull, own, strictKey);
      && (!pull ==> !r.LoadingError?)
      && (r.Loading? && r.artifact.None? ==> r.pullPending && !o.strict)
      && (r.Loading? && pull ==> !r.pullPending)
      && (r.Loading? && r.artifact.Some? && o.building && r.artifact.value.cached && !r.artifact.value.success ==>
            && !o.retryFailed
            && (r.key == strictKey || Some(r.artifact.value.strong) == strictKey))
      && (r.Loading? && r.artifact.Some? && o.strict && own == strictKey ==> r.key == strictKey)
  { }

  /** What is found under the strict key, pulled or in the local cache, is kept, unless
      it is a failure to be retried. */
  lemma StrictArtifactIsKept(o: Options, env: Surroundings, pull: bool, own: Option<Key>, strictKey: Option<Key>,
                             found: Stored)
    requires || (pull && env.strictPull == Pulled(found))
             || (env.strictQuery == Some(found) && (!pull || env.strictPull == NotAvailable))
    ensures var r := LoadingOutcome(o, env, pull, own, strictKey);
      && r.Loading? && r.artifact.Some?
      && if o.building && o.retryFailed && !found.success then !r.artifact.value.cached && r.key == own
         else r.artifact.value == Artifact(true, found.strong, found.success) && r.key == strictKey
  { }

  /** If nothing is, and no pull is to follow, what is found under the weak key is kept
      in non-strict mode, unless it is a failure to be built again. */
  lemma WeakArtifactIsKept(o: Options, env: Surroundings, pull: bool, own: Option<Key>, strictKey: Option<Key>,
                           found: Stored)
    requires !o.strict && env.strictQuery == None && (if pull then env.strictPull == NotAvailable
      else !env.remotes || env.workspaced)
    requires || (pull && env.weakPull == Pulled(found))
             || (env.weakQuery == Some(found) && (!pull || env.weakPull == NotAvailable))
    ensures var r := LoadingOutcome(o, env, pull, own, strictKey);
      && r.Loading? && r.artifact.Some? && r.key == None
      && if o.building && !found.success && (o.retryFailed || strictKey != Some(found.strong))
         then !r.artifact.value.cached
         else r.artifact.value == Artifact(true, found.strong, found.success)
  { }

  /** Without either, the artifact is not cached; in strict mode the weak key is not
      tried, and if a pull is to follow, there is no artifact object yet. */
  lemma NothingIsFound(o: Options, env: Surroundings, pull: bool, own: Option<Key>, strictKey: Option<Key>)
    requires env.strictQuery == None && (!pull || env.strictPull == NotAvailable)
    ensures var r := LoadingOutcome(o, env, pull, own, strictKey);
      && (o.strict ==> r.Loading? && r.artifact.Some? && !r.artifact.value.cached && r.key == strictKey)
      && (!o.strict && !pull && env.remotes && !env.workspaced ==> r.Loading? && r.artifact.None?)
      && (!o.strict && env.weakQuery == None && (if pull then env.weakPull == NotAvailable
            else !env.remotes || env.workspaced) ==>
            r.Loading? && r.artifact.Some? && !r.artifact.value.cached && r.key == None)
  { }

  /** A pull is to follow exactly if this was none, the artifact or the buildtree that
      is asked for is missing, and there is somewhere to pull from; loading fails
      exactly if a pull under a key that is tried does. */
  lemma PullFollows(o: Options, env: Surroundings, pull: bool, own: Option<Key>, strictKey: Option<Key>)
    ensures var r := LoadingOutcome(o, env, pull, own, strictKey);
      && (r.Loading? ==>
            (r.pullPending <==>
              && !pull && env.remotes && !env.workspaced
              && (env.strictQuery == None || (o.pullBuildtrees && env.buildtreeMissing))))
      && (r.LoadingError? <==>
            && pull
            && (|| env.strictPull == PullError
                || (&& env.strictPull == NotAvailable && env.strictQuery == None && !o.strict
                    && env.weakPull == PullError)))
  { }

  // ---------------------------------------------------------------- quiet states

  /** What holds between events: all counters are right, whatever can be ready is,
      and the plan is complete. */
  ghost predicate Quiet(c: Context, st: State) {
    && Inv(c, st, TIGHT) && Settled(st, {}) && PlanInv(c, st, {})
    && st.book.owedRuntime == {} && st.book.owedBuild == {}
    && st.book.why.requested.Keys <= st.plan.required
  }

  function AfterLoading(st: State, e: Id, r: Loading): State {
    match r
    case LoadingError =>
      st.(cache := st.cache.(pullPending := st.cache.pullPending - {e}),
          book := st.book.(outstanding := st.book.outstanding + {e}))
    case Loading(artifact, key, pullPending) =>
      st.(cache := st.cache.(
            artifact := if artifact.Some? then st.cache.artifact[e := artifact.value] else st.cache.artifact,
            artifactKey := if artifact.None? then st.cache.artifactKey
                           else if key.Some? then st.cache.artifactKey[e := key.value]
                           else st.cache.artifactKey - {e},
            pullPending := if pullPending then st.cache.pullPending + {e} else st.cache.pullPending - {e}),
          book := st.book.(
            outstanding := st.book.outstanding + {e},
            succeeded := if artifact.Some? && artifact.value.cached && artifact.value.success
                         then st.book.succeeded + {e} else st.book.succeeded))
  }

  /** The artifact object is the one that was found, and whether a pull is to follow is
      remembered; an error or a pull to come leaves artifact objects alone. */
  lemma AfterLoadingMeans(st: State, e: Id, r: Loading)
    ensures var st' := AfterLoading(st, e, r);
      && (r.Loading? && r.artifact.Some? ==>
            && e in st'.cache.artifact && st'.cache.artifact[e] == r.artifact.value
            && Lookup(st'.cache.artifactKey, e) == r.key)
      && (r.LoadingError? || r.artifact.None? ==> st'.cache.artifact == st.cache.artifact)
      && (e in st'.cache.pullPending <==> r.Loading? && r.pullPending)
      && st'.cache.knownSuccess == st.cache.knownSuccess && st'.cache.buildResult == st.cache.buildResult
      && st'.strong == st.strong && st'.counters == st.counters && st'.plan == st.plan
  { }

  /** An artifact is looked up once, and again if a pull is to follow. */
  predicate MayLoad(c: Context, st: State, e: Id, pull: bool) {
    e in c.weak && if pull then e in st.cache.pullPending else e !in st.cache.artifact
  }

  lemma LoadKeepsQuiet(c: Context, st: State, e: Id, pull: bool, o: Options, env: Surroundings)
    requires Quiet(c, st) && MayLoad(c, st, e, pull) && o.strict == c.strictMode
    ensures Quiet(c, AfterLoading(st, e, LoadingOutcome(o, env, pull, Lookup(st.strong, e), Lookup(c.strict, e))))
  {
    LoadedArtifact(o, env, pull, Lookup(st.strong, e), Lookup(c.strict, e));
    assert Ok(c, st, TIGHT, e);
    LoadedKeepsQuiet(c, st, e, LoadingOutcome(o, env, pull, Lookup(st.strong, e), Lookup(c.strict, e)));
  }

  lemma LoadedKeepsQuiet(c: Context, st: State, e: Id, r: Loading)
    requires Quiet(c, st) && e in c.weak && e !in st.plan.scheduled
    requires e in st.strong ==> c.strictMode && e in c.strict
    requires e in st.strong && r.Loading? && r.artifact.Some? ==> r.key == Some(c.strict[e])
    ensures Quiet(c, AfterLoading(st, e, r))
  {
    var st' := AfterLoading(st, e, r);
    KeysKept(c, st, st');
    assert Ok(c, st, TIGHT, e);
    forall x ensures EarnedAt(st'.cache, st'.book.succeeded, x) { assert EarnedAt(st.cache, st.book.succeeded, x); }
    forall x ensures Ok(c, st', TIGHT, x) { LoadedIsOk(c, st, e, r, x); }
    forall x ensures SettledAt(st', {}, x) && PlanAt(c, st', {}, x) {
      assert Ok(c, st, TIGHT, x) && SettledAt(st, {}, x) && PlanAt(c, st, {}, x);
    }
  }

  lemma LoadedIsOk(c: Context, st: State, e: Id, r: Loading, x: Id)
    requires Quiet(c, st) && e in c.weak && e !in st.plan.scheduled
    requires e in st.strong ==> c.strictMode && e in c.strict
    requires e in st.strong && r.Loading? && r.artifact.Some? ==> r.key == Some(c.strict[e])
    ensures Ok(c, AfterLoading(st, e, r), TIGHT, x)
  {
    assert Ok(c, st, TIGHT, x);
  }

  function Completed(st: State, e: Id): State {
    st.(book := st.book.(outstanding := st.book.outstanding - {e}))
  }

  /** Loading is complete: the element may now have its key, be ready, or be due for
      assembly. */
  lemma LoadingCompletes(c: Context, st: State, e: Id)
    requires Quiet(c, st) && e in st.cache.artifact
    ensures var st' := Completed(st, e);
      && Inv(c, st', TIGHT.(unkeyed := TIGHT.unkeyed + {e})) && Settled(st', {e}) && PlanInv(c, st', {e})
      && (if st.cache.artifact[e].cached && !c.strictMode then MayBeUpdated(c, st', e) else Inv(c, st', TIGHT))
    ensures e in st.plan.required ==>
      e in c.Ids() && e in st.book.why.of && c.Needs(e, st.book.why.of[e].scope) <= st.plan.required
    ensures e in st.plan.scheduled ==> e in c.Ids() && c.build.needs[e] <= st.plan.required
  {
    var st', s := Completed(st, e), TIGHT.(unkeyed := TIGHT.unkeyed + {e});
    KeysKept(c, st, st');
    assert PlanAt(c, st, {}, e) && Ok(c, st, TIGHT, e);
    forall x ensures Ok(c, st', s, x) { assert Ok(c, st, TIGHT, x); }
    if !st.cache.artifact[e].cached || c.strictMode {
      forall x ensures Ok(c, st', TIGHT, x) { assert Ok(c, st, TIGHT, x); }
    }
    forall x ensures SettledAt(st', {e}, x) && PlanAt(c, st', {e}, x) {
      assert SettledAt(st, {}, x) && PlanAt(c, st, {}, x);
    }
  }

  function Noted(st: State, e: Id, scope: Scope): State {
    if e in st.book.why.requested then st
    else st.(book := st.book.(why := st.book.why.(requested := st.book.why.requested[e := scope])))
  }

  /** An event requires an element: the first such event counts. */
  lemma RequestIsNoted(c: Context, st: State, e: Id, scope: Scope)
    requires Quiet(c, st)
    ensures var st' := Noted(st, e, scope);
            && Inv(c, st', TIGHT) && Settled(st', {}) && PlanInv(c, st', {})
            && (e !in st.plan.required ==> st'.book.why.requested[e] == scope)
  {
    var st' := Noted(st, e, scope);
    KeysKept(c, st, st');
    forall x ensures Ok(c, st', TIGHT, x) { assert Ok(c, st, TIGHT, x); }
    forall x ensures SettledAt(st', {}, x) && PlanAt(c, st', {}, x) {
      assert SettledAt(st, {}, x) && PlanAt(c, st, {}, x);
    }
  }

  // ---------------------------------------------------------------- assembly

  /** How a build job ended: its status, the build result it recorded if it got
      that far, and what is in the cache afterwards. */
  datatype Assembly = Assembly(successful: bool, result: Option<bool>, stored: Option<Stored>)

  function Assembled(st: State, e: Id, a: Assembly): State {
    st.(cache := st.cache.(
          artifact := st.cache.artifact[e := Found(a.stored)],
          knownSuccess := if a.successful then st.cache.knownSuccess + {e} else st.cache.knownSuccess,
          buildResult := if a.result.Some? then st.cache.buildResult[e := a.result.value] else st.cache.buildResult),
        plan := st.plan.(assembled := st.plan.assembled + {e}),
        book := st.book.(succeeded := st.book.succeeded + {e}))
  }

  lemma AssemblyKeeps(c: Context, st: State, e: Id, a: Assembly)
    requires Quiet(c, st) && e in st.plan.scheduled && (a.successful ==> a.stored.Some?)
    ensures var st' := Assembled(st, e, a);
      && Inv(c, st', TIGHT.(unkeyed := TIGHT.unkeyed + {e})) && Settled(st', {e}) && PlanInv(c, st', {})
      && e in st'.cache.artifact && e in c.Ids() && MayBeUpdated(c, st', e)
  {
    var st', s := Assembled(st, e, a), TIGHT.(unkeyed := TIGHT.unkeyed + {e});
    KeysKept(c, st, st');
    forall x ensures EarnedAt(st'.cache, st'.book.succeeded, x) { assert EarnedAt(st.cache, st.book.succeeded, x); }
    assert Ok(c, st, TIGHT, e);
    forall x ensures Ok(c, st', s, x) { assert Ok(c, st, TIGHT, x); }
    forall x ensures SettledAt(st', {e}, x) && PlanAt(c, st', {}, x) {
      assert SettledAt(st, {}, x) && PlanAt(c, st, {}, x);
    }
  }

  /** Whether a build succeeded is what its job said, or else the build result it recorded,
      or else what is stored; a success that was known stays known. */
  lemma AssembledSuccess(st: State, e: Id, a: Assembly)
    ensures Assembled(st, e, a).Success(e) <==>
      || a.successful || e in st.cache.knownSuccess
      || (&& a.stored.Some?
          && if a.result.Some? then a.result.value
             else if e in st.cache.buildResult then st.cache.buildResult[e] else a.stored.value.success)
    ensures forall x :: x != e ==> (Assembled(st, e, a).Success(x) <==> st.Success(x))
  { }

  /** The key of a built artifact is the one that is stored in it, unless the element has
      one. */
  lemma AssembledKey(c: Context, st: State, e: Id, a: Assembly)
    requires Quiet(c, st) && e in st.plan.scheduled
    ensures a.stored.Some? && e !in st.strong ==> KeyNow(c, Assembled(st, e, a), e) == Some(a.stored.value.strong)
  {
    assert Ok(c, st, TIGHT, e);
  }

  // ---------------------------------------------------------------- fetching

  /** The sources of an element arrive. */
  function Fetched(st: State, e: Id): State {
    st.(plan := st.plan.(fetchNeeded := st.plan.fetchNeeded - {e}))
  }

  lemma FetchKeepsQuiet(c: Context, st: State, e: Id)
    requires Quiet(c, st)
    ensures Quiet(c, Fetched(st, e))
  {
    var st' := Fetched(st, e);
    KeysKept(c, st, st');
    forall x ensures Ok(c, st', TIGHT, x) { assert Ok(c, st, TIGHT, x); }
    forall x ensures SettledAt(st', {}, x) && PlanAt(c, st', {}, x) {
      assert SettledAt(st, {}, x) && PlanAt(c, st, {}, x);
    }
  }

  // ---------------------------------------------------------------- the build queue

  datatype QueueStatus = PENDING | SKIP | READY

  function Registered(st: State, e: Id): State {
    st.(waiting := st.waiting + {e},
        book := st.book.(registered := st.book.registered[e := st.book.registered[e] + 1],
                         armed := if e in st.plan.scheduled && e !in st.plan.fetchNeeded then st.book.armed + {e}
                                  else st.book.armed))
  }

  /** The source cache is queried before an element can be scheduled. */
  lemma QueryKeepsQuiet(c: Context, st: State, e: Id, fetchNeeded: set<Id>)
    requires Quiet(c, st) && e !in st.plan.scheduled
    requires forall x :: x != e ==> (x in fetchNeeded <==> x in st.plan.fetchNeeded)
    ensures Quiet(c, st.(plan := st.plan.(fetchNeeded := fetchNeeded)))
  {
    var st' := st.(plan := st.plan.(fetchNeeded := fetchNeeded));
    KeysKept(c, st, st');
    forall x ensures Ok(c, st', TIGHT, x) { assert Ok(c, st, TIGHT, x); }
    forall x ensures SettledAt(st', {}, x) && PlanAt(c, st', {}, x) {
      assert SettledAt(st, {}, x) && PlanAt(c, st, {}, x);
    }
  }

  lemma RegisterKeepsQuiet(c: Context, st: State, e: Id)
    requires Quiet(c, st) && e in c.Ids() && !st.Buildable(e)
    ensures Quiet(c, Registered(st, e))
  {
    var st' := Registered(st, e);
    KeysKept(c, st, st');
    ZeroMeansReady(c.build, st.counters.buildUncached, st.counters.ready, st.book.owedBuild, e);
    forall x ensures Ok(c, st', TIGHT, x) { assert Ok(c, st, TIGHT, x); }
    forall x ensures SettledAt(st', {}, x) && PlanAt(c, st', {}, x) {
      assert SettledAt(st, {}, x) && PlanAt(c, st, {}, x);
    }
  }

  // ---------------------------------------------------------------- the beginning

  /** Nothing is known yet but the keys; in strict mode the strong key is the
      strict one.  The counters start at the lengths of the dependency lists. */
  function Initial(c: Context): State {
    State(
      if c.strictMode then c.strict else map[],
      Cache(map[], map[], {}, map[], {}),
      Counters({}, map x | x in c.p.g.runtime :: |c.p.g.runtime[x]|, map x | x in c.p.g.build :: |c.p.g.build[x]|),
      Plan({}, {}, {}, {}), {},
      Ledger({}, {}, {}, {}, Reasons(map[], map[]), {}, {}, {}, {}, multiset{}, multiset{}))
  }

  /** The keys of an element are those its project gives it, as far as they can be
      calculated; a cyclic project has none of its own, but nothing here depends on
      that. */
  ghost predicate KeysLoaded(c: Context) {
    && c.weak.Keys <= c.Ids() && c.strict.Keys <= c.Ids() && c.p.Shaped()
    && (forall x :: x in c.weak && x in c.p.g.build ==> NamesKnown(c.p, x))
    && (c.p.Valid() ==> forall x :: x in c.p.g.build ==>
          Lookup(c.weak, x) == WeakKey(c.generate, c.p, x) && Lookup(c.strict, x) == StrictKey(c.generate, c.p, x))
  }

  lemma InitialIsQuiet(c: Context, fetchNeeded: set<Id>)
    requires c.Valid() && KeysLoaded(c)
    requires forall x :: x in c.p.g.build ==> NoRepeats(c.p.g.build[x])
    requires forall x :: x in c.p.g.runtime ==> NoRepeats(c.p.g.runtime[x])
    ensures Quiet(c, Initial(c).(plan := Plan({}, {}, {}, fetchNeeded)))
  {
    var st := Initial(c).(plan := Plan({}, {}, {}, fetchNeeded));
    InitialCount(c.p.g.runtime, c.runtime, st.counters.runtimeUncached);
    InitialCount(c.p.g.build, c.build, st.counters.buildUncached);
    forall x ensures KeysAt(c, st, x) { assert LinkedAt(c.p.g.build, c.build, x); }
    forall x ensures Ok(c, st, TIGHT, x) && SettledAt(st, {}, x) && PlanAt(c, st, {}, x) {
      assert LinkedAt(c.p.g.build, c.build, x);
    }
  }

  // ---------------------------------------------------------------- events

  datatype Event =
    | Demanded(e: Id, scope: Scope)
    | ArtifactLoaded(e: Id, pull: bool, env: Surroundings)
    | LoadingDone(e: Id)
    | SourcesQueried(e: Id, cached: bool)
    | SourcesFetched(e: Id)
    | AssemblyDone(e: Id, a: Assembly)
    | BuildEnqueued(e: Id)

  /** What an event does to the record of a session. */
  ghost predicate Follows(st: State, event: Event, st': State) {
    && Advanced(st, st') && History(st, st')
    && st'.book.outstanding == OutstandingAfter(st.book.outstanding, event)
    && st'.book.why.requested == RequestedAfter(st.book.why.requested, event)
    && (event.Demanded? && event.e !in st.plan.required ==>
          event.e in st'.book.why.of && st'.book.why.of[event.e].scope == event.scope)
    && st'.plan.assembled == (if event.AssemblyDone? then st.plan.assembled + {event.e} else st.plan.assembled)
    && st'.plan.fetchNeeded == FetchNeededAfter(st.plan.fetchNeeded, event)
    && st'.book.succeeded == st.book.succeeded + (if Succeeds(event, st') then {event.e} else {})
    && (!event.ArtifactLoaded? && !event.AssemblyDone? ==> st'.cache.artifact == st.cache.artifact)
    && forall x :: x != event.e && x in st'.cache.artifact ==>
         x in st.cache.artifact && st'.cache.artifact[x] == st.cache.artifact[x]
  }

  /** The event loads an artifact of a successful build, or notes the end of a build. */
  predicate Succeeds(event: Event, st': State) {
    event.AssemblyDone? ||
    (&& event.ArtifactLoaded? && event.e in st'.cache.artifact
     && st'.cache.artifact[event.e].cached && st'.cache.artifact[event.e].success)
  }

  /** Loading begins with an attempt and ends when the main thread takes note. */
  function OutstandingAfter(outstanding: set<Id>, event: Event): set<Id> {
    match event
    case ArtifactLoaded(e, _, _) => outstanding + {e}
    case LoadingDone(e) => outstanding - {e}
    case _ => outstanding
  }

  /** The first demand of an element counts. */
  function RequestedAfter(requested: map<Id, Scope>, event: Event): map<Id, Scope> {
    if event.Demanded? && event.e !in requested then requested[event.e := event.scope] else requested
  }

  function FetchNeededAfter(fetchNeeded: set<Id>, event: Event): set<Id> {
    match event
    case SourcesFetched(e) => fetchNeeded - {e}
    case SourcesQueried(e, cached) => if cached then fetchNeeded - {e} else fetchNeeded + {e}
    case _ => fetchNeeded
  }

  lemma LoadingFollows(c: Context, st: State, e: Id, pull: bool, env: Surroundings, r: Loading)
    requires Quiet(c, st)
    ensures Follows(st, ArtifactLoaded(e, pull, env), AfterLoading(st, e, r))
  {
    assert EarnedAt(st.cache, st.book.succeeded, e);
    var st' := AfterLoading(st, e, r);
    forall x ensures AdvancedAt(st, st', x) && HistoryAt(st, st', x) { }
  }

  /** What the queues see to before an event takes place. */
  predicate Enabled(c: Context, cache: Cache, scheduled: set<Id>, event: Event) {
    match event
    case Demanded(e, _) => e in c.Ids()
    case ArtifactLoaded(e, pull, _) => e in c.weak && if pull then e in cache.pullPending else e !in cache.artifact
    case LoadingDone(e) => e in cache.artifact
    case SourcesQueried(e, _) => e !in scheduled
    case SourcesFetched(e) => true
    case AssemblyDone(e, a) => e in scheduled && (a.successful ==> a.stored.Some?)
    case BuildEnqueued(e) => e in c.Ids()
  }
}
