/** What holds of the elements of a session, element by element, and what each
    small change of state does to it. */
module SessionState {
  import opened Wrappers

  import opened Graphs
  import opened Dependencies
  import opened Readiness
  import opened CacheKeys

  /** What is fixed while a session runs: the loaded project, its dependencies in
      both directions, and the weak and strict keys, all calculated on loading. */
  datatype Context = Context(p: Loaded, generate: Dict -> Key, strictMode: bool, runtime: Links, build: Links,
                             weak: map<Id, Key>, strict: map<Id, Key>)
  {
    ghost predicate Valid() {
      && p.Shaped() && Injective(generate)
      && Linked(p.g.runtime, runtime) && Linked(p.g.build, build) && runtime.Valid() && build.Valid()
      && runtime.needs.Keys == build.needs.Keys
    }

    function Ids(): set<Id> { runtime.needs.Keys }

    /** The direct dependencies of an element in a scope. */
    function Needs(x: Id, scope: Scope): set<Id>
      requires x in runtime.needs && x in build.needs
    {
      (if scope.ALL? || scope.BUILD? then build.needs[x] else {}) +
      (if scope.ALL? || scope.RUN? then runtime.needs[x] else {})
    }
  }

  /** The artifact object of an element: whether it is in the local cache, and if
      so the strong key and build result stored in it. */
  datatype Artifact = Artifact(cached: bool, strong: Key, success: bool)

  /** Why an element is required: the scope it was first required with, the
      element that required it (none if an event did), and when that was. */
  datatype Why = Why(scope: Scope, parent: Option<Id>, when: nat)

  /** The elements that events required, each with the scope of the first event,
      and why each required element is. */
  datatype Reasons = Reasons(requested: map<Id, Scope>, of: map<Id, Why>)

  /** The artifact objects and what is known of them so far. */
  datatype Cache = Cache(artifact: map<Id, Artifact>, artifactKey: map<Id, Key>, knownSuccess: set<Id>,
                         buildResult: map<Id, bool>, pullPending: set<Id>)

  datatype Counters = Counters(ready: set<Id>, runtimeUncached: map<Id, int>, buildUncached: map<Id, int>)

  datatype Plan = Plan(required: set<Id>, scheduled: set<Id>, assembled: set<Id>, fetchNeeded: set<Id>)

  /** What only the proof keeps track of: keys adopted from cached artifacts;
      elements whose loading is not complete; notifications that are owed; why
      elements are required; elements that were scheduled when their strong key
      could not be calculated; elements that were passed over because their
      sources were missing when their last build dependency became ready; elements
      of which an artifact of a successful build was loaded, or which were
      assembled; and the history of the build queue's callbacks. */
  datatype Ledger = Ledger(
    adopted: set<Id>, outstanding: set<Id>, owedRuntime: Debts, owedBuild: Debts, why: Reasons,
    keyless: set<Id>, passedOver: set<Id>, succeeded: set<Id>, armed: set<Id>, registered: multiset<Id>,
    fired: multiset<Id>)

  datatype State = State(
    strong: map<Id, Key>,
    cache: Cache,
    counters: Counters,
    plan: Plan,
    waiting: set<Id>,
    book: Ledger
  ) {
    predicate HasKey(x: Id) {
      x in strong && strong[x] != ""
    }

    /** Whether the artifact is in the cache and of a successful build. */
    predicate Success(x: Id) {
      || x in cache.knownSuccess
      || (&& x in cache.artifact && cache.artifact[x].cached
          && if x in cache.buildResult then cache.buildResult[x] else cache.artifact[x].success)
    }

    /** All that readiness asks of the element itself. */
    predicate Good(x: Id) {
      x in cache.artifact && HasKey(x) && Success(x)
    }

    predicate Buildable(x: Id) {
      x in plan.scheduled && x !in plan.fetchNeeded && NothingToWaitFor(x)
    }

    predicate NothingToWaitFor(x: Id) {
      x in counters.buildUncached && counters.buildUncached[x] == 0
    }
  }

  /** What readiness asks of an element: an artifact object, a key that is no empty string,
      and success. */
  lemma GoodMeans(st: State, x: Id)
    ensures st.Good(x) <==> x in st.cache.artifact && x in st.strong && st.strong[x] != "" && st.Success(x)
  { }

  /** Elements whose own bookkeeping is in the middle of an update. */
  datatype Slack = Slack(unrecorded: set<Id>, unkeyed: set<Id>, unfired: set<Id>)

  const TIGHT := Slack({}, {}, {})

  // ---------------------------------------------------------------- per element

  /** The weak and strict keys are those of the loaded project, and a strong key
      is the strict key in strict mode, was adopted from a cached artifact, or was
      calculated from the strong keys of the BUILD scope. */
  ghost predicate KeysAt(c: Context, st: State, x: Id)
    requires c.Valid()
  {
    && (x in c.weak ==> x in c.p.g.build && NamesKnown(c.p, x))
    && (x in c.weak ==> c.p.Valid() ==> WeakKey(c.generate, c.p, x) == Some(c.weak[x]))
    && (x in c.strict ==> x in c.p.g.build && (c.p.Valid() ==> StrictKey(c.generate, c.p, x) == Some(c.strict[x])))
    && (x in st.strong ==>
          || x in st.book.adopted
          || (c.strictMode && x in c.strict && st.strong[x] == c.strict[x])
          || (x in c.p.g.build && x in c.weak
              && StrongKey(c.generate, c.p, st.strong, c.weak[x], x) == Some(st.strong[x])))
  }

  ghost predicate KeysExplained(c: Context, st: State)
    requires c.Valid()
  {
    forall x {:trigger KeysAt(c, st, x)} :: KeysAt(c, st, x)
  }

  predicate KeyIsExpected(c: Context, st: State, x: Id) {
    && x in st.cache.artifact && st.cache.artifact[x].cached && x !in st.cache.pullPending
    && (x in st.plan.scheduled || (!c.strictMode && x !in st.book.outstanding))
  }

  ghost predicate KeyIsMissed(st: State, x: Id) {
    x in st.book.keyless && (st.NothingToWaitFor(x) ==> x in st.book.passedOver)
  }

  ghost predicate Ok(c: Context, st: State, s: Slack, x: Id)
    requires c.Valid()
  {
    // a ready element has everything, and so have its runtime dependencies
    && (x in st.counters.ready ==>
          && x in c.Ids() && c.runtime.needs[x] <= st.counters.ready
          && x in st.cache.artifact && st.HasKey(x) && x in st.cache.knownSuccess)
    // the order in which an element goes through its stages
    && (x in c.weak || x in c.strict || x in st.strong ==> x in c.Ids())
    && (x in st.cache.artifact ==> x in c.weak)
    && (x in st.cache.buildResult || x in st.cache.knownSuccess ==> x in st.cache.artifact)
    && (x in st.strong && (x !in st.cache.artifact || x in st.cache.pullPending) ==> c.strictMode && x in c.strict)
    && (x in st.plan.scheduled ==> x in st.cache.artifact && x !in st.cache.pullPending)
    && (x in st.plan.assembled ==> x in st.plan.scheduled)
    && (x in st.plan.scheduled && x !in st.plan.assembled ==> !st.Success(x))
    && (c.strictMode && x in c.strict ==> x in st.strong && st.strong[x] == c.strict[x])
    // a key is adopted from a cached artifact only
    && (x in st.book.adopted ==>
          && x in st.strong && !(c.strictMode && x in c.strict)
          && x in st.cache.artifact && (st.cache.artifact[x].cached || x in st.plan.assembled))
    // the artifact object knows the strong key of its element
    && (x in st.strong && x in st.cache.artifact && x !in s.unrecorded ==>
          x in st.cache.artifactKey && st.cache.artifactKey[x] == st.strong[x])
    // a cached artifact brings its key, once loading is complete
    && (KeyIsExpected(c, st, x) && x !in s.unkeyed ==> x in st.strong)
    // a scheduled element without a key was scheduled without, and if it waits for
    // no dependency any more, was passed over
    && (x in st.book.keyless ==> x in st.plan.scheduled)
    && (x in st.book.passedOver ==> x in st.plan.scheduled && st.NothingToWaitFor(x))
    && (x in st.plan.scheduled && x !in st.strong && x !in s.unkeyed ==> KeyIsMissed(st, x))
    // and nobody calculates the key before it is assembled
    && (x in st.book.keyless && x !in st.plan.assembled && (x in st.plan.fetchNeeded || x in st.book.passedOver) ==>
          x !in st.strong)
    // no wake-up is lost: what waits for dependencies only still has some to wait for
    && (x in st.book.armed ==> x in st.waiting)
    && (x in st.book.armed && x !in s.unfired ==>
          && x in st.plan.scheduled && x !in st.plan.fetchNeeded
          && x in st.counters.buildUncached && st.counters.buildUncached[x] > 0)
    // callbacks fire at most once per registration, with everything in place
    && st.book.fired[x] + (if x in st.waiting then 1 else 0) <= st.book.registered[x]
    && (st.book.fired[x] > 0 ==>
          && x in st.strong && x in st.plan.scheduled
          && x in st.counters.buildUncached && st.counters.buildUncached[x] == 0)
  }

  /** Success is known only of what was loaded as the artifact of a successful build,
      or assembled. */
  ghost predicate EarnedAt(cache: Cache, succeeded: set<Id>, x: Id) {
    && (x in cache.knownSuccess ==> x in succeeded)
    && (x in cache.buildResult && cache.buildResult[x] ==> x in succeeded)
    && (x in cache.artifact && cache.artifact[x].cached && cache.artifact[x].success ==> x in succeeded)
  }

  ghost predicate Earned(cache: Cache, succeeded: set<Id>) {
    forall x {:trigger EarnedAt(cache, succeeded, x)} :: EarnedAt(cache, succeeded, x)
  }

  ghost predicate Inv(c: Context, st: State, s: Slack) {
    && c.Valid()
    && Earned(st.cache, st.book.succeeded)
    && Counted(c.runtime, st.counters.runtimeUncached, st.counters.ready, st.book.owedRuntime)
    && Proper(c.runtime, st.counters.ready, st.book.owedRuntime)
    && Counted(c.build, st.counters.buildUncached, st.counters.ready, st.book.owedBuild)
    && Proper(c.build, st.counters.ready, st.book.owedBuild)
    && KeysExplained(c, st)
    && forall x {:trigger Ok(c, st, s, x)} :: Ok(c, st, s, x)
  }

  /** Whatever can be ready is, unless its loading is not complete. */
  ghost predicate SettledAt(st: State, open: set<Id>, x: Id) {
    (&& x !in open && x !in st.book.outstanding
     && x in st.counters.runtimeUncached && st.counters.runtimeUncached[x] == 0
     && st.Good(x)) ==>
      x in st.counters.ready
  }

  ghost predicate Settled(st: State, open: set<Id>) {
    forall x {:trigger SettledAt(st, open, x)} :: SettledAt(st, open, x)
  }

  /** What a cascade of notifications changes, and how. */
  ghost predicate GrownAt(st: State, st': State, x: Id) {
    && (x in st.strong ==> x in st'.strong && st'.strong[x] == st.strong[x])
    && st'.Success(x) == st.Success(x)
    && (x in st'.book.armed ==> x in st.book.armed)
    && (x in st.cache.knownSuccess ==> x in st'.cache.knownSuccess)
    && (st.NothingToWaitFor(x) ==> st'.NothingToWaitFor(x))
  }

  ghost predicate Grown(st: State, st': State) {
    && st'.cache.artifact == st.cache.artifact && st'.cache.pullPending == st.cache.pullPending
    && st'.book.outstanding == st.book.outstanding && st'.book.registered == st.book.registered
    && st'.book.succeeded == st.book.succeeded
    && st.counters.ready <= st'.counters.ready && st.strong.Keys <= st'.strong.Keys
    && forall x {:trigger GrownAt(st, st', x)} :: GrownAt(st, st', x)
  }

  lemma GrownThen(st: State, st': State, st'': State)
    requires Grown(st, st') && Grown(st', st'')
    ensures Grown(st, st'')
  {
    forall x ensures GrownAt(st, st'', x) { assert GrownAt(st, st', x) && GrownAt(st', st'', x); }
  }

  /** An element is passed over if its last build dependency becomes ready while
      its sources are missing. */
  predicate PassesOver(st: State, st': State, x: Id) {
    x in st.plan.scheduled && x in st.plan.fetchNeeded && !st.NothingToWaitFor(x) && st'.NothingToWaitFor(x)
  }

  ghost predicate CascadedAt(st: State, st': State, x: Id) {
    x in st'.book.passedOver <==> x in st.book.passedOver || PassesOver(st, st', x)
  }

  /** A cascade leaves the plan alone. */
  ghost predicate Cascaded(st: State, st': State) {
    && Grown(st, st') && st'.plan == st.plan && st'.book.why == st.book.why && st'.book.keyless == st.book.keyless
    && forall x {:trigger CascadedAt(st, st', x)} :: CascadedAt(st, st', x)
  }

  lemma CascadedSelf(st: State)
    ensures Cascaded(st, st)
  { }

  lemma CascadedThen(st: State, st': State, st'': State)
    requires Cascaded(st, st') && Cascaded(st', st'')
    ensures Cascaded(st, st'')
  {
    GrownThen(st, st', st'');
    forall x ensures CascadedAt(st, st'', x) {
      assert CascadedAt(st, st', x) && CascadedAt(st', st'', x) && GrownAt(st, st', x) && GrownAt(st', st'', x);
    }
  }

  lemma KeysKept(c: Context, st: State, st': State)
    requires c.Valid() && KeysExplained(c, st)
    requires st'.strong == st.strong && st'.book.adopted == st.book.adopted
    ensures KeysExplained(c, st')
  {
    forall x ensures KeysAt(c, st', x) { assert KeysAt(c, st, x); }
  }

  lemma KeyAdded(c: Context, st: State, e: Id, key: Key, adopt: bool)
    requires c.Valid() && KeysExplained(c, st) && e !in st.strong
    requires adopt ||
      (e in c.p.g.build && e in c.weak && StrongKey(c.generate, c.p, st.strong, c.weak[e], e) == Some(key))
    ensures KeysExplained(c, Rekeyed(st, e, key, adopt))
  {
    var st' := Rekeyed(st, e, key, adopt);
    forall y ensures KeysAt(c, st', y) {
      assert KeysAt(c, st, y);
      if y in st'.strong && y !in st'.book.adopted && !(c.strictMode && y in c.strict && st'.strong[y] == c.strict[y]) {
        StrongKeyStays(c.generate, c.p, st.strong, st'.strong, c.weak[y], y);
      }
    }
  }

  // ---------------------------------------------------------------- steps

  /** An element becomes ready and owes notifications to all that need it. */
  function MadeReady(c: Context, st: State, e: Id): State
    requires e in c.runtime.neededBy && e in c.build.neededBy
  {
    st.(counters := st.counters.(ready := st.counters.ready + {e}),
        book := st.book.(owedRuntime := st.book.owedRuntime + DebtsOf(e, c.runtime.neededBy[e]),
                         owedBuild := st.book.owedBuild + DebtsOf(e, c.build.neededBy[e])))
  }

  lemma BecomesReady(c: Context, st: State, s: Slack, e: Id)
    requires Inv(c, st, s) && Settled(st, {e}) && e in c.Ids() && e !in st.counters.ready
    requires e in st.counters.runtimeUncached && st.counters.runtimeUncached[e] == 0 && st.Good(e)
    requires e in st.cache.knownSuccess
    ensures e in c.runtime.neededBy && e in c.build.neededBy
    ensures Inv(c, MadeReady(c, st, e), s) && Settled(MadeReady(c, st, e), {}) && Cascaded(st, MadeReady(c, st, e))
    ensures st.book.owedRuntime !! DebtsOf(e, c.runtime.neededBy[e])
    ensures st.book.owedBuild !! DebtsOf(e, c.build.neededBy[e])
  {
    var st' := MadeReady(c, st, e);
    MarkReady(c.runtime, st.counters.runtimeUncached, st.counters.ready, st.book.owedRuntime, e);
    MarkReady(c.build, st.counters.buildUncached, st.counters.ready, st.book.owedBuild, e);
    ZeroMeansReady(c.runtime, st.counters.runtimeUncached, st.counters.ready, st.book.owedRuntime, e);
    KeysKept(c, st, st');
    forall x ensures Ok(c, st', s, x) { assert Ok(c, st, s, x); }
    forall x ensures SettledAt(st', {}, x) && GrownAt(st, st', x) && CascadedAt(st, st', x) {
      assert SettledAt(st, {e}, x);
    }
  }

  /** e tells x that it is ready. */
  function ToldRuntime(st: State, e: Id, x: Id): State
    requires x in st.counters.runtimeUncached
  {
    st.(counters :=
          st.counters.(runtimeUncached := st.counters.runtimeUncached[x := st.counters.runtimeUncached[x] - 1]),
        book := st.book.(owedRuntime := st.book.owedRuntime - {(e, x)}))
  }

  lemma TellsRuntime(c: Context, st: State, s: Slack, e: Id, x: Id)
    requires Inv(c, st, s) && Settled(st, {}) && (e, x) in st.book.owedRuntime
    ensures x in st.counters.runtimeUncached && st.counters.runtimeUncached[x] > 0 && x in c.Ids()
    ensures var st' := ToldRuntime(st, e, x);
            && Inv(c, st', s) && Settled(st', {x}) && Cascaded(st, st')
            && (st'.counters.runtimeUncached[x] != 0 ==> Settled(st', {}))
  {
    Notify(c.runtime, st.counters.runtimeUncached, st.counters.ready, st.book.owedRuntime, e, x);
    var st' := ToldRuntime(st, e, x);
    KeysKept(c, st, st');
    forall y
      ensures Ok(c, st', s, y) && SettledAt(st', {x}, y) && GrownAt(st, st', y) && CascadedAt(st, st', y)
      ensures st'.counters.runtimeUncached[x] != 0 ==> SettledAt(st', {}, y)
    {
      assert Ok(c, st, s, y) && SettledAt(st, {}, y);
    }
  }

  function ToldBuild(st: State, e: Id, x: Id): State
    requires x in st.counters.buildUncached
  {
    var left := st.counters.buildUncached[x] - 1;
    st.(counters := st.counters.(buildUncached := st.counters.buildUncached[x := left]),
        book := st.book.(
          owedBuild := st.book.owedBuild - {(e, x)},
          passedOver := if left == 0 && x in st.plan.scheduled && x in st.plan.fetchNeeded then st.book.passedOver + {x}
                        else st.book.passedOver))
  }

  lemma ToldIsSettled(st: State, e: Id, x: Id)
    requires Settled(st, {}) && x in st.counters.buildUncached && st.counters.buildUncached[x] > 0
    ensures Settled(ToldBuild(st, e, x), {}) && Cascaded(st, ToldBuild(st, e, x))
  {
    var st' := ToldBuild(st, e, x);
    forall y ensures SettledAt(st', {}, y) && GrownAt(st, st', y) && CascadedAt(st, st', y) {
      assert SettledAt(st, {}, y);
    }
  }

  lemma TellsBuild(c: Context, st: State, s: Slack, e: Id, x: Id)
    requires Inv(c, st, s) && Settled(st, {}) && (e, x) in st.book.owedBuild
    ensures x in st.counters.buildUncached && st.counters.buildUncached[x] > 0 && x in c.Ids()
    ensures var st' := ToldBuild(st, e, x);
            && Inv(c, st', s.(unkeyed := s.unkeyed + {x}, unfired := s.unfired + {x}))
            && Settled(st', {})
            && Cascaded(st, st')
            && (st'.Buildable(x) ==> x !in st'.book.passedOver)
            && (!st'.Buildable(x) ==> Inv(c, st', s))
  {
    Notify(c.build, st.counters.buildUncached, st.counters.ready, st.book.owedBuild, e, x);
    var st' := ToldBuild(st, e, x);
    var s' := s.(unkeyed := s.unkeyed + {x}, unfired := s.unfired + {x});
    KeysKept(c, st, st');
    ToldIsSettled(st, e, x);
    assert Ok(c, st, s, x) && CountedAt(c.build, st'.counters.buildUncached, st'.counters.ready, st'.book.owedBuild, x);
    forall y ensures Ok(c, st', s', y) { assert Ok(c, st, s, y); }
    if !st'.Buildable(x) {
      forall y ensures Ok(c, st', s, y) { assert Ok(c, st, s, y); }
    }
  }

  lemma BuildableIsComplete(c: Context, st: State, s: Slack, x: Id)
    requires Inv(c, st, s) && st.Buildable(x)
    ensures x in c.Ids() && x in st.cache.artifact && x in c.weak && x !in st.cache.pullPending
    ensures c.build.needs[x] <= st.counters.ready
    ensures forall d :: d in c.build.needs[x] ==> (d, x) !in st.book.owedBuild
  {
    assert Ok(c, st, s, x);
    ZeroMeansReady(c.build, st.counters.buildUncached, st.counters.ready, st.book.owedBuild, x);
  }

  /** The callback of a buildable element is called and forgotten. */
  function CalledBack(st: State, x: Id): State {
    st.(waiting := if x in st.waiting then st.waiting - {x} else st.waiting,
        book := st.book.(armed := st.book.armed - {x},
                         fired := if x in st.waiting then st.book.fired[x := st.book.fired[x] + 1] else st.book.fired))
  }

  lemma CallsBack(c: Context, st: State, s: Slack, x: Id)
    requires Inv(c, st, s.(unfired := s.unfired + {x})) && Settled(st, {}) && st.Buildable(x) && x in st.strong
    ensures Inv(c, CalledBack(st, x), s) && Settled(CalledBack(st, x), {}) && Cascaded(st, CalledBack(st, x))
  {
    var st' := CalledBack(st, x);
    KeysKept(c, st, st');
    forall y ensures Ok(c, st', s, y) && SettledAt(st', {}, y) && GrownAt(st, st', y) && CascadedAt(st, st', y) {
      assert Ok(c, st, s.(unfired := s.unfired + {x}), y) && SettledAt(st, {}, y);
    }
  }

  /** The strong key an element has now that its key is looked at: the one it has,
      the one of its cached artifact, or if it is or was to be built, the one
      calculated from its BUILD scope. */
  ghost function KeyNow(c: Context, st: State, e: Id): Option<Key>
    requires c.Valid()
  {
    if e in st.strong then Some(st.strong[e])
    else if e in st.cache.pullPending || e !in st.cache.artifact then None
    else if st.cache.artifact[e].cached then Some(st.cache.artifact[e].strong)
    else if (e in st.plan.scheduled || e in st.plan.assembled) && e in c.weak && e in c.p.g.build
    then StrongKey(c.generate, c.p, st.strong, c.weak[e], e)
    else None
  }

  function Rekeyed(st: State, e: Id, key: Key, adopt: bool): State {
    st.(strong := st.strong[e := key],
        book := st.book.(adopted := if adopt then st.book.adopted + {e} else st.book.adopted))
  }

  /** A key that was missed is not calculated before the element is assembled. */
  ghost predicate MayBeKeyed(st: State, e: Id) {
    e in st.book.keyless && e !in st.plan.assembled ==> e !in st.plan.fetchNeeded && e !in st.book.passedOver
  }

  /** Looking at the key of an element now keeps the record of missed keys right. */
  ghost predicate MayBeUpdated(c: Context, st: State, e: Id)
    requires c.Valid()
  {
    e in st.strong ||
    if KeyNow(c, st, e).Some? then MayBeKeyed(st, e) else e in st.plan.scheduled ==> KeyIsMissed(st, e)
  }

  lemma KeyIsSettled(c: Context, st: State, open: set<Id>, e: Id, key: Key, adopt: bool)
    requires Settled(st, open) && open <= {e} && MayBeKeyed(st, e)
    requires c.Valid() && e !in st.strong && KeysExplained(c, Rekeyed(st, e, key, adopt))
    ensures Settled(Rekeyed(st, e, key, adopt), {e}) && Cascaded(st, Rekeyed(st, e, key, adopt))
  {
    var st' := Rekeyed(st, e, key, adopt);
    forall y ensures SettledAt(st', {e}, y) && GrownAt(st, st', y) && CascadedAt(st, st', y) {
      assert SettledAt(st, open, y);
    }
  }

  /** The strong key of an element becomes known. */
  lemma SetsKey(c: Context, st: State, s: Slack, open: set<Id>, e: Id, key: Key, adopt: bool)
    requires Inv(c, st, s.(unkeyed := s.unkeyed + {e})) && Settled(st, open) && open <= {e} && MayBeKeyed(st, e)
    requires e !in st.strong && e in st.cache.artifact && e !in st.cache.pullPending
    requires (adopt ==> st.cache.artifact[e].cached)
    requires KeysExplained(c, Rekeyed(st, e, key, adopt))
    ensures var st' := Rekeyed(st, e, key, adopt);
            Inv(c, st', s.(unrecorded := s.unrecorded + {e})) && Settled(st', {e}) && Cascaded(st, st')
  {
    var st' := Rekeyed(st, e, key, adopt);
    var s0, s1 := s.(unkeyed := s.unkeyed + {e}), s.(unrecorded := s.unrecorded + {e});
    KeyIsSettled(c, st, open, e, key, adopt);
    assert Ok(c, st, s0, e);
    forall y ensures Ok(c, st', s1, y) { assert Ok(c, st, s0, y); }
  }

  /** No key could be set: the element has its key, or misses it. */
  lemma LeavesKey(c: Context, st: State, s: Slack, e: Id)
    requires Inv(c, st, s.(unkeyed := s.unkeyed + {e}))
    requires e in st.strong || (KeyNow(c, st, e).None? && (e in st.plan.scheduled ==> KeyIsMissed(st, e)))
    ensures Inv(c, st, s)
  {
    forall y ensures Ok(c, st, s, y) { assert Ok(c, st, s.(unkeyed := s.unkeyed + {e}), y); }
  }

  lemma RecordsKey(c: Context, st: State, s: Slack, open: set<Id>, e: Id)
    requires Inv(c, st, s.(unrecorded := s.unrecorded + {e})) && Settled(st, open) && e in st.strong
    ensures var st' := st.(cache := st.cache.(artifactKey := st.cache.artifactKey[e := st.strong[e]]));
            Inv(c, st', s) && Settled(st', open) && Cascaded(st, st')
  {
    var st' := st.(cache := st.cache.(artifactKey := st.cache.artifactKey[e := st.strong[e]]));
    KeysKept(c, st, st');
    EarnedKept(st.cache, st'.cache, st.book.succeeded);
    forall y ensures Ok(c, st', s, y) { assert Ok(c, st, s.(unrecorded := s.unrecorded + {e}), y); }
    forall y ensures SettledAt(st', open, y) && GrownAt(st, st', y) && CascadedAt(st, st', y) {
      assert SettledAt(st, open, y);
    }
  }

  lemma EarnedKept(cache: Cache, cache': Cache, succeeded: set<Id>)
    requires Earned(cache, succeeded) && cache'.artifact == cache.artifact
    requires cache'.knownSuccess == cache.knownSuccess && cache'.buildResult == cache.buildResult
    ensures Earned(cache', succeeded)
  {
    forall x ensures EarnedAt(cache', succeeded, x) { assert EarnedAt(cache, succeeded, x); }
  }

  /** Remembering the build result changes what is known, not what is the case. */
  lemma Remembers(c: Context, st: State, st': State, s: Slack, open: set<Id>)
    requires Inv(c, st, s) && Settled(st, open)
    requires st' ==
      st.(cache := st.cache.(knownSuccess := st'.cache.knownSuccess, buildResult := st'.cache.buildResult))
    requires st.cache.knownSuccess <= st'.cache.knownSuccess <= st.cache.knownSuccess + st.cache.artifact.Keys
    requires st'.cache.buildResult.Keys <= st.cache.buildResult.Keys + st.cache.artifact.Keys
    requires forall x {:trigger st'.Success(x)} :: st'.Success(x) == st.Success(x)
    requires Earned(st'.cache, st.book.succeeded)
    ensures Inv(c, st', s) && Settled(st', open) && Cascaded(st, st')
  {
    KeysKept(c, st, st');
    forall y ensures Ok(c, st', s, y) && SettledAt(st', open, y) && GrownAt(st, st', y) && CascadedAt(st, st', y) {
      assert Ok(c, st, s, y) && SettledAt(st, open, y);
      assert st'.Success(y) == st.Success(y);
    }
  }

  /** What was never loaded as successful, nor assembled, is not cached successfully. */
  lemma UnearnedFails(c: Context, st: State, s: Slack, x: Id)
    requires Inv(c, st, s) && x !in st.book.succeeded
    ensures !st.Success(x) && x !in st.counters.ready
  {
    assert EarnedAt(st.cache, st.book.succeeded, x) && Ok(c, st, s, x);
  }

  /** The remembered answer comes first, then the remembered result, then the one that
      is recorded in the artifact. */
  lemma SuccessMeans(st: State, x: Id)
    ensures x in st.cache.knownSuccess ==> st.Success(x)
    ensures st.Success(x) && x !in st.cache.knownSuccess ==> x in st.cache.artifact && st.cache.artifact[x].cached
    ensures x !in st.cache.knownSuccess && x in st.cache.buildResult && x in st.cache.artifact ==>
      (st.Success(x) <==> st.cache.artifact[x].cached && st.cache.buildResult[x])
    ensures x !in st.cache.knownSuccess && x !in st.cache.buildResult && x in st.cache.artifact ==>
      (st.Success(x) <==> st.cache.artifact[x].cached && st.cache.artifact[x].success)
  { }

  /** With all build dependencies ready, everything in the BUILD scope is ready,
      and the strong key can be calculated. */
  lemma ReadyScopeHasKey(c: Context, st: State, s: Slack, e: Id)
    requires Inv(c, st, s) && e in c.Ids() && e in c.weak && c.build.needs[e] <= st.counters.ready
    ensures e in c.p.g.build
    ensures forall d :: d in BuildScope(c.p.g, e) ==> d in st.counters.ready
    ensures StrongKey(c.generate, c.p, st.strong, c.weak[e], e).Some?
  {
    assert LinkedAt(c.p.g.build, c.build, e) && KeysAt(c, st, e);
    BuildScopeIsBuildDependencies(c.p.g, e);
    forall d | d in BuildScope(c.p.g, e) ensures d in st.counters.ready && d in st.strong && st.strong[d] != "" {
      var b :| b in c.p.g.build[e] && Reaches(c.p.g.runtime, b, d);
      assert b in c.build.needs[e];
      forall x, y | x in st.counters.ready && DependsOn(c.p.g.runtime, x, y) ensures y in st.counters.ready {
        assert Ok(c, st, s, x) && LinkedAt(c.p.g.runtime, c.runtime, x) && y in c.runtime.needs[x];
      }
      ClosedSetKeepsReached(c.p.g.runtime, st.counters.ready, b, d);
      assert Ok(c, st, s, d);
    }
    StrongKeyKnown(c.generate, c.p, st.strong, c.weak[e], e);
  }

  /** Once all build dependencies of an element to be built are ready, its key is due. */
  lemma KeyIsDue(c: Context, st: State, s: Slack, e: Id)
    requires Inv(c, st, s) && e in st.plan.scheduled && st.NothingToWaitFor(e)
    ensures KeyNow(c, st, e).Some?
  {
    assert Ok(c, st, s, e);
    ZeroMeansReady(c.build, st.counters.buildUncached, st.counters.ready, st.book.owedBuild, e);
    ReadyScopeHasKey(c, st, s, e);
  }

  lemma SettledWith(st: State, e: Id)
    requires Settled(st, {e}) && SettledAt(st, {}, e)
    ensures Settled(st, {})
  {
    forall x ensures SettledAt(st, {}, x) { assert SettledAt(st, {e}, x); }
  }

  lemma StillNotGood(st: State, st': State, e: Id)
    requires Settled(st', {e}) && Cascaded(st, st') && !st.Success(e)
    ensures Settled(st', {})
  {
    assert GrownAt(st, st', e);
    SettledWith(st', e);
  }

  lemma SettledMore(st: State, open: set<Id>)
    requires Settled(st, {})
    ensures Settled(st, open)
  {
    forall x ensures SettledAt(st, open, x) { assert SettledAt(st, {}, x); }
  }

  /** Once an element's build dependencies are ready they stay ready. */
  lemma StaysBuildable(st: State, st': State, x: Id)
    requires st.Buildable(x) && Cascaded(st, st')
    ensures st'.Buildable(x)
  {
    assert GrownAt(st, st', x);
  }
}
