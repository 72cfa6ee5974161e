/** A run in which an element becomes buildable without a strong key. */
module SessionRace {
  import opened Wrappers

  import opened Graphs
  import opened Dependencies
  import opened Readiness
  import opened CacheKeys
  import opened SessionState
  import opened SessionPlan
  import opened SessionEvents
  import opened Sessions
  import opened SessionRuns
  import opened SessionResults

  /** Element 1 builds on element 0. */
  const APP := 1
  const BASE := 0

  function Example(): Loaded {
    Loaded(Project(map[BASE := [], APP := [BASE]], map[BASE := [], APP := []]),
      map[BASE := Info("p", "base", "b", true, false, {}), APP := Info("p", "app", "a", true, false, {})])
  }

  const OPTIONS := Options(false, false, true, false)
  const UNAVAILABLE := Surroundings(None, NotAvailable, None, NotAvailable, false, true, false)

  lemma NothingBelow(es: Edges, a: Id, x: Id)
    requires forall y :: !DependsOn(es, a, y)
    ensures Reaches(es, a, x) ==> x == a
  {
    if Reaches(es, a, x) { ClosedSetKeepsReached(es, {a}, a, x); }
  }

  lemma ExampleIsValid()
    ensures Example().Valid() && DependenciesFirst(Example().g.All(), {}, [BASE, APP])
    ensures Elements([BASE, APP]) == Example().g.build.Keys
  {
    var es := Example().g.All();
    assert es[BASE] == [] && es[APP] == [BASE];
    forall x, y | DependsOn(es, x, y) ensures x == APP && y == BASE { }
    forall a, b | DependsOn(es, a, b) ensures !Reaches(es, b, a) { NothingBelow(es, b, a); }
    var order := [BASE, APP];
    forall i, y | 0 <= i < |order| && DependsOn(es, order[i], y) ensures y in order[..i] {
      assert i == 1 && order[..i][0] == BASE;
    }
  }

  lemma KeysOfExample(generate: Dict -> Key)
    requires Injective(generate)
    ensures Example().Valid()
    ensures WeakKey(generate, Example(), BASE).Some? && WeakKey(generate, Example(), APP).Some?
    ensures BASE in BuildScope(Example().g, APP)
  {
    ExampleIsValid();
    var p := Example();
    BuildScopeIsBuildDependencies(p.g, APP);
    ReachesSelf(p.g.runtime, BASE);
    assert BASE in p.g.build[APP];
    WeakKeyOfResolved(generate, p, BASE);
    WeakKeyOfResolved(generate, p, APP);
  }

  /** The pull of APP finds nothing, while BASE is still to be pulled. */
  ghost predicate Pulling(s: Session)
    reads s
  {
    && Quiet(s.c, s.View()) && !s.c.strictMode && s.c.p == Example() && {BASE, APP} <= s.c.weak.Keys
    && BASE !in s.cache.artifact && BASE in s.cache.pullPending && APP in s.plan.fetchNeeded
    && APP in s.cache.artifact && !s.cache.artifact[APP].cached && !s.View().Success(APP) && APP !in s.cache.pullPending
    && APP !in s.plan.assembled
  }

  lemma AppHasNoKey(c: Context, st: State)
    requires Quiet(c, st) && !c.strictMode && c.p == Example() && Injective(c.generate) && BASE in st.cache.pullPending
    requires APP in st.cache.artifact && !st.cache.artifact[APP].cached && APP !in st.plan.assembled
    ensures APP !in st.strong
  {
    KeysOfExample(c.generate);
    assert Ok(c, st, TIGHT, APP) && Ok(c, st, TIGHT, BASE) && KeysAt(c, st, APP);
    assert BASE !in st.strong;
    var entries, ds := StrongEntries(c.p, st.strong, APP), BuildScope(c.p.g, APP);
    var i :| 0 <= i < |ds| && ds[i] == BASE;
    assert !Truthy(entries[i][2]) && !AllTruthy(entries[i]) && !AllKnown(entries);
  }

  lemma KeysAreLoaded(generate: Dict -> Key, weak: map<Id, Key>)
    requires Injective(generate) && Example().Valid()
    requires forall x :: x in Example().g.build ==> Lookup(weak, x) == WeakKey(generate, Example(), x)
    ensures {BASE, APP} <= weak.Keys
  {
    KeysOfExample(generate);
    assert Lookup(weak, BASE).Some? && Lookup(weak, APP).Some?;
  }

  method Load(generate: Dict -> Key) returns (s: Session)
    requires Injective(generate)
    ensures fresh(s) && s.c.generate == generate && !s.c.strictMode && s.c.p == Example()
    ensures {BASE, APP} <= s.c.weak.Keys
    ensures Quiet(s.c, s.View()) && s.View() == Initial(s.c).(plan := Plan({}, {}, {}, Example().g.build.Keys))
  {
    ExampleIsValid();
    s := Open(Example(), generate, false, [BASE, APP]);
    KeysAreLoaded(generate, s.c.weak);
  }

  method PullApp(s: Session)
    requires Quiet(s.c, s.View()) && s.View() == Initial(s.c).(plan := Plan({}, {}, {}, Example().g.build.Keys))
    requires !s.c.strictMode && s.c.p == Example() && {BASE, APP} <= s.c.weak.Keys
    modifies s
    ensures Pulling(s)
  {
    var failed := s.LoadArtifact(BASE, false, OPTIONS, UNAVAILABLE);
    assert s.cache.pullPending == {BASE} && s.cache.artifact == map[];
    failed := s.LoadArtifact(APP, false, OPTIONS, UNAVAILABLE);
    assert s.cache.pullPending == {BASE, APP} && s.cache.artifact == map[];
    failed := s.LoadArtifact(APP, true, OPTIONS, UNAVAILABLE);
  }

  /** APP is required and scheduled, without a key: that of BASE is unknown. */
  method ScheduleApp(s: Session)
    requires Pulling(s)
    modifies s
    ensures Pulling(s) && APP in s.book.keyless
  {
    assert Ok(s.c, s.View(), TIGHT, APP);
    s.Require(APP, RUN);
    s.LoadArtifactDone(APP);
    AppHasNoKey(s.c, s.View());
    assert PlanAt(s.c, s.View(), {}, APP) && Ok(s.c, s.View(), TIGHT, APP);
  }

  /** In non-strict mode, BASE arrives after APP was scheduled, and the sources of
      APP arrive after BASE: APP is ready to be built, and its strong key is and
      stays unknown until it is assembled. */
  method BuildableWithoutKey(generate: Dict -> Key) returns (s: Session)
    requires Injective(generate)
    ensures Quiet(s.c, s.View()) && s.View().Buildable(APP) && APP !in s.strong
    ensures APP in s.book.keyless && APP in s.book.passedOver && APP !in s.plan.assembled
  {
    s := Load(generate);
    PullApp(s);
    ScheduleApp(s);
    PullBase(s);
    NothingLeft(s.c, s.View());
    s.FetchDone(APP);
    FetchLeavesKeyUnknown(s.c, s.View(), APP);
  }

  lemma NothingLeft(c: Context, st: State)
    requires Quiet(c, st) && c.p == Example() && BASE in st.counters.ready
    requires APP in st.book.keyless && APP in st.plan.fetchNeeded && APP !in st.plan.assembled
    ensures st.NothingToWaitFor(APP) && APP in st.plan.scheduled && APP !in st.strong && APP in st.book.passedOver
  {
    assert Ok(c, st, TIGHT, APP);
    assert LinkedAt(c.p.g.build, c.build, APP);
    CountersCountUnready(c, st, APP);
    assert c.build.needs[APP] - st.counters.ready == {};
  }

  method PullBase(s: Session)
    requires Pulling(s) && APP in s.book.keyless
    modifies s
    ensures Quiet(s.c, s.View()) && s.c.p == Example() && BASE in s.counters.ready
    ensures APP in s.book.keyless && APP in s.plan.fetchNeeded && APP !in s.plan.assembled
  {
    var env := UNAVAILABLE.(weakPull := Pulled(Stored("key", true)));
    assert Ok(s.c, s.View(), TIGHT, BASE);
    var failed := s.LoadArtifact(BASE, true, OPTIONS, env);
    s.LoadArtifactDone(BASE);
    BaseIsReady(s.c, s.View());
  }

  lemma BaseIsReady(c: Context, st: State)
    requires Quiet(c, st) && c.p == Example() && BASE !in st.book.outstanding && st.Good(BASE)
    ensures BASE in st.counters.ready
  {
    assert SettledAt(st, {}, BASE) && Ok(c, st, TIGHT, BASE) && LinkedAt(c.p.g.runtime, c.runtime, BASE);
    CountersCountUnready(c, st, BASE);
  }
}
