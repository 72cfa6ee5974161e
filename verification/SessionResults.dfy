/** What follows for every state that a run of events can leave behind. */
module SessionResults {
  import opened Wrappers

  import opened Graphs
  import opened Dependencies
  import opened Readiness
  import opened CacheKeys
  import opened SessionState
  import opened SessionPlan
  import opened SessionEvents

  // ---------------------------------------------------------------- readiness

  /** Between events, the counters are the numbers of dependencies that are not ready. */
  lemma CountersCountUnready(c: Context, st: State, x: Id)
    requires Quiet(c, st) && x in c.Ids()
    ensures x in st.counters.runtimeUncached
    ensures st.counters.runtimeUncached[x] == |c.runtime.needs[x] - st.counters.ready|
    ensures x in st.counters.buildUncached && st.counters.buildUncached[x] == |c.build.needs[x] - st.counters.ready|
  {
    assert CountedAt(c.runtime, st.counters.runtimeUncached, st.counters.ready, {}, x);
    assert CountedAt(c.build, st.counters.buildUncached, st.counters.ready, {}, x);
    assert Unready(c.runtime, x, st.counters.ready, {}) == c.runtime.needs[x] - st.counters.ready;
    assert Unready(c.build, x, st.counters.ready, {}) == c.build.needs[x] - st.counters.ready;
  }

  /** A ready element has its whole runtime closure in place. */
  lemma ReadyClosureIsGood(c: Context, st: State, x: Id, d: Id)
    requires Quiet(c, st) && x in st.counters.ready && Reaches(c.p.g.runtime, x, d)
    ensures d in st.counters.ready && st.Good(d)
  {
    forall a, b | a in st.counters.ready && DependsOn(c.p.g.runtime, a, b) ensures b in st.counters.ready {
      assert Ok(c, st, TIGHT, a) && LinkedAt(c.p.g.runtime, c.runtime, a) && b in c.runtime.needs[a];
    }
    ClosedSetKeepsReached(c.p.g.runtime, st.counters.ready, x, d);
    assert Ok(c, st, TIGHT, d);
  }

  /** An element is ready exactly if everything in its runtime closure has an
      artifact, a strong key and a successful result in the cache, as soon as the
      main thread has taken note of those that do. */
  lemma {:induction false} ReadyIffClosureIsGood(c: Context, st: State, x: Id)
    requires Quiet(c, st) && c.p.Valid() && x in c.Ids()
    requires forall d :: Reaches(c.p.g.runtime, x, d) && st.Good(d) ==> d !in st.book.outstanding
    ensures x in st.counters.ready <==> forall d :: Reaches(c.p.g.runtime, x, d) ==> st.Good(d)
    decreases Rank(c.p.g.All(), x)
  {
    if x in st.counters.ready {
      forall d | Reaches(c.p.g.runtime, x, d) ensures st.Good(d) { ReadyClosureIsGood(c, st, x, d); }
    } else if forall d :: Reaches(c.p.g.runtime, x, d) ==> st.Good(d) {
      assert LinkedAt(c.p.g.runtime, c.runtime, x) && LinkedAt(c.p.g.build, c.build, x);
      AllClosed(c.p.g);
      forall d | d in c.runtime.needs[x] ensures d in st.counters.ready {
        assert DependsOn(c.p.g.runtime, x, d) && DependsOn(c.p.g.All(), x, d);
        assert Within(c.p.g.runtime, c.p.g.runtime[x]) && LinkedAt(c.p.g.runtime, c.runtime, d);
        RankDrops(c.p.g.All(), x, d);
        forall y | Reaches(c.p.g.runtime, d, y) ensures Reaches(c.p.g.runtime, x, y) {
          ReachesThrough(c.p.g.runtime, x, d, y);
        }
        ReadyIffClosureIsGood(c, st, d);
      }
      ReachesSelf(c.p.g.runtime, x);
      CountersCountUnready(c, st, x);
      assert c.runtime.needs[x] - st.counters.ready == {};
      assert SettledAt(st, {}, x);
    }
  }

  /** The outcome of an element is known: the main thread has taken note of its
      artifact, no pull is to follow, and its keys are no empty strings. */
  ghost predicate Concluded(c: Context, st: State, x: Id) {
    && x in st.cache.artifact && st.cache.artifact[x].cached && x !in st.book.outstanding && x !in st.cache.pullPending
    && (c.strictMode ==> x in c.strict) && (x in st.book.adopted && x in st.strong ==> st.strong[x] != "")
  }

  /** A concluded element that is cached successfully has its strong key. */
  lemma ConcludedIsGood(c: Context, st: State, x: Id)
    requires Quiet(c, st) && c.p.Valid() && Concluded(c, st, x) && st.Success(x)
    ensures st.Good(x)
  {
    assert Ok(c, st, TIGHT, x) && KeysAt(c, st, x);
    assert x in st.strong;
  }

  /** What is ready, and how much every element still waits for, is decided by which
      elements are cached successfully, whatever order the results came in. */
  lemma OrderDoesNotMatter(c: Context, st: State, st': State)
    requires Quiet(c, st) && Quiet(c, st') && c.p.Valid()
    requires forall x :: x in c.Ids() ==> st.Success(x) == st'.Success(x)
    requires forall x :: x in c.Ids() && st.Success(x) ==> Concluded(c, st, x) && Concluded(c, st', x)
    ensures st.counters == st'.counters
  {
    forall x | x in c.Ids()
      ensures st.Good(x) == st'.Good(x) && (st.Good(x) ==> x !in st.book.outstanding && x !in st'.book.outstanding)
    {
      if st.Success(x) {
        ConcludedIsGood(c, st, x);
        ConcludedIsGood(c, st', x);
      }
    }
    GoodDecides(c, st, st');
  }

  lemma GoodDecides(c: Context, st: State, st': State)
    requires Quiet(c, st) && Quiet(c, st') && c.p.Valid()
    requires forall x :: x in c.Ids() ==> st.Good(x) == st'.Good(x)
    requires forall x :: x in c.Ids() && st.Good(x) ==> x !in st.book.outstanding && x !in st'.book.outstanding
    ensures st.counters == st'.counters
  {
    forall x ensures x in st.counters.ready <==> x in st'.counters.ready {
      assert Ok(c, st, TIGHT, x) && Ok(c, st', TIGHT, x);
      if x in c.Ids() {
        forall d | Reaches(c.p.g.runtime, x, d) ensures d in c.Ids() { ReachesElement(c, x, d); }
        ReadyIffClosureIsGood(c, st, x);
        ReadyIffClosureIsGood(c, st', x);
      }
    }
    assert st.counters.ready == st'.counters.ready;
    SameCounts(c.runtime, st.counters.runtimeUncached, st'.counters.runtimeUncached, st.counters.ready);
    SameCounts(c.build, st.counters.buildUncached, st'.counters.buildUncached, st.counters.ready);
  }

  lemma ReachesElement(c: Context, x: Id, d: Id)
    requires c.Valid() && x in c.Ids() && Reaches(c.p.g.runtime, x, d)
    ensures d in c.Ids()
  {
    assert LinkedAt(c.p.g.runtime, c.runtime, x) && LinkedAt(c.p.g.runtime, c.runtime, d);
    forall a, b | a in c.Ids() && DependsOn(c.p.g.runtime, a, b) ensures b in c.Ids() {
      assert LinkedAt(c.p.g.runtime, c.runtime, a) && LinkedAt(c.p.g.runtime, c.runtime, b);
      assert Within(c.p.g.runtime, c.p.g.runtime[a]);
    }
    ClosedSetKeepsReached(c.p.g.runtime, c.Ids(), x, d);
  }

  lemma SameCounts(links: Links, count: map<Id, int>, count': map<Id, int>, ready: set<Id>)
    requires Counted(links, count, ready, {}) && Counted(links, count', ready, {})
    ensures count == count'
  {
    forall x ensures x in count <==> x in count' {
      assert CountedAt(links, count, ready, {}, x) && CountedAt(links, count', ready, {}, x);
    }
    forall x | x in count ensures count[x] == count'[x] {
      assert CountedAt(links, count, ready, {}, x) && CountedAt(links, count', ready, {}, x);
    }
  }

  // ---------------------------------------------------------------- building

  /** Once an element is buildable, everything in its BUILD scope is in place, and
      the calculation of its strong key cannot fail. */
  lemma BuildableHasItsScope(c: Context, st: State, x: Id)
    requires Quiet(c, st) && st.Buildable(x)
    ensures x in c.p.g.build && x in c.weak
    ensures forall d :: d in BuildScope(c.p.g, x) ==> d in st.counters.ready && st.Good(d)
    ensures StrongKey(c.generate, c.p, st.strong, c.weak[x], x).Some?
  {
    BuildableIsComplete(c, st, TIGHT, x);
    ReadyScopeHasKey(c, st, TIGHT, x);
    forall d | d in BuildScope(c.p.g, x) ensures st.Good(d) { assert Ok(c, st, TIGHT, d); }
  }

  /** Between events, an element is buildable exactly if it is scheduled, its sources are
      there, and all its build dependencies are ready. */
  lemma BuildableMeans(c: Context, st: State, x: Id)
    requires Quiet(c, st) && x in c.Ids()
    ensures st.Buildable(x) <==>
      && x in st.plan.scheduled && x !in st.plan.fetchNeeded
      && forall d :: DependsOn(c.p.g.build, x, d) ==> d in st.counters.ready
  {
    assert LinkedAt(c.p.g.build, c.build, x);
    ZeroMeansReady(c.build, st.counters.buildUncached, st.counters.ready, st.book.owedBuild, x);
    assert forall d :: d in c.build.needs[x] <==> DependsOn(c.p.g.build, x, d);
  }

  /** An element to be built lacks its strong key exactly if it was scheduled when
      the key could not be calculated, and its sources were missing when its last
      build dependency became ready.  Otherwise it has both keys that caching an
      artifact asserts. */
  lemma BuildableLacksKey(c: Context, st: State, x: Id)
    requires Quiet(c, st) && st.Buildable(x) && x !in st.plan.assembled
    ensures x !in st.strong <==> x in st.book.keyless && x in st.book.passedOver
    ensures x in st.strong ==> x in st.cache.artifactKey && st.cache.artifactKey[x] == st.strong[x]
    ensures c.strictMode && x in c.strict ==> x in st.strong
  {
    assert Ok(c, st, TIGHT, x);
  }

  /** Fetched sources make an element buildable without a strong key exactly if it is
      keyless and was passed over, although the key can be calculated by then. */
  lemma FetchLeavesKeyUnknown(c: Context, st: State, e: Id)
    requires Quiet(c, st) && e !in st.plan.assembled
    ensures Fetched(st, e).Buildable(e) && e !in Fetched(st, e).strong <==>
      e in st.book.keyless && e in st.book.passedOver
    ensures e in st.book.passedOver ==>
      e in c.p.g.build && e in c.weak && StrongKey(c.generate, c.p, st.strong, c.weak[e], e).Some?
  {
    assert Ok(c, st, TIGHT, e);
    FetchKeepsQuiet(c, st, e);
    if e in st.book.passedOver { BuildableHasItsScope(c, Fetched(st, e), e); }
  }

  /** Nobody calculates the key of an element that is keyless and was passed over
      before the element is assembled. */
  lemma KeyStaysUnknown(c: Context, st: State, st': State, x: Id)
    requires Quiet(c, st') && Advanced(st, st') && x in st.book.keyless && x in st.book.passedOver
    ensures x !in st'.plan.assembled ==> x !in st'.strong
  {
    assert Ok(c, st', TIGHT, x);
  }

  /** An element scheduled with nothing else missing gets its key at once. */
  lemma KeyedWhenScheduled(c: Context, st: State, st': State, x: Id)
    requires Quiet(c, st) && Quiet(c, st') && History(st, st')
    requires x !in st.plan.scheduled && x in st'.plan.scheduled && st'.NothingToWaitFor(x)
    ensures x in st'.strong
  {
    assert Ok(c, st, TIGHT, x) && Ok(c, st', TIGHT, x) && HistoryAt(st, st', x);
  }

  /** An element waiting for dependencies alone has one that is not ready, and its
      callback is still to come; callbacks that came found all in place. */
  lemma NoWakeupIsLost(c: Context, st: State, x: Id)
    requires Quiet(c, st)
    ensures x in st.book.armed ==>
      x in st.waiting && x in c.build.needs && exists d :: d in c.build.needs[x] && d !in st.counters.ready
    ensures st.book.fired[x] <= st.book.registered[x]
    ensures x in st.waiting ==> st.book.fired[x] < st.book.registered[x]
    ensures st.book.fired[x] > 0 ==> x in st.strong && x in c.build.needs && c.build.needs[x] <= st.counters.ready
  {
    assert Ok(c, st, TIGHT, x);
    assert CountedAt(c.build, st.counters.buildUncached, st.counters.ready, {}, x);
    if x in c.build.needs { ZeroMeansReady(c.build, st.counters.buildUncached, st.counters.ready, {}, x); }
  }

  // ---------------------------------------------------------------- the plan

  /** Contains what events required, and with an element its direct dependencies
      in the scope it was first required with, and if it is scheduled, its build
      dependencies. */
  ghost predicate ClosedPlan(c: Context, st: State, plan: set<Id>)
    requires c.Valid()
  {
    && st.book.why.requested.Keys <= plan
    && forall x, y {:trigger Justifies(c, st, x, y)} :: x in plan && Justifies(c, st, x, y) ==> y in plan
  }

  /** The required elements are the least closed plan. */
  lemma RequiredIsLeast(c: Context, st: State, plan: set<Id>)
    requires Quiet(c, st)
    ensures ClosedPlan(c, st, st.plan.required)
    ensures ClosedPlan(c, st, plan) ==> st.plan.required <= plan
  {
    forall x, y | x in st.plan.required && Justifies(c, st, x, y) ensures y in st.plan.required {
      assert PlanAt(c, st, {}, x);
    }
    if ClosedPlan(c, st, plan) {
      forall x | x in st.plan.required ensures x in plan {
        assert PlanAt(c, st, {}, x);
        IsJustified(c, st, plan, x);
      }
    }
  }

  lemma {:induction false} IsJustified(c: Context, st: State, plan: set<Id>, x: Id)
    requires Quiet(c, st) && ClosedPlan(c, st, plan) && x in st.plan.required && x in st.book.why.of
    ensures x in plan
    decreases st.book.why.of[x].when
  {
    assert PlanAt(c, st, {}, x);
    if st.book.why.of[x].parent.Some? {
      var y := st.book.why.of[x].parent.value;
      assert Justifies(c, st, y, x) && PlanAt(c, st, {}, y);
      IsJustified(c, st, plan, y);
    }
  }

  /** Has the demanded elements, runtime dependencies, and the build dependencies of
      scheduled elements. */
  ghost predicate ClosedInRunScope(c: Context, demanded: set<Id>, scheduled: set<Id>, plan: set<Id>) {
    && demanded <= plan
    && (forall x :: x in plan && x in c.Ids() ==> c.runtime.needs[x] <= plan)
    && (forall x :: x in plan && x in c.Ids() && x in scheduled && x in c.build.needs ==> c.build.needs[x] <= plan)
  }

  /** If all events require with RUN scope, the required elements are the least such
      plan. */
  lemma RequiredInRunScope(c: Context, st: State, plan: set<Id>)
    requires Quiet(c, st)
    requires forall x :: x in st.book.why.requested ==> st.book.why.requested[x] == RUN
    ensures ClosedInRunScope(c, st.book.why.requested.Keys, st.plan.scheduled, st.plan.required)
    ensures ClosedInRunScope(c, st.book.why.requested.Keys, st.plan.scheduled, plan) ==> st.plan.required <= plan
  {
    forall x | x in st.plan.required
      ensures x in c.Ids() && x in st.book.why.of && st.book.why.of[x].scope == RUN
      ensures c.runtime.needs[x] <= st.plan.required
      ensures x in st.plan.scheduled ==> c.build.needs[x] <= st.plan.required
    {
      assert PlanAt(c, st, {}, x);
    }
    if ClosedInRunScope(c, st.book.why.requested.Keys, st.plan.scheduled, plan) {
      forall x, y | x in plan && Justifies(c, st, x, y) ensures y in plan { assert PlanAt(c, st, {}, x); }
      RequiredIsLeast(c, st, plan);
    }
  }

  /** An element not assembled yet is scheduled exactly if it should be, as soon as
      the main thread has taken note of an artifact that no pull is to follow. */
  lemma ScheduledIffNecessary(c: Context, st: State, x: Id)
    requires Quiet(c, st) && x !in st.plan.assembled
    requires x in st.book.outstanding ==> x !in st.cache.artifact || x in st.cache.pullPending
    ensures x in st.plan.scheduled <==>
      && x in st.plan.required && x in st.cache.artifact && x !in st.cache.pullPending
      && !st.Success(x)
  {
    assert Ok(c, st, TIGHT, x) && PlanAt(c, st, {}, x);
  }

  // ---------------------------------------------------------------- keys

  /** Unless a key differing from the strict key was adopted, every strong key is
      the strict key. */
  lemma {:induction false} StrongKeysAreStrict(c: Context, st: State, x: Id)
    requires Quiet(c, st) && c.p.Valid() && x in st.strong && x in c.p.g.build
    requires forall d :: d in st.book.adopted && d in c.p.g.build && BuildsOn(c.p, x, d) ==>
      Lookup(st.strong, d) == StrictKey(c.generate, c.p, d)
    ensures StrictKey(c.generate, c.p, x) == Some(st.strong[x])
    decreases Rank(c.p.g.All(), x)
  {
    assert KeysAt(c, st, x) && Ok(c, st, TIGHT, x);
    if x !in st.book.adopted && !(c.strictMode && x in c.strict && st.strong[x] == c.strict[x]) {
      BuildScopeBelow(c.p.g, x);
      assert Within(c.p.g.build, BuildScope(c.p.g, x));
      forall d | d in BuildScope(c.p.g, x) && d in st.strong
        ensures StrictKey(c.generate, c.p, d) == Some(st.strong[d])
      {
        StrongKeysAreStrict(c, st, d);
      }
      StrongKeyIsStrict(c.generate, c.p, st.strong, c.weak[x], x);
    }
  }
}
