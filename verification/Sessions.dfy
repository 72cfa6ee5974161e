/** The elements of one session: which are required, scheduled, assembled and
    ready, and how each change sets off further changes along the dependencies. */
module Sessions {
  import opened Wrappers

  import opened Graphs
  import opened Dependencies
  import opened Readiness
  import opened CacheKeys
  import opened SessionState
  import opened SessionPlan
  import opened SessionEvents

  class Session {
    const c: Context

    var strong: map<Id, Key>
    var cache: Cache
    var counters: Counters
    var plan: Plan
    var waiting: set<Id>
    ghost var book: Ledger

    ghost function View(): State
      reads this
    {
      State(strong, cache, counters, plan, waiting, book)
    }

    // ------------------------------------------------------------ readiness

    /** Looks at the artifact once, then remembers. */
    method CachedSuccess(e: Id, ghost s: Slack, ghost open: set<Id>) returns (b: bool)
      requires Inv(c, View(), s) && Settled(View(), open)
      modifies `cache
      ensures b == old(View().Success(e)) && (b ==> e in cache.knownSuccess)
      ensures e !in old(cache.knownSuccess) && e !in old(cache.buildResult) ==>
        (b <==> e in cache.artifact && cache.artifact[e].cached && cache.artifact[e].success)
      ensures e !in old(cache.knownSuccess) && e in old(cache.buildResult) ==>
        (b <==> e in cache.artifact && cache.artifact[e].cached && old(cache.buildResult)[e])
      ensures e !in book.succeeded ==> !b
      ensures Inv(c, View(), s) && Settled(View(), open) && Cascaded(old(View()), View())
    {
      ghost var st := View();
      assert EarnedAt(cache, book.succeeded, e);
      if e in cache.knownSuccess {
        b := true;
      } else if e !in cache.artifact || !cache.artifact[e].cached {
        b := false;
      } else {
        if e !in cache.buildResult {
          cache := cache.(buildResult := cache.buildResult[e := cache.artifact[e].success]);
        }
        b := cache.buildResult[e];
        if b { cache := cache.(knownSuccess := cache.knownSuccess + {e}); }
      }
      forall x ensures EarnedAt(cache, book.succeeded, x) {
        assert EarnedAt(st.cache, book.succeeded, x);
      }
      Remembers(c, st, View(), s, open);
    }

    /** An element becomes ready once its runtime dependencies are and it is cached
        with its strong key; it then notifies whatever depends on it. */
    method UpdateReady(e: Id, ghost s: Slack)
      requires e in c.Ids() && Inv(c, View(), s) && Settled(View(), {e})
      modifies `strong, `cache, `counters, `waiting, `book
      ensures Inv(c, View(), s) && Settled(View(), {}) && Cascaded(old(View()), View())
      ensures book.owedRuntime == old(book.owedRuntime) && book.owedBuild == old(book.owedBuild)
      ensures !old(View().Success(e)) ==> counters == old(counters) && strong == old(strong)
      ensures e !in old(strong) ==> strong == old(strong)
      decreases c.Ids() - counters.ready, c.Ids() - strong.Keys, 1
    {
      ghost var st := View();
      CascadedSelf(st);
      if e in counters.ready { SettledWith(View(), e); return; }
      ZeroMeansReady(c.runtime, counters.runtimeUncached, counters.ready, book.owedRuntime, e);
      if !(counters.runtimeUncached[e] == 0 && e in cache.artifact && e in strong && strong[e] != "") {
        SettledWith(View(), e);
        return;
      }
      var success := CachedSuccess(e, s, {e});
      if !success { StillNotGood(st, View(), e); return; }

      ghost var known := View();
      BecomeReady(e, s);
      CascadedThen(st, known, View());
    }

    method BecomeReady(e: Id, ghost s: Slack)
      requires Inv(c, View(), s) && Settled(View(), {e}) && e in c.Ids() && e !in counters.ready
      requires e in counters.runtimeUncached && counters.runtimeUncached[e] == 0 && View().Good(e)
      requires e in cache.knownSuccess
      modifies `strong, `cache, `counters, `waiting, `book
      ensures Inv(c, View(), s) && Settled(View(), {}) && Cascaded(old(View()), View())
      ensures book.owedRuntime == old(book.owedRuntime) && book.owedBuild == old(book.owedBuild)
      decreases c.Ids() - counters.ready, c.Ids() - strong.Keys, 0
    {
      ghost var st := View();
      BecomesReady(c, st, s, e);
      counters := counters.(ready := counters.ready + {e});
      book := book.(owedRuntime := book.owedRuntime + DebtsOf(e, c.runtime.neededBy[e]));
      book := book.(owedBuild := book.owedBuild + DebtsOf(e, c.build.neededBy[e]));
      ghost var made := View();
      NotifyAll(e, s, st.book.owedRuntime, st.book.owedBuild);
      CascadedThen(st, made, View());
    }

    /** Notifies reverse runtime dependencies first, then reverse build dependencies. */
    method NotifyAll(e: Id, ghost s: Slack, ghost runtimeBefore: Debts, ghost buildBefore: Debts)
      requires Inv(c, View(), s) && Settled(View(), {}) && e in c.runtime.neededBy && e in c.build.neededBy
      requires book.owedRuntime == runtimeBefore + DebtsOf(e, c.runtime.neededBy[e])
      requires book.owedBuild == buildBefore + DebtsOf(e, c.build.neededBy[e])
      requires runtimeBefore !! DebtsOf(e, c.runtime.neededBy[e]) && buildBefore !! DebtsOf(e, c.build.neededBy[e])
      modifies `strong, `cache, `counters, `waiting, `book
      ensures Inv(c, View(), s) && Settled(View(), {}) && Cascaded(old(View()), View())
      ensures book.owedRuntime == runtimeBefore && book.owedBuild == buildBefore
      decreases c.Ids() - counters.ready, c.Ids() - strong.Keys, 4
    {
      ghost var st := View();
      CascadedSelf(st);
      var todo := c.runtime.neededBy[e];
      while todo != {}
        invariant Inv(c, View(), s) && Settled(View(), {}) && Cascaded(st, View())
        invariant book.owedRuntime == runtimeBefore + DebtsOf(e, todo) && runtimeBefore !! DebtsOf(e, todo)
        invariant book.owedBuild == old(book.owedBuild)
        decreases todo
      {
        ghost var before := View();
        var x :| x in todo;
        DebtsShrink(e, todo, x, runtimeBefore);
        todo := todo - {x};
        NotifyRuntime(e, x, s);
        CascadedThen(st, before, View());
      }
      todo := c.build.neededBy[e];
      while todo != {}
        invariant Inv(c, View(), s) && Settled(View(), {}) && Cascaded(st, View())
        invariant book.owedRuntime == runtimeBefore
        invariant book.owedBuild == buildBefore + DebtsOf(e, todo) && buildBefore !! DebtsOf(e, todo)
        decreases todo
      {
        ghost var before := View();
        var x :| x in todo;
        DebtsShrink(e, todo, x, buildBefore);
        todo := todo - {x};
        NotifyBuild(e, x, s);
        CascadedThen(st, before, View());
      }
    }

    /** Tells x that its runtime dependency e is ready. */
    method NotifyRuntime(e: Id, x: Id, ghost s: Slack)
      requires Inv(c, View(), s) && Settled(View(), {}) && (e, x) in book.owedRuntime
      modifies `strong, `cache, `counters, `waiting, `book
      ensures Inv(c, View(), s) && Settled(View(), {}) && Cascaded(old(View()), View())
      ensures book.owedRuntime == old(book.owedRuntime) - {(e, x)} && book.owedBuild == old(book.owedBuild)
      decreases c.Ids() - counters.ready, c.Ids() - strong.Keys, 2
    {
      ghost var st := View();
      TellsRuntime(c, st, s, e, x);
      counters := counters.(runtimeUncached := counters.runtimeUncached[x := counters.runtimeUncached[x] - 1]);
      book := book.(owedRuntime := book.owedRuntime - {(e, x)});
      assert counters.runtimeUncached[x] >= 0;
      if counters.runtimeUncached[x] == 0 {
        ghost var told := View();
        UpdateReady(x, s);
        CascadedThen(st, told, View());
      }
    }

    /** Tells x that its build dependency e is ready. */
    method NotifyBuild(e: Id, x: Id, ghost s: Slack)
      requires Inv(c, View(), s) && Settled(View(), {}) && (e, x) in book.owedBuild
      modifies `strong, `cache, `counters, `waiting, `book
      ensures Inv(c, View(), s) && Settled(View(), {}) && Cascaded(old(View()), View())
      ensures book.owedRuntime == old(book.owedRuntime) && book.owedBuild == old(book.owedBuild) - {(e, x)}
      decreases c.Ids() - counters.ready, c.Ids() - strong.Keys, 3
    {
      ghost var st := View();
      TellsBuild(c, st, s, e, x);
      counters := counters.(buildUncached := counters.buildUncached[x := counters.buildUncached[x] - 1]);
      book := book.(
        owedBuild := book.owedBuild - {(e, x)},
        passedOver :=
          if counters.buildUncached[x] == 0 && x in plan.scheduled && x in plan.fetchNeeded then book.passedOver + {x}
                      else book.passedOver);
      assert counters.buildUncached[x] >= 0;
      if x in plan.scheduled && x !in plan.fetchNeeded && counters.buildUncached[x] == 0 {
        ghost var told := View();
        AnnounceBuildable(x, s);
        CascadedThen(st, told, View());
      }
    }

    /** All build dependencies of x are ready: it gets its strong key, and then the
        build queue is called back. */
    method AnnounceBuildable(x: Id, ghost s: Slack)
      requires View().Buildable(x) && x !in book.passedOver && Settled(View(), {})
      requires Inv(c, View(), s.(unkeyed := s.unkeyed + {x}, unfired := s.unfired + {x}))
      modifies `strong, `cache, `counters, `waiting, `book
      ensures Inv(c, View(), s) && Settled(View(), {}) && Cascaded(old(View()), View())
      ensures book.owedRuntime == old(book.owedRuntime) && book.owedBuild == old(book.owedBuild)
      decreases c.Ids() - counters.ready, c.Ids() - strong.Keys, 2
    {
      ghost var st, s' := View(), s.(unfired := s.unfired + {x});
      BuildableIsComplete(c, st, s'.(unkeyed := s.unkeyed + {x}), x);
      KeyIsDue(c, st, s'.(unkeyed := s.unkeyed + {x}), x);
      UpdateKeyNonStrict(x, s', {});
      ghost var keyed := View();
      StaysBuildable(st, keyed, x);
      CallBack(x, s);
      CascadedThen(st, keyed, View());
    }

    method CallBack(x: Id, ghost s: Slack)
      requires Inv(c, View(), s.(unfired := s.unfired + {x})) && Settled(View(), {})
      requires View().Buildable(x) && x in strong
      modifies `waiting, `book
      ensures Inv(c, View(), s) && Settled(View(), {}) && Cascaded(old(View()), View())
      ensures View() == old(CalledBack(View(), x))
      ensures book.owedRuntime == old(book.owedRuntime) && book.owedBuild == old(book.owedBuild)
    {
      CallsBack(c, View(), s, x);
      if x in waiting {
        book := book.(fired := book.fired[x := book.fired[x] + 1]);
        waiting := waiting - {x};
      }
      book := book.(armed := book.armed - {x});
    }

    /** Calculates the strong key from those of the BUILD scope.  It cannot fail
        once all build dependencies are ready. */
    method CalculateStrongKey(e: Id, ghost s: Slack) returns (key: Option<Key>)
      requires Inv(c, View(), s) && e in c.weak && e !in strong
      ensures e in c.Ids() && (c.build.needs[e] <= counters.ready ==> key.Some?)
      ensures e in c.p.g.build && key == StrongKey(c.generate, c.p, strong, c.weak[e], e)
      ensures key.Some? ==> KeysExplained(c, Rekeyed(View(), e, key.value, false))
    {
      assert Ok(c, View(), s, e) && KeysAt(c, View(), e);
      key := StrongKey(c.generate, c.p, strong, c.weak[e], e);
      if c.build.needs[e] <= counters.ready { ReadyScopeHasKey(c, View(), s, e); }
      if key.Some? { KeyAdded(c, View(), e, key.value, false); }
    }

    /** Sets the strong key if it has become known. */
    method UpdateKeyNonStrict(e: Id, ghost s: Slack, ghost open: set<Id>)
      requires e in cache.artifact && Inv(c, View(), s.(unkeyed := s.unkeyed + {e})) && Settled(View(), open)
      requires open <= {e}
      requires MayBeUpdated(c, View(), e)
      modifies `strong, `cache, `counters, `waiting, `book
      ensures Inv(c, View(), s) && Settled(View(), open) && Cascaded(old(View()), View())
      ensures book.owedRuntime == old(book.owedRuntime) && book.owedBuild == old(book.owedBuild)
      ensures !old(View().Success(e)) ==> counters == old(counters) && strong.Keys - {e} == old(strong.Keys) - {e}
      ensures Lookup(strong, e) == old(KeyNow(c, View(), e))
      ensures e in old(strong) ==> e in strong && strong[e] == old(strong)[e]
      ensures e !in old(strong) && cache.artifact[e].cached && e !in cache.pullPending ==>
        e in strong && strong[e] == cache.artifact[e].strong
      ensures e !in old(strong) && e in strong ==> e !in cache.pullPending
      ensures e !in old(strong) && e in strong && !cache.artifact[e].cached ==>
        e in plan.scheduled || e in plan.assembled
      decreases c.Ids() - counters.ready, c.Ids() - strong.Keys, 1
    {
      ghost var st, s' := View(), s.(unkeyed := s.unkeyed + {e});
      CascadedSelf(st);
      assert Ok(c, st, s', e);
      var key: Option<Key> := None;
      if e in strong {
        LeavesKey(c, st, s, e);
        return;
      }
      if e in cache.pullPending {
        // Which artifact a pull brings, and so which key, is open
      } else if cache.artifact[e].cached {
        key := Some(cache.artifact[e].strong);
        KeyAdded(c, st, e, key.value, true);
      } else if e in plan.scheduled || e in plan.assembled {
        key := CalculateStrongKey(e, s');
      }
      if key.None? {
        LeavesKey(c, st, s, e);
        return;
      }
      SetStrongKey(e, key.value, cache.artifact[e].cached, s, open);
      SettledMore(View(), open);
    }

    /** A key may be all that readiness was waiting for; the artifact object gets to
        know it after that. */
    method SetStrongKey(e: Id, key: Key, ghost adopt: bool, ghost s: Slack, ghost open: set<Id>)
      requires e in cache.artifact && Inv(c, View(), s.(unkeyed := s.unkeyed + {e})) && Settled(View(), open)
      requires open <= {e}
      requires e !in strong && e !in cache.pullPending && (adopt ==> cache.artifact[e].cached) && MayBeKeyed(View(), e)
      requires KeysExplained(c, Rekeyed(View(), e, key, adopt))
      modifies `strong, `cache, `counters, `waiting, `book
      ensures Inv(c, View(), s) && Settled(View(), {}) && Cascaded(old(View()), View()) && e in strong
      ensures book.owedRuntime == old(book.owedRuntime) && book.owedBuild == old(book.owedBuild)
      ensures !old(View().Success(e)) ==> counters == old(counters) && strong.Keys - {e} == old(strong.Keys) - {e}
      ensures strong[e] == key
      decreases c.Ids() - counters.ready, c.Ids() - strong.Keys, 0
    {
      ghost var st := View();
      assert Ok(c, st, s.(unkeyed := s.unkeyed + {e}), e);
      SetsKey(c, st, s, open, e, key, adopt);
      if adopt { book := book.(adopted := book.adopted + {e}); }
      strong := strong[e := key];
      assert e in c.Ids() - st.strong.Keys;
      ghost var keyed := View();
      UpdateReady(e, s.(unrecorded := s.unrecorded + {e}));
      ghost var updated := View();
      RecordKey(e, s);
      assert GrownAt(keyed, updated, e);
      CascadedThen(st, keyed, updated);
      CascadedThen(st, updated, View());
    }

    method RecordKey(e: Id, ghost s: Slack)
      requires Inv(c, View(), s.(unrecorded := s.unrecorded + {e})) && Settled(View(), {}) && e in strong
      modifies `cache
      ensures Inv(c, View(), s) && Settled(View(), {}) && Cascaded(old(View()), View())
    {
      RecordsKey(c, View(), s, {}, e);
      cache := cache.(artifactKey := cache.artifactKey[e := strong[e]]);
    }

    // ------------------------------------------------------------ scheduling

    /** The direct dependencies of an element in a scope, in order. */
    method DirectDependencies(e: Id, scope: Scope) returns (ds: seq<Id>)
      requires c.Valid() && e in c.Ids()
      ensures forall d :: d in ds <==> d in c.Needs(e, scope)
      ensures c.Needs(e, scope) <= c.Ids()
    {
      DirectIsNeeds(c, e, scope);
      ds := Direct(c.p.g, e, scope);
    }

    /** Marks an element as required, then its dependencies, and schedules it if
        that is necessary. */
    method SetRequired(e: Id, scope: Scope, ghost parent: Option<Id>, ghost open: set<Id>, ghost s: Slack)
      requires e in c.Ids() && Inv(c, View(), s) && Settled(View(), {}) && s.unfired == {}
      requires PlanInv(c, View(), open) && open <= plan.required
      requires if parent.Some? then scope == RUN && Justifies(c, View(), parent.value, e)
        else e in book.why.requested && book.why.requested[e] == scope
      modifies `strong, `cache, `counters, `plan, `waiting, `book
      ensures Inv(c, View(), s) && Settled(View(), {}) && PlanInv(c, View(), open)
      ensures SameWithin(open, old(plan.scheduled), plan.scheduled)
      ensures Planned(old(View()), View()) && e in plan.required
      ensures e !in old(plan.required) ==> e in book.why.of && book.why.of[e].scope == scope
      decreases c.Ids() - plan.required, c.Ids() - plan.scheduled, 1
    {
      ghost var st := View();
      if e in plan.required {
        PlannedSelf(st);
        return;
      }
      assert PlanAt(c, st, open, e);
      MarkRequired(e, scope, parent, open, s);
      ghost var marked := View();
      var ds := DirectDependencies(e, scope);
      RequireEach(ds, e, open + {e}, s);
      assert PlannedAt(marked, View(), {}, e);
      ghost var each := View();
      PlannedThen(st, marked, each, {});
      ScheduleWhenNecessary(e, open, s);
      assert PlannedAt(each, View(), {}, e);
      PlannedThen(st, each, View(), {});
    }

    method MarkRequired(e: Id, scope: Scope, ghost parent: Option<Id>, ghost open: set<Id>, ghost s: Slack)
      requires e in c.Ids() && Inv(c, View(), s) && Settled(View(), {}) && PlanInv(c, View(), open)
      requires e !in plan.required
      requires if parent.Some? then scope == RUN && Justifies(c, View(), parent.value, e)
        else e in book.why.requested && book.why.requested[e] == scope
      modifies `plan, `book
      ensures Inv(c, View(), s) && Settled(View(), {}) && PlanInv(c, View(), open + {e})
      ensures Planned(old(View()), View()) && plan == old(plan).(required := old(plan.required) + {e})
      ensures e in book.why.of && book.why.of[e].scope == scope
    {
      Requires(c, View(), s, open, e, scope, parent);
      plan := plan.(required := plan.required + {e});
      book := book.(why := book.why.(of := book.why.of[e := Why(scope, parent, |book.why.of|)]));
    }

    /** The loop over dependencies, each of which is required with RUN scope. */
    method RequireEach(ds: seq<Id>, ghost e: Id, ghost open: set<Id>, ghost s: Slack)
      requires Inv(c, View(), s) && Settled(View(), {}) && PlanInv(c, View(), open) && s.unfired == {}
      requires open <= plan.required
      requires forall d {:trigger d in ds} :: d in ds ==> d in c.Ids() && Justifies(c, View(), e, d)
      modifies `strong, `cache, `counters, `plan, `waiting, `book
      ensures Inv(c, View(), s) && Settled(View(), {}) && PlanInv(c, View(), open)
      ensures SameWithin(open, old(plan.scheduled), plan.scheduled)
      ensures Planned(old(View()), View())
      ensures forall d {:trigger d in ds} :: d in ds ==> d in plan.required
      decreases c.Ids() - plan.required, c.Ids() - plan.scheduled, 2
    {
      ghost var st := View();
      PlannedSelf(st);
      for i := 0 to |ds|
        invariant Inv(c, View(), s) && Settled(View(), {}) && PlanInv(c, View(), open)
        invariant Planned(st, View()) && SameWithin(open, old(plan.scheduled), plan.scheduled)
        invariant forall j :: 0 <= j < i ==> ds[j] in plan.required
      {
        ghost var before := View();
        assert ds[i] in ds && PlannedAt(st, before, {}, e);
        SetRequired(ds[i], RUN, Some(e), open, s);
        PlannedThen(st, before, View(), {});
      }
    }

    /** Schedules the assembly of an element, which requires its build dependencies. */
    method ScheduleWhenNecessary(e: Id, ghost open: set<Id>, ghost s: Slack)
      requires Inv(c, View(), s) && Settled(View(), {}) && PlanInv(c, View(), open + {e}) && s.unfired == {}
      requires e !in open && open <= plan.required
      requires e in plan.required ==>
        e in c.Ids() && e in book.why.of && c.Needs(e, book.why.of[e].scope) <= plan.required
      requires e in plan.scheduled ==> e in c.Ids() && c.build.needs[e] <= plan.required
      modifies `strong, `cache, `counters, `plan, `waiting, `book
      ensures Inv(c, View(), s) && Settled(View(), {}) && PlanInv(c, View(), open)
      ensures SameWithin(open, old(plan.scheduled), plan.scheduled)
      ensures Planned(old(View()), View())
      decreases c.Ids() - plan.required, c.Ids() - plan.scheduled, 0
    {
      ghost var st := View();
      var should := ShouldSchedule(e, open + {e}, s);
      ghost var known := View();
      assert GrownAt(st, known, e) && PlannedAt(st, known, {}, e) && PlanAt(c, known, open + {e}, e);
      if !should {
        PlanCloses(c, known, open, e);
        return;
      }
      assert Ok(c, known, s, e);
      Schedules(c, known, s, open, e);
      plan := plan.(scheduled := plan.scheduled + {e});
      ghost var marked := View();
      StillDue(st, known, e);
      PlannedThen(st, known, marked, {e});
      var ds := DirectDependencies(e, BUILD);
      RequireEach(ds, e, open + {e}, s.(unkeyed := s.unkeyed + {e}));
      assert PlannedAt(marked, View(), {}, e);
      StillDue(marked, View(), e);
      PlannedThen(st, marked, View(), {e});
      FinishScheduling(e, open, s, st);
    }

    method ShouldSchedule(e: Id, ghost open: set<Id>, ghost s: Slack) returns (b: bool)
      requires Inv(c, View(), s) && Settled(View(), {}) && PlanInv(c, View(), open)
      modifies `cache
      ensures b == (e !in plan.scheduled && ShouldBeScheduled(View(), e))
      ensures Inv(c, View(), s) && Settled(View(), {}) && PlanInv(c, View(), open) && Planned(old(View()), View())
    {
      ghost var st := View();
      if e in plan.scheduled || e in plan.assembled || e in cache.pullPending
        || e !in plan.required || e !in cache.artifact
      {
        PlannedSelf(st);
        return false;
      }
      b := CachedSuccess(e, s, {});
      PlanKept(c, st, View(), open);
      assert GrownAt(st, View(), e);
      b := !b;
    }

    /** Once an element is scheduled, its strong key is calculated if that is possible. */
    method FinishScheduling(e: Id, ghost open: set<Id>, ghost s: Slack, ghost st: State)
      requires Inv(c, View(), s.(unkeyed := s.unkeyed + {e})) && Settled(View(), {}) && PlanInv(c, View(), open + {e})
      requires PlannedBut(st, View(), {e}) && !st.Success(e) && e in cache.artifact && e !in st.plan.scheduled
      requires e in plan.scheduled && e !in book.keyless && e in c.Ids() && c.build.needs[e] <= plan.required
      requires e in plan.required && e in book.why.of && c.Needs(e, book.why.of[e].scope) <= plan.required
      modifies `strong, `cache, `counters, `waiting, `book
      ensures Inv(c, View(), s) && Settled(View(), {}) && PlanInv(c, View(), open) && Planned(st, View())
    {
      ghost var before := View();
      assert GrownAt(st, before, e);
      ListsKeyless(c, before, s, open + {e}, e);
      book := book.(keyless := if KeyNow(c, before, e).None? then book.keyless + {e} else book.keyless);
      ghost var listed := View();
      UpdateKeyNonStrict(e, s, {});
      PlanKept(c, listed, View(), open + {e});
      PlanCloses(c, View(), open, e);
      PlannedWithKey(c, st, before, View(), e);
    }

    // ------------------------------------------------------------ events

    constructor(c: Context, fetchNeeded: set<Id>)
      requires c.Valid() && KeysLoaded(c)
      requires forall x :: x in c.p.g.build ==> NoRepeats(c.p.g.build[x])
      requires forall x :: x in c.p.g.runtime ==> NoRepeats(c.p.g.runtime[x])
      ensures this.c == c && View() == Initial(c).(plan := Plan({}, {}, {}, fetchNeeded)) && Quiet(c, View())
    {
      InitialIsQuiet(c, fetchNeeded);
      this.c := c;
      strong := if c.strictMode then c.strict else map[];
      cache := Cache(map[], map[], {}, map[], {});
      counters := Counters(
        {},
        map x | x in c.p.g.runtime :: |c.p.g.runtime[x]|,
        map x | x in c.p.g.build :: |c.p.g.build[x]|);
      plan := Plan({}, {}, {}, fetchNeeded);
      waiting := {};
      book := Ledger({}, {}, {}, {}, Reasons(map[], map[]), {}, {}, {}, {}, multiset{}, multiset{});
    }

    /** An event requires an element. */
    method Require(e: Id, scope: Scope)
      requires Quiet(c, View()) && e in c.Ids()
      modifies `strong, `cache, `counters, `plan, `waiting, `book
      ensures Quiet(c, View()) && Follows(old(View()), Demanded(e, scope), View()) && e in plan.required
      ensures cache.artifact == old(cache.artifact) && cache.pullPending == old(cache.pullPending)
      ensures forall x :: View().Success(x) == old(View().Success(x))
      ensures counters == old(counters)
    {
      ghost var st := View();
      RequestIsNoted(c, st, e, scope);
      book := book.(why := book.why.(requested := RequestedAfter(book.why.requested, Demanded(e, scope))));
      ghost var noted := View();
      if e in plan.required {
        CascadedSelf(noted);
        PlannedSelf(noted);
      } else {
        SetRequired(e, scope, None, {}, TIGHT);
        CascadedSelf(noted);
      }
      Advances(st, noted, noted, View());
      forall x ensures View().Success(x) == st.Success(x) { assert GrownAt(noted, View(), x); }
    }

    /** Looks for an artifact under the strict key, and failing that, in non-strict
        mode, under the weak key. */
    method FindArtifact(pull: bool, o: Options, env: Surroundings, own: Option<Key>,
                        strictKey: Option<Key>) returns (r: Loading)
      ensures r == LoadingOutcome(o, env, pull, own, strictKey)
    {
      var pullBuildtrees := o.pullBuildtrees && !env.workspaced;
      var artifact, key, pullPending := Found(env.strictQuery), strictKey, false;
      if !pull && (!artifact.cached || (pullBuildtrees && env.buildtreeMissing)) {
        if env.remotes && !env.workspaced { pullPending := true; }
      }
      if pull {
        match env.strictPull
        case PullError => return LoadingError;
        case Pulled(stored) => artifact := Found(Some(stored));
        case NotAvailable =>
      }
      var ignoreFailed := o.building && o.retryFailed;
      if artifact.cached || o.strict {
        if artifact.cached && ignoreFailed && !artifact.success { artifact, key := UNCACHED, own; }
        return Loading(Some(artifact), key, pullPending);
      }
      if pullPending { return Loading(None, None, true); }

      // Any artifact of the right shape will do otherwise
      artifact := Found(env.weakQuery);
      if pull {
        match env.weakPull
        case PullError => return LoadingError;
        case Pulled(stored) => artifact := Found(Some(stored));
        case NotAvailable =>
      }
      if o.building && artifact.cached && !artifact.success {
        if ignoreFailed || Some(artifact.strong) != strictKey { artifact := UNCACHED; }
      }
      return Loading(Some(artifact), None, pullPending);
    }

    method LoadArtifact(e: Id, pull: bool, o: Options, env: Surroundings) returns (failed: bool)
      requires Quiet(c, View()) && MayLoad(c, View(), e, pull) && o.strict == c.strictMode
      modifies `cache, `book
      ensures Quiet(c, View()) && Follows(old(View()), ArtifactLoaded(e, pull, env), View())
      ensures View() ==
        AfterLoading(old(View()), e, LoadingOutcome(o, env, pull, Lookup(strong, e), Lookup(c.strict, e)))
      ensures !failed && e !in cache.pullPending ==> e in cache.artifact
    {
      LoadKeepsQuiet(c, View(), e, pull, o, env);
      var r := FindArtifact(pull, o, env, Lookup(strong, e), Lookup(c.strict, e));
      LoadedArtifact(o, env, pull, Lookup(strong, e), Lookup(c.strict, e));
      LoadingFollows(c, View(), e, pull, env, r);
      AfterLoadingMeans(View(), e, r);
      book := book.(outstanding := book.outstanding + {e});
      match r
      case LoadingError =>
        cache := cache.(pullPending := cache.pullPending - {e});
        return true;
      case Loading(artifact, key, pullPending) =>
        cache := cache.(pullPending := if pullPending then cache.pullPending + {e} else cache.pullPending - {e});
        if artifact.Some? {
          cache := cache.(
            artifact := cache.artifact[e := artifact.value],
            artifactKey := if key.Some? then cache.artifactKey[e := key.value] else cache.artifactKey - {e});
          if artifact.value.cached && artifact.value.success { book := book.(succeeded := book.succeeded + {e}); }
        }
        return false;
    }

    /** The main thread takes note of a loaded artifact. */
    method LoadArtifactDone(e: Id)
      requires Quiet(c, View()) && e in cache.artifact
      modifies `strong, `cache, `counters, `plan, `waiting, `book
      ensures Quiet(c, View()) && Follows(old(View()), LoadingDone(e), View())
      ensures cache.artifact == old(cache.artifact) && cache.pullPending == old(cache.pullPending)
      ensures !c.strictMode && cache.artifact[e].cached && e !in cache.pullPending && e !in old(strong) ==>
        e in strong && strong[e] == cache.artifact[e].strong
      ensures forall x :: View().Success(x) == old(View().Success(x))
    {
      ghost var before := View();
      LoadingCompletes(c, before, e);
      book := book.(outstanding := book.outstanding - {e});
      ghost var st := View();
      CascadedSelf(st);
      assert Ok(c, before, TIGHT, e);
      if !c.strictMode && cache.artifact[e].cached { UpdateKeyNonStrict(e, TIGHT, {e}); }
      ghost var keyed := View();
      UpdateReady(e, TIGHT);
      CascadedThen(st, keyed, View());
      PlanKept(c, st, View(), {e});
      assert {} + {e} == {e};
      ghost var updated := View();
      ScheduleWhenNecessary(e, {}, TIGHT);
      Advances(before, st, updated, View());
      forall x ensures View().Success(x) == before.Success(x) {
        assert GrownAt(st, updated, x) && GrownAt(updated, View(), x);
      }
      assert GrownAt(keyed, updated, e) && GrownAt(updated, View(), e);
    }

    /** Sets the strong key if it has become known, and then looks at readiness. */
    method UpdateKeyAndReady(e: Id)
      requires Inv(c, View(), TIGHT.(unkeyed := TIGHT.unkeyed + {e})) && Settled(View(), {e})
      requires e in c.Ids() && e in cache.artifact && MayBeUpdated(c, View(), e)
      modifies `strong, `cache, `counters, `waiting, `book
      ensures Inv(c, View(), TIGHT) && Settled(View(), {}) && Cascaded(old(View()), View())
      ensures book.owedRuntime == old(book.owedRuntime) && book.owedBuild == old(book.owedBuild)
      ensures Lookup(strong, e) == old(KeyNow(c, View(), e))
    {
      ghost var st := View();
      UpdateKeyNonStrict(e, TIGHT, {e});
      ghost var keyed := View();
      UpdateReady(e, TIGHT);
      CascadedThen(st, keyed, View());
      assert GrownAt(keyed, View(), e);
    }

    /** The main thread takes note of the end of a build. */
    method AssembleDone(e: Id, a: Assembly)
      requires Quiet(c, View()) && e in plan.scheduled && (a.successful ==> a.stored.Some?)
      modifies `strong, `cache, `counters, `plan, `waiting, `book
      ensures Quiet(c, View()) && Follows(old(View()), AssemblyDone(e, a), View())
      ensures Cascaded(Assembled(old(View()), e, a), View())
      ensures Lookup(strong, e) == KeyNow(c, Assembled(old(View()), e, a), e)
      ensures e in plan.assembled && e in cache.artifact && cache.artifact[e].cached == a.stored.Some?
      ensures a.stored.Some? ==> cache.artifact[e] == Artifact(true, a.stored.value.strong, a.stored.value.success)
      ensures a.stored.Some? && e !in old(strong) ==> Lookup(strong, e) == Some(a.stored.value.strong)
      ensures a.successful ==> e in cache.knownSuccess
    {
      ghost var before := View();
      AssemblyKeeps(c, before, e, a);
      AssembledKey(c, before, e, a);
      cache := cache.(artifact := cache.artifact[e := Found(a.stored)]);
      if a.result.Some? { cache := cache.(buildResult := cache.buildResult[e := a.result.value]); }
      plan := plan.(assembled := plan.assembled + {e});
      book := book.(succeeded := book.succeeded + {e});
      if a.successful { cache := cache.(knownSuccess := cache.knownSuccess + {e}); }
      ghost var st := View();
      assert st == Assembled(before, e, a);
      UpdateKeyAndReady(e);
      assert GrownAt(st, View(), e);
      PlanKept(c, st, View(), {});
      PlannedSelf(View());
      Advances(before, st, View(), View());
    }

    /** The main thread takes note of fetched sources: nothing else happens. */
    method FetchDone(e: Id)
      requires Quiet(c, View())
      modifies `plan
      ensures Quiet(c, View()) && Follows(old(View()), SourcesFetched(e), View()) && View() == Fetched(old(View()), e)
      ensures plan == old(plan).(fetchNeeded := old(plan.fetchNeeded) - {e})
    {
      FetchKeepsQuiet(c, View(), e);
      plan := plan.(fetchNeeded := plan.fetchNeeded - {e});
    }

    method QuerySources(e: Id, cached: bool)
      requires Quiet(c, View()) && e !in plan.scheduled
      modifies `plan
      ensures Quiet(c, View()) && Follows(old(View()), SourcesQueried(e, cached), View())
      ensures e in plan.fetchNeeded <==> !cached
      ensures plan == old(plan).(fetchNeeded := plan.fetchNeeded)
      ensures plan.fetchNeeded - {e} == old(plan.fetchNeeded) - {e}
    {
      var needed := if cached then plan.fetchNeeded - {e} else plan.fetchNeeded + {e};
      QueryKeepsQuiet(c, View(), e, needed);
      plan := plan.(fetchNeeded := needed);
    }

    method KnownSuccess(e: Id) returns (b: bool)
      requires Quiet(c, View())
      modifies `cache
      ensures Quiet(c, View()) && b == old(View().Success(e)) == View().Success(e)
      ensures e !in old(cache.knownSuccess) && e !in old(cache.buildResult) ==>
        (b <==> e in cache.artifact && cache.artifact[e].cached && cache.artifact[e].success)
      ensures (e !in book.succeeded ==> !b) && book.succeeded == old(book.succeeded)
      ensures Advanced(old(View()), View()) && History(old(View()), View())
      ensures cache.artifact == old(cache.artifact) && cache.pullPending == old(cache.pullPending)
      ensures book.outstanding == old(book.outstanding) && plan == old(plan)
    {
      ghost var st := View();
      b := CachedSuccess(e, TIGHT, {});
      PlanKept(c, st, View(), {});
      PlannedSelf(View());
      Advances(st, st, View(), View());
      assert GrownAt(st, View(), e);
    }

    /** The build queue takes an element that is ready to be built, and asks to be
        called back about one that is not. */
    method EnqueueBuild(e: Id) returns (status: QueueStatus)
      requires Quiet(c, View()) && e in c.Ids()
      modifies `cache, `waiting, `book
      ensures Quiet(c, View()) && Follows(old(View()), BuildEnqueued(e), View())
      ensures plan == old(plan) && counters == old(counters) && strong == old(strong)
      ensures status.SKIP? <==> old(View().Success(e))
      ensures e !in old(cache.knownSuccess) && e !in old(cache.buildResult) ==>
        (status.SKIP? <==> e in cache.artifact && cache.artifact[e].cached && cache.artifact[e].success)
      ensures e !in book.succeeded ==> !status.SKIP?
      ensures status.READY? <==> !old(View().Success(e)) && old(View().Buildable(e))
      ensures status.READY? <==>
        && !status.SKIP? && e in plan.scheduled && e !in plan.fetchNeeded
        && e in c.build.needs && c.build.needs[e] <= counters.ready
      ensures status.PENDING? ==> e in waiting && book.registered[e] == old(book.registered[e]) + 1
    {
      ghost var st := View();
      var success := KnownSuccess(e);
      ghost var known := View();
      ZeroMeansReady(c.build, counters.buildUncached, counters.ready, book.owedBuild, e);
      if success { return SKIP; }
      if e in plan.scheduled && e !in plan.fetchNeeded
        && e in counters.buildUncached && counters.buildUncached[e] == 0
      {
        return READY;
      }
      RegisterKeepsQuiet(c, View(), e);
      book := book.(
        registered := book.registered[e := book.registered[e] + 1],
        armed := if e in plan.scheduled && e !in plan.fetchNeeded then book.armed + {e} else book.armed);
      waiting := waiting + {e};
      SameRecord(st, known, View());
      return PENDING;
    }
  }

  /** Registrations are no part of the record that events advance. */
  lemma SameRecord(st: State, st': State, st'': State)
    requires Advanced(st, st') && History(st, st')
    requires st''.strong == st'.strong && st''.counters == st'.counters && st''.plan == st'.plan
    requires st''.book.why == st'.book.why && st''.book.keyless == st'.book.keyless
    requires st''.book.passedOver == st'.book.passedOver
    ensures Advanced(st, st'') && History(st, st'')
  {
    forall x ensures AdvancedAt(st, st'', x) && HistoryAt(st, st'', x) {
      assert AdvancedAt(st, st', x) && HistoryAt(st, st', x);
    }
  }

  lemma DebtsShrink(e: Id, xs: set<Id>, x: Id, owed: Debts)
    requires x in xs && owed !! DebtsOf(e, xs)
    ensures (e, x) in DebtsOf(e, xs)
    ensures owed + DebtsOf(e, xs) - {(e, x)} == owed + DebtsOf(e, xs - {x})
    ensures owed !! DebtsOf(e, xs - {x})
  {
    assert DebtsOf(e, xs) - {(e, x)} == DebtsOf(e, xs - {x});
  }
}
