/** Whole sessions: opening one, the drivers that fix the order of events, and
    runs of arbitrary events. */
module SessionRuns {
  import opened Graphs
  import opened Dependencies
  import opened Readiness
  import opened CacheKeys
  import opened KeyLoading
  import opened SessionState
  import opened SessionPlan
  import opened SessionEvents
  import opened Sessions

  /** Loads a project: keys first, then the counters and links. */
  method Open(p: Loaded, generate: Dict -> Key, strictMode: bool, order: seq<Id>) returns (s: Session)
    requires p.Valid() && Injective(generate)
    requires DependenciesFirst(p.g.All(), {}, order) && Elements(order) == p.g.build.Keys
    requires forall x :: x in p.g.build ==> NoRepeats(p.g.build[x]) && NoRepeats(p.g.runtime[x])
    ensures fresh(s) && s.c.p == p && s.c.generate == generate && s.c.strictMode == strictMode
    ensures Quiet(s.c, s.View()) && s.View() == Initial(s.c).(plan := Plan({}, {}, {}, p.g.build.Keys))
    ensures forall x :: x in p.g.build ==>
      Lookup(s.c.weak, x) == WeakKey(generate, p, x) && Lookup(s.c.strict, x) == StrictKey(generate, p, x)
  {
    var table := new KeyTable(generate, p);
    table.LoadAll(order);
    var c := Context(p, generate, strictMode, LinksOf(p.g.runtime), LinksOf(p.g.build), table.weak, table.strict);
    assert forall x :: x in p.g.build ==> KeysFinal(generate, p, table.weak, table.strict, x);
    assert c.runtime.needs.Keys == p.g.build.Keys by {
      forall x ensures x in c.runtime.needs <==> x in p.g.build { assert LinkedAt(p.g.runtime, c.runtime, x); }
    }
    assert c.build.needs.Keys == p.g.build.Keys by {
      forall x ensures x in c.build.needs <==> x in p.g.build { assert LinkedAt(p.g.build, c.build, x); }
    }
    forall x | x in c.weak && x in p.g.build ensures NamesKnown(p, x) {
      assert Lookup(c.weak, x) == WeakKey(generate, p, x);
      WeakKeyNeedsNames(generate, p, x);
    }
    s := new Session(c, p.g.build.Keys);
  }

  // ---------------------------------------------------------------- drivers

  /** Requires the chosen elements. */
  method RequireAll(s: Session, elements: seq<Id>, scope: Scope)
    requires Quiet(s.c, s.View()) && forall e :: e in elements ==> e in s.c.Ids()
    modifies s
    ensures Quiet(s.c, s.View()) && Advanced(old(s.View()), s.View())
    ensures s.book.why.requested.Keys == old(s.book.why.requested.Keys) + Elements(elements)
  {
    for i := 0 to |elements|
      invariant Quiet(s.c, s.View()) && Advanced(old(s.View()), s.View())
      invariant s.book.why.requested.Keys == old(s.book.why.requested.Keys) + Elements(elements[..i])
    {
      ghost var before := s.View();
      InitOrLast(elements[..i + 1]);
      assert elements[..i + 1][..i] == elements[..i];
      assert elements[i] in elements;
      s.Require(elements[i], scope);
      AdvancedThen(old(s.View()), before, s.View());
    }
    assert elements[..|elements|] == elements;
  }

  /** What a query keeps of the states it starts from. */
  ghost predicate Queried(st: State, st': State) {
    && Advanced(st, st') && st'.cache.artifact.Keys >= st.cache.artifact.Keys
    && st'.cache.pullPending >= st.cache.pullPending - st'.cache.artifact.Keys
    && st'.book.outstanding - st'.cache.pullPending <= st.book.outstanding - st.cache.pullPending
  }

  /** If an artifact can be looked for, it was, or will be pulled first. */
  predicate LookedFor(c: Context, st: State, e: Id) {
    e in c.weak ==> e in st.cache.artifact || e in st.cache.pullPending
  }

  predicate AllLookedFor(c: Context, st: State, plan: seq<Id>) {
    forall e :: e in plan ==> LookedFor(c, st, e)
  }

  lemma StaysLookedFor(c: Context, st: State, st': State, plan: seq<Id>, i: nat)
    requires Queried(st, st') && i < |plan| && AllLookedFor(c, st, plan[..i]) && LookedFor(c, st', plan[i])
    ensures AllLookedFor(c, st', plan[..i + 1])
  {
    InitOrLast(plan[..i + 1]);
    assert plan[..i + 1][..i] == plan[..i];
    forall e | e in plan[..i] ensures LookedFor(c, st', e) {
      assert LookedFor(c, st, e);
      if e in st.cache.pullPending && e !in st'.cache.artifact {
        assert e in st.cache.pullPending - st'.cache.artifact.Keys;
      }
    }
  }

  lemma QueriedThen(st: State, st': State, st'': State)
    requires Queried(st, st') && Queried(st', st'')
    ensures Queried(st, st'')
  {
    AdvancedThen(st, st', st'');
  }

  /** Which caches a query looks in. */
  datatype Selection = Selection(sourcesOfCached: bool, onlySources: bool)

  /** Looks in the local caches for each element in turn. */
  method QueryCache(s: Session, plan: seq<Id>, which: Selection, o: Options, env: Id -> Surroundings,
                    sourceCached: Id -> bool)
    requires Quiet(s.c, s.View()) && o.strict == s.c.strictMode && forall e :: e in plan ==> e in s.c.Ids()
    modifies s
    ensures Quiet(s.c, s.View()) && Queried(old(s.View()), s.View())
    ensures !which.onlySources ==> AllLookedFor(s.c, s.View(), plan)
  {
    ghost var st := s.View();
    for i := 0 to |plan|
      invariant Quiet(s.c, s.View()) && Queried(st, s.View())
      invariant !which.onlySources ==> AllLookedFor(s.c, s.View(), plan[..i])
    {
      ghost var before := s.View();
      assert plan[i] in plan;
      QueryOne(s, plan[i], which, o, env(plan[i]), sourceCached(plan[i]));
      QueriedThen(st, before, s.View());
      if !which.onlySources { StaysLookedFor(s.c, before, s.View(), plan, i); }
    }
    assert plan[..|plan|] == plan;
  }

  method QueryOne(s: Session, e: Id, which: Selection, o: Options, env: Surroundings, sourceCached: bool)
    requires Quiet(s.c, s.View()) && o.strict == s.c.strictMode && e in s.c.Ids()
    modifies s
    ensures Quiet(s.c, s.View()) && Queried(old(s.View()), s.View())
    ensures !which.onlySources ==> LookedFor(s.c, s.View(), e)
    ensures e in old(s.cache.artifact) ==> s.View() == old(s.View())
    // sources are asked for where they may be needed, and only there
    ensures var asked :=
        if which.onlySources || e !in s.c.weak then e in s.c.p.info && s.c.p.info[e].resolved
        else which.sourcesOfCached || e !in s.cache.artifact || !s.View().Success(e);
      e !in old(s.cache.artifact) ==>
        if asked then e in s.plan.fetchNeeded <==> !sourceCached else s.plan.fetchNeeded == old(s.plan.fetchNeeded)
  {
    assert Ok(s.c, s.View(), TIGHT, e) && LinkedAt(s.c.p.g.build, s.c.build, e);
    if e in s.cache.artifact {
      // Looked for before
    } else if !which.onlySources && e in s.c.weak {
      QueryArtifact(s, e, which, o, env, sourceCached);
    } else if s.c.p.info[e].resolved {
      s.QuerySources(e, sourceCached);
    }
  }

  method QueryArtifact(s: Session, e: Id, which: Selection, o: Options, env: Surroundings, sourceCached: bool)
    requires Quiet(s.c, s.View()) && o.strict == s.c.strictMode && e in s.c.weak && e !in s.cache.artifact
    modifies s
    ensures Quiet(s.c, s.View()) && Queried(old(s.View()), s.View())
    ensures e in s.cache.artifact || e in s.cache.pullPending
    ensures if which.sourcesOfCached || e !in s.cache.artifact || !s.View().Success(e)
      then e in s.plan.fetchNeeded <==> !sourceCached
      else s.plan.fetchNeeded == old(s.plan.fetchNeeded)
  {
    ghost var st := s.View();
    assert Ok(s.c, st, TIGHT, e);
    var failed := s.LoadArtifact(e, false, o, env);
    LoadedArtifact(o, env, false, Lookup(s.strong, e), Lookup(s.c.strict, e));
    ghost var loaded := s.View();
    QueryMissingSources(s, e, which, sourceCached);
    AdvancedThen(st, loaded, s.View());
    ghost var queried := s.View();
    if e !in s.cache.pullPending {
      s.LoadArtifactDone(e);
      AdvancedThen(st, queried, s.View());
    }
    LooksUpOne(st, s.View(), e);
  }

  method QueryMissingSources(s: Session, e: Id, which: Selection, sourceCached: bool)
    requires Quiet(s.c, s.View()) && e !in s.plan.scheduled
    modifies s
    ensures Quiet(s.c, s.View()) && Advanced(old(s.View()), s.View())
    ensures s.cache.artifact == old(s.cache.artifact) && s.cache.pullPending == old(s.cache.pullPending)
    ensures s.book.outstanding == old(s.book.outstanding) && s.View().Success(e) == old(s.View().Success(e))
    ensures if which.sourcesOfCached || e !in s.cache.artifact || !s.View().Success(e)
      then e in s.plan.fetchNeeded <==> !sourceCached
      else s.plan.fetchNeeded == old(s.plan.fetchNeeded)
  {
    ghost var st := s.View();
    var query := which.sourcesOfCached || e !in s.cache.artifact;
    if !query {
      var success := s.KnownSuccess(e);
      query := !success;
    }
    ghost var known := s.View();
    if query { s.QuerySources(e, sourceCached); }
    if which.sourcesOfCached || e !in st.cache.artifact { } else { AdvancedThen(st, known, s.View()); }
  }

  lemma LooksUpOne(st: State, st': State, e: Id)
    requires Advanced(st, st') && st.cache.artifact.Keys <= st'.cache.artifact.Keys
    requires st.cache.pullPending - {e} == st'.cache.pullPending - {e}
    requires e in st'.cache.artifact || e in st'.cache.pullPending
    requires st.book.outstanding - {e} == st'.book.outstanding - {e}
    requires e in st'.book.outstanding ==> e in st'.cache.pullPending
    ensures Queried(st, st')
  {
    assert forall x :: x in st'.book.outstanding && x != e ==> x in st'.book.outstanding - {e};
    assert forall x :: x in st.cache.pullPending && x != e ==> x in st.cache.pullPending - {e};
    assert forall x :: x in st'.cache.pullPending && x != e ==> x in st'.cache.pullPending - {e};
  }

  // ---------------------------------------------------------------- arbitrary runs

  method Handle(s: Session, event: Event, o: Options)
    requires Quiet(s.c, s.View()) && o.strict == s.c.strictMode && Enabled(s.c, s.cache, s.plan.scheduled, event)
    modifies s
    ensures Quiet(s.c, s.View()) && Follows(old(s.View()), event, s.View())
  {
    match event
    case Demanded(e, scope) => s.Require(e, scope);
    case ArtifactLoaded(e, pull, env) => var failed := s.LoadArtifact(e, pull, o, env);
    case LoadingDone(e) => s.LoadArtifactDone(e);
    case SourcesQueried(e, cached) => s.QuerySources(e, cached);
    case SourcesFetched(e) => s.FetchDone(e);
    case AssemblyDone(e, a) => s.AssembleDone(e, a);
    case BuildEnqueued(e) => var status := s.EnqueueBuild(e);
  }

  /** Events that cannot take place are skipped. */
  ghost predicate Stepped(c: Context, st: State, event: Event, st': State) {
    if Enabled(c, st.cache, st.plan.scheduled, event) then Follows(st, event, st') else st' == st
  }

  /** The states that events lead through. */
  ghost predicate IsRun(c: Context, states: seq<State>, events: seq<Event>) {
    && |states| == |events| + 1
    && (forall i {:trigger states[i]} :: 0 <= i < |states| ==> Quiet(c, states[i]))
    && (forall i {:trigger events[i]} :: 0 <= i < |events| ==> Stepped(c, states[i], events[i], states[i + 1]))
  }

  /** Whatever happens, in whatever order, the session is quiet after each event. */
  method Run(s: Session, events: seq<Event>, o: Options) returns (ghost states: seq<State>)
    requires Quiet(s.c, s.View()) && o.strict == s.c.strictMode
    modifies s
    ensures IsRun(s.c, states, events) && states[0] == old(s.View()) && states[|events|] == s.View()
  {
    states := [s.View()];
    for i := 0 to |events|
      invariant Quiet(s.c, s.View()) && IsRun(s.c, states, events[..i])
      invariant states[0] == old(s.View()) && states[i] == s.View()
    {
      ghost var before := s.View();
      if Enabled(s.c, s.cache, s.plan.scheduled, events[i]) { Handle(s, events[i], o); }
      RunGrows(s.c, states, events[..i], events[i], s.View());
      assert events[..i] + [events[i]] == events[..i + 1];
      states := states + [s.View()];
    }
    assert events[..|events|] == events;
  }

  lemma RunGrows(c: Context, states: seq<State>, events: seq<Event>, event: Event, st: State)
    requires IsRun(c, states, events) && Quiet(c, st) && Stepped(c, states[|events|], event, st)
    ensures IsRun(c, states + [st], events + [event])
  {
    var states', events' := states + [st], events + [event];
    forall i | 0 <= i < |events'| ensures Stepped(c, states'[i], events'[i], states'[i + 1]) {
      if i < |events| { assert events'[i] == events[i]; }
    }
  }
}
