/** What follows for every state of a run, in terms of the events that led to it. */
module RunResults {
  import opened Graphs
  import opened Dependencies
  import opened Readiness
  import opened CacheKeys
  import opened SessionState
  import opened SessionPlan
  import opened SessionEvents
  import opened SessionResults
  import opened Sessions
  import opened SessionRuns

  /** A run that starts with nothing requested, scheduled or loaded. */
  ghost predicate IsFreshRun(c: Context, states: seq<State>, events: seq<Event>) {
    && IsRun(c, states, events)
    && states[0].book.keyless == {} && states[0].book.passedOver == {} && states[0].book.outstanding == {}
    && states[0].book.why.requested == map[] && states[0].plan.required == {} && states[0].plan.assembled == {}
    && states[0].book.succeeded == {} && states[0].cache.artifact == map[]
  }

  /** Which events take place, and what they do: demands of elements of the project, a first
      attempt at loading or a pull that is pending, the end of loading an artifact that is
      there, arriving sources, and the end of a scheduled build. */
  lemma EventsTakeEffect(c: Context, states: seq<State>, events: seq<Event>, i: nat, e: Id)
    requires IsRun(c, states, events) && i < |events| && events[i].e == e
    ensures var st, st' := states[i], states[i + 1];
      match events[i]
      case Demanded(_, _) => e in c.Ids() ==> e in st'.book.why.requested
      case ArtifactLoaded(_, pull, _) =>
        e in c.weak && (if pull then e in st.cache.pullPending else e !in st.cache.artifact) ==>
          e in st'.book.outstanding
      case LoadingDone(_) => e in st.cache.artifact ==> e !in st'.book.outstanding
      case SourcesQueried(_, cached) => e !in st.plan.scheduled ==> (e in st'.plan.fetchNeeded <==> !cached)
      case SourcesFetched(_) => st'.plan.fetchNeeded == st.plan.fetchNeeded - {e}
      case AssemblyDone(_, a) =>
        st'.plan.assembled == st.plan.assembled +
          if e in st.plan.scheduled && (a.successful ==> a.stored.Some?) then {e} else {}
      case BuildEnqueued(_) => st'.plan.assembled == st.plan.assembled && st'.plan.fetchNeeded == st.plan.fetchNeeded
  {
    assert Stepped(c, states[i], events[i], states[i + 1]);
  }

  /** Opens a project and lets events happen. */
  method OpenAndRun(p: Loaded, generate: Dict -> Key, strictMode: bool, order: seq<Id>, events: seq<Event>, o: Options)
    returns (s: Session, ghost states: seq<State>)
    requires p.Valid() && Injective(generate) && o.strict == strictMode
    requires DependenciesFirst(p.g.All(), {}, order) && Elements(order) == p.g.build.Keys
    requires forall x :: x in p.g.build ==> NoRepeats(p.g.build[x]) && NoRepeats(p.g.runtime[x])
    ensures fresh(s) && s.c.p == p && s.c.generate == generate && s.c.strictMode == strictMode
    ensures forall x :: x in p.g.build ==>
      Lookup(s.c.weak, x) == WeakKey(generate, p, x) && Lookup(s.c.strict, x) == StrictKey(generate, p, x)
    ensures IsFreshRun(s.c, states, events) && s.View() == states[|events|]
  {
    s := Open(p, generate, strictMode, order);
    states := Run(s, events, o);
  }

  /** Sessions of one project, with the same keys and in the same mode, have the same
      context: links and keys are determined by the project. */
  lemma SameContext(c: Context, st: State, c': Context, st': State)
    requires Quiet(c, st) && Quiet(c', st')
    requires c'.p == c.p && c'.generate == c.generate && c'.strictMode == c.strictMode
    requires forall x :: x in c.p.g.build ==>
      Lookup(c'.weak, x) == Lookup(c.weak, x) && Lookup(c'.strict, x) == Lookup(c.strict, x)
    ensures c' == c
  {
    forall x ensures Lookup(c'.weak, x) == Lookup(c.weak, x) && Lookup(c'.strict, x) == Lookup(c.strict, x) {
      assert KeysAt(c, st, x) && KeysAt(c', st', x);
    }
    SameKeys(c.weak, c'.weak);
    SameKeys(c.strict, c'.strict);
    SameLinks(c.p.g.runtime, c.runtime, c'.runtime);
    SameLinks(c.p.g.build, c.build, c'.build);
  }

  lemma SameKeys(keys: map<Id, Key>, keys': map<Id, Key>)
    requires forall x :: Lookup(keys', x) == Lookup(keys, x)
    ensures keys' == keys
  {
    forall x ensures x in keys' <==> x in keys { assert Lookup(keys', x) == Lookup(keys, x); }
    forall x | x in keys ensures keys'[x] == keys[x] { assert Lookup(keys', x) == Lookup(keys, x); }
  }

  ghost predicate TakesPlace(c: Context, states: seq<State>, events: seq<Event>, j: int) {
    0 <= j < |events| && j < |states| && Enabled(c, states[j].cache, states[j].plan.scheduled, events[j])
  }

  // ---------------------------------------------------------------- readiness

  /** An artifact of x was loaded before step i, and its loading has not ended since. */
  ghost predicate LoadingSince(c: Context, states: seq<State>, events: seq<Event>, i: nat, x: Id, j: int) {
    && 0 <= j < i && TakesPlace(c, states, events, j) && events[j].ArtifactLoaded? && events[j].e == x
    && forall k {:trigger events[k]} :: j < k < i && TakesPlace(c, states, events, k) ==> events[k] != LoadingDone(x)
  }

  /** Loading is incomplete exactly if it began and has not ended since. */
  lemma {:induction false} OutstandingMeans(c: Context, states: seq<State>, events: seq<Event>, i: nat, x: Id)
    requires IsFreshRun(c, states, events) && i <= |events|
    ensures x in states[i].book.outstanding <==> exists j :: LoadingSince(c, states, events, i, x, j)
  {
    if i > 0 {
      var h := i - 1;
      OutstandingMeans(c, states, events, h, x);
      assert Stepped(c, states[h], events[h], states[h + 1]);
      LoadingStep(c, states, events, h, i, x);
    }
  }

  /** What one more step does to the loading of an element. */
  lemma LoadingStep(c: Context, states: seq<State>, events: seq<Event>, h: nat, i: nat, x: Id)
    requires i == h + 1 <= |events| && |states| == |events| + 1
    ensures (exists j :: LoadingSince(c, states, events, i, x, j)) <==>
      if !TakesPlace(c, states, events, h) then exists j :: LoadingSince(c, states, events, h, x, j)
      else (events[h].ArtifactLoaded? && events[h].e == x) ||
           (events[h] != LoadingDone(x) && exists j :: LoadingSince(c, states, events, h, x, j))
  {
    forall j | LoadingSince(c, states, events, i, x, j) && j < h ensures LoadingSince(c, states, events, h, x, j) {
      assert TakesPlace(c, states, events, h) ==> events[h] != LoadingDone(x);
    }
    forall j | LoadingSince(c, states, events, h, x, j)
        && !(TakesPlace(c, states, events, h) && events[h] == LoadingDone(x))
      ensures LoadingSince(c, states, events, i, x, j)
    { }
    assert LoadingSince(c, states, events, i, x, h) <==>
      TakesPlace(c, states, events, h) && events[h].ArtifactLoaded? && events[h].e == x;
  }

  /** Step j noted the end of a build of x, or loaded an artifact of a successful one. */
  ghost predicate SucceededAt(c: Context, states: seq<State>, events: seq<Event>, i: nat, x: Id, j: int) {
    && 0 <= j < i && |states| == |events| + 1 && TakesPlace(c, states, events, j) && events[j].e == x
    && (events[j].AssemblyDone? ||
        (&& events[j].ArtifactLoaded? && x in states[j + 1].cache.artifact
         && states[j + 1].cache.artifact[x].cached && states[j + 1].cache.artifact[x].success))
  }

  lemma {:induction false} SucceededMeans(c: Context, states: seq<State>, events: seq<Event>, i: nat, x: Id)
    requires IsFreshRun(c, states, events) && i <= |events|
    ensures x in states[i].book.succeeded <==> exists j :: SucceededAt(c, states, events, i, x, j)
  {
    if i > 0 {
      var h := i - 1;
      SucceededMeans(c, states, events, h, x);
      assert Stepped(c, states[h], events[h], states[h + 1]);
      forall j | SucceededAt(c, states, events, i, x, j) && j < h ensures SucceededAt(c, states, events, h, x, j) { }
      forall j | SucceededAt(c, states, events, h, x, j) ensures SucceededAt(c, states, events, i, x, j) { }
      assert SucceededAt(c, states, events, i, x, h) <==>
        TakesPlace(c, states, events, h) && events[h].e == x && Succeeds(events[h], states[h + 1]);
    }
  }

  /** An element of which no artifact of a successful build was loaded, and which was
      not assembled, is not ready, and the build queue does not skip it. */
  lemma FailureIsNotReady(c: Context, states: seq<State>, events: seq<Event>, i: nat, x: Id)
    requires IsFreshRun(c, states, events) && i <= |events| && x !in states[i].plan.assembled
    requires forall j {:trigger states[j]} :: 0 <= j <= i && x in states[j].cache.artifact ==>
      !states[j].cache.artifact[x].cached || !states[j].cache.artifact[x].success
    ensures x !in states[i].counters.ready && !states[i].Success(x) && x !in states[i].book.succeeded
  {
    assert Quiet(c, states[i]);
    SucceededMeans(c, states, events, i, x);
    if j :| SucceededAt(c, states, events, i, x, j) {
      var h := j + 1;
      assert x in states[h].plan.assembled by {
        assert Stepped(c, states[j], events[j], states[h]);
        assert 0 <= h <= i;
      }
      StaysAssembled(c, states, events, h, i, x);
    }
    UnearnedFails(c, states[i], TIGHT, x);
  }

  lemma {:induction false} StaysAssembled(c: Context, states: seq<State>, events: seq<Event>, h: nat, i: nat, x: Id)
    requires IsRun(c, states, events) && h <= i <= |events| && x in states[h].plan.assembled
    ensures x in states[i].plan.assembled
    decreases i - h
  {
    if h < i {
      var k := i - 1;
      StaysAssembled(c, states, events, h, k, x);
      assert Stepped(c, states[k], events[k], states[k + 1]);
    }
  }

  /** After any run, an element is ready exactly if its runtime closure is good, where
      the loading of what is good has ended. */
  lemma ReadyInRun(c: Context, states: seq<State>, events: seq<Event>, i: nat, x: Id)
    requires IsFreshRun(c, states, events) && i <= |events| && c.p.Valid() && x in c.Ids()
    requires forall d, j ::
      Reaches(c.p.g.runtime, x, d) && states[i].Good(d) ==> !LoadingSince(c, states, events, i, d, j)
    ensures x in states[i].counters.ready <==> forall d :: Reaches(c.p.g.runtime, x, d) ==> states[i].Good(d)
  {
    assert Quiet(c, states[i]);
    forall d | Reaches(c.p.g.runtime, x, d) && states[i].Good(d) ensures d !in states[i].book.outstanding {
      OutstandingMeans(c, states, events, i, d);
    }
    ReadyIffClosureIsGood(c, states[i], x);
  }

  /** At step i, the loading of x has ended, no pull is to follow, and no key is an
      empty string. */
  ghost predicate EndedBefore(c: Context, states: seq<State>, events: seq<Event>, i: nat, x: Id)
    requires IsFreshRun(c, states, events) && i <= |events|
  {
    && (forall j :: !LoadingSince(c, states, events, i, x, j))
    && x in states[i].cache.artifact && states[i].cache.artifact[x].cached && x !in states[i].cache.pullPending
    && (c.strictMode ==> x in c.strict) && (x in states[i].strong ==> states[i].strong[x] != "")
  }

  /** Two runs over the same project that end with the same elements cached
      successfully agree on what is ready and on all counters, whatever events they
      consisted of, and in whatever order these came. */
  lemma RunsAgree(c: Context, states: seq<State>, events: seq<Event>, i: nat,
                  states': seq<State>, events': seq<Event>, i': nat)
    requires IsFreshRun(c, states, events) && i <= |events| && IsFreshRun(c, states', events') && i' <= |events'|
    requires c.p.Valid() && forall x :: x in c.Ids() ==> states[i].Success(x) == states'[i'].Success(x)
    requires forall x :: x in c.Ids() && states[i].Success(x) ==>
      EndedBefore(c, states, events, i, x) && EndedBefore(c, states', events', i', x)
    ensures states[i].counters == states'[i'].counters
  {
    assert Quiet(c, states[i]) && Quiet(c, states'[i']);
    forall x | x in c.Ids() && states[i].Success(x)
      ensures Concluded(c, states[i], x) && Concluded(c, states'[i'], x)
    {
      OutstandingMeans(c, states, events, i, x);
      OutstandingMeans(c, states', events', i', x);
    }
    OrderDoesNotMatter(c, states[i], states'[i']);
  }

  // ---------------------------------------------------------------- the plan

  /** The elements demanded before step i. */
  ghost function DemandedBefore(c: Context, events: seq<Event>, i: nat): set<Id>
    requires i <= |events|
  {
    if i == 0 then {} else DemandedBefore(c, events, i - 1) + DemandedBy(c, events[i - 1])
  }

  ghost function DemandedBy(c: Context, event: Event): set<Id> {
    if event.Demanded? && event.e in c.Ids() then {event.e} else {}
  }

  lemma {:induction false} DemandedBeforeMeans(c: Context, events: seq<Event>, i: nat, x: Id)
    requires i <= |events|
    ensures x in DemandedBefore(c, events, i) <==>
      x in c.Ids() && exists j :: 0 <= j < i && events[j].Demanded? && events[j].e == x
  {
    if i > 0 { DemandedBeforeMeans(c, events, i - 1, x); }
  }

  lemma RequestedStep(c: Context, st: State, event: Event, st': State)
    requires Stepped(c, st, event, st')
    ensures st'.book.why.requested.Keys ==
      st.book.why.requested.Keys + DemandedBy(c, event)
  { }

  lemma {:induction false} RequestedMeans(c: Context, states: seq<State>, events: seq<Event>, i: nat)
    requires IsFreshRun(c, states, events) && i <= |events|
    ensures states[i].book.why.requested.Keys == DemandedBefore(c, events, i)
  {
    if i > 0 {
      var h := i - 1;
      RequestedMeans(c, states, events, h);
      RequestedStep(c, states[h], events[h], states[h + 1]);
    }
  }

  lemma {:induction false} RequestedInRunScope(c: Context, states: seq<State>, events: seq<Event>, i: nat)
    requires IsFreshRun(c, states, events) && i <= |events|
    requires forall j :: 0 <= j < i && events[j].Demanded? ==> events[j].scope == RUN
    ensures forall x :: x in states[i].book.why.requested ==> states[i].book.why.requested[x] == RUN
  {
    if i > 0 {
      var h := i - 1;
      RequestedInRunScope(c, states, events, h);
      assert Stepped(c, states[h], events[h], states[h + 1]);
    }
  }

  /** After any run that demands elements in RUN scope only, the required elements are
      the least plan with the demanded ones, runtime dependencies, and the build
      dependencies of what is scheduled. */
  lemma RequiredInRun(c: Context, states: seq<State>, events: seq<Event>, i: nat, plan: set<Id>)
    requires IsFreshRun(c, states, events) && i <= |events|
    requires forall j :: 0 <= j < i && events[j].Demanded? ==> events[j].scope == RUN
    ensures ClosedInRunScope(c, DemandedBefore(c, events, i), states[i].plan.scheduled, states[i].plan.required)
    ensures ClosedInRunScope(c, DemandedBefore(c, events, i), states[i].plan.scheduled, plan) ==>
      states[i].plan.required <= plan
  {
    assert Quiet(c, states[i]);
    RequestedMeans(c, states, events, i);
    RequestedInRunScope(c, states, events, i);
    RequiredInRunScope(c, states[i], plan);
  }

  /** At any step of any run, an element not assembled yet is scheduled exactly if it
      should be, where the loading of an artifact that no pull is to follow has ended. */
  lemma ScheduledInRun(c: Context, states: seq<State>, events: seq<Event>, i: nat, x: Id)
    requires IsFreshRun(c, states, events) && i <= |events| && x !in states[i].plan.assembled
    requires x in states[i].cache.artifact && x !in states[i].cache.pullPending ==>
      forall j :: !LoadingSince(c, states, events, i, x, j)
    ensures x in states[i].plan.scheduled <==>
      && x in states[i].plan.required && x in states[i].cache.artifact && x !in states[i].cache.pullPending
      && !states[i].Success(x)
  {
    assert Quiet(c, states[i]);
    OutstandingMeans(c, states, events, i, x);
    ScheduledIffNecessary(c, states[i], x);
  }

  /** The scope an element was first required with: that of the event that demanded
      it, if the element was not required yet, and RUN if another element did. */
  ghost predicate FirstRequired(states: seq<State>, events: seq<Event>, i: nat, x: Id, scope: Scope, j: int) {
    && 0 <= j < i <= |events| && |states| == |events| + 1
    && x !in states[j].plan.required && x in states[j + 1].plan.required
    && scope == if events[j].Demanded? && events[j].e == x then events[j].scope else RUN
  }

  lemma {:induction false} ScopeOfReason(c: Context, states: seq<State>, events: seq<Event>, i: nat, x: Id)
    requires IsFreshRun(c, states, events) && i <= |events| && x in states[i].plan.required
    ensures x in states[i].book.why.of
    ensures exists j :: FirstRequired(states, events, i, x, states[i].book.why.of[x].scope, j)
  {
    assert Quiet(c, states[i]) && PlanAt(c, states[i], {}, x);
    var event := events[i - 1];
    assert Quiet(c, states[i - 1]) && PlanAt(c, states[i - 1], {}, x);
    assert Stepped(c, states[i - 1], event, states[i - 1 + 1]);
    if x in states[i - 1].plan.required {
      ScopeOfReason(c, states, events, i - 1, x);
      var j :| FirstRequired(states, events, i - 1, x, states[i - 1].book.why.of[x].scope, j);
      assert states[i] != states[i - 1] ==> AdvancedAt(states[i - 1], states[i], x);
      assert FirstRequired(states, events, i, x, states[i].book.why.of[x].scope, j);
    } else {
      assert FirstRequired(states, events, i, x, states[i].book.why.of[x].scope, i - 1);
    }
  }

  // ---------------------------------------------------------------- missed keys

  /** Step j scheduled the element when its strong key could not be calculated. */
  ghost predicate ScheduledKeyless(states: seq<State>, i: nat, x: Id, j: int) {
    0 <= j < i < |states| && IsKeyless(states[j], states[j + 1], x)
  }

  /** Step k made its last build dependency ready while its sources were missing. */
  ghost predicate PassedOverAt(states: seq<State>, i: nat, x: Id, k: int) {
    0 <= k < i < |states| && PassesOver(states[k], states[k + 1], x)
  }

  lemma {:induction false} HistoryMeans(c: Context, states: seq<State>, events: seq<Event>, i: nat, x: Id)
    requires IsFreshRun(c, states, events) && i <= |events|
    ensures x in states[i].book.keyless <==> exists j :: ScheduledKeyless(states, i, x, j)
    ensures x in states[i].book.passedOver <==> exists k :: PassedOverAt(states, i, x, k)
  {
    if i > 0 {
      var h := i - 1;
      HistoryMeans(c, states, events, h, x);
      assert Stepped(c, states[h], events[h], states[h + 1]);
      assert HistoryAt(states[h], states[h + 1], x);
      assert ScheduledKeyless(states, i, x, h) <==> IsKeyless(states[h], states[h + 1], x);
      assert PassedOverAt(states, i, x, h) <==> PassesOver(states[h], states[h + 1], x);
      forall j | 0 <= j < h ensures ScheduledKeyless(states, i, x, j) <==> ScheduledKeyless(states, h, x, j) { }
      forall k | 0 <= k < h ensures PassedOverAt(states, i, x, k) <==> PassedOverAt(states, h, x, k) { }
    }
  }

  /** After any run, an element to be built lacks the strong key that caching asserts
      exactly if one event scheduled it when the key could not be calculated, and
      one made its last build dependency ready while its sources were missing. */
  lemma LacksKeyInRun(c: Context, states: seq<State>, events: seq<Event>, i: nat, x: Id)
    requires IsFreshRun(c, states, events) && i <= |events| && states[i].Buildable(x) && x !in states[i].plan.assembled
    ensures x !in states[i].strong <==>
      (exists j :: ScheduledKeyless(states, i, x, j)) && (exists k :: PassedOverAt(states, i, x, k))
  {
    assert Quiet(c, states[i]);
    HistoryMeans(c, states, events, i, x);
    BuildableLacksKey(c, states[i], x);
  }
}
