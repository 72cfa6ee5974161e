/** The dynamic build plan: which elements are required, and which of them are
    scheduled for assembly. */
module SessionPlan {
  import opened Wrappers

  import opened Graphs
  import opened Dependencies
  import opened Readiness
  import opened SessionState

  /** A parent requires the direct dependencies in its scope, and once it is
      scheduled, its build dependencies. */
  ghost predicate Justifies(c: Context, st: State, y: Id, x: Id)
    requires c.Valid()
  {
    && y in st.book.why.of && y in c.Ids()
    && (x in c.Needs(y, st.book.why.of[y].scope) || (y in st.plan.scheduled && x in c.build.needs[y]))
  }

  /** The dependencies that requiring an element in a scope requires as well. */
  lemma NeedsMeans(c: Context, e: Id, scope: Scope, d: Id)
    requires c.Valid() && e in c.Ids()
    ensures d in c.Needs(e, scope) <==>
      || ((scope == RUN || scope == ALL) && DependsOn(c.p.g.runtime, e, d))
      || ((scope == BUILD || scope == ALL) && DependsOn(c.p.g.build, e, d))
  {
    assert LinkedAt(c.p.g.runtime, c.runtime, e) && LinkedAt(c.p.g.build, c.build, e);
  }

  /** Required, of known artifact state, with no pull pending, and neither cached
      successfully nor assembled yet. */
  predicate ShouldBeScheduled(st: State, x: Id) {
    && x in st.plan.required && x in st.cache.artifact && x !in st.cache.pullPending
    && !st.Success(x) && x !in st.plan.assembled
  }

  ghost predicate PlanAt(c: Context, st: State, open: set<Id>, x: Id)
    requires c.Valid()
  {
    && (x in st.plan.required <==> x in st.book.why.of)
    && (x in st.plan.scheduled ==> x in st.plan.required)
    && (x in st.plan.required && st.book.why.of[x].parent.None? ==>
          x in st.book.why.requested && st.book.why.of[x].scope == st.book.why.requested[x])
    && (x in st.plan.required ==>
          && x in c.Ids()
          && st.book.why.of[x].when < |st.book.why.of|
          && (x !in open ==> c.Needs(x, st.book.why.of[x].scope) <= st.plan.required)
          && (x in st.plan.scheduled && x !in open ==> c.build.needs[x] <= st.plan.required)
          && (st.book.why.of[x].parent.Some? ==>
                && st.book.why.of[x].scope == RUN
                && Justifies(c, st, st.book.why.of[x].parent.value, x)
                && st.book.why.of[st.book.why.of[x].parent.value].when < st.book.why.of[x].when))
    // whatever should be scheduled is, unless its loading is not complete
    && (x !in open && x !in st.book.outstanding && ShouldBeScheduled(st, x) ==> x in st.plan.scheduled)
  }

  ghost predicate PlanInv(c: Context, st: State, open: set<Id>) {
    c.Valid() && forall x {:trigger PlanAt(c, st, open, x)} :: PlanAt(c, st, open, x)
  }

  ghost predicate ReasonKept(st: State, st': State, x: Id) {
    x in st.book.why.of ==> x in st'.book.why.of && st'.book.why.of[x] == st.book.why.of[x]
  }

  /** What requiring elements changes: the plan grows, reasons stay what they were,
      and nothing becomes ready by it.  The keys of `due` are still to be looked at. */
  ghost predicate PlannedBut(st: State, st': State, due: set<Id>) {
    && Grown(st, st') && st.plan.required <= st'.plan.required && st.plan.scheduled <= st'.plan.scheduled
    && st'.plan.assembled == st.plan.assembled && st'.plan.fetchNeeded == st.plan.fetchNeeded
    && st'.book.why.requested == st.book.why.requested && st'.book.passedOver == st.book.passedOver
    && st'.counters == st.counters
    && st'.book.owedRuntime == st.book.owedRuntime
    && st'.book.owedBuild == st.book.owedBuild
    && forall x {:trigger PlannedAt(st, st', due, x)} :: PlannedAt(st, st', due, x)
  }

  ghost predicate Planned(st: State, st': State) {
    PlannedBut(st, st', {})
  }

  /** Only what is newly scheduled gets its key, or is keyless from then on. */
  ghost predicate PlannedAt(st: State, st': State, due: set<Id>, x: Id) {
    && ReasonKept(st, st', x)
    && (x in st.plan.scheduled && x in st'.strong ==> x in st.strong)
    && (x in st'.book.keyless <==> x in st.book.keyless || (x !in due && IsKeyless(st, st', x)))
  }

  /** An element is keyless if its strong key cannot be calculated when it is scheduled. */
  predicate IsKeyless(st: State, st': State, x: Id) {
    x !in st.plan.scheduled && x in st'.plan.scheduled && x !in st'.strong
  }

  lemma PlannedSelf(st: State)
    ensures Planned(st, st)
  { }

  lemma PlannedThen(st: State, st': State, st'': State, due: set<Id>)
    requires PlannedBut(st, st', due) && PlannedBut(st', st'', due)
    ensures PlannedBut(st, st'', due)
  {
    GrownThen(st, st', st'');
    forall x ensures PlannedAt(st, st'', due, x) {
      assert PlannedAt(st, st', due, x) && PlannedAt(st', st'', due, x) && GrownAt(st', st'', x);
    }
  }

  /** Planning that does not schedule an element leaves it due. */
  lemma StillDue(st: State, st': State, e: Id)
    requires Planned(st, st') && (e in st.plan.scheduled <==> e in st'.plan.scheduled)
    ensures PlannedBut(st, st', {e})
  {
    forall x ensures PlannedAt(st, st', {e}, x) { assert PlannedAt(st, st', {}, x); }
  }

  ghost function ListedKeyless(c: Context, st: State, e: Id): State
    requires c.Valid()
  {
    st.(book := st.book.(keyless := if KeyNow(c, st, e).None? then st.book.keyless + {e} else st.book.keyless))
  }

  /** An element whose key cannot be calculated now is keyless from now on. */
  lemma ListsKeyless(c: Context, st: State, s: Slack, open: set<Id>, e: Id)
    requires Inv(c, st, s.(unkeyed := s.unkeyed + {e})) && Settled(st, {}) && PlanInv(c, st, open)
    requires e in st.plan.scheduled && e !in st.book.keyless
    ensures var st' := ListedKeyless(c, st, e);
            && Inv(c, st', s.(unkeyed := s.unkeyed + {e})) && Settled(st', {}) && PlanInv(c, st', open)
            && MayBeUpdated(c, st', e)
  {
    var st', s' := ListedKeyless(c, st, e), s.(unkeyed := s.unkeyed + {e});
    KeysKept(c, st, st');
    if st.NothingToWaitFor(e) { KeyIsDue(c, st, s', e); }
    forall x ensures Ok(c, st', s', x) { assert Ok(c, st, s', x); }
    forall x ensures SettledAt(st', {}, x) && PlanAt(c, st', open, x) {
      assert SettledAt(st, {}, x) && PlanAt(c, st, open, x);
    }
  }

  /** An element that was only just scheduled gets its key, or is keyless. */
  lemma PlannedWithKey(c: Context, st: State, st': State, st'': State, e: Id)
    requires c.Valid() && PlannedBut(st, st', {e}) && e !in st.plan.scheduled && e in st'.plan.scheduled
    requires Cascaded(ListedKeyless(c, st', e), st'') && st''.counters == st'.counters
    requires st''.book.owedRuntime == st'.book.owedRuntime && st''.book.owedBuild == st'.book.owedBuild
    requires st''.strong.Keys - {e} == st'.strong.Keys - {e} && e !in st'.book.keyless
    requires e in st''.strong <==> KeyNow(c, st', e).Some?
    ensures Planned(st, st'')
  {
    var listed := ListedKeyless(c, st', e);
    assert Grown(st', listed) by { forall x ensures GrownAt(st', listed, x) { } }
    GrownThen(st', listed, st'');
    GrownThen(st, st', st'');
    forall x ensures PlannedAt(st, st'', {}, x) {
      assert PlannedAt(st, st', {e}, x) && GrownAt(st', st'', x) && CascadedAt(listed, st'', x);
      assert x != e ==> (x in st''.strong.Keys - {e} <==> x in st'.strong.Keys - {e});
    }
    assert st''.book.passedOver == st.book.passedOver by {
      forall x ensures x in st''.book.passedOver <==> x in st.book.passedOver { assert CascadedAt(listed, st'', x); }
    }
  }

  /** Elements in the middle of an update are scheduled by nobody else. */
  ghost predicate SameWithin(open: set<Id>, before: set<Id>, after: set<Id>) {
    forall x {:trigger x in before} {:trigger x in after} :: x in open ==> (x in before <==> x in after)
  }

  /** What no event ever undoes: strong keys, readiness, the plan and its reasons. */
  ghost predicate Advanced(st: State, st': State) {
    && st.counters.ready <= st'.counters.ready && st.plan.required <= st'.plan.required
    && st.plan.scheduled <= st'.plan.scheduled && st.plan.assembled <= st'.plan.assembled
    && st.book.keyless <= st'.book.keyless && st.book.passedOver <= st'.book.passedOver
    && forall x {:trigger AdvancedAt(st, st', x)} :: AdvancedAt(st, st', x)
  }

  ghost predicate AdvancedAt(st: State, st': State, x: Id) {
    ReasonKept(st, st', x) && (x in st.strong ==> x in st'.strong && st'.strong[x] == st.strong[x])
  }

  lemma AdvancedThen(st: State, st': State, st'': State)
    requires Advanced(st, st') && Advanced(st', st'')
    ensures Advanced(st, st'')
  {
    forall x ensures AdvancedAt(st, st'', x) { assert AdvancedAt(st, st', x) && AdvancedAt(st', st'', x); }
  }

  /** Which elements one event makes keyless or passes over. */
  ghost predicate History(st: State, st': State) {
    forall x {:trigger HistoryAt(st, st', x)} :: HistoryAt(st, st', x)
  }

  ghost predicate HistoryAt(st: State, st': State, x: Id) {
    && (x in st'.book.keyless <==> x in st.book.keyless || IsKeyless(st, st', x))
    && (x in st'.book.passedOver <==> x in st.book.passedOver || PassesOver(st, st', x))
  }

  /** A small step, a cascade and then scheduling. */
  lemma Advances(before: State, st: State, mid: State, st': State)
    requires st.strong == before.strong && st.counters == before.counters && st.book.why.of == before.book.why.of
    requires st.book.keyless == before.book.keyless && st.book.passedOver == before.book.passedOver
    requires st.plan == before.plan.(assembled := st.plan.assembled) && before.plan.assembled <= st.plan.assembled
    requires Cascaded(st, mid) && Planned(mid, st')
    ensures Advanced(before, st') && History(before, st')
  {
    forall x
      ensures HistoryAt(before, st', x) && AdvancedAt(before, st', x)
      ensures x in before.book.keyless ==> x in st'.book.keyless
      ensures x in before.book.passedOver ==> x in st'.book.passedOver
    {
      assert GrownAt(st, mid, x) && CascadedAt(st, mid, x) && GrownAt(mid, st', x) && PlannedAt(mid, st', {}, x);
    }
  }

  /** Cascades do not touch the plan. */
  lemma PlanKept(c: Context, st: State, st': State, open: set<Id>)
    requires PlanInv(c, st, open) && Cascaded(st, st')
    ensures PlanInv(c, st', open)
  {
    forall x ensures PlanAt(c, st', open, x) { assert PlanAt(c, st, open, x) && GrownAt(st, st', x); }
  }

  function Required(st: State, e: Id, scope: Scope, parent: Option<Id>): State {
    st.(plan := st.plan.(required := st.plan.required + {e}),
        book := st.book.(why := st.book.why.(of := st.book.why.of[e := Why(scope, parent, |st.book.why.of|)])))
  }

  /** A newly required element, whose dependencies are yet to be required. */
  lemma Requires(c: Context, st: State, s: Slack, open: set<Id>, e: Id, scope: Scope, parent: Option<Id>)
    requires Inv(c, st, s) && Settled(st, {}) && PlanInv(c, st, open) && e !in st.plan.required && e in c.Ids()
    requires if parent.Some? then scope == RUN && Justifies(c, st, parent.value, e)
      else e in st.book.why.requested && st.book.why.requested[e] == scope
    ensures var st' := Required(st, e, scope, parent);
            Inv(c, st', s) && Settled(st', {}) && PlanInv(c, st', open + {e}) && Planned(st, st')
  {
    var st' := Required(st, e, scope, parent);
    KeysKept(c, st, st');
    forall x ensures Ok(c, st', s, x) && SettledAt(st', {}, x) && GrownAt(st, st', x) {
      assert Ok(c, st, s, x) && SettledAt(st, {}, x);
    }
    RequiresPlan(c, st, open, e, scope, parent);
    assert PlanAt(c, st, open, e);
  }

  lemma RequiresPlan(c: Context, st: State, open: set<Id>, e: Id, scope: Scope, parent: Option<Id>)
    requires PlanInv(c, st, open) && e !in st.plan.required && e in c.Ids()
    requires if parent.Some? then scope == RUN && Justifies(c, st, parent.value, e)
      else e in st.book.why.requested && st.book.why.requested[e] == scope
    ensures PlanInv(c, Required(st, e, scope, parent), open + {e})
  {
    var st' := Required(st, e, scope, parent);
    assert PlanAt(c, st, open, e);
    assert |st'.book.why.of| == |st.book.why.of| + 1 by {
      assert st'.book.why.of.Keys == st.book.why.of.Keys + {e};
      assert |st'.book.why.of| == |st'.book.why.of.Keys| && |st.book.why.of| == |st.book.why.of.Keys|;
    }
    if parent.Some? { assert PlanAt(c, st, open, parent.value); }
    forall x ensures PlanAt(c, st', open + {e}, x) {
      assert PlanAt(c, st, open, x);
      if x in st.plan.required && st.book.why.of[x].parent.Some? {
        assert PlanAt(c, st, open, st.book.why.of[x].parent.value);
      }
    }
  }

  /** An element whose dependencies are all required, and which is scheduled if it
      should be, is complete. */
  lemma PlanCloses(c: Context, st: State, open: set<Id>, e: Id)
    requires PlanInv(c, st, open + {e})
    requires e in st.plan.required ==>
      e in c.Ids() && e in st.book.why.of && c.Needs(e, st.book.why.of[e].scope) <= st.plan.required
    requires e in st.plan.scheduled ==> e in c.Ids() && c.build.needs[e] <= st.plan.required
    requires e in st.plan.scheduled || !ShouldBeScheduled(st, e)
    ensures PlanInv(c, st, open)
  {
    forall x ensures PlanAt(c, st, open, x) {
      assert PlanAt(c, st, open + {e}, x);
    }
  }

  function Scheduled(st: State, e: Id): State {
    st.(plan := st.plan.(scheduled := st.plan.scheduled + {e}))
  }

  /** Scheduling an element: its strong key is still to be calculated, and its
      build dependencies still to be required. */
  lemma Schedules(c: Context, st: State, s: Slack, open: set<Id>, e: Id)
    requires Inv(c, st, s) && Settled(st, {}) && e !in s.unfired && e !in st.plan.scheduled && ShouldBeScheduled(st, e)
    requires PlanInv(c, st, open + {e})
    ensures e in c.Ids()
    ensures Inv(c, Scheduled(st, e), s.(unkeyed := s.unkeyed + {e})) && Settled(Scheduled(st, e), {})
    ensures PlanInv(c, Scheduled(st, e), open + {e}) && PlannedBut(st, Scheduled(st, e), {e})
  {
    var st', s' := Scheduled(st, e), s.(unkeyed := s.unkeyed + {e});
    assert Ok(c, st, s, e);
    KeysKept(c, st, st');
    forall x ensures Ok(c, st', s', x) && SettledAt(st', {}, x) && GrownAt(st, st', x) {
      assert Ok(c, st, s, x) && SettledAt(st, {}, x);
    }
    forall x ensures PlanAt(c, st', open + {e}, x) { assert PlanAt(c, st, open + {e}, x); }
  }

  lemma DirectIsNeeds(c: Context, e: Id, scope: Scope)
    requires c.Valid() && e in c.Ids()
    ensures e in c.p.g.build
    ensures forall d :: d in Direct(c.p.g, e, scope) <==> d in c.Needs(e, scope)
    ensures c.Needs(e, scope) <= c.Ids()
  {
    assert LinkedAt(c.p.g.build, c.build, e) && LinkedAt(c.p.g.runtime, c.runtime, e);
    DirectLists(c.p.g, e, scope);
    forall d | d in c.Needs(e, scope) ensures d in c.Ids() {
      assert d in Direct(c.p.g, e, scope);
      assert LinkedAt(c.p.g.build, c.build, d);
    }
  }
}
