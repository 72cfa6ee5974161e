/** The build planner: it finds how deep every element lies below the targets,
    by traversing again whatever it meets at a greater depth, and then sorts by
    depth. */
module Planner {
  import opened Graphs
  import opened Dependencies
  import opened DependencyOrder

  // ---------------------------------------------------------------- depth

  /** A route from a root down to an element, one dependency at a time. */
  datatype Route = Root(at: Id) | ByRuntime(above: Route, at: Id) | ByBuild(above: Route, at: Id) {
    ghost predicate Valid(g: Project, roots: seq<Id>) {
      match this
      case Root(r) => r in roots
      case ByRuntime(a, x) => a.Valid(g, roots) && DependsOn(g.runtime, a.at, x)
      case ByBuild(a, x) => a.Valid(g, roots) && DependsOn(g.build, a.at, x)
    }

    /** The number of build dependencies along the route. */
    function Builds(): nat {
      match this
      case Root(_) => 0
      case ByRuntime(a, _) => a.Builds()
      case ByBuild(a, _) => a.Builds() + 1
    }
  }

  ghost predicate HasRoute(g: Project, roots: seq<Id>, x: Id, k: nat) {
    exists r: Route :: r.Valid(g, roots) && r.at == x && r.Builds() == k
  }

  /** k is the largest number of build dependencies on any route to x. */
  ghost predicate Deepest(g: Project, roots: seq<Id>, x: Id, k: nat) {
    HasRoute(g, roots, x, k) && forall k': nat :: HasRoute(g, roots, x, k') ==> k' <= k
  }

  /** Every element lies at least as deep as its position below another demands. */
  ghost predicate Settled(g: Project, depth: map<Id, nat>) {
    && (forall x, y {:trigger DependsOn(g.runtime, x, y)} ::
          x in depth && DependsOn(g.runtime, x, y) ==> y in depth && depth[y] >= depth[x])
    && (forall x, y {:trigger DependsOn(g.build, x, y)} ::
          x in depth && DependsOn(g.build, x, y) ==> y in depth && depth[y] >= depth[x] + 1)
  }

  lemma {:induction false} SettledBoundsRoutes(g: Project, roots: seq<Id>, depth: map<Id, nat>, r: Route)
    requires Settled(g, depth) && Elements(roots) <= depth.Keys
    requires r.Valid(g, roots)
    ensures r.at in depth && r.Builds() <= depth[r.at]
  {
    match r
    case Root(x) => assert x in Elements(roots);
    case ByRuntime(a, x) => SettledBoundsRoutes(g, roots, depth, a);
    case ByBuild(a, x) => SettledBoundsRoutes(g, roots, depth, a);
  }

  lemma SettledIsDeepest(g: Project, roots: seq<Id>, depth: map<Id, nat>, x: Id)
    requires Settled(g, depth) && Elements(roots) <= depth.Keys
    requires x in depth && HasRoute(g, roots, x, depth[x])
    ensures Deepest(g, roots, x, depth[x])
  {
    forall k: nat | HasRoute(g, roots, x, k) ensures k <= depth[x] {
      var r: Route :| r.Valid(g, roots) && r.at == x && r.Builds() == k;
      SettledBoundsRoutes(g, roots, depth, r);
    }
  }

  lemma {:induction false} RouteIsReachable(g: Project, roots: seq<Id>, r: Route)
    requires g.Valid() && r.Valid(g, roots)
    ensures ReachedFrom(g.All(), roots, r.at)
  {
    match r
    case Root(x) => ReachesSelf(g.All(), x);
    case ByRuntime(a, x) =>
      RouteIsReachable(g, roots, a);
      var root :| root in roots && Reaches(g.All(), root, a.at);
      ReachesThen(g.All(), root, a.at, x);
    case ByBuild(a, x) =>
      RouteIsReachable(g, roots, a);
      var root :| root in roots && Reaches(g.All(), root, a.at);
      ReachesThen(g.All(), root, a.at, x);
  }

  // ---------------------------------------------------------------- sorting

  ghost predicate Before<T(!new)>(s: seq<T>, a: T, b: T) {
    exists i, j :: 0 <= i < j < |s| && s[i] == a && s[j] == b
  }

  /** Deeper first, and elements of equal depth in the order of s. */
  ghost predicate Ranked(s: seq<Id>, depth: map<Id, nat>, a: Id, b: Id)
    requires a in depth && b in depth
  {
    depth[a] > depth[b] || (depth[a] == depth[b] && Before(s, a, b))
  }

  function Insert(x: Id, t: seq<Id>, depth: map<Id, nat>): (r: seq<Id>)
    requires x in depth && Elements(t) <= depth.Keys
    ensures Elements(r) == {x} + Elements(t)
    decreases |t|
  {
    if t == [] then [x]
    else
      assert t[0] in Elements(t) && Elements(t) == {t[0]} + Elements(t[1..]);
      if depth[t[0]] <= depth[x] then
        assert Elements([x] + t) == {x} + Elements(t);
        [x] + t
      else
        var r := Insert(x, t[1..], depth);
        assert Elements([t[0]] + r) == {t[0]} + Elements(r);
        [t[0]] + r
  }

  function SortByDepth(s: seq<Id>, depth: map<Id, nat>): (r: seq<Id>)
    requires Elements(s) <= depth.Keys
    ensures Elements(r) == Elements(s)
    decreases |s|
  {
    if s == [] then []
    else
      assert s[0] in Elements(s) && Elements(s) == {s[0]} + Elements(s[1..]);
      Insert(s[0], SortByDepth(s[1..], depth), depth)
  }

  ghost predicate RankedBy(s: seq<Id>, depth: map<Id, nat>, r: seq<Id>)
    requires Elements(r) <= depth.Keys
  {
    NoRepeats(r) && forall i, j :: 0 <= i < j < |r| ==>
      r[i] in Elements(r) && r[j] in Elements(r) && Ranked(s, depth, r[i], r[j])
  }

  lemma PrependRanks(s: seq<Id>, x: Id, t: seq<Id>, depth: map<Id, nat>)
    requires x in depth && Elements(t) <= depth.Keys && RankedBy(s, depth, t)
    requires forall y :: y in Elements(t) ==> x != y && Ranked(s, depth, x, y)
    ensures Elements([x] + t) == {x} + Elements(t) && RankedBy(s, depth, [x] + t)
  {
    var r := [x] + t;
    forall i, j | 0 <= i < j < |r|
      ensures r[i] != r[j] && r[i] in Elements(r) && r[j] in Elements(r) && Ranked(s, depth, r[i], r[j])
    {
      assert r[j] == t[j - 1] && t[j - 1] in Elements(t);
      if i > 0 { assert r[i] == t[i - 1]; }
    }
  }

  lemma TailRanks(s: seq<Id>, t: seq<Id>, depth: map<Id, nat>)
    requires t != [] && Elements(t) <= depth.Keys && RankedBy(s, depth, t)
    ensures Elements(t) == {t[0]} + Elements(t[1..]) && RankedBy(s, depth, t[1..])
    ensures forall y :: y in Elements(t[1..]) ==> t[0] != y && Ranked(s, depth, t[0], y)
  {
    var u := t[1..];
    forall i | 0 <= i < |u| ensures u[i] == t[i + 1] && u[i] in Elements(u) { }
    assert Elements(t) == {t[0]} + Elements(u);
  }

  lemma {:induction false} InsertRanks(s: seq<Id>, x: Id, t: seq<Id>, depth: map<Id, nat>)
    requires x in depth && Elements(t) <= depth.Keys
    requires x !in Elements(t) && RankedBy(s, depth, t)
    requires forall y :: y in Elements(t) ==> Before(s, x, y)
    ensures RankedBy(s, depth, Insert(x, t, depth))
    decreases |t|
  {
    if t == [] {
    } else {
      var u := t[1..];
      TailRanks(s, t, depth);
      if depth[t[0]] <= depth[x] {
        PrependRanks(s, x, t, depth);
      } else {
        InsertRanks(s, x, u, depth);
        PrependRanks(s, t[0], Insert(x, u, depth), depth);
      }
    }
  }

  /** Sorting by decreasing depth is stable. */
  lemma {:induction false} SortRanks(s: seq<Id>, depth: map<Id, nat>)
    requires Elements(s) <= depth.Keys && NoRepeats(s)
    ensures RankedBy(s, depth, SortByDepth(s, depth))
    decreases |s|
  {
    if s != [] {
      var u := s[1..];
      assert s[0] in Elements(s) && Elements(s) == {s[0]} + Elements(u);
      SortRanks(u, depth);
      var t := SortByDepth(u, depth);
      forall y | y in Elements(t) ensures Before(s, s[0], y) {
        var k :| 0 <= k < |u| && u[k] == y;
        assert s[k + 1] == y;
      }
      forall a, b | Before(u, a, b) ensures Before(s, a, b) {
        var m, n :| 0 <= m < n < |u| && u[m] == a && u[n] == b;
        assert s[m + 1] == a && s[n + 1] == b;
      }
      InsertRanks(s, s[0], t, depth);
    }
  }

  // ---------------------------------------------------------------- the traversal

  /** The depth map is an ordered dictionary: `order` lists its keys in the order
      of their first insertion. */
  datatype State = State(depth: map<Id, nat>, order: seq<Id>, visiting: set<Id>) {
    function Record(e: Id, d: nat): State {
      State(depth[e := d], if e in depth then order else order + [e], visiting - {e})
    }
  }

  /** Visits e at a depth, and again whatever lies below it at a greater depth
      than before.  Elements already being visited are left alone, so this ends
      on cyclic graphs too. */
  function Explore(g: Project, e: Id, d: nat, s: State): (r: State)
    requires g.Valid() && e in g.build
    ensures r.visiting == s.visiting
    decreases g.build.Keys - s.visiting, 0, 1
  {
    if Passed(e, d, s) then s else Below(g, e, d, s).Record(e, d)
  }

  predicate Passed(e: Id, d: nat, s: State) {
    e in s.visiting || (e in s.depth && s.depth[e] >= d)
  }

  /** The dependencies of e, while e is being visited. */
  function Below(g: Project, e: Id, d: nat, s: State): (r: State)
    requires g.Valid() && e in g.build && e !in s.visiting
    ensures r.visiting == s.visiting + {e}
    decreases g.build.Keys - s.visiting, 0, 0
  {
    DirectLists(g, e, RUN);
    DirectLists(g, e, BUILD);
    var s1 := ExploreEach(g, Direct(g, e, RUN), d, s.(visiting := s.visiting + {e}));
    ExploreEach(g, Direct(g, e, BUILD), d + 1, s1)
  }

  function ExploreEach(g: Project, ds: seq<Id>, d: nat, s: State): (r: State)
    requires g.Valid() && Within(g.build, ds)
    ensures r.visiting == s.visiting
    decreases g.build.Keys - s.visiting, 1, |ds|
  {
    if ds == [] then s else ExploreEach(g, ds[1..], d, Explore(g, ds[0], d, s))
  }

  // ---------------------------------------------------------------- on any graph

  predicate Needs(g: Project, x: Id, y: Id) {
    DependsOn(g.build, x, y) || DependsOn(g.runtime, x, y)
  }

  ghost predicate Complete(g: Project, s: State) {
    && NoRepeats(s.order) && Elements(s.order) == s.depth.Keys
    && (forall x, y {:trigger Needs(g, x, y)} :: x in s.depth && Needs(g, x, y) ==> y in s.depth || y in s.visiting)
  }

  /** Depths only grow, and those of elements being visited do not change. */
  ghost predicate Grown(s: State, t: State) {
    && (forall x :: x in s.depth ==> x in t.depth && t.depth[x] >= s.depth[x])
    && (forall v :: v in s.visiting && v in t.depth ==> v in s.depth && t.depth[v] == s.depth[v])
  }

  lemma GrownThen(s: State, t: State, u: State)
    requires Grown(s, t) && Grown(t, u) && s.visiting == t.visiting
    ensures Grown(s, u)
  { }

  lemma RecordGrows(s: State, t: State, e: Id, d: nat)
    requires e !in s.visiting && (e in s.depth ==> s.depth[e] <= d)
    requires Grown(s.(visiting := s.visiting + {e}), t)
    ensures Grown(s, t.Record(e, d))
  {
    assert e in s.visiting + {e};
  }

  lemma {:induction false} ExploreCompletes(g: Project, e: Id, d: nat, s: State)
    requires g.Valid() && e in g.build && Complete(g, s)
    ensures var t := Explore(g, e, d, s);
            Complete(g, t) && Grown(s, t) && (e in t.depth || e in t.visiting)
    decreases g.build.Keys - s.visiting, 0, 1
  {
    if !Passed(e, d, s) {
      BelowCompletes(g, e, d, s);
      RecordGrows(s, Below(g, e, d, s), e, d);
      RecordKeepsKeys(Below(g, e, d, s), e, d);
    }
  }

  lemma {:induction false} BelowCompletes(g: Project, e: Id, d: nat, s: State)
    requires g.Valid() && e in g.build && e !in s.visiting && Complete(g, s)
    ensures var t := Below(g, e, d, s);
            Complete(g, t) && Grown(s.(visiting := s.visiting + {e}), t)
            && forall y :: Needs(g, e, y) ==> y in t.depth || y in t.visiting
    decreases g.build.Keys - s.visiting, 0, 0
  {
    var s0 := s.(visiting := s.visiting + {e});
    var runs, builds := Direct(g, e, RUN), Direct(g, e, BUILD);
    DirectLists(g, e, RUN);
    DirectLists(g, e, BUILD);
    var s1 := ExploreEach(g, runs, d, s0);
    ExploreEachCompletes(g, runs, d, s0);
    ExploreEachCompletes(g, builds, d + 1, s1);
    GrownThen(s0, s1, Below(g, e, d, s));
    assert forall y :: Needs(g, e, y) ==> y in runs || y in builds;
  }

  lemma RecordKeepsKeys(s: State, e: Id, d: nat)
    requires NoRepeats(s.order) && Elements(s.order) == s.depth.Keys
    ensures NoRepeats(s.Record(e, d).order) && Elements(s.Record(e, d).order) == s.Record(e, d).depth.Keys
  {
    assert Elements(s.order + [e]) == Elements(s.order) + {e};
    assert forall y :: y in s.order ==> y in Elements(s.order);
  }

  lemma {:induction false} ExploreEachCompletes(g: Project, ds: seq<Id>, d: nat, s: State)
    requires g.Valid() && Within(g.build, ds) && Complete(g, s)
    ensures var t := ExploreEach(g, ds, d, s);
            Complete(g, t) && Grown(s, t) && forall y :: y in ds ==> y in t.depth || y in t.visiting
    decreases g.build.Keys - s.visiting, 1, |ds|
  {
    if ds != [] {
      var t := Explore(g, ds[0], d, s);
      ExploreCompletes(g, ds[0], d, s);
      ExploreEachCompletes(g, ds[1..], d, t);
      HeadOrTail(ds);
    }
  }

  ghost predicate Routed(g: Project, roots: seq<Id>, s: State) {
    forall x {:trigger HasRoute(g, roots, x, s.depth[x])} :: x in s.depth ==> HasRoute(g, roots, x, s.depth[x])
  }

  lemma {:induction false} ExploreRoutes(g: Project, roots: seq<Id>, e: Id, d: nat, s: State)
    requires g.Valid() && e in g.build && Routed(g, roots, s) && HasRoute(g, roots, e, d)
    ensures Routed(g, roots, Explore(g, e, d, s))
    decreases g.build.Keys - s.visiting, 0, 1
  {
    if !Passed(e, d, s) {
      var s0 := s.(visiting := s.visiting + {e});
      var runs, builds := Direct(g, e, RUN), Direct(g, e, BUILD);
      DirectLists(g, e, RUN);
      DirectLists(g, e, BUILD);
      ExtendRoutes(g, roots, e, d);
      ExploreEachRoutes(g, roots, runs, d, s0);
      ExploreEachRoutes(g, roots, builds, d + 1, ExploreEach(g, runs, d, s0));
    }
  }

  lemma {:induction false} ExploreEachRoutes(g: Project, roots: seq<Id>, ds: seq<Id>, d: nat, s: State)
    requires g.Valid() && Within(g.build, ds) && Routed(g, roots, s)
    requires forall y :: y in ds ==> HasRoute(g, roots, y, d)
    ensures Routed(g, roots, ExploreEach(g, ds, d, s))
    decreases g.build.Keys - s.visiting, 1, |ds|
  {
    if ds != [] {
      ExploreRoutes(g, roots, ds[0], d, s);
      ExploreEachRoutes(g, roots, ds[1..], d, Explore(g, ds[0], d, s));
    }
  }

  lemma ExtendRoutes(g: Project, roots: seq<Id>, e: Id, d: nat)
    requires g.Valid() && e in g.build && HasRoute(g, roots, e, d)
    ensures forall y :: y in Direct(g, e, RUN) ==> HasRoute(g, roots, y, d)
    ensures forall y :: y in Direct(g, e, BUILD) ==> HasRoute(g, roots, y, d + 1)
  {
    DirectLists(g, e, RUN);
    DirectLists(g, e, BUILD);
    var r: Route :| r.Valid(g, roots) && r.at == e && r.Builds() == d;
    forall y | DependsOn(g.runtime, e, y) ensures HasRoute(g, roots, y, d) {
      assert ByRuntime(r, y).Valid(g, roots) && ByRuntime(r, y).Builds() == d;
    }
    forall y | DependsOn(g.build, e, y) ensures HasRoute(g, roots, y, d + 1) {
      assert ByBuild(r, y).Valid(g, roots) && ByBuild(r, y).Builds() == d + 1;
    }
  }

  // ---------------------------------------------------------------- on acyclic graphs

  /** Ranks certify that a graph is acyclic: they drop along every dependency. */
  ghost predicate Drops(g: Project, rank: map<Id, nat>) {
    && rank.Keys == g.build.Keys
    && forall x, y :: Needs(g, x, y) ==> x in rank && y in rank && rank[y] < rank[x]
  }

  /** Only elements above a rank are being visited. */
  ghost predicate OnlyAbove(rank: map<Id, nat>, visiting: set<Id>, k: nat) {
    forall v :: v in visiting ==> v in rank && rank[v] >= k
  }

  ghost predicate RanksBelow(rank: map<Id, nat>, ds: seq<Id>, k: nat) {
    forall y {:trigger y in ds} :: y in ds ==> y in rank && rank[y] < k
  }

  ghost predicate Ordered(g: Project, order: seq<Id>) {
    forall i, y {:trigger Needs(g, order[i], y)} :: 0 <= i < |order| && Needs(g, order[i], y) ==> y in order[..i]
  }

  lemma {:induction false} ExploreSettles(g: Project, rank: map<Id, nat>, e: Id, d: nat, s: State)
    requires g.Valid() && e in g.build && Drops(g, rank) && OnlyAbove(rank, s.visiting, rank[e] + 1)
    requires Settled(g, s.depth)
    ensures var t := Explore(g, e, d, s);
            Settled(g, t.depth) && Grown(s, t) && e in t.depth && t.depth[e] >= d
    decreases g.build.Keys - s.visiting, 0, 1
  {
    if !Passed(e, d, s) {
      var t := Below(g, e, d, s);
      BelowSettles(g, rank, e, d, s);
      DirectRanksBelow(g, rank, e);
      RecordGrows(s, t, e, d);
      RecordSettles(g, e, d, t.depth);
    }
  }

  lemma {:induction false} BelowSettles(g: Project, rank: map<Id, nat>, e: Id, d: nat, s: State)
    requires g.Valid() && e in g.build && Drops(g, rank) && OnlyAbove(rank, s.visiting, rank[e] + 1)
    requires e !in s.visiting && Settled(g, s.depth)
    ensures var t := Below(g, e, d, s);
            Settled(g, t.depth) && Grown(s.(visiting := s.visiting + {e}), t)
            && DeepEnough(t.depth, Direct(g, e, RUN), d) && DeepEnough(t.depth, Direct(g, e, BUILD), d + 1)
    decreases g.build.Keys - s.visiting, 0, 0
  {
    var s0 := s.(visiting := s.visiting + {e});
    var runs, builds := Direct(g, e, RUN), Direct(g, e, BUILD);
    DirectLists(g, e, RUN);
    DirectLists(g, e, BUILD);
    DirectRanksBelow(g, rank, e);
    var s1 := ExploreEach(g, runs, d, s0);
    ExploreEachSettles(g, rank, rank[e], runs, d, s0);
    ExploreEachSettles(g, rank, rank[e], builds, d + 1, s1);
    GrownThen(s0, s1, Below(g, e, d, s));
  }

  ghost predicate DeepEnough(depth: map<Id, nat>, ds: seq<Id>, d: nat) {
    forall y {:trigger y in ds} :: y in ds ==> y in depth && depth[y] >= d
  }

  lemma DirectRanksBelow(g: Project, rank: map<Id, nat>, e: Id)
    requires g.Valid() && e in g.build && Drops(g, rank)
    ensures !Needs(g, e, e)
    ensures RanksBelow(rank, Direct(g, e, RUN), rank[e]) && RanksBelow(rank, Direct(g, e, BUILD), rank[e])
  {
    DirectLists(g, e, RUN);
    DirectLists(g, e, BUILD);
    forall y | y in Direct(g, e, RUN) || y in Direct(g, e, BUILD) ensures y in rank && rank[y] < rank[e] {
      assert Needs(g, e, y);
    }
  }

  /** Recording the depth of an element whose dependencies are deep enough. */
  lemma RecordSettles(g: Project, e: Id, d: nat, depth: map<Id, nat>)
    requires g.Valid() && e in g.build && Settled(g, depth)
    requires !Needs(g, e, e) && (e in depth ==> depth[e] <= d)
    requires DeepEnough(depth, Direct(g, e, RUN), d) && DeepEnough(depth, Direct(g, e, BUILD), d + 1)
    ensures Settled(g, depth[e := d])
  {
    DirectLists(g, e, RUN);
    DirectLists(g, e, BUILD);
    assert forall y :: DependsOn(g.runtime, e, y) ==> y in Direct(g, e, RUN);
    assert forall y :: DependsOn(g.build, e, y) ==> y in Direct(g, e, BUILD);
  }

  lemma {:induction false} ExploreEachSettles(g: Project, rank: map<Id, nat>, k: nat, ds: seq<Id>, d: nat, s: State)
    requires g.Valid() && Within(g.build, ds) && Drops(g, rank) && Settled(g, s.depth)
    requires RanksBelow(rank, ds, k) && OnlyAbove(rank, s.visiting, k)
    ensures var t := ExploreEach(g, ds, d, s);
            Settled(g, t.depth) && Grown(s, t) && DeepEnough(t.depth, ds, d)
    decreases g.build.Keys - s.visiting, 1, |ds|
  {
    if ds != [] {
      var t := Explore(g, ds[0], d, s);
      HeadOrTail(ds);
      ExploreSettles(g, rank, ds[0], d, s);
      ExploreEachSettles(g, rank, k, ds[1..], d, t);
      GrownThen(s, t, ExploreEach(g, ds, d, s));
    }
  }

  lemma {:induction false} ExploreOrders(g: Project, rank: map<Id, nat>, e: Id, d: nat, s: State)
    requires g.Valid() && e in g.build && Drops(g, rank) && OnlyAbove(rank, s.visiting, rank[e] + 1)
    requires Complete(g, s) && Ordered(g, s.order)
    ensures Ordered(g, Explore(g, e, d, s).order)
    decreases g.build.Keys - s.visiting, 0, 1
  {
    if !Passed(e, d, s) {
      var t := Below(g, e, d, s);
      BelowCompletes(g, e, d, s);
      BelowOrders(g, rank, e, d, s);
      forall y | Needs(g, e, y) ensures y in t.order {
        assert rank[y] < rank[e];
        assert y in t.depth && y in Elements(t.order);
      }
      AppendOrders(g, e, t.order);
    }
  }

  lemma {:induction false} BelowOrders(g: Project, rank: map<Id, nat>, e: Id, d: nat, s: State)
    requires g.Valid() && e in g.build && Drops(g, rank) && OnlyAbove(rank, s.visiting, rank[e] + 1)
    requires e !in s.visiting && Complete(g, s) && Ordered(g, s.order)
    ensures Ordered(g, Below(g, e, d, s).order)
    decreases g.build.Keys - s.visiting, 0, 0
  {
    var s0 := s.(visiting := s.visiting + {e});
    var runs, builds := Direct(g, e, RUN), Direct(g, e, BUILD);
    DirectLists(g, e, RUN);
    DirectLists(g, e, BUILD);
    DirectRanksBelow(g, rank, e);
    ExploreEachCompletes(g, runs, d, s0);
    ExploreEachOrders(g, rank, rank[e], runs, d, s0);
    ExploreEachOrders(g, rank, rank[e], builds, d + 1, ExploreEach(g, runs, d, s0));
  }

  lemma AppendOrders(g: Project, e: Id, order: seq<Id>)
    requires g.Valid() && e in g.build && Ordered(g, order)
    requires forall y :: Needs(g, e, y) ==> y in order
    ensures Ordered(g, order + [e])
  {
    var after := order + [e];
    forall i, y | 0 <= i < |after| && Needs(g, after[i], y) ensures y in after[..i] {
      if i < |order| {
        assert Needs(g, order[i], y) && after[..i] == order[..i];
      } else {
        assert after[..i] == order;
      }
    }
  }

  lemma {:induction false} ExploreEachOrders(g: Project, rank: map<Id, nat>, k: nat, ds: seq<Id>, d: nat, s: State)
    requires g.Valid() && Within(g.build, ds) && Drops(g, rank)
    requires RanksBelow(rank, ds, k) && OnlyAbove(rank, s.visiting, k)
    requires Complete(g, s) && Ordered(g, s.order)
    ensures Ordered(g, ExploreEach(g, ds, d, s).order)
    decreases g.build.Keys - s.visiting, 1, |ds|
  {
    if ds != [] {
      var t := Explore(g, ds[0], d, s);
      ExploreCompletes(g, ds[0], d, s);
      HeadOrTail(ds);
      assert ds[0] in ds && rank[ds[0]] < k;
      assert OnlyAbove(rank, s.visiting, rank[ds[0]] + 1);
      ExploreOrders(g, rank, ds[0], d, s);
      ExploreEachOrders(g, rank, k, ds[1..], d, t);
    }
  }

  /** Depth order agrees with dependency order. */
  lemma DepthOrderIsTopological(g: Project, s: State, plan: seq<Id>)
    requires g.Valid() && Complete(g, s) && Settled(g, s.depth) && Ordered(g, s.order)
    requires Elements(plan) == s.depth.Keys && RankedBy(s.order, s.depth, plan)
    ensures DependenciesFirst(g.All(), {}, plan)
  {
    forall i, y | 0 <= i < |plan| && DependsOn(g.All(), plan[i], y) ensures y in plan[..i] {
      var x := plan[i];
      assert x in Elements(plan) && Needs(g, x, y);
      var m :| 0 <= m < |s.order| && s.order[m] == x;
      assert Needs(g, s.order[m], y);
      var n :| 0 <= n < m && s.order[n] == y;
      assert y in Elements(s.order) && y in Elements(plan);
      var j :| 0 <= j < |plan| && plan[j] == y;
      assert Before(s.order, y, x);
      BeforeIsStrict(s.order, y, x);
      assert !Ranked(s.order, s.depth, x, y);
      assert !(i < j) && i != j;
    }
  }

  lemma BeforeIsStrict(s: seq<Id>, a: Id, b: Id)
    requires NoRepeats(s) && Before(s, a, b)
    ensures !Before(s, b, a) && a != b
  {
    var i, j :| 0 <= i < j < |s| && s[i] == a && s[j] == b;
    forall m, n | 0 <= m < n < |s| ensures s[m] != b || s[n] != a {
      assert s[m] == b ==> m == j;
    }
  }

  // ---------------------------------------------------------------- the planner

  const UNPLANNED := State(map[], [], {})

  lemma RoutedIsReachable(g: Project, roots: seq<Id>, s: State)
    requires g.Valid() && Routed(g, roots, s)
    ensures forall x :: x in s.depth ==> ReachedFrom(g.All(), roots, x)
  {
    forall x | x in s.depth ensures ReachedFrom(g.All(), roots, x) {
      assert HasRoute(g, roots, x, s.depth[x]);
      var r: Route :| r.Valid(g, roots) && r.at == x && r.Builds() == s.depth[x];
      RouteIsReachable(g, roots, r);
    }
  }

  lemma CompleteIsClosed(g: Project, roots: seq<Id>, s: State)
    requires g.Valid() && Complete(g, s) && s.visiting == {} && forall r :: r in roots ==> r in s.depth
    ensures forall x :: ReachedFrom(g.All(), roots, x) ==> x in s.depth
  {
    forall x | ReachedFrom(g.All(), roots, x) ensures x in s.depth {
      var r :| r in roots && Reaches(g.All(), r, x);
      forall u, v | u in s.depth && DependsOn(g.All(), u, v) ensures v in s.depth { assert Needs(g, u, v); }
      ClosedSetKeepsReached(g.All(), s.depth.Keys, r, x);
    }
  }

  /** On every graph the traversal collects exactly the reachable elements; on
      an acyclic one it finds the greatest depth of each, and lists everything
      after its dependencies. */
  lemma ExploredRoots(g: Project, roots: seq<Id>)
    requires g.Valid() && Within(g.build, roots)
    ensures var s := ExploreEach(g, roots, 0, UNPLANNED);
            && Complete(g, s)
            && (forall x :: x in s.depth <==> ReachedFrom(g.All(), roots, x))
            && (Acyclic(g.All()) ==> Settled(g, s.depth) && Ordered(g, s.order)
                                     && forall x :: x in s.depth ==> Deepest(g, roots, x, s.depth[x]))
  {
    var s := ExploreEach(g, roots, 0, UNPLANNED);
    ExploreEachCompletes(g, roots, 0, UNPLANNED);
    forall r | r in roots ensures HasRoute(g, roots, r, 0) {
      assert Root(r).Valid(g, roots) && Root(r).Builds() == 0;
    }
    ExploreEachRoutes(g, roots, roots, 0, UNPLANNED);
    RoutedIsReachable(g, roots, s);
    CompleteIsClosed(g, roots, s);
    if Acyclic(g.All()) {
      var rank := Ranks(g);
      var top := RankBound(rank, roots);
      ExploreEachSettles(g, rank, top, roots, 0, UNPLANNED);
      ExploreEachOrders(g, rank, top, roots, 0, UNPLANNED);
      forall x | x in s.depth ensures Deepest(g, roots, x, s.depth[x]) {
        SettledIsDeepest(g, roots, s.depth, x);
      }
    }
  }

  ghost function Ranks(g: Project): (rank: map<Id, nat>)
    requires g.Valid() && Acyclic(g.All())
    ensures Drops(g, rank)
  {
    AllClosed(g);
    assert forall x, y :: Needs(g, x, y) ==> y in g.build && Rank(g.All(), y) < Rank(g.All(), x) by {
      forall x, y | Needs(g, x, y) ensures y in g.build && Rank(g.All(), y) < Rank(g.All(), x) {
        assert DependsOn(g.All(), x, y) && Within(g.All(), g.All()[x]);
        RankDrops(g.All(), x, y);
      }
    }
    map x | x in g.build :: Rank(g.All(), x)
  }

  /** A plan lists what the roots need, each element once, deeper elements first
      and elements of equal depth in the order in which they were first
      completed.  On an acyclic graph the depths are the greatest possible, and
      every element comes after its dependencies. */
  ghost predicate PlanFor(g: Project, roots: seq<Id>, s: State, plan: seq<Id>)
    requires g.Valid()
  {
    && NoRepeats(plan)
    && (forall x :: x in plan <==> ReachedFrom(g.All(), roots, x))
    && Elements(plan) == s.depth.Keys && RankedBy(s.order, s.depth, plan)
    && (Acyclic(g.All()) ==>
          && DependenciesFirst(g.All(), {}, plan)
          && forall x :: x in s.depth ==> Deepest(g, roots, x, s.depth[x]))
  }

  lemma PlanIsCorrect(g: Project, roots: seq<Id>)
    requires g.Valid() && Within(g.build, roots)
    ensures var s := ExploreEach(g, roots, 0, UNPLANNED);
            Elements(s.order) == s.depth.Keys && PlanFor(g, roots, s, SortByDepth(s.order, s.depth))
  {
    var s := ExploreEach(g, roots, 0, UNPLANNED);
    ExploredRoots(g, roots);
    var plan := SortByDepth(s.order, s.depth);
    SortRanks(s.order, s.depth);
    assert forall x :: x in plan <==> x in Elements(plan);
    if Acyclic(g.All()) { DepthOrderIsTopological(g, s, plan); }
  }

  // ---------------------------------------------------------------- the order of ties

  /** The edges of elements are their runtime dependencies and then their build
      dependencies. */
  ghost predicate RunsThenBuilds(g: Project, es: Edges)
    requires g.Valid()
  {
    && es.Keys == g.build.Keys && Closed(es) && Acyclic(es)
    && forall x {:trigger es[x]} :: x in es ==> es[x] == Direct(g, x, RUN) + Direct(g, x, BUILD)
  }

  /** What has been completed needs nothing else. */
  lemma OrderedIsClosed(g: Project, es: Edges, order: seq<Id>)
    requires g.Valid() && RunsThenBuilds(g, es) && Ordered(g, order)
    ensures ClosedSet(es, Elements(order))
  {
    forall x, y | x in Elements(order) && DependsOn(es, x, y) ensures y in Elements(order) {
      DirectLists(g, x, RUN);
      DirectLists(g, x, BUILD);
      var i :| 0 <= i < |order| && order[i] == x;
      assert Needs(g, order[i], y);
    }
  }

  /** What has been completed, and then what a traversal from there yields. */
  ghost function Yields(es: Edges, ds: seq<Id>, order: seq<Id>): seq<Id>
    requires Closed(es) && Within(es, ds)
  {
    order + PostorderAll(es, ds, Elements(order)).0
  }

  lemma YieldsThen(es: Edges, a: seq<Id>, b: seq<Id>, order: seq<Id>)
    requires Closed(es) && Within(es, a) && Within(es, b)
    ensures Within(es, a + b) && Yields(es, a + b, order) == Yields(es, b, Yields(es, a, order))
  {
    var (out, seen) := PostorderAll(es, a, Elements(order));
    PostorderAllTraverses(es, a, Elements(order));
    assert Elements(order + out) == Elements(order) + Elements(out);
    PostorderAllAppend(es, a, b, Elements(order));
    AppendAssociates(order, out, PostorderAll(es, b, seen).0);
  }

  lemma YieldsOne(es: Edges, e: Id, order: seq<Id>)
    requires Closed(es) && Acyclic(es) && e in es && ClosedSet(es, Elements(order))
    ensures Within(es, es[e])
    ensures e in order ==> Yields(es, [e], order) == order && Yields(es, es[e], order) == order
    ensures e !in order ==>
      Yields(es, [e], order) == Yields(es, es[e], order) + [e] && e !in Yields(es, es[e], order)
  {
    var seen := Elements(order);
    PostorderOne(es, e, seen);
    if e in order {
      forall y | y in es[e] ensures y in seen { assert e in seen && DependsOn(es, e, y); }
      KnownYieldNothing(es, es[e], seen);
      assert order + [] == order;
    } else {
      forall y | y in es[e] && Reaches(es, y, e) ensures false { assert DependsOn(es, e, y); }
      UnreachedMakeNoDifference(es, es[e], seen, e);
      PostorderAllTraverses(es, es[e], seen);
      AppendAssociates(order, PostorderAll(es, es[e], seen).0, [e]);
    }
  }

  lemma {:induction false} KnownYieldNothing(es: Edges, ds: seq<Id>, seen: set<Id>)
    requires Closed(es) && Within(es, ds) && forall d :: d in ds ==> d in seen
    ensures PostorderAll(es, ds, seen) == ([], seen)
  {
    if ds != [] {
      HeadOrTail(ds);
      assert ds[0] in ds;
      KnownYieldNothing(es, ds[1..], seen);
    }
  }

  /** Exploring an element completes what a traversal yields that starts with what is
      complete, and in the same order; later visits at greater depths change nothing. */
  lemma {:induction false} ExploreYields(g: Project, es: Edges, rank: map<Id, nat>, e: Id, d: nat, s: State)
    requires g.Valid() && RunsThenBuilds(g, es) && e in g.build && Drops(g, rank)
    requires OnlyAbove(rank, s.visiting, rank[e] + 1) && Complete(g, s) && Ordered(g, s.order)
    ensures Explore(g, e, d, s).order == Yields(es, [e], s.order)
    decreases g.build.Keys - s.visiting, 0, 1
  {
    OrderedIsClosed(g, es, s.order);
    YieldsOne(es, e, s.order);
    SameKeys(s, e);
    if !Passed(e, d, s) {
      BelowYields(g, es, rank, e, d, s);
      SameKeys(Below(g, e, d, s), e);
    }
  }

  lemma SameKeys(s: State, e: Id)
    requires Elements(s.order) == s.depth.Keys
    ensures e in s.depth <==> e in s.order
  {
    assert e in Elements(s.order) <==> e in s.order;
  }

  lemma {:induction false} BelowYields(g: Project, es: Edges, rank: map<Id, nat>, e: Id, d: nat, s: State)
    requires g.Valid() && RunsThenBuilds(g, es) && e in g.build && Drops(g, rank) && e !in s.visiting
    requires OnlyAbove(rank, s.visiting, rank[e] + 1) && Complete(g, s) && Ordered(g, s.order)
    ensures Complete(g, Below(g, e, d, s))
    ensures Within(es, es[e]) && Below(g, e, d, s).order == Yields(es, es[e], s.order)
    decreases g.build.Keys - s.visiting, 0, 0
  {
    var s0 := s.(visiting := s.visiting + {e});
    var runs, builds := Direct(g, e, RUN), Direct(g, e, BUILD);
    assert Within(g.build, runs) && Within(g.build, builds) by {
      DirectLists(g, e, RUN);
      DirectLists(g, e, BUILD);
    }
    var s1 := ExploreEach(g, runs, d, s0);
    RunsExplored(g, rank, e, d, s);
    assert s1.order == Yields(es, runs, s.order) by { ExploreEachYields(g, es, rank, rank[e], runs, d, s0); }
    assert ExploreEach(g, builds, d + 1, s1).order == Yields(es, builds, s1.order) by {
      ExploreEachYields(g, es, rank, rank[e], builds, d + 1, s1);
    }
    assert es[e] == runs + builds;
    YieldsThen(es, runs, builds, s.order);
  }

  /** Between the runtime dependencies and the build dependencies of an element. */
  lemma RunsExplored(g: Project, rank: map<Id, nat>, e: Id, d: nat, s: State)
    requires g.Valid() && e in g.build && Drops(g, rank) && e !in s.visiting
    requires OnlyAbove(rank, s.visiting, rank[e] + 1) && Complete(g, s) && Ordered(g, s.order)
    ensures Complete(g, Below(g, e, d, s))
    ensures Within(g.build, Direct(g, e, RUN)) && Within(g.build, Direct(g, e, BUILD))
    ensures RanksBelow(rank, Direct(g, e, RUN), rank[e]) && RanksBelow(rank, Direct(g, e, BUILD), rank[e])
    ensures var s0 := s.(visiting := s.visiting + {e});
      var s1 := ExploreEach(g, Direct(g, e, RUN), d, s0);
      && OnlyAbove(rank, s0.visiting, rank[e]) && Complete(g, s0) && Ordered(g, s0.order)
      && OnlyAbove(rank, s1.visiting, rank[e]) && Complete(g, s1) && Ordered(g, s1.order)
  {
    var s0, runs := s.(visiting := s.visiting + {e}), Direct(g, e, RUN);
    DirectLists(g, e, RUN);
    DirectLists(g, e, BUILD);
    DirectRanksBelow(g, rank, e);
    BelowCompletes(g, e, d, s);
    ExploreEachCompletes(g, runs, d, s0);
    ExploreEachOrders(g, rank, rank[e], runs, d, s0);
  }

  lemma {:induction false} ExploreEachYields(g: Project, es: Edges, rank: map<Id, nat>, k: nat, ds: seq<Id>, d: nat,
                                             s: State)
    requires g.Valid() && RunsThenBuilds(g, es) && Within(g.build, ds) && Drops(g, rank)
    requires RanksBelow(rank, ds, k) && OnlyAbove(rank, s.visiting, k) && Complete(g, s) && Ordered(g, s.order)
    ensures Within(es, ds) && ExploreEach(g, ds, d, s).order == Yields(es, ds, s.order)
    decreases g.build.Keys - s.visiting, 1, |ds|
  {
    if ds == [] {
      assert s.order + [] == s.order;
    } else {
      var t, rest := Explore(g, ds[0], d, s), ds[1..];
      FirstExplored(g, rank, k, ds, d, s);
      assert t.order == Yields(es, [ds[0]], s.order) by { ExploreYields(g, es, rank, ds[0], d, s); }
      assert ExploreEach(g, rest, d, t).order == Yields(es, rest, t.order) by {
        ExploreEachYields(g, es, rank, k, rest, d, t);
      }
      YieldsThen(es, [ds[0]], rest, s.order);
    }
  }

  /** Between the first element of a list and the others. */
  lemma FirstExplored(g: Project, rank: map<Id, nat>, k: nat, ds: seq<Id>, d: nat, s: State)
    requires g.Valid() && Within(g.build, ds) && Drops(g, rank) && ds != []
    requires RanksBelow(rank, ds, k) && OnlyAbove(rank, s.visiting, k) && Complete(g, s) && Ordered(g, s.order)
    ensures ds[0] in g.build && ds[0] in rank && OnlyAbove(rank, s.visiting, rank[ds[0]] + 1)
    ensures Within(g.build, ds[1..]) && RanksBelow(rank, ds[1..], k) && [ds[0]] + ds[1..] == ds
    ensures Complete(g, Explore(g, ds[0], d, s)) && Ordered(g, Explore(g, ds[0], d, s).order)
  {
    HeadOrTail(ds);
    assert ds[0] in ds && rank[ds[0]] < k;
    ExploreCompletes(g, ds[0], d, s);
    ExploreOrders(g, rank, ds[0], d, s);
  }

  /** Elements of equal depth are planned in the order in which a traversal yields them
      that follows runtime dependencies first, and then build dependencies. */
  lemma TiesFollowTraversal(g: Project, es: Edges, roots: seq<Id>)
    requires g.Valid() && Within(g.build, roots) && Acyclic(g.All())
    requires es.Keys == g.build.Keys && forall x {:trigger es[x]} :: x in es ==>
      es[x] == Direct(g, x, RUN) + Direct(g, x, BUILD)
    ensures Closed(es) && ExploreEach(g, roots, 0, UNPLANNED).order == PostorderAll(es, roots, {}).0
  {
    EdgesOfProject(g, es);
    var rank := Ranks(g);
    ExploreEachYields(g, es, rank, RankBound(rank, roots), roots, 0, UNPLANNED);
    YieldsFromNothing(es, roots);
  }

  lemma YieldsFromNothing(es: Edges, ds: seq<Id>)
    requires Closed(es) && Within(es, ds)
    ensures Yields(es, ds, []) == PostorderAll(es, ds, {}).0
  {
    assert Elements<Id>([]) == {};
  }

  lemma EdgesOfProject(g: Project, es: Edges)
    requires g.Valid() && Acyclic(g.All())
    requires es.Keys == g.build.Keys && forall x {:trigger es[x]} :: x in es ==>
      es[x] == Direct(g, x, RUN) + Direct(g, x, BUILD)
    ensures RunsThenBuilds(g, es)
  {
    forall x | x in es ensures Within(es, es[x]) {
      DirectLists(g, x, RUN);
      DirectLists(g, x, BUILD);
    }
    forall x, y ensures DependsOn(es, x, y) <==> DependsOn(g.All(), x, y) {
      if x in es {
        DirectLists(g, x, RUN);
        DirectLists(g, x, BUILD);
      }
    }
    forall a, b | DependsOn(es, a, b) ensures !Reaches(es, b, a) {
      if p :| WalkBetween(es, p, b, a) {
        SameWalk(es, g.All(), p);
        assert WalkBetween(g.All(), p, b, a);
      }
    }
  }

  lemma {:induction false} SameWalk(es: Edges, es': Edges, p: seq<Id>)
    requires IsWalk(es, p) && forall x, y :: DependsOn(es, x, y) ==> DependsOn(es', x, y)
    ensures IsWalk(es', p)
  {
    if |p| > 1 { SameWalk(es, es', p[1..]); }
  }

  ghost function RankBound(rank: map<Id, nat>, ds: seq<Id>): (k: nat)
    requires forall y :: y in ds ==> y in rank
    ensures RanksBelow(rank, ds, k)
  {
    if ds == [] then 0
    else
      HeadOrTail(ds);
      var k := RankBound(rank, ds[1..]);
      if rank[ds[0]] < k then k else rank[ds[0]] + 1
  }

  class DepthPlanner {
    const g: Project
    var depth: map<Id, nat>
    var order: seq<Id>
    var visiting: set<Id>

    constructor (g: Project)
      ensures this.g == g && Now() == UNPLANNED
    {
      this.g := g;
      depth, order, visiting := map[], [], {};
    }

    function Now(): State
      reads this
    {
      State(depth, order, visiting)
    }

    method PlanElement(e: Id, d: nat)
      requires g.Valid() && e in g.build
      modifies this
      ensures Now() == old(Explore(g, e, d, Now()))
      decreases g.build.Keys - visiting, 0
    {
      if e in visiting { return; }
      if e in depth && depth[e] >= d { return; }

      DirectLists(g, e, RUN);
      DirectLists(g, e, BUILD);
      visiting := visiting + {e};
      PlanEach(Direct(g, e, RUN), d);
      PlanEach(Direct(g, e, BUILD), d + 1);
      if e !in depth { order := order + [e]; }
      depth := depth[e := d];
      visiting := visiting - {e};
    }

    /** The loop over the direct dependencies in one scope. */
    method PlanEach(ds: seq<Id>, d: nat)
      requires g.Valid() && Within(g.build, ds)
      modifies this
      ensures Now() == old(ExploreEach(g, ds, d, Now()))
      decreases g.build.Keys - visiting, 1
    {
      for i := 0 to |ds|
        invariant visiting == old(visiting)
        invariant ExploreEach(g, ds[i..], d, Now()) == old(ExploreEach(g, ds, d, Now()))
      {
        assert ds[i..][0] == ds[i] && ds[i..][1..] == ds[i + 1..];
        PlanElement(ds[i], d);
      }
    }

    /** The plan for some targets: every element they need, deepest first. */
    method Plan(roots: seq<Id>) returns (plan: seq<Id>, position: map<Id, nat>)
      requires g.Valid() && Within(g.build, roots) && Now() == UNPLANNED
      modifies this
      ensures Now() == ExploreEach(g, roots, 0, UNPLANNED)
      ensures PlanFor(g, roots, Now(), plan)
      ensures position.Keys == Elements(plan) && forall i :: 0 <= i < |plan| ==> position[plan[i]] == i
    {
      PlanEach(roots, 0);
      PlanIsCorrect(g, roots);
      plan := SortByDepth(order, depth);
      position := Positions(plan);
    }
  }

  /** The position of every element in a plan becomes its final depth. */
  method Positions(plan: seq<Id>) returns (position: map<Id, nat>)
    requires NoRepeats(plan)
    ensures position.Keys == Elements(plan) && forall i :: 0 <= i < |plan| ==> position[plan[i]] == i
  {
    position := map[];
    for i := 0 to |plan|
      invariant forall x :: x in position <==> exists j :: 0 <= j < i && plan[j] == x
      invariant forall j :: 0 <= j < i ==> position[plan[j]] == j
    {
      position := position[plan[i] := i];
    }
  }
}
