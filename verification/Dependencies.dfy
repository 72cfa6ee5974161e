/** The dependency traversal of elements: which elements a scope covers, in
    which (staging) order, and how several targets share one pair of visited
    sets. */
module Dependencies {
  import opened Graphs

  datatype Scope = ALL | BUILD | RUN | NONE

  /** The loaded dependency lists of every element. */
  datatype Project = Project(build: Edges, runtime: Edges) {
    ghost predicate Valid() {
      build.Keys == runtime.Keys && Closed(build) && Closed(runtime)
    }

    /** Build dependencies first, then runtime dependencies. */
    function All(): (es: Edges)
      requires Valid()
      ensures es.Keys == build.Keys
      ensures forall x :: x in es ==> es[x] == build[x] + runtime[x]
      ensures forall x, y {:trigger DependsOn(es, x, y)} ::
        DependsOn(es, x, y) <==> DependsOn(build, x, y) || DependsOn(runtime, x, y)
    {
      map x | x in build :: build[x] + runtime[x]
    }
  }

  lemma AllClosed(g: Project)
    requires g.Valid()
    ensures Closed(g.All())
  {
    forall x, y | DependsOn(g.All(), x, y) ensures y in g.All() {
      assert Within(g.build, g.build[x]) && Within(g.runtime, g.runtime[x]);
    }
  }

  // ---------------------------------------------------------------- depth first

  /** One visit: mark the element, visit its unvisited dependencies in order,
      then yield the element itself. */
  function Postorder(es: Edges, e: Id, seen: set<Id>): (r: (seq<Id>, set<Id>))
    requires Closed(es) && e in es && e !in seen
    ensures seen + {e} <= r.1
    decreases es.Keys - seen, 0
  {
    var inner := PostorderAll(es, es[e], seen + {e});
    (inner.0 + [e], inner.1)
  }

  function PostorderAll(es: Edges, ds: seq<Id>, seen: set<Id>): (r: (seq<Id>, set<Id>))
    requires Closed(es) && Within(es, ds)
    ensures seen <= r.1
    decreases es.Keys - seen, 1 + |ds|
  {
    if ds == [] then ([], seen)
    else if ds[0] in seen then PostorderAll(es, ds[1..], seen)
    else
      var first := Postorder(es, ds[0], seen);
      var rest := PostorderAll(es, ds[1..], first.1);
      (first.0 + rest.0, rest.1)
  }

  /** What a traversal that started from `seen` and ended with `seen'` yielded. */
  ghost predicate Traversed(es: Edges, ds: seq<Id>, seen: set<Id>, out: seq<Id>, seen': set<Id>) {
    && NoRepeats(out)
    && seen' == seen + Elements(out)
    && seen !! Elements(out)
    && Elements(ds) <= seen'
    && (forall x, y :: x in out && DependsOn(es, x, y) ==> y in seen')
    && (forall x :: x in out ==> ReachedFrom(es, ds, x))
  }

  /** Each yielded element comes after everything it depends on, unless that
      was visited by an earlier traversal. */
  ghost predicate DependenciesFirst(es: Edges, seen: set<Id>, out: seq<Id>) {
    forall i, y {:trigger DependsOn(es, out[i], y)} ::
      0 <= i < |out| && DependsOn(es, out[i], y) ==> y in seen || y in out[..i]
  }

  lemma {:induction false} PostorderTraverses(es: Edges, e: Id, seen: set<Id>)
    requires Closed(es) && e in es && e !in seen
    ensures Traversed(es, [e], seen, Postorder(es, e, seen).0, Postorder(es, e, seen).1)
    ensures Acyclic(es) ==> DependenciesFirst(es, seen, Postorder(es, e, seen).0)
    decreases es.Keys - seen, 0
  {
    var (out, seen') := PostorderAll(es, es[e], seen + {e});
    PostorderAllTraverses(es, es[e], seen + {e});
    forall x | x in out ensures Reaches(es, e, x) {
      var d :| d in es[e] && Reaches(es, d, x);
      ReachesThrough(es, e, d, x);
    }
    ReachesSelf(es, e);
    if Acyclic(es) {
      forall i, y | 0 <= i <= |out| && DependsOn(es, (out + [e])[i], y)
        ensures y in seen || y in (out + [e])[..i]
      {
        if i < |out| {
          assert out[i] in out;
          assert (out + [e])[..i] == out[..i];
        } else {
          ReachesSelf(es, e);
          assert (out + [e])[..i] == out;
        }
      }
    }
  }

  lemma {:induction false} PostorderAllTraverses(es: Edges, ds: seq<Id>, seen: set<Id>)
    requires Closed(es) && Within(es, ds)
    ensures Traversed(es, ds, seen, PostorderAll(es, ds, seen).0, PostorderAll(es, ds, seen).1)
    ensures Acyclic(es) ==> DependenciesFirst(es, seen, PostorderAll(es, ds, seen).0)
    decreases es.Keys - seen, 1 + |ds|
  {
    if ds == [] {
    } else if ds[0] in seen {
      PostorderAllTraverses(es, ds[1..], seen);
    } else {
      var (out1, seen1) := Postorder(es, ds[0], seen);
      var (out2, seen2) := PostorderAll(es, ds[1..], seen1);
      PostorderTraverses(es, ds[0], seen);
      PostorderAllTraverses(es, ds[1..], seen1);
      TraversedThen(es, ds, seen, out1, seen1, out2, seen2);
      if Acyclic(es) { DependenciesFirstThen(es, seen, out1, seen1, out2); }
    }
  }

  lemma TraversedThen(es: Edges, ds: seq<Id>, seen: set<Id>, out1: seq<Id>, seen1: set<Id>,
                      out2: seq<Id>, seen2: set<Id>)
    requires |ds| > 0
    requires Traversed(es, [ds[0]], seen, out1, seen1)
    requires Traversed(es, ds[1..], seen1, out2, seen2)
    ensures Traversed(es, ds, seen, out1 + out2, seen2)
  {
    var out := out1 + out2;
    assert Elements(out) == Elements(out1) + Elements(out2);
    forall i, j | 0 <= i < j < |out| ensures out[i] != out[j] {
      if i < |out1| <= j { assert out[i] in Elements(out1) && out[j] in Elements(out2); }
    }
    HeadOrTail(ds);
    assert ds[0] in Elements([ds[0]]);
    forall x | x in out ensures ReachedFrom(es, ds, x) {
      if x in out1 {
        assert ReachedFrom(es, [ds[0]], x);
      } else {
        assert ReachedFrom(es, ds[1..], x);
      }
    }
  }

  lemma DependenciesFirstThen(es: Edges, seen: set<Id>, out1: seq<Id>, seen1: set<Id>, out2: seq<Id>)
    requires seen1 == seen + Elements(out1)
    requires DependenciesFirst(es, seen, out1) && DependenciesFirst(es, seen1, out2)
    ensures DependenciesFirst(es, seen, out1 + out2)
  {
    var out := out1 + out2;
    forall i, y | 0 <= i < |out| && DependsOn(es, out[i], y) ensures y in seen || y in out[..i] {
      if i < |out1| {
        assert out[..i] == out1[..i];
      } else {
        assert out[..i] == out1 + out2[..i - |out1|];
        assert y in seen1 || y in out2[..i - |out1|];
      }
    }
  }

  /** A traversal from nothing yields exactly the reachable elements. */
  lemma FreshTraversalIsReachable(es: Edges, ds: seq<Id>)
    requires Closed(es) && Within(es, ds)
    ensures forall x :: x in PostorderAll(es, ds, {}).0 <==> ReachedFrom(es, ds, x)
  {
    var (out, seen) := PostorderAll(es, ds, {});
    PostorderAllTraverses(es, ds, {});
    forall x | ReachedFrom(es, ds, x) ensures x in out {
      var r :| r in ds && Reaches(es, r, x);
      assert r in Elements(ds);
      ClosedSetKeepsReached(es, seen, r, x);
    }
  }

  lemma {:induction false} PostorderAllAppend(es: Edges, ds1: seq<Id>, ds2: seq<Id>, seen: set<Id>)
    requires Closed(es) && Within(es, ds1) && Within(es, ds2)
    ensures Within(es, ds1 + ds2)
    ensures var (out1, seen1) := PostorderAll(es, ds1, seen);
            var (out2, seen2) := PostorderAll(es, ds2, seen1);
            PostorderAll(es, ds1 + ds2, seen) == (out1 + out2, seen2)
    decreases |ds1|
  {
    if ds1 == [] {
      assert ds1 + ds2 == ds2;
      var out2 := PostorderAll(es, ds2, seen).0;
      assert [] + out2 == out2;
    } else {
      assert (ds1 + ds2)[1..] == ds1[1..] + ds2;
      if ds1[0] in seen {
        PostorderAllAppend(es, ds1[1..], ds2, seen);
      } else {
        var (out1, seen1) := Postorder(es, ds1[0], seen);
        PostorderAllAppend(es, ds1[1..], ds2, seen1);
        var (mid, seen2) := PostorderAll(es, ds1[1..], seen1);
        assert out1 + (mid + PostorderAll(es, ds2, seen2).0) == (out1 + mid) + PostorderAll(es, ds2, seen2).0;
      }
    }
  }

  lemma PostorderOne(es: Edges, e: Id, seen: set<Id>)
    requires Closed(es) && e in es
    ensures PostorderAll(es, [e], seen) == if e in seen then ([], seen) else Postorder(es, e, seen)
  {
    var rest := [e][1..];
    assert rest == [];
    if e !in seen {
      var (out, seen') := Postorder(es, e, seen);
      assert out + [] == out;
    }
  }

  /** One step of a loop over the elements to visit. */
  lemma PostorderStep(es: Edges, ds: seq<Id>, i: nat, seen: set<Id>)
    requires Closed(es) && Within(es, ds) && i < |ds|
    ensures var (out, seen') := PostorderAll(es, [ds[i]], seen);
            var (outs, seen'') := PostorderAll(es, ds[i + 1..], seen');
            PostorderAll(es, ds[i..], seen) == (out + outs, seen'')
  {
    assert ds[i..] == [ds[i]] + ds[i + 1..];
    PostorderAllAppend(es, [ds[i]], ds[i + 1..], seen);
  }

  // ---------------------------------------------------------------- scopes

  /** The pair of visited sets, and what has been yielded so far. */
  datatype Progress = Progress(out: seq<Id>, build: set<Id>, run: set<Id>)

  /** One target's recursive dependencies in a scope, given the visited sets
      left behind by the targets before it. */
  function Target(g: Project, t: Id, scope: Scope, p: Progress): Progress
    requires g.Valid() && t in g.build
  {
    AllClosed(g);
    match scope
    case NONE => p.(out := p.out + [t])
    case ALL =>
      if t in p.build || t in p.run then p
      else
        var out := Postorder(g.All(), t, p.build + p.run).0;
        Progress(p.out + out, p.build + Elements(out), p.run + Elements(out))
    case BUILD =>
      if t in p.build then p
      else
        var (out, run) := PostorderAll(g.runtime, g.build[t], p.run);
        Progress(p.out + out, p.build + {t}, run)
    case RUN =>
      if t in p.run then p
      else
        var (out, run) := Postorder(g.runtime, t, p.run);
        Progress(p.out + out, p.build, run)
  }

  function Targets(g: Project, ts: seq<Id>, scope: Scope, p: Progress): Progress
    requires g.Valid() && Within(g.build, ts)
  {
    if ts == [] then p else Targets(g, ts[1..], scope, Target(g, ts[0], scope, p))
  }

  const NOTHING := Progress([], {}, {})

  /** The elements that some targets cover in a scope. */
  ghost predicate Covers(g: Project, ts: seq<Id>, scope: Scope, x: Id)
    requires g.Valid() && Within(g.build, ts)
  {
    match scope
    case NONE => x in ts
    case ALL => ReachedFrom(g.All(), ts, x)
    case RUN => ReachedFrom(g.runtime, ts, x)
    case BUILD => exists t :: t in ts && ReachedFrom(g.runtime, g.build[t], x)
  }

  /** The edges along which a scope recurses. */
  function Followed(g: Project, scope: Scope): Edges
    requires g.Valid()
  {
    match scope
    case ALL => g.All()
    case _ => g.runtime
  }

  /** The elements at which the recursion of a scope starts. */
  function Starts(g: Project, ts: seq<Id>, scope: Scope, done: set<Id>): (r: seq<Id>)
    requires g.Valid() && Within(g.build, ts)
    ensures Within(g.build, r)
  {
    if ts == [] then []
    else if !scope.BUILD? then [ts[0]] + Starts(g, ts[1..], scope, done)
    else if ts[0] in done then Starts(g, ts[1..], scope, done)
    else g.build[ts[0]] + Starts(g, ts[1..], scope, done + {ts[0]})
  }

  lemma {:induction false} StartsOutsideBuild(g: Project, ts: seq<Id>, scope: Scope, done: set<Id>)
    requires g.Valid() && Within(g.build, ts) && !scope.BUILD?
    ensures Starts(g, ts, scope, done) == ts
  {
    if ts != [] { StartsOutsideBuild(g, ts[1..], scope, done); }
  }

  lemma {:induction false} StartsOfBuild(g: Project, ts: seq<Id>, done: set<Id>, d: Id)
    requires g.Valid() && Within(g.build, ts)
    ensures d in Starts(g, ts, BUILD, done) <==> exists t :: t in ts && t !in done && d in g.build[t]
  {
    if ts != [] {
      if ts[0] in done {
        StartsOfBuild(g, ts[1..], done, d);
      } else {
        StartsOfBuild(g, ts[1..], done + {ts[0]}, d);
      }
      assert ts == [ts[0]] + ts[1..];
    }
  }

  /** Sharing the visited sets makes the traversal of several targets one
      depth-first traversal of all their starting points. */
  lemma {:induction false} TargetsAreOneTraversal(g: Project, ts: seq<Id>, scope: Scope, p: Progress)
    requires g.Valid() && Within(g.build, ts) && !scope.NONE?
    requires scope.ALL? ==> p.build == p.run
    ensures Closed(Followed(g, scope))
    ensures Targets(g, ts, scope, p).out
         == p.out + PostorderAll(Followed(g, scope), Starts(g, ts, scope, p.build), p.run).0
    decreases |ts|
  {
    AllClosed(g);
    var es := Followed(g, scope);
    if ts != [] {
      var q := Target(g, ts[0], scope, p);
      if scope.ALL? && ts[0] !in p.build {
        assert p.build + p.run == p.run;
        PostorderTraverses(es, ts[0], p.run);
      }
      TargetsAreOneTraversal(g, ts[1..], scope, q);
      if scope.BUILD? {
        if ts[0] !in p.build {
          PostorderAllAppend(es, g.build[ts[0]], Starts(g, ts[1..], scope, q.build), p.run);
        }
      } else {
        StartsOutsideBuild(g, ts, scope, p.build);
        StartsOutsideBuild(g, ts[1..], scope, q.build);
      }
    }
  }

  /** For any list of targets and each of the recursive scopes, the elements
      yielded are exactly those the scope covers, none of them twice, and on
      acyclic graphs each after everything it depends on in that traversal. */
  lemma DependenciesCoverScope(g: Project, ts: seq<Id>, scope: Scope)
    requires g.Valid() && Within(g.build, ts) && !scope.NONE?
    ensures var out := Targets(g, ts, scope, NOTHING).out;
            && NoRepeats(out)
            && (forall x :: x in out <==> Covers(g, ts, scope, x))
            && (Acyclic(Followed(g, scope)) ==> DependenciesFirst(Followed(g, scope), {}, out))
  {
    AllClosed(g);
    var es := Followed(g, scope);
    var starts := Starts(g, ts, scope, {});
    var out := Targets(g, ts, scope, NOTHING).out;
    TargetsAreOneTraversal(g, ts, scope, NOTHING);
    assert out == PostorderAll(es, starts, {}).0;
    PostorderAllTraverses(es, starts, {});
    FreshTraversalIsReachable(es, starts);
    if scope.BUILD? {
      forall x ensures ReachedFrom(es, starts, x) <==> Covers(g, ts, scope, x) {
        if ReachedFrom(es, starts, x) {
          var d :| d in starts && Reaches(es, d, x);
          StartsOfBuild(g, ts, {}, d);
        }
        if Covers(g, ts, scope, x) {
          var t :| t in ts && ReachedFrom(es, g.build[t], x);
          var d :| d in g.build[t] && Reaches(es, d, x);
          StartsOfBuild(g, ts, {}, d);
        }
      }
    } else {
      StartsOutsideBuild(g, ts, scope, {});
    }
  }

  // ---------------------------------------------------------------- direct dependencies

  /** The direct dependencies in a scope, each listed once. */
  function Direct(g: Project, e: Id, scope: Scope): seq<Id>
    requires g.Valid() && e in g.build
  {
    Distinct(
      (if scope.ALL? || scope.BUILD? then g.build[e] else []) +
      (if scope.ALL? || scope.RUN? then g.runtime[e] else []), {})
  }

  lemma DirectLists(g: Project, e: Id, scope: Scope)
    requires g.Valid() && e in g.build
    ensures NoRepeats(Direct(g, e, scope)) && Within(g.build, Direct(g, e, scope))
    ensures forall d :: d in Direct(g, e, scope) <==>
      ((scope.ALL? || scope.BUILD?) && DependsOn(g.build, e, d)) ||
      ((scope.ALL? || scope.RUN?) && DependsOn(g.runtime, e, d))
  {
    assert Within(g.build, g.build[e]) && Within(g.runtime, g.runtime[e]);
  }

  /** The first occurrences in s of elements not in `known`. */
  function Distinct(s: seq<Id>, known: set<Id>): (r: seq<Id>)
    ensures NoRepeats(r)
    ensures forall d :: d in r <==> d in s && d !in known
  {
    if s == [] then []
    else if s[0] in known then Distinct(s[1..], known)
    else [s[0]] + Distinct(s[1..], known + {s[0]})
  }

  /** The direct dependencies of several targets, one target after the other. */
  function DirectOfAll(g: Project, ts: seq<Id>, scope: Scope): (r: seq<Id>)
    requires g.Valid() && Within(g.build, ts)
    ensures forall d :: d in r <==> exists t :: t in ts && d in Direct(g, t, scope)
  {
    if ts == [] then [] else
      assert ts == [ts[0]] + ts[1..];
      Direct(g, ts[0], scope) + DirectOfAll(g, ts[1..], scope)
  }

  lemma AppendRepeats(a: seq<Id>, b: seq<Id>)
    ensures NoRepeats(a + b) <==> NoRepeats(a) && NoRepeats(b) && Elements(a) !! Elements(b)
  {
    var s := a + b;
    if NoRepeats(s) {
      forall i, j | 0 <= i < j < |a| ensures a[i] != a[j] { assert s[i] == a[i] && s[j] == a[j]; }
      forall i, j | 0 <= i < j < |b| ensures b[i] != b[j] { assert s[|a| + i] == b[i] && s[|a| + j] == b[j]; }
      forall i, j | 0 <= i < |a| && 0 <= j < |b| ensures a[i] != b[j] { assert s[i] == a[i] && s[|a| + j] == b[j]; }
    } else if NoRepeats(a) && NoRepeats(b) {
      var i, j :| 0 <= i < j < |s| && s[i] == s[j];
      assert s[i] in Elements(a) && s[j] in Elements(b);
    }
  }

  ghost predicate ShareNothing(g: Project, t: Id, u: Id, scope: Scope)
    requires g.Valid() && t in g.build && u in g.build
  {
    Elements(Direct(g, t, scope)) !! Elements(Direct(g, u, scope))
  }

  lemma FirstSharesNothing(g: Project, t: Id, us: seq<Id>, scope: Scope)
    requires g.Valid() && t in g.build && Within(g.build, us)
    ensures Elements(Direct(g, t, scope)) !! Elements(DirectOfAll(g, us, scope)) <==>
      forall j :: 0 <= j < |us| ==> ShareNothing(g, t, us[j], scope)
  {
    var a, b := Direct(g, t, scope), DirectOfAll(g, us, scope);
    if Elements(a) !! Elements(b) {
      forall j | 0 <= j < |us| ensures ShareNothing(g, t, us[j], scope) {
        forall d | d in Direct(g, us[j], scope) ensures d in Elements(b) { assert us[j] in us; }
      }
    } else {
      var d :| d in Elements(a) && d in Elements(b);
      var u :| u in us && d in Direct(g, u, scope);
      assert d in Elements(Direct(g, u, scope));
    }
  }

  /** Without recursion nothing is shared between targets: every element is
      yielded once exactly when no two targets list the same direct dependency. */
  lemma {:induction false} DirectOfAllRepeats(g: Project, ts: seq<Id>, scope: Scope)
    requires g.Valid() && Within(g.build, ts)
    ensures NoRepeats(DirectOfAll(g, ts, scope)) <==>
      forall i, j :: 0 <= i < j < |ts| ==> ShareNothing(g, ts[i], ts[j], scope)
  {
    if ts != [] {
      var us := ts[1..];
      DirectOfAllRepeats(g, us, scope);
      DirectLists(g, ts[0], scope);
      AppendRepeats(Direct(g, ts[0], scope), DirectOfAll(g, us, scope));
      FirstSharesNothing(g, ts[0], us, scope);
      SplitFirst(g, ts, scope);
    }
  }

  /** Two targets with a build dependency in common. */
  lemma SharedDependencyRepeats()
    ensures var g := Project(map[0 := [2], 1 := [2], 2 := []], map[0 := [], 1 := [], 2 := []]);
      g.Valid() && DirectOfAll(g, [0, 1], BUILD) == [2, 2] && !NoRepeats(DirectOfAll(g, [0, 1], BUILD))
  {
    var g := Project(map[0 := [2], 1 := [2], 2 := []], map[0 := [], 1 := [], 2 := []]);
    assert g.build[0] + [] == [2] && g.build[1] + [] == [2] && [2][1..] == [];
    assert Direct(g, 0, BUILD) == [2] && Direct(g, 1, BUILD) == [2];
    assert [0, 1][1..] == [1] && [1][1..] == [];
    var r := DirectOfAll(g, [0, 1], BUILD);
    assert r[0] == r[1];
  }

  lemma SplitFirst(g: Project, ts: seq<Id>, scope: Scope)
    requires g.Valid() && Within(g.build, ts) && ts != []
    ensures var us := ts[1..];
      (forall i, j :: 0 <= i < j < |ts| ==> ShareNothing(g, ts[i], ts[j], scope)) <==>
      (forall i, j :: 0 <= i < j < |us| ==> ShareNothing(g, us[i], us[j], scope)) &&
      (forall j :: 0 <= j < |us| ==> ShareNothing(g, ts[0], us[j], scope))
  {
    var us := ts[1..];
    if forall i, j :: 0 <= i < j < |ts| ==> ShareNothing(g, ts[i], ts[j], scope) {
      forall i, j | 0 <= i < j < |us| ensures ShareNothing(g, us[i], us[j], scope) {
        assert ShareNothing(g, ts[i + 1], ts[j + 1], scope);
      }
      forall j | 0 <= j < |us| ensures ShareNothing(g, ts[0], us[j], scope) {
        assert ShareNothing(g, ts[0], ts[j + 1], scope);
      }
    } else {
      var i, j :| 0 <= i < j < |ts| && !ShareNothing(g, ts[i], ts[j], scope);
      assert us[j - 1] == ts[j];
      if i > 0 { assert us[i - 1] == ts[i]; }
    }
  }

  // ---------------------------------------------------------------- the traversal

  /** The traversal itself: it marks elements in two visited sets, one for each
      way an element can be visited, and yields as it goes. */
  class Traversal {
    const g: Project
    var visitedBuild: set<Id>
    var visitedRun: set<Id>
    var yielded: seq<Id>

    constructor (g: Project)
      ensures this.g == g && Done() == NOTHING
    {
      this.g := g;
      visitedBuild, visitedRun, yielded := {}, {}, [];
    }

    function Done(): Progress
      reads this
    {
      Progress(yielded, visitedBuild, visitedRun)
    }

    predicate Skips(e: Id, scope: Scope)
      reads this
    {
      (scope in {ALL, BUILD} && e in visitedBuild) || (scope in {ALL, RUN} && e in visitedRun)
    }

    /** The recursive generator: mark, recurse into what is not marked yet, yield. */
    method Visit(e: Id, scope: Scope)
      requires g.Valid() && e in g.build && !Skips(e, scope)
      modifies this
      ensures Done() == old(Target(g, e, scope, Done()))
      decreases if scope.BUILD? then 1 else 0,
                g.build.Keys - (if scope.ALL? then visitedBuild + visitedRun else visitedRun), 0
    {
      AllClosed(g);
      ghost var start := Done();
      match scope
      case ALL =>
        visitedBuild := visitedBuild + {e};
        visitedRun := visitedRun + {e};
        ghost var inner := PostorderAll(g.All(), g.build[e] + g.runtime[e], start.build + start.run + {e}).0;
        assert visitedBuild + visitedRun == start.build + start.run + {e};
        VisitEachOfAll(g.build[e] + g.runtime[e]);
        assert Elements(inner + [e]) == {e} + Elements(inner);
        assert start.out + (inner + [e]) == (start.out + inner) + [e];
        yielded := yielded + [e];
      case BUILD =>
        visitedBuild := visitedBuild + {e};
        VisitEach(g.build[e]);
      case RUN =>
        visitedRun := visitedRun + {e};
        ghost var whole := PostorderAll(g.runtime, g.runtime[e], visitedRun);
        VisitEach(g.runtime[e]);
        assert start.out + (whole.0 + [e]) == (start.out + whole.0) + [e];
        yielded := yielded + [e];
      case NONE =>
        yielded := yielded + [e];
    }

    /** The loop over all dependencies, which visits those not marked in either set. */
    method VisitEachOfAll(ds: seq<Id>)
      requires g.Valid() && Within(g.build, ds)
      modifies this
      ensures Closed(g.All())
      ensures var out := PostorderAll(g.All(), ds, old(visitedBuild + visitedRun)).0;
              Done() == Progress(old(yielded) + out, old(visitedBuild) + Elements(out), old(visitedRun) + Elements(out))
      decreases 0, g.build.Keys - (visitedBuild + visitedRun), 1
    {
      AllClosed(g);
      ghost var start, es, done := Done(), g.All(), [];
      ghost var whole := PostorderAll(es, ds, start.build + start.run);
      assert start.out + [] == start.out;
      for i := 0 to |ds|
        invariant Done() == Progress(start.out + done, start.build + Elements(done), start.run + Elements(done))
        invariant done + PostorderAll(es, ds[i..], visitedBuild + visitedRun).0 == whole.0
      {
        assert ds[i..][0] == ds[i] && ds[i..][1..] == ds[i + 1..];
        if ds[i] !in visitedBuild && ds[i] !in visitedRun {
          ghost var first := Postorder(es, ds[i], visitedBuild + visitedRun);
          PostorderTraverses(es, ds[i], visitedBuild + visitedRun);
          ghost var later := PostorderAll(es, ds[i + 1..], first.1).0;
          Visit(ds[i], ALL);
          assert done + (first.0 + later) == (done + first.0) + later;
          assert start.out + (done + first.0) == (start.out + done) + first.0;
          assert Elements(done + first.0) == Elements(done) + Elements(first.0);
          done := done + first.0;
          assert visitedBuild + visitedRun == first.1;
        }
      }
      assert ds[|ds|..] == [];
      assert done + [] == done;
    }

    /** The loop over dependencies that both BUILD and RUN visit with RUN scope. */
    method VisitEach(ds: seq<Id>)
      requires g.Valid() && Within(g.build, ds)
      modifies this
      ensures visitedBuild == old(visitedBuild)
      ensures var (out, run) := PostorderAll(g.runtime, ds, old(visitedRun));
              yielded == old(yielded) + out && visitedRun == run
      decreases 0, g.build.Keys - visitedRun, 1
    {
      ghost var start := Done();
      ghost var whole := PostorderAll(g.runtime, ds, visitedRun);
      for i := 0 to |ds|
        invariant start.run <= visitedRun && visitedBuild == start.build
        invariant PostorderAll(g.runtime, ds[i..], visitedRun).1 == whole.1
        invariant yielded + PostorderAll(g.runtime, ds[i..], visitedRun).0 == start.out + whole.0
      {
        assert ds[i..][0] == ds[i] && ds[i..][1..] == ds[i + 1..];
        if ds[i] !in visitedRun {
          ghost var first := Postorder(g.runtime, ds[i], visitedRun);
          ghost var later := PostorderAll(g.runtime, ds[i + 1..], first.1);
          assert yielded + (first.0 + later.0) == (yielded + first.0) + later.0;
          Visit(ds[i], RUN);
        }
      }
      assert ds[|ds|..] == [];
      assert yielded + [] == yielded;
    }

    /** One target, short-circuited when an earlier target already covered it. */
    method Recurse(e: Id, scope: Scope)
      requires g.Valid() && e in g.build
      modifies this
      ensures Done() == old(Target(g, e, scope, Done()))
    {
      if !Skips(e, scope) {
        Visit(e, scope);
      }
    }
  }

  /** All targets share one pair of visited sets. */
  method Pipeline(g: Project, ts: seq<Id>, scope: Scope) returns (out: seq<Id>)
    requires g.Valid() && Within(g.build, ts)
    ensures out == Targets(g, ts, scope, NOTHING).out
    ensures !scope.NONE? ==>
      && NoRepeats(out)
      && (forall x :: x in out <==> Covers(g, ts, scope, x))
      && (Acyclic(Followed(g, scope)) ==> DependenciesFirst(Followed(g, scope), {}, out))
  {
    var t := new Traversal(g);
    for i := 0 to |ts|
      invariant Targets(g, ts[i..], scope, t.Done()) == Targets(g, ts, scope, NOTHING)
      invariant t.g == g
      invariant fresh(t)
    {
      assert ts[i..][0] == ts[i] && ts[i..][1..] == ts[i + 1..];
      t.Recurse(ts[i], scope);
    }
    out := t.yielded;
    if !scope.NONE? { DependenciesCoverScope(g, ts, scope); }
  }
}
