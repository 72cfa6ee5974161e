/** Removing excepted elements from a selection. */
module Exceptions {
  import opened Graphs
  import opened Dependencies

  /** The graph in which nothing leads on from the elements of `stop`. */
  function Cut(es: Edges, stop: set<Id>): (r: Edges)
    ensures r.Keys == es.Keys
    ensures forall x, y :: DependsOn(r, x, y) <==> DependsOn(es, x, y) && x !in stop
  {
    map x | x in es :: if x in stop then [] else es[x]
  }

  /** Walks in the cut graph are the walks whose earlier elements avoid `stop`. */
  lemma {:induction false} CutWalk(es: Edges, stop: set<Id>, p: seq<Id>)
    ensures IsWalk(Cut(es, stop), p) <==> IsWalk(es, p) && forall i :: 0 <= i < |p| - 1 ==> p[i] !in stop
  {
    if |p| > 1 {
      CutWalk(es, stop, p[1..]);
      if IsWalk(Cut(es, stop), p) {
        forall i | 0 <= i < |p| - 1 ensures p[i] !in stop {
          if i > 0 { assert p[i] == p[1..][i - 1]; }
        }
      }
    }
  }

  ghost predicate Targeted(g: Project, targets: seq<Id>, x: Id)
    requires g.Valid()
  {
    ReachedFrom(g.All(), targets, x)
  }

  ghost function TargetedSet(g: Project, targets: seq<Id>): set<Id>
    requires g.Valid()
  {
    set x | x in g.build && Targeted(g, targets, x)
  }

  /** The border: targeted elements reached from an except target along a path
      whose earlier elements are all untargeted. */
  ghost predicate OnBorder(g: Project, targets: seq<Id>, excepts: seq<Id>, x: Id)
    requires g.Valid()
  {
    x in TargetedSet(g, targets) && ReachedFrom(Cut(g.All(), TargetedSet(g, targets)), excepts, x)
  }

  ghost function Border(g: Project, targets: seq<Id>, excepts: seq<Id>): set<Id>
    requires g.Valid()
  {
    set x | x in g.build && OnBorder(g, targets, excepts, x)
  }

  /** What is left: elements reached from a target along a path that touches no
      border element, not even at its end. */
  ghost predicate Survives(g: Project, targets: seq<Id>, excepts: seq<Id>, x: Id)
    requires g.Valid()
  {
    var border := Border(g, targets, excepts);
    x !in border && ReachedFrom(Cut(g.All(), border), targets, x)
  }

  /** The elements of s that belong to `keep`, in their original order. */
  function Keep(s: seq<Id>, keep: set<Id>): seq<Id> {
    if s == [] then []
    else if s[0] in keep then [s[0]] + Keep(s[1..], keep)
    else Keep(s[1..], keep)
  }

  lemma {:induction false} KeepCounts(s: seq<Id>, keep: set<Id>, x: Id)
    ensures multiset(Keep(s, keep))[x] == if x in keep then multiset(s)[x] else 0
  {
    if s != [] {
      KeepCounts(s[1..], keep, x);
      assert s == [s[0]] + s[1..];
    }
  }

  /** What is kept keeps its order. */
  lemma {:induction false} KeepIsInOrder(s: seq<Id>, keep: set<Id>) returns (p: seq<nat>)
    ensures InOrder(Keep(s, keep), s, p)
  {
    if s == [] {
      p := [];
    } else {
      var q := KeepIsInOrder(s[1..], keep);
      p := InOrderBehind(Keep(s[1..], keep), s, q);
      if s[0] in keep { p := [0] + p; }
    }
  }

  lemma KeepMeans(s: seq<Id>, keep: set<Id>)
    ensures Subsequence(Keep(s, keep), s)
    ensures forall x :: multiset(Keep(s, keep))[x] == if x in keep then multiset(s)[x] else 0
  {
    var p := KeepIsInOrder(s, keep);
    forall x ensures multiset(Keep(s, keep))[x] == if x in keep then multiset(s)[x] else 0 { KeepCounts(s, keep, x); }
  }

  /** Direct dependencies, except that nothing leads on from `stop`. */
  function Onward(g: Project, stop: set<Id>): (es: Edges)
    requires g.Valid()
    ensures es.Keys == g.build.Keys && Closed(es)
    ensures forall x :: x in es && x !in stop ==> es[x] == Direct(g, x, ALL)
    ensures forall x :: x in es && x in stop ==> es[x] == []
  {
    var es := map x | x in g.build :: if x in stop then [] else Direct(g, x, ALL);
    assert Closed(es) by {
      forall x | x in es ensures Within(es, es[x]) { DirectLists(g, x, ALL); }
    }
    es
  }

  lemma OnwardIsCut(g: Project, stop: set<Id>)
    requires g.Valid()
    ensures forall x, y :: DependsOn(Onward(g, stop), x, y) <==> DependsOn(Cut(g.All(), stop), x, y)
  {
    forall x, y ensures DependsOn(Onward(g, stop), x, y) <==> DependsOn(Cut(g.All(), stop), x, y) {
      if x in g.build { DirectLists(g, x, ALL); }
    }
  }

  /** What the search has visited after some more elements. */
  ghost predicate Searched(g: Project, targeted: set<Id>, ds: seq<Id>, visited: set<Id>, visited': set<Id>)
    requires g.Valid() && Within(g.build, ds)
  {
    visited' == PostorderAll(Onward(g, targeted), ds, visited).1
  }

  /** One step of the search. */
  lemma SearchStep(g: Project, targeted: set<Id>, e: Id, visited: set<Id>)
    requires g.Valid() && e in g.build
    ensures Within(g.build, Direct(g, e, ALL))
    ensures e in visited ==> Searched(g, targeted, [e], visited, visited)
    ensures e !in visited && e in targeted ==> Searched(g, targeted, [e], visited, visited + {e})
    ensures e !in visited && e !in targeted ==>
      forall visited' {:trigger Searched(g, targeted, [e], visited, visited')} ::
        Searched(g, targeted, Direct(g, e, ALL), visited + {e}, visited') ==>
        Searched(g, targeted, [e], visited, visited')
  {
    PostorderOne(Onward(g, targeted), e, visited);
    DirectLists(g, e, ALL);
  }

  /** Depth-first search from the except targets, which does not go past
      targeted elements.  What it visits is what a traversal of the onward
      dependencies visits; what it yields is the targeted part of that. */
  class BorderSearch {
    const g: Project
    const targeted: set<Id>
    var visited: set<Id>
    var found: set<Id>

    constructor (g: Project, targeted: set<Id>)
      ensures this.g == g && this.targeted == targeted && visited == {} && found == {}
    {
      this.g, this.targeted, visited, found := g, targeted, {}, {};
    }

    method Find(e: Id)
      requires g.Valid() && e in g.build && found == visited * targeted
      modifies this
      ensures Searched(g, targeted, [e], old(visited), visited)
      ensures found == visited * targeted
      decreases g.build.Keys - visited, 0
    {
      SearchStep(g, targeted, e, visited);
      if e in visited { return; }
      visited := visited + {e};
      if e in targeted {
        found := found + {e};
      } else {
        FindEach(Direct(g, e, ALL));
      }
    }

    method FindEach(ds: seq<Id>)
      requires g.Valid() && Within(g.build, ds) && found == visited * targeted
      modifies this
      ensures Searched(g, targeted, ds, old(visited), visited)
      ensures found == visited * targeted
      decreases g.build.Keys - visited, 1
    {
      ghost var es := Onward(g, targeted);
      ghost var goal := PostorderAll(es, ds, visited).1;
      assert ds[0..] == ds;
      for i := 0 to |ds|
        invariant old(visited) <= visited && found == visited * targeted
        invariant PostorderAll(es, ds[i..], visited).1 == goal
      {
        PostorderStep(es, ds, i, visited);
        Find(ds[i]);
      }
    }
  }

  /** Removes the excepted elements from a selection; the rest keeps its order. */
  method ExceptElements(g: Project, targets: seq<Id>, elements: seq<Id>, excepts: seq<Id>) returns (r: seq<Id>)
    requires g.Valid() && Within(g.build, targets) && Within(g.build, excepts)
    ensures excepts == [] ==> r == elements
    ensures excepts != [] ==> r == Keep(elements, Survivors(g, targets, excepts))
    ensures Subsequence(r, elements)
    ensures excepts != [] ==> forall x ::
      multiset(r)[x] == if x in g.build && Survives(g, targets, excepts, x) then multiset(elements)[x] else 0
  {
    AllInOrder(elements);
    if excepts == [] { return elements; }

    var listed := Pipeline(g, targets, ALL);
    var targeted := Elements(listed);
    ListedIsTargeted(g, targets, listed);

    var search := new BorderSearch(g, targeted);
    search.FindEach(excepts);
    FoundIsBorder(g, targets, excepts);

    var kept := WalkAround(g, targets, search.found);
    KeptIsSurvivors(g, targets, excepts);
    r := Filter(elements, kept);
    KeepMeans(elements, kept);
  }

  lemma ListedIsTargeted(g: Project, targets: seq<Id>, listed: seq<Id>)
    requires g.Valid() && Within(g.build, targets)
    requires forall x :: x in listed <==> Covers(g, targets, ALL, x)
    ensures Elements(listed) == TargetedSet(g, targets)
  {
    AllClosed(g);
    ReachedIsWithin(g.All(), targets);
  }

  lemma OnwardTraversal(g: Project, stop: set<Id>, roots: seq<Id>)
    requires g.Valid() && Within(g.build, roots)
    ensures forall x :: x in PostorderAll(Onward(g, stop), roots, {}).1 <==>
      x in g.build && ReachedFrom(Cut(g.All(), stop), roots, x)
  {
    var es := Onward(g, stop);
    PostorderAllTraverses(es, roots, {});
    FreshTraversalIsReachable(es, roots);
    ReachedIsWithin(es, roots);
    OnwardIsCut(g, stop);
    SameEdgesReachSame(es, Cut(g.All(), stop), roots);
  }

  lemma FoundIsBorder(g: Project, targets: seq<Id>, excepts: seq<Id>)
    requires g.Valid() && Within(g.build, excepts)
    ensures var targeted := TargetedSet(g, targets);
            PostorderAll(Onward(g, targeted), excepts, {}).1 * targeted == Border(g, targets, excepts)
  {
    OnwardTraversal(g, TargetedSet(g, targets), excepts);
  }

  lemma KeptIsSurvivors(g: Project, targets: seq<Id>, excepts: seq<Id>)
    requires g.Valid() && Within(g.build, targets)
    ensures var border := Border(g, targets, excepts);
            PostorderAll(Onward(g, border), targets, {}).1 - border == Survivors(g, targets, excepts)
  {
    OnwardTraversal(g, Border(g, targets, excepts), targets);
  }

  lemma {:induction false} SameEdgesWalkSame(es: Edges, fs: Edges, p: seq<Id>)
    requires forall x, y :: DependsOn(es, x, y) <==> DependsOn(fs, x, y)
    ensures IsWalk(es, p) == IsWalk(fs, p)
  {
    if |p| > 1 { SameEdgesWalkSame(es, fs, p[1..]); }
  }

  lemma SameEdgesReachSame(es: Edges, fs: Edges, roots: seq<Id>)
    requires forall x, y :: DependsOn(es, x, y) <==> DependsOn(fs, x, y)
    ensures forall x :: ReachedFrom(es, roots, x) == ReachedFrom(fs, roots, x)
  {
    forall a, b ensures Reaches(es, a, b) == Reaches(fs, a, b) {
      forall p ensures WalkBetween(es, p, a, b) == WalkBetween(fs, p, a, b) { SameEdgesWalkSame(es, fs, p); }
    }
  }

  ghost function Survivors(g: Project, targets: seq<Id>, excepts: seq<Id>): set<Id>
    requires g.Valid()
  {
    set x | x in g.build && Survives(g, targets, excepts, x)
  }

  /** The worklist from the targets, which avoids the border.  It visits what a
      traversal of the onward dependencies would visit. */
  method WalkAround(g: Project, targets: seq<Id>, border: set<Id>) returns (visited: set<Id>)
    requires g.Valid() && Within(g.build, targets)
    ensures visited == PostorderAll(Onward(g, border), targets, {}).1 - border
  {
    var queue := targets;
    visited := {};
    ghost var es := Onward(g, border);
    ghost var reached := PostorderAll(es, targets, {}).1;
    TraversalIsClosed(es, targets);
    while queue != []
      invariant Walking(es, targets, border, reached, queue, visited)
      decreases es.Keys - visited, |queue|
    {
      var e := queue[|queue| - 1];
      InitOrLast(queue);
      queue := queue[..|queue| - 1];
      if e in visited || e in border { continue; }
      WalkStep(es, targets, border, reached, queue, visited, e);
      visited := visited + {e};
      queue := queue + Direct(g, e, ALL);
    }
    TraversalIsLeast(es, targets, visited + border);
  }

  /** What was visited is reached, and what it leads to is visited or in the queue. */
  ghost predicate Walking(es: Edges, targets: seq<Id>, border: set<Id>, reached: set<Id>, queue: seq<Id>,
                          visited: set<Id>) {
    && Within(es, queue) && (forall x :: x in queue ==> x in reached)
    && visited <= reached && visited !! border
    && (forall t :: t in targets ==> t in queue || t in visited || t in border)
    && forall x, y {:trigger DependsOn(es, x, y)} ::
         x in visited && DependsOn(es, x, y) ==> y in queue || y in visited || y in border
  }

  lemma WalkStep(es: Edges, targets: seq<Id>, border: set<Id>, reached: set<Id>, queue: seq<Id>, visited: set<Id>,
                 e: Id)
    requires Closed(es) && e in es && e in reached && e !in border
    requires forall x, y {:trigger DependsOn(es, x, y)} :: x in reached && DependsOn(es, x, y) ==> y in reached
    requires Within(es, queue) && (forall x :: x in queue ==> x in reached)
    requires visited <= reached && visited !! border
    requires forall t :: t in targets ==> t == e || t in queue || t in visited || t in border
    requires forall x, y {:trigger DependsOn(es, x, y)} ::
      x in visited && DependsOn(es, x, y) ==> y == e || y in queue || y in visited || y in border
    ensures Walking(es, targets, border, reached, queue + es[e], visited + {e})
  {
    assert Within(es, es[e]);
    assert forall y :: DependsOn(es, e, y) <==> y in es[e];
  }

  lemma TraversalIsClosed(es: Edges, roots: seq<Id>)
    requires Closed(es) && Within(es, roots)
    ensures var reached := PostorderAll(es, roots, {}).1;
      && (forall r :: r in roots ==> r in reached)
      && forall x, y {:trigger DependsOn(es, x, y)} :: x in reached && DependsOn(es, x, y) ==> y in reached && y in es
  {
    PostorderAllTraverses(es, roots, {});
    forall x, y | DependsOn(es, x, y) ensures y in es { assert Within(es, es[x]); }
    forall r | r in roots ensures r in PostorderAll(es, roots, {}).1 { assert r in Elements(roots); }
  }

  lemma TraversalIsLeast(es: Edges, roots: seq<Id>, s: set<Id>)
    requires Closed(es) && Within(es, roots) && forall r :: r in roots ==> r in s
    requires forall x, y {:trigger DependsOn(es, x, y)} :: x in s && DependsOn(es, x, y) ==> y in s
    ensures PostorderAll(es, roots, {}).1 <= s
  {
    PostorderAllTraverses(es, roots, {});
    forall x | x in PostorderAll(es, roots, {}).1 ensures x in s {
      assert ReachedFrom(es, roots, x);
      var r :| r in roots && Reaches(es, r, x);
      ClosedSetKeepsReached(es, s, r, x);
    }
  }

  method Filter(s: seq<Id>, keep: set<Id>) returns (r: seq<Id>)
    ensures r == Keep(s, keep)
  {
    r := [];
    for i := 0 to |s|
      invariant r + Keep(s[i..], keep) == Keep(s, keep)
    {
      assert s[i..][0] == s[i] && s[i..][1..] == s[i + 1..];
      ghost var was := r;
      if s[i] in keep { r := r + [s[i]]; }
      assert was + ([s[i]] + Keep(s[i + 1..], keep)) == was + [s[i]] + Keep(s[i + 1..], keep);
    }
    assert s[|s|..] == [];
  }

  /** A target survives exactly when it is not itself on the border. */
  lemma TargetSurvives(g: Project, targets: seq<Id>, excepts: seq<Id>, t: Id)
    requires g.Valid() && t in targets && t in g.build
    ensures Survives(g, targets, excepts, t) <==> !OnBorder(g, targets, excepts, t)
  {
    ReachesSelf(Cut(g.All(), Border(g, targets, excepts)), t);
  }

  /** Everything that a target reaches survives exactly if it reaches no element on
      the border. */
  lemma ClosureSurvives(g: Project, targets: seq<Id>, excepts: seq<Id>, t: Id)
    requires g.Valid() && t in targets && t in g.build
    ensures (forall d :: Reaches(g.All(), t, d) ==> Survives(g, targets, excepts, d)) <==>
      (forall b :: OnBorder(g, targets, excepts, b) ==> !Reaches(g.All(), t, b))
  {
    var border := Border(g, targets, excepts);
    if forall b :: OnBorder(g, targets, excepts, b) ==> !Reaches(g.All(), t, b) {
      forall d | Reaches(g.All(), t, d) ensures Survives(g, targets, excepts, d) {
        NothingIsCut(g, border, t, d);
      }
    }
  }

  lemma NothingIsCut(g: Project, stop: set<Id>, t: Id, d: Id)
    requires g.Valid() && t in g.build && Reaches(g.All(), t, d)
    requires forall b :: b in stop ==> !Reaches(g.All(), t, b)
    ensures Reaches(Cut(g.All(), stop), t, d)
  {
    var cut := Cut(g.All(), stop);
    AllClosed(g);
    var kept := set x | x in g.build && Reaches(cut, t, x) && Reaches(g.All(), t, x);
    ReachesSelf(cut, t);
    ReachesSelf(g.All(), t);
    forall x, y {:trigger DependsOn(g.All(), x, y)} | x in kept && DependsOn(g.All(), x, y) ensures y in kept {
      assert Within(g.All(), g.All()[x]);
      ReachesThen(cut, t, x, y);
      ReachesThen(g.All(), t, x, y);
    }
    ClosedSetKeepsReached(g.All(), kept, t, d);
  }

  /** The documentation of the operation exempts every target found among the
      excepted elements; the code removes a target that is excepted itself. */
  lemma ExceptedTargetIsRemoved()
    ensures var g := Project(map[0 := []], map[0 := []]);
            g.Valid() && OnBorder(g, [0], [0], 0) && !Survives(g, [0], [0], 0)
  {
    var g := Project(map[0 := []], map[0 := []]);
    ReachesSelf(g.All(), 0);
    ReachesSelf(Cut(g.All(), TargetedSet(g, [0])), 0);
    assert 0 in [0];
    assert Targeted(g, [0], 0);
  }

  /** The targets 0 and 2, and the excepted element 4. */
  const EXAMPLE: Project := Project(map[0 := [1], 1 := [2], 2 := [3], 3 := [], 4 := [1, 3]],
                                    map[0 := [], 1 := [], 2 := [], 3 := [], 4 := []])

  ghost predicate LikeExample(g: Project) {
    && g.Valid() && g.build.Keys == {0, 1, 2, 3, 4}
    && forall x, y {:trigger DependsOn(g.All(), x, y)} ::
         DependsOn(g.All(), x, y) <==> (x, y) in {(0, 1), (1, 2), (2, 3), (4, 1), (4, 3)}
  }

  lemma ExampleEdges()
    ensures EXAMPLE.Valid() && EXAMPLE.All() == EXAMPLE.build
  {
    assert forall x :: x in EXAMPLE.build ==> EXAMPLE.build[x] + [] == EXAMPLE.build[x];
  }

  lemma ExampleIsLike()
    ensures LikeExample(EXAMPLE)
  {
    ExampleEdges();
    var es := EXAMPLE.build;
    assert forall x, y {:trigger DependsOn(es, x, y)} ::
      DependsOn(es, x, y) <==> (x, y) in {(0, 1), (1, 2), (2, 3), (4, 1), (4, 3)};
  }

  lemma ExampleTargeted(g: Project, targets: seq<Id>)
    requires LikeExample(g) && targets == [0, 2]
    ensures TargetedSet(g, targets) == {0, 1, 2, 3}
  {
    var es := g.All();
    forall x | Targeted(g, targets, x) ensures x in {0, 1, 2, 3} {
      var r :| r in targets && Reaches(es, r, x);
      ClosedSetKeepsReached(es, {0, 1, 2, 3}, r, x);
    }
    assert targets[0] in targets && targets[1] in targets;
    ReachesSelf(es, 0);
    ReachesSelf(es, 2);
    ReachesNext(es, 0, 1);
    ReachesNext(es, 2, 3);
    assert forall x :: x in {0, 1, 2, 3} ==> Targeted(g, targets, x);
  }

  /** A targeted element that an untargeted excepted element depends on. */
  lemma NextIsOnBorder(g: Project, targets: seq<Id>, excepts: seq<Id>, x: Id, y: Id)
    requires g.Valid() && x in excepts && x !in TargetedSet(g, targets)
    requires y in TargetedSet(g, targets) && DependsOn(g.All(), x, y)
    ensures OnBorder(g, targets, excepts, y)
  {
    ReachesNext(Cut(g.All(), TargetedSet(g, targets)), x, y);
  }

  lemma DependencyOnBorder(g: Project, targets: seq<Id>, excepts: seq<Id>)
    requires LikeExample(g) && targets == [0, 2] && excepts == [4]
    ensures OnBorder(g, targets, excepts, 3)
  {
    ExampleTargeted(g, targets);
    assert DependsOn(g.All(), 4, 3) && excepts[0] in excepts;
    NextIsOnBorder(g, targets, excepts, 4, 3);
  }

  lemma TargetOffBorder(g: Project, targets: seq<Id>, excepts: seq<Id>)
    requires LikeExample(g) && targets == [0, 2] && excepts == [4]
    ensures !OnBorder(g, targets, excepts, 2)
  {
    ExampleTargeted(g, targets);
    var cut := Cut(g.All(), {0, 1, 2, 3});
    if Reaches(cut, 4, 2) { ClosedSetKeepsReached(cut, {1, 3, 4}, 4, 2); }
  }

  /** The same documentation exempts the dependencies of such a target.  Here the
      target 2 is found below the excepted element, and stays; its dependency goes. */
  lemma DependencyOfTargetIsRemoved()
    ensures EXAMPLE.Valid() && DependsOn(EXAMPLE.build, 2, 3)
    ensures Survives(EXAMPLE, [0, 2], [4], 2) && !Survives(EXAMPLE, [0, 2], [4], 3)
  {
    ExampleIsLike();
    LikeExampleIsRemoved(EXAMPLE, [0, 2], [4]);
  }

  lemma LikeExampleIsRemoved(g: Project, targets: seq<Id>, excepts: seq<Id>)
    requires LikeExample(g) && targets == [0, 2] && excepts == [4]
    ensures Survives(g, targets, excepts, 2) && !Survives(g, targets, excepts, 3)
  {
    DependencyOnBorder(g, targets, excepts);
    TargetOffBorder(g, targets, excepts);
    assert targets[1] in targets;
    TargetSurvives(g, targets, excepts, 2);
  }
}
