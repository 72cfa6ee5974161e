/** The order in which dependencies are yielded, which is the order in which they are
    staged: what comes with one target, what one more target adds, and what that
    means for two targets, or two dependencies of one element. */
module DependencyOrder {
  import opened Graphs
  import opened Dependencies

  /** The elements of s that are not in `known`, in their order. */
  function Without(s: seq<Id>, known: set<Id>): (r: seq<Id>)
    ensures forall x :: x in r <==> x in s && x !in known
  {
    if s == [] then []
    else
      var last := s[|s| - 1];
      InitOrLast(s);
      Without(s[..|s| - 1], known) + if last in known then [] else [last]
  }

  lemma {:induction false} WithoutIsInOrder(s: seq<Id>, known: set<Id>) returns (p: seq<nat>)
    ensures InOrder(Without(s, known), s, p)
  {
    if s == [] {
      p := [];
    } else {
      var t, last := s[..|s| - 1], s[|s| - 1];
      p := WithoutIsInOrder(t, known);
      LastOfAppend([], s);
      InOrderThen(Without(t, known), t, p, last);
      if last in known {
        assert Without(s, known) == Without(t, known);
      } else {
        p := p + [|t|];
      }
    }
  }

  lemma {:induction false} WithoutNothing(s: seq<Id>, known: set<Id>)
    requires forall x :: x in s ==> x !in known
    ensures Without(s, known) == s
  {
    if s != [] {
      InitOrLast(s);
      WithoutNothing(s[..|s| - 1], known);
    }
  }

  lemma {:induction false} WithoutEverything(s: seq<Id>, known: set<Id>)
    requires forall x :: x in s ==> x in known
    ensures Without(s, known) == []
  {
    if s != [] {
      InitOrLast(s);
      WithoutEverything(s[..|s| - 1], known);
    }
  }

  lemma AppendAssociates<T>(a: seq<T>, b: seq<T>, c: seq<T>)
    ensures a + (b + c) == (a + b) + c
  { }

  lemma LastOfAppend<T>(a: seq<T>, b: seq<T>)
    requires b != []
    ensures b == b[..|b| - 1] + [b[|b| - 1]]
    ensures a + b == (a + b[..|b| - 1]) + [b[|b| - 1]]
  { }

  lemma WithoutLast(s: seq<Id>, last: Id, known: set<Id>)
    ensures Without(s + [last], known) == Without(s, known) + Without([last], known)
  {
    assert (s + [last])[..|s|] == s && [last][..0] == [];
    assert Without([last], known) == [] + if last in known then [] else [last];
  }

  lemma {:induction false} WithoutAppend(a: seq<Id>, b: seq<Id>, known: set<Id>)
    ensures Without(a + b, known) == Without(a, known) + Without(b, known)
  {
    if b == [] {
      assert a + b == a;
    } else {
      var c, last := b[..|b| - 1], b[|b| - 1];
      WithoutAppend(a, c, known);
      LastOfAppend(a, b);
      WithoutLast(a + c, last, known);
      WithoutLast(c, last, known);
      AppendAssociates(Without(a, known), Without(c, known), Without([last], known));
    }
  }

  // ---------------------------------------------------------------- visited elements

  /** Nothing leads out of the set. */
  ghost predicate ClosedSet(es: Edges, s: set<Id>) {
    forall x, y {:trigger DependsOn(es, x, y)} :: x in s && DependsOn(es, x, y) ==> y in s
  }

  /** Starting with more visited elements, nothing leading out of these, only leaves
      them out. */
  lemma {:induction false} VisitedAreLeftOut(es: Edges, ds: seq<Id>, seen: set<Id>, known: set<Id>)
    requires Closed(es) && Within(es, ds) && ClosedSet(es, known)
    ensures PostorderAll(es, ds, seen + known).0 == Without(PostorderAll(es, ds, seen).0, known)
    ensures PostorderAll(es, ds, seen + known).1 == PostorderAll(es, ds, seen).1 + known
    decreases es.Keys - seen, 1 + |ds|
  {
    if ds == [] {
    } else if ds[0] in seen {
      VisitedAreLeftOut(es, ds[1..], seen, known);
    } else {
      var (out, seen1) := Postorder(es, ds[0], seen);
      var rest := PostorderAll(es, ds[1..], seen1);
      WithoutAppend(out, rest.0, known);
      if ds[0] in known {
        KnownAreNotYielded(es, ds[0], seen, known);
        assert seen1 + known == seen + known;
        VisitedAreLeftOut(es, ds[1..], seen1, known);
        assert [] + Without(rest.0, known) == Without(rest.0, known);
      } else {
        VisitedIsLeftOut(es, ds[0], seen, known);
        VisitedAreLeftOut(es, ds[1..], seen1, known);
      }
    }
  }

  lemma {:induction false} VisitedIsLeftOut(es: Edges, e: Id, seen: set<Id>, known: set<Id>)
    requires Closed(es) && e in es && e !in seen && e !in known && ClosedSet(es, known)
    ensures Postorder(es, e, seen + known).0 == Without(Postorder(es, e, seen).0, known)
    ensures Postorder(es, e, seen + known).1 == Postorder(es, e, seen).1 + known
    decreases es.Keys - seen, 0
  {
    VisitedAreLeftOut(es, es[e], seen + {e}, known);
    assert seen + {e} + known == seen + known + {e};
    WithoutAppend(PostorderAll(es, es[e], seen + {e}).0, [e], known);
    assert [e][..0] == [];
  }

  /** A visit inside the set yields nothing outside it. */
  lemma KnownAreNotYielded(es: Edges, e: Id, seen: set<Id>, known: set<Id>)
    requires Closed(es) && e in es && e !in seen && e in known && ClosedSet(es, known)
    ensures Postorder(es, e, seen).1 <= seen + known
    ensures Without(Postorder(es, e, seen).0, known) == []
  {
    PostorderTraverses(es, e, seen);
    var out := Postorder(es, e, seen).0;
    forall x | x in out ensures x in known {
      var r :| r in [e] && Reaches(es, r, x);
      ClosedSetKeepsReached(es, known, e, x);
    }
    WithoutEverything(out, known);
  }

  /** Visited elements that are never reached make no difference. */
  lemma {:induction false} UnreachedMakeNoDifference(es: Edges, ds: seq<Id>, seen: set<Id>, e: Id)
    requires Closed(es) && Within(es, ds) && !ReachedFrom(es, ds, e)
    ensures PostorderAll(es, ds, seen + {e}).0 == PostorderAll(es, ds, seen).0
    ensures PostorderAll(es, ds, seen + {e}).1 == PostorderAll(es, ds, seen).1 + {e}
    decreases es.Keys - seen, |ds|
  {
    if ds != [] {
      HeadOrTail(ds);
      assert ds[0] in ds;
      ReachesSelf(es, ds[0]);
      assert ds[0] != e;
      assert !ReachedFrom(es, ds[1..], e);
      if ds[0] in seen {
        UnreachedMakeNoDifference(es, ds[1..], seen, e);
      } else {
        forall d | d in es[ds[0]] && Reaches(es, d, e) ensures false { ReachesThrough(es, ds[0], d, e); }
        UnreachedMakeNoDifference(es, es[ds[0]], seen + {ds[0]}, e);
        assert seen + {ds[0]} + {e} == seen + {e} + {ds[0]};
        UnreachedMakeNoDifference(es, ds[1..], Postorder(es, ds[0], seen).1, e);
      }
    }
  }

  // ---------------------------------------------------------------- the laws

  /** An element comes right after all that its dependencies, as listed, come with. */
  lemma DependenciesThenElement(es: Edges, e: Id)
    requires Closed(es) && Acyclic(es) && e in es
    ensures PostorderAll(es, [e], {}).0 == PostorderAll(es, es[e], {}).0 + [e]
  {
    PostorderOne(es, e, {});
    forall d | d in es[e] && Reaches(es, d, e) ensures false { assert DependsOn(es, e, d); }
    UnreachedMakeNoDifference(es, es[e], {}, e);
    assert {} + {e} == {e};
  }

  /** One more start adds what it comes with, in that order, but for what has come. */
  lemma OneMoreStart(es: Edges, ds: seq<Id>, more: seq<Id>)
    requires Closed(es) && Within(es, ds) && Within(es, more)
    ensures Within(es, ds + more)
    ensures PostorderAll(es, ds + more, {}).0 ==
      PostorderAll(es, ds, {}).0 + Without(PostorderAll(es, more, {}).0, Elements(PostorderAll(es, ds, {}).0))
  {
    var (out, seen) := PostorderAll(es, ds, {});
    PostorderAllAppend(es, ds, more, {});
    PostorderAllTraverses(es, ds, {});
    assert seen == Elements(out) && {} + seen == seen;
    VisitedAreLeftOut(es, more, {}, seen);
  }

  /** The element itself comes last, after what its dependencies come with: in RUN
      scope its runtime dependencies as listed, and in ALL scope its build dependencies
      and then its runtime dependencies.  In BUILD scope it is its build dependencies
      that are run. */
  lemma TargetComesLast(g: Project, t: Id)
    requires g.Valid() && t in g.build
    ensures Within(g.build, g.build[t]) && Within(g.build, g.runtime[t])
    ensures Within(g.build, g.build[t] + g.runtime[t])
    ensures Acyclic(g.runtime) ==>
      Targets(g, [t], RUN, NOTHING).out == Targets(g, g.runtime[t], RUN, NOTHING).out + [t]
    ensures Acyclic(g.All()) ==>
      Targets(g, [t], ALL, NOTHING).out == Targets(g, g.build[t] + g.runtime[t], ALL, NOTHING).out + [t]
    ensures Targets(g, [t], BUILD, NOTHING).out == Targets(g, g.build[t], RUN, NOTHING).out
  {
    AllClosed(g);
    assert Within(g.build, g.build[t]) && Within(g.runtime, g.runtime[t]);
    RecursiveTargets(g, [t], RUN);
    RecursiveTargets(g, g.runtime[t], RUN);
    RecursiveTargets(g, [t], ALL);
    RecursiveTargets(g, g.build[t] + g.runtime[t], ALL);
    RecursiveTargets(g, g.build[t], RUN);
    if Acyclic(g.runtime) { DependenciesThenElement(g.runtime, t); }
    if Acyclic(g.All()) { DependenciesThenElement(g.All(), t); }
    TargetsAreOneTraversal(g, [t], BUILD, NOTHING);
    assert [t][1..] == [] && g.build[t] + [] == g.build[t];
  }

  lemma RecursiveTargets(g: Project, ts: seq<Id>, scope: Scope)
    requires g.Valid() && Within(g.build, ts) && (scope == RUN || scope == ALL)
    ensures Closed(Followed(g, scope)) && Within(Followed(g, scope), ts)
    ensures Targets(g, ts, scope, NOTHING).out == PostorderAll(Followed(g, scope), ts, {}).0
  {
    TargetsAreOneTraversal(g, ts, scope, NOTHING);
    StartsOutsideBuild(g, ts, scope, {});
    var out := PostorderAll(Followed(g, scope), ts, {}).0;
    assert [] + out == out;
  }

  /** One more target adds at the end what it comes with by itself, in that order, but
      for what has been yielded. */
  lemma OneMoreTarget(g: Project, ts: seq<Id>, t: Id, scope: Scope)
    requires g.Valid() && Within(g.build, ts) && t in g.build && (scope == RUN || scope == ALL)
    ensures Within(g.build, ts + [t])
    ensures var before, own, out := Targets(g, ts, scope, NOTHING).out, Targets(g, [t], scope, NOTHING).out,
                                    Targets(g, ts + [t], scope, NOTHING).out;
      && before <= out && Subsequence(out[|before|..], own)
      && forall x :: x in out[|before|..] <==> x in own && x !in before
  {
    RecursiveTargets(g, ts, scope);
    RecursiveTargets(g, [t], scope);
    RecursiveTargets(g, ts + [t], scope);
    var es := Followed(g, scope);
    OneMoreStart(es, ts, [t]);
    var before, own := PostorderAll(es, ts, {}).0, PostorderAll(es, [t], {}).0;
    var added := Without(own, Elements(before));
    assert (before + added)[|before|..] == added;
    var p := WithoutIsInOrder(own, Elements(before));
  }

  lemma {:induction false} StartsOfOneMore(g: Project, ts: seq<Id>, t: Id, done: set<Id>)
    requires g.Valid() && Within(g.build, ts) && t in g.build
    ensures Within(g.build, ts + [t])
    ensures Starts(g, ts + [t], BUILD, done) ==
      Starts(g, ts, BUILD, done) + if t in done || t in ts then [] else g.build[t]
  {
    if ts == [] {
      assert ts + [t] == [t] && [t][1..] == [] && g.build[t] + [] == g.build[t];
    } else {
      HeadOrTail(ts);
      assert (ts + [t])[1..] == ts[1..] + [t] && (ts + [t])[0] == ts[0];
      if ts[0] in done {
        StartsOfOneMore(g, ts[1..], t, done);
      } else {
        StartsOfOneMore(g, ts[1..], t, done + {ts[0]});
        AppendAssociates(g.build[ts[0]], Starts(g, ts[1..], BUILD, done + {ts[0]}),
                         if t in done || t in ts then [] else g.build[t]);
      }
    }
  }

  lemma BuildTargets(g: Project, ts: seq<Id>)
    requires g.Valid() && Within(g.build, ts)
    ensures Within(g.runtime, Starts(g, ts, BUILD, {}))
    ensures Targets(g, ts, BUILD, NOTHING).out == PostorderAll(g.runtime, Starts(g, ts, BUILD, {}), {}).0
  {
    TargetsAreOneTraversal(g, ts, BUILD, NOTHING);
    var out := PostorderAll(g.runtime, Starts(g, ts, BUILD, {}), {}).0;
    assert [] + out == out;
  }

  /** The same in BUILD scope. */
  lemma OneMoreBuildTarget(g: Project, ts: seq<Id>, t: Id)
    requires g.Valid() && Within(g.build, ts) && t in g.build
    ensures Within(g.build, ts + [t])
    ensures var before, own, out := Targets(g, ts, BUILD, NOTHING).out, Targets(g, [t], BUILD, NOTHING).out,
                                    Targets(g, ts + [t], BUILD, NOTHING).out;
      && before <= out && Subsequence(out[|before|..], own)
      && forall x :: x in out[|before|..] <==> x in own && x !in before
  {
    BuildTargets(g, ts);
    BuildTargets(g, [t]);
    BuildTargets(g, ts + [t]);
    StartsOfOneMore(g, ts, t, {});
    StartsOfOneMore(g, [], t, {});
    assert [] + [t] == [t] && [] + g.build[t] == g.build[t];
    var before, own := Targets(g, ts, BUILD, NOTHING).out, Targets(g, [t], BUILD, NOTHING).out;
    if t in ts {
      DependenciesCoverScope(g, ts, BUILD);
      DependenciesCoverScope(g, [t], BUILD);
      assert Starts(g, ts, BUILD, {}) + [] == Starts(g, ts, BUILD, {});
      assert before[|before|..] == [];
      assert InOrder([], own, []);
    } else {
      assert Within(g.build, g.build[t]);
      OneMoreStart(g.runtime, Starts(g, ts, BUILD, {}), g.build[t]);
      var added := Without(own, Elements(before));
      assert (before + added)[|before|..] == added;
      var p := WithoutIsInOrder(own, Elements(before));
    }
  }

  /** Of two targets, the earlier one comes first, unless the later one was yielded
      because of it or of one before it.  With `TargetComesLast` this is how the
      dependencies of one element are ordered. */
  lemma EarlierComesFirst(g: Project, ts: seq<Id>, i: nat, j: nat, scope: Scope)
    requires g.Valid() && Within(g.build, ts) && (scope == RUN || scope == ALL) && i < j < |ts|
    requires !ReachedFrom(Followed(g, scope), ts[..i + 1], ts[j])
    ensures var out := Targets(g, ts, scope, NOTHING).out;
      exists a, b :: 0 <= a < b < |out| && out[a] == ts[i] && out[b] == ts[j]
  {
    var es := Followed(g, scope);
    var first, later := ts[..i + 1], ts[i + 1..];
    RecursiveTargets(g, ts, scope);
    RecursiveTargets(g, first, scope);
    FreshTraversalIsReachable(es, first);
    FreshTraversalIsReachable(es, ts);
    assert ts == first + later;
    OneMoreStart(es, first, later);
    var before, out := PostorderAll(es, first, {}).0, PostorderAll(es, ts, {}).0;
    assert ts[i] in first && ts[j] in ts;
    ReachesSelf(es, ts[i]);
    ReachesSelf(es, ts[j]);
    assert ts[i] in before && ts[j] in out && ts[j] !in before;
    PrefixComesFirst(before, out, ts[i], ts[j]);
  }

  lemma PrefixComesFirst(before: seq<Id>, out: seq<Id>, x: Id, y: Id)
    requires before <= out && x in before && y in out && y !in before
    ensures exists a, b :: 0 <= a < b < |out| && out[a] == x && out[b] == y
  {
    var a :| 0 <= a < |before| && before[a] == x;
    var b :| 0 <= b < |out| && out[b] == y;
    assert out[a] == x;
    assert forall k :: 0 <= k < |before| ==> out[k] in before;
  }

  // ---------------------------------------------------------------- direct dependencies

  lemma {:induction false} DistinctAreFirst(s: seq<Id>, known: set<Id>) returns (p: seq<nat>)
    ensures InOrder(Distinct(s, known), s, p)
    ensures forall i :: 0 <= i < |p| ==> s[p[i]] !in s[..p[i]]
  {
    if s == [] {
      p := [];
    } else {
      var known' := known + {s[0]};
      if s[0] in known { assert known == known'; }
      var q := DistinctAreFirst(s[1..], known');
      p := Shifted(s, known', q);
      if s[0] !in known {
        p := [0] + p;
      }
    }
  }

  lemma Shifted(s: seq<Id>, known: set<Id>, q: seq<nat>) returns (p: seq<nat>)
    requires s != [] && s[0] in known && InOrder(Distinct(s[1..], known), s[1..], q)
    requires forall i :: 0 <= i < |q| ==> s[1..][q[i]] !in s[1..][..q[i]]
    ensures InOrder(Distinct(s[1..], known), s, p) && InOrder([s[0]] + Distinct(s[1..], known), s, [0] + p)
    ensures forall i :: 0 <= i < |p| ==> p[i] > 0 && s[p[i]] !in s[..p[i]]
  {
    var ds := Distinct(s[1..], known);
    p := InOrderBehind(ds, s, q);
    forall i | 0 <= i < |q| ensures s[p[i]] !in s[..p[i]] {
      assert ds[i] == s[1..][q[i]] && ds[i] in ds && ds[i] != s[0];
      assert s[..p[i]] == [s[0]] + s[1..][..q[i]];
    }
  }

  /** Direct dependencies come in the order in which they are listed first: build
      dependencies before runtime dependencies. */
  lemma DirectComeAsListed(g: Project, e: Id, scope: Scope) returns (p: seq<nat>)
    requires g.Valid() && e in g.build && scope != NONE
    ensures var list := if scope == BUILD then g.build[e] else if scope == RUN then g.runtime[e]
                        else g.build[e] + g.runtime[e];
      && InOrder(Direct(g, e, scope), list, p) && forall i :: 0 <= i < |p| ==> list[p[i]] !in list[..p[i]]
  {
    var list := if scope == BUILD then g.build[e] else if scope == RUN then g.runtime[e]
                else g.build[e] + g.runtime[e];
    assert list == (if scope.ALL? || scope.BUILD? then g.build[e] else []) +
                   (if scope.ALL? || scope.RUN? then g.runtime[e] else []);
    p := DistinctAreFirst(list, {});
  }

  /** Those of several targets come target by target. */
  lemma {:induction false} DirectOfOneMore(g: Project, ts: seq<Id>, t: Id, scope: Scope)
    requires g.Valid() && Within(g.build, ts) && t in g.build
    ensures Within(g.build, ts + [t])
    ensures DirectOfAll(g, ts + [t], scope) == DirectOfAll(g, ts, scope) + Direct(g, t, scope)
  {
    if ts == [] {
      assert ts + [t] == [t] && [t][1..] == [];
      assert Direct(g, t, scope) + [] == [] + Direct(g, t, scope);
    } else {
      DirectOfOneMore(g, ts[1..], t, scope);
      assert (ts + [t])[1..] == ts[1..] + [t] && (ts + [t])[0] == ts[0];
      AppendAssociates(Direct(g, ts[0], scope), DirectOfAll(g, ts[1..], scope), Direct(g, t, scope));
    }
  }
}
