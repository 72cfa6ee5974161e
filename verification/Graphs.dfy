/** Finite directed graphs of elements: walks, reachability and acyclicity.

    Elements are identified by their unique ids.  An edge map lists, for each
    element, the elements it depends on, in declaration order. */
module Graphs {
  type Id = nat
  type Edges = map<Id, seq<Id>>

  ghost predicate Within(es: Edges, ds: seq<Id>) {
    forall d :: d in ds ==> d in es
  }

  /** Every listed dependency is itself an element of the graph. */
  ghost predicate Closed(es: Edges) {
    forall x :: x in es ==> Within(es, es[x])
  }

  ghost predicate NoRepeats<T(!new)>(s: seq<T>) {
    forall i, j :: 0 <= i < j < |s| ==> s[i] != s[j]
  }

  function Elements<T>(s: seq<T>): (r: set<T>) {
    set x | x in s
  }

  lemma HeadOrTail<T>(s: seq<T>)
    requires s != []
    ensures forall x :: x in s <==> x == s[0] || x in s[1..]
  {
    assert s == [s[0]] + s[1..];
  }

  lemma InitOrLast<T>(s: seq<T>)
    requires s != []
    ensures forall x :: x in s <==> x == s[|s| - 1] || x in s[..|s| - 1]
  {
    assert s == s[..|s| - 1] + [s[|s| - 1]];
  }

  /** r is s[p[0]], s[p[1]] and so on. */
  ghost predicate InOrder<T(!new)>(r: seq<T>, s: seq<T>, p: seq<nat>) {
    && |p| == |r|
    && (forall i :: 0 <= i < |p| ==> p[i] < |s| && r[i] == s[p[i]])
    && forall i, j :: 0 <= i < j < |p| ==> p[i] < p[j]
  }

  /** Some of the elements of s, in their order. */
  ghost predicate Subsequence<T(!new)>(r: seq<T>, s: seq<T>) {
    exists p :: InOrder(r, s, p)
  }

  /** An element more on either side. */
  lemma InOrderThen<T(!new)>(r: seq<T>, s: seq<T>, p: seq<nat>, x: T)
    requires InOrder(r, s, p)
    ensures InOrder(r, s + [x], p) && InOrder(r + [x], s + [x], p + [|s|])
  { }

  lemma InOrderBehind<T(!new)>(r: seq<T>, s: seq<T>, q: seq<nat>) returns (p: seq<nat>)
    requires s != [] && InOrder(r, s[1..], q)
    ensures InOrder(r, s, p) && InOrder([s[0]] + r, s, [0] + p)
    ensures |p| == |q| && forall i :: 0 <= i < |p| ==> p[i] == q[i] + 1
  {
    p := seq(|q|, i requires 0 <= i < |q| => q[i] + 1);
  }

  lemma AllInOrder<T(!new)>(s: seq<T>)
    ensures Subsequence(s, s)
  {
    assert InOrder(s, s, seq(|s|, i => i));
  }

  predicate DependsOn(es: Edges, a: Id, b: Id) {
    a in es && b in es[a]
  }

  /** A walk is a non-empty sequence of elements, each depending on the next. */
  ghost predicate IsWalk(es: Edges, p: seq<Id>) {
    p != [] && (|p| > 1 ==> DependsOn(es, p[0], p[1]) && IsWalk(es, p[1..]))
  }

  ghost predicate WalkBetween(es: Edges, p: seq<Id>, a: Id, b: Id) {
    IsWalk(es, p) && p[0] == a && p[|p| - 1] == b
  }

  ghost predicate Reaches(es: Edges, a: Id, b: Id) {
    exists p :: WalkBetween(es, p, a, b)
  }

  ghost predicate ReachedFrom(es: Edges, roots: seq<Id>, x: Id) {
    exists r :: r in roots && Reaches(es, r, x)
  }

  /** No element reaches an element that depends on it. */
  ghost predicate Acyclic(es: Edges) {
    forall a, b :: DependsOn(es, a, b) ==> !Reaches(es, b, a)
  }

  lemma ReachesSelf(es: Edges, a: Id)
    ensures Reaches(es, a, a)
  {
    assert WalkBetween(es, [a], a, a);
  }

  lemma {:induction false} WalksJoin(es: Edges, p: seq<Id>, q: seq<Id>)
    requires IsWalk(es, p) && IsWalk(es, q) && p[|p| - 1] == q[0]
    ensures IsWalk(es, p + q[1..])
  {
    var r := p + q[1..];
    if |p| == 1 {
      assert r == q;
    } else {
      WalksJoin(es, p[1..], q);
      assert r[1..] == p[1..] + q[1..];
    }
  }

  lemma ReachesTransitive(es: Edges, a: Id, b: Id, c: Id)
    requires Reaches(es, a, b) && Reaches(es, b, c)
    ensures Reaches(es, a, c)
  {
    var p :| WalkBetween(es, p, a, b);
    var q :| WalkBetween(es, q, b, c);
    WalksJoin(es, p, q);
    assert WalkBetween(es, p + q[1..], a, c);
  }

  lemma ReachesNext(es: Edges, a: Id, b: Id)
    requires DependsOn(es, a, b)
    ensures Reaches(es, a, b)
  {
    assert [a, b][1..] == [b];
    assert WalkBetween(es, [a, b], a, b);
  }

  lemma ReachesThrough(es: Edges, a: Id, b: Id, c: Id)
    requires DependsOn(es, a, b) && Reaches(es, b, c)
    ensures Reaches(es, a, c)
  {
    ReachesNext(es, a, b);
    ReachesTransitive(es, a, b, c);
  }

  lemma ReachesThen(es: Edges, a: Id, b: Id, c: Id)
    requires Reaches(es, a, b) && DependsOn(es, b, c)
    ensures Reaches(es, a, c)
  {
    ReachesNext(es, b, c);
    ReachesTransitive(es, a, b, c);
  }

  /** A set of elements that is closed under dependencies keeps everything its
      members reach. */
  lemma {:induction false} ClosedSetKeepsWalk(es: Edges, s: set<Id>, p: seq<Id>)
    requires IsWalk(es, p) && p[0] in s
    requires forall x, y {:trigger DependsOn(es, x, y)} :: x in s && DependsOn(es, x, y) ==> y in s
    ensures p[|p| - 1] in s
  {
    if |p| > 1 { ClosedSetKeepsWalk(es, s, p[1..]); }
  }

  lemma ClosedSetKeepsReached(es: Edges, s: set<Id>, a: Id, b: Id)
    requires a in s && Reaches(es, a, b)
    requires forall x, y {:trigger DependsOn(es, x, y)} :: x in s && DependsOn(es, x, y) ==> y in s
    ensures b in s
  {
    var p :| WalkBetween(es, p, a, b);
    ClosedSetKeepsWalk(es, s, p);
  }

  /** The number of elements that x reaches: on an acyclic graph it strictly
      drops along every edge, so it serves as a termination measure. */
  ghost function Rank(es: Edges, x: Id): (r: nat) {
    |set y | y in es && Reaches(es, x, y)|
  }

  lemma SubsetSize<T>(a: set<T>, b: set<T>)
    requires a <= b
    ensures |a| <= |b|
    ensures a != b ==> |a| < |b|
  {
    assert b == a + (b - a);
    if a != b { assert b - a != {}; }
  }

  lemma RankDrops(es: Edges, a: Id, b: Id)
    requires Acyclic(es) && Closed(es) && DependsOn(es, a, b)
    ensures Rank(es, b) < Rank(es, a)
  {
    var ra := set y | y in es && Reaches(es, a, y);
    var rb := set y | y in es && Reaches(es, b, y);
    forall y | y in rb ensures y in ra { ReachesThrough(es, a, b, y); }
    ReachesSelf(es, a);
    assert a in ra && a !in rb;
    SubsetSize(rb, ra);
  }

  lemma RankDropsAlong(es: Edges, a: Id, b: Id)
    requires Acyclic(es) && Closed(es) && Reaches(es, a, b)
    ensures Rank(es, b) <= Rank(es, a)
  {
    var ra := set y | y in es && Reaches(es, a, y);
    var rb := set y | y in es && Reaches(es, b, y);
    forall y | y in rb ensures y in ra { ReachesTransitive(es, a, b, y); }
    SubsetSize(rb, ra);
  }

  lemma ReachedIsWithin(es: Edges, roots: seq<Id>)
    requires Closed(es) && Within(es, roots)
    ensures forall x :: ReachedFrom(es, roots, x) ==> x in es
  {
    forall x | ReachedFrom(es, roots, x) ensures x in es {
      var r :| r in roots && Reaches(es, r, x);
      forall u, v | DependsOn(es, u, v) ensures v in es { assert Within(es, es[u]); }
      ClosedSetKeepsReached(es, es.Keys, r, x);
    }
  }
}
