/** Cache keys of elements: the weak key, which looks at the shape of the
    dependencies, and the strict key, which looks at everything below. */
module CacheKeys {
  import opened Wrappers

  import opened Graphs
  import opened Dependencies

  type Key = string

  /** What an element contributes to its own keys.  `base` stands for everything
      in the key dictionary but the dependencies: plugin configuration, sources,
      environment, public data. */
  datatype Info = Info(
    project: string,
    name: string,
    base: string,
    resolved: bool,
    strictRebuild: bool,
    strict: set<Id>
  )

  datatype Loaded = Loaded(g: Project, info: map<Id, Info>) {
    ghost predicate Shaped() {
      g.Valid() && info.Keys == g.build.Keys
    }

    /** The loader rejects projects with cycles. */
    ghost predicate Valid() {
      Shaped() && Acyclic(g.All())
    }

    /** Whether the contents of d enter the weak key of e. */
    predicate Strictly(e: Id, d: Id)
      requires e in info
    {
      info[e].strictRebuild || d in info[e].strict
    }
  }

  /** The dictionary a key is generated from. */
  datatype Dict = Dict(base: string, dependencies: seq<seq<Option<string>>>, weak: Option<Key>)

  /** Distinct dictionaries have distinct keys, and no key is empty. */
  ghost predicate Injective(generate: Dict -> Key) {
    && (forall a, b {:trigger generate(a), generate(b)} :: generate(a) == generate(b) ==> a == b)
    && (forall a {:trigger generate(a)} :: generate(a) != "")
  }

  predicate AllTruthy(entry: seq<Option<string>>) {
    forall i :: 0 <= i < |entry| ==> Truthy(entry[i])
  }

  predicate AllKnown(entries: seq<seq<Option<string>>>) {
    forall i :: 0 <= i < |entries| ==> AllTruthy(entries[i])
  }

  lemma TruthyOfThree(a: Option<string>, b: Option<string>, c: Option<string>)
    ensures AllTruthy([a, b]) <==> Truthy(a) && Truthy(b)
    ensures AllTruthy([a, b, c]) <==> Truthy(a) && Truthy(b) && Truthy(c)
  {
    var entry := [a, b, c];
    assert AllTruthy(entry) <==> Truthy(entry[0]) && Truthy(entry[1]) && Truthy(entry[2]);
  }

  /** No key if any dependency entry is incomplete. */
  function Calculate(generate: Dict -> Key, base: string, entries: seq<seq<Option<string>>>,
                     weak: Option<Key>): Option<Key> {
    if AllKnown(entries) then Some(generate(Dict(base, entries, weak))) else None
  }

  // ---------------------------------------------------------------- the keys

  /** The full BUILD scope of one element, in staging order. */
  function BuildScope(g: Project, e: Id): seq<Id>
    requires g.Valid() && e in g.build
  {
    assert Within(g.build, g.build[e]);
    PostorderAll(g.runtime, g.build[e], {}).0
  }

  lemma BuildScopeIsBuildDependencies(g: Project, e: Id)
    requires g.Valid() && e in g.build
    ensures BuildScope(g, e) == Targets(g, [e], BUILD, NOTHING).out
    ensures NoRepeats(BuildScope(g, e)) && Within(g.build, BuildScope(g, e))
    ensures forall d :: d in BuildScope(g, e) <==> ReachedFrom(g.runtime, g.build[e], d)
  {
    assert Within(g.build, g.build[e]);
    var out := BuildScope(g, e);
    assert [e][1..] == [];
    assert [] + out == out;
    PostorderAllTraverses(g.runtime, g.build[e], {});
    FreshTraversalIsReachable(g.runtime, g.build[e]);
    ReachedIsWithin(g.runtime, g.build[e]);
  }

  lemma BuildScopeBelow(g: Project, e: Id)
    requires g.Valid() && Acyclic(g.All()) && e in g.build
    ensures Within(g.build, BuildScope(g, e))
    ensures forall d :: d in BuildScope(g, e) ==> Rank(g.All(), d) < Rank(g.All(), e)
  {
    BuildScopeIsBuildDependencies(g, e);
    AllClosed(g);
    forall d | d in BuildScope(g, e) ensures Rank(g.All(), d) < Rank(g.All(), e) {
      var b :| b in g.build[e] && Reaches(g.runtime, b, d);
      RuntimeReachIsReach(g, b, d);
      assert DependsOn(g.build, e, b) && DependsOn(g.All(), e, b);
      RankDrops(g.All(), e, b);
      RankDropsAlong(g.All(), b, d);
    }
  }

  lemma {:induction false} RuntimeWalkIsWalk(g: Project, p: seq<Id>)
    requires g.Valid() && IsWalk(g.runtime, p)
    ensures IsWalk(g.All(), p)
  {
    if |p| > 1 {
      RuntimeWalkIsWalk(g, p[1..]);
      assert DependsOn(g.All(), p[0], p[1]);
    }
  }

  lemma RuntimeReachIsReach(g: Project, a: Id, b: Id)
    requires g.Valid() && Reaches(g.runtime, a, b)
    ensures Reaches(g.All(), a, b)
  {
    var p :| WalkBetween(g.runtime, p, a, b);
    RuntimeWalkIsWalk(g, p);
    assert WalkBetween(g.All(), p, a, b);
  }

  function WeakKey(generate: Dict -> Key, p: Loaded, e: Id): Option<Key>
    requires p.Valid() && e in p.g.build
    decreases Rank(p.g.All(), e), 1
  {
    if !p.info[e].resolved then None
    else Calculate(generate, p.info[e].base, WeakEntries(generate, p, e), None)
  }

  /** Strict dependencies enter the weak key with their own weak key, the others
      by name only. */
  function WeakEntries(generate: Dict -> Key, p: Loaded, e: Id): (r: seq<seq<Option<string>>>)
    requires p.Valid() && e in p.g.build
    ensures |r| == |BuildScope(p.g, e)|
    decreases Rank(p.g.All(), e), 0
  {
    var ds := BuildScope(p.g, e);
    BuildScopeBelow(p.g, e);
    seq(|ds|, i requires 0 <= i < |ds| =>
      var d := ds[i];
      if p.Strictly(e, d)
      then [Some(p.info[d].project), Some(p.info[d].name), WeakKey(generate, p, d)]
      else [Some(p.info[d].project), Some(p.info[d].name)])
  }

  /** The weak key of a resolved element with no strict dependencies is known. */
  lemma WeakKeyOfResolved(generate: Dict -> Key, p: Loaded, e: Id)
    requires p.Valid() && e in p.g.build && p.info[e].resolved
    requires forall d ::
      d in BuildScope(p.g, e) && d in p.info ==> !p.Strictly(e, d) && p.info[d].project != "" && p.info[d].name != ""
    ensures WeakKey(generate, p, e).Some?
  {
    var ds, entries := BuildScope(p.g, e), WeakEntries(generate, p, e);
    BuildScopeBelow(p.g, e);
    forall i | 0 <= i < |entries| ensures AllTruthy(entries[i]) { WeakEntryKnown(generate, p, e, i); }
  }

  lemma WeakEntryKnown(generate: Dict -> Key, p: Loaded, e: Id, i: nat)
    requires p.Valid() && e in p.g.build && i < |BuildScope(p.g, e)| && BuildScope(p.g, e)[i] in p.info
    requires var d := BuildScope(p.g, e)[i]; !p.Strictly(e, d) && p.info[d].project != "" && p.info[d].name != ""
    ensures AllTruthy(WeakEntries(generate, p, e)[i])
  {
    var d := BuildScope(p.g, e)[i];
    assert WeakEntries(generate, p, e)[i] == [Some(p.info[d].project), Some(p.info[d].name)];
  }

  function StrictKey(generate: Dict -> Key, p: Loaded, e: Id): Option<Key>
    requires p.Valid() && e in p.g.build
    decreases Rank(p.g.All(), e), 1
  {
    if !p.info[e].resolved then None
    else Calculate(generate, p.info[e].base, StrictEntries(generate, p, e), WeakKey(generate, p, e))
  }

  function StrictEntries(generate: Dict -> Key, p: Loaded, e: Id): (r: seq<seq<Option<string>>>)
    requires p.Valid() && e in p.g.build
    ensures |r| == |BuildScope(p.g, e)|
    decreases Rank(p.g.All(), e), 0
  {
    var ds := BuildScope(p.g, e);
    BuildScopeBelow(p.g, e);
    seq(|ds|, i requires 0 <= i < |ds| =>
      [Some(p.info[ds[i]].project), Some(p.info[ds[i]].name), StrictKey(generate, p, ds[i])])
  }

  /** Whenever the strict key can be calculated, so can the weak one. */
  lemma {:induction false} StrictKeyNeedsWeakKey(generate: Dict -> Key, p: Loaded, e: Id)
    requires Injective(generate) && p.Valid() && e in p.g.build
    requires StrictKey(generate, p, e).Some?
    ensures WeakKey(generate, p, e).Some?
    decreases Rank(p.g.All(), e)
  {
    var ds := BuildScope(p.g, e);
    BuildScopeBelow(p.g, e);
    var entries, weak := StrictEntries(generate, p, e), WeakEntries(generate, p, e);
    forall i | 0 <= i < |ds| ensures AllTruthy(weak[i]) {
      assert AllTruthy(entries[i]);
      assert Truthy(entries[i][0]) && Truthy(entries[i][1]) && Truthy(entries[i][2]);
      StrictKeyNeedsWeakKey(generate, p, ds[i]);
    }
  }

  // ---------------------------------------------------------------- what the strict key determines

  /** An element together with everything in its BUILD scope, recursively. */
  datatype Description = Description(base: string, dependencies: seq<Dependency>)
  datatype Dependency = Dependency(project: string, name: string, strictly: bool, description: Description)

  ghost function Describe(p: Loaded, e: Id): (r: Description)
    requires p.Valid() && e in p.g.build
    ensures |r.dependencies| == |BuildScope(p.g, e)|
    decreases Rank(p.g.All(), e)
  {
    var ds := BuildScope(p.g, e);
    BuildScopeBelow(p.g, e);
    Description(p.info[e].base, seq(|ds|, i requires 0 <= i < |ds| =>
      Dependency(p.info[ds[i]].project, p.info[ds[i]].name, p.Strictly(e, ds[i]), Describe(p, ds[i]))))
  }

  /** The same for the weak key: non-strict dependencies by name only. */
  datatype WeakDescription = WeakDescription(base: string, dependencies: seq<WeakDependency>)
  datatype WeakDependency =
    | Named(project: string, name: string)
    | Described(project: string, name: string, description: WeakDescription)

  ghost function DescribeWeakly(p: Loaded, e: Id): (r: WeakDescription)
    requires p.Valid() && e in p.g.build
    ensures |r.dependencies| == |BuildScope(p.g, e)|
    decreases Rank(p.g.All(), e)
  {
    var ds := BuildScope(p.g, e);
    BuildScopeBelow(p.g, e);
    WeakDescription(p.info[e].base, seq(|ds|, i requires 0 <= i < |ds| =>
      var d := p.info[ds[i]];
      if p.Strictly(e, ds[i]) then Described(d.project, d.name, DescribeWeakly(p, ds[i]))
      else Named(d.project, d.name)))
  }

  /** Two elements, possibly of different projects, have equal weak keys exactly
      if their own inputs, the names of their dependencies in order, and the weak
      descriptions of their strict dependencies are equal. */
  lemma {:induction false} WeakKeysAgree(generate: Dict -> Key, p: Loaded, e: Id, q: Loaded, f: Id)
    requires Injective(generate) && p.Valid() && q.Valid() && e in p.g.build && f in q.g.build
    requires WeakKey(generate, p, e).Some? && WeakKey(generate, q, f).Some?
    ensures WeakKey(generate, p, e) == WeakKey(generate, q, f) <==> DescribeWeakly(p, e) == DescribeWeakly(q, f)
    decreases Rank(p.g.All(), e)
  {
    var ds, bs := BuildScope(p.g, e), BuildScope(q.g, f);
    BuildScopeBelow(p.g, e);
    BuildScopeBelow(q.g, f);
    var xs, ys := WeakEntries(generate, p, e), WeakEntries(generate, q, f);
    var us, vs := DescribeWeakly(p, e).dependencies, DescribeWeakly(q, f).dependencies;
    assert WeakKey(generate, p, e) == WeakKey(generate, q, f) <==> p.info[e].base == q.info[f].base && xs == ys;
    if |ds| == |bs| {
      forall i | 0 <= i < |ds| ensures xs[i] == ys[i] <==> us[i] == vs[i] {
        assert AllTruthy(xs[i]) && AllTruthy(ys[i]);
        if p.Strictly(e, ds[i]) && q.Strictly(f, bs[i]) {
          assert Truthy(xs[i][2]) && Truthy(ys[i][2]);
          WeakKeysAgree(generate, p, ds[i], q, bs[i]);
        }
      }
    }
  }

  /** Two elements, possibly of different projects, have equal strict keys exactly
      if they and everything in their BUILD scopes, recursively, are equal. */
  lemma {:induction false} StrictKeysAgree(generate: Dict -> Key, p: Loaded, e: Id, q: Loaded, f: Id)
    requires Injective(generate) && p.Valid() && q.Valid() && e in p.g.build && f in q.g.build
    requires StrictKey(generate, p, e).Some? && StrictKey(generate, q, f).Some?
    ensures StrictKey(generate, p, e) == StrictKey(generate, q, f) <==> Describe(p, e) == Describe(q, f)
    decreases Rank(p.g.All(), e)
  {
    var ds, bs := BuildScope(p.g, e), BuildScope(q.g, f);
    BuildScopeBelow(p.g, e);
    BuildScopeBelow(q.g, f);
    var xs, ys := StrictEntries(generate, p, e), StrictEntries(generate, q, f);
    var us, vs := Describe(p, e).dependencies, Describe(q, f).dependencies;
    StrictKeyNeedsWeakKey(generate, p, e);
    StrictKeyNeedsWeakKey(generate, q, f);
    WeakKeysAgree(generate, p, e, q, f);
    assert StrictKey(generate, p, e) == StrictKey(generate, q, f) <==>
      p.info[e].base == q.info[f].base && xs == ys && WeakKey(generate, p, e) == WeakKey(generate, q, f);
    if |ds| == |bs| {
      forall i | 0 <= i < |ds|
        ensures xs[i] == ys[i] <==> us[i].(strictly := true) == vs[i].(strictly := true)
      {
        assert AllTruthy(xs[i]) && AllTruthy(ys[i]);
        assert Truthy(xs[i][2]) && Truthy(ys[i][2]);
        StrictKeysAgree(generate, p, ds[i], q, bs[i]);
      }
    }
    if StrictKey(generate, p, e) == StrictKey(generate, q, f) {
      var ws, zs := DescribeWeakly(p, e).dependencies, DescribeWeakly(q, f).dependencies;
      forall i | 0 <= i < |ds| ensures us[i] == vs[i] {
        assert xs[i] == ys[i] && ws[i] == zs[i];
        assert ws[i].Described? <==> us[i].strictly;
        assert zs[i].Described? <==> vs[i].strictly;
      }
      assert us == vs;
    }
    if Describe(p, e) == Describe(q, f) {
      WeakFollowsFull(p, e, q, f);
      forall i | 0 <= i < |ds| ensures xs[i] == ys[i] { assert us[i] == vs[i]; }
      assert xs == ys;
    }
  }

  lemma {:induction false} WeakFollowsFull(p: Loaded, e: Id, q: Loaded, f: Id)
    requires p.Valid() && q.Valid() && e in p.g.build && f in q.g.build
    requires Describe(p, e) == Describe(q, f)
    ensures DescribeWeakly(p, e) == DescribeWeakly(q, f)
    decreases Rank(p.g.All(), e)
  {
    var ds, bs := BuildScope(p.g, e), BuildScope(q.g, f);
    BuildScopeBelow(p.g, e);
    BuildScopeBelow(q.g, f);
    var us, vs := Describe(p, e).dependencies, Describe(q, f).dependencies;
    forall i | 0 <= i < |ds| ensures DescribeWeakly(p, e).dependencies[i] == DescribeWeakly(q, f).dependencies[i] {
      assert us[i] == vs[i];
      WeakFollowsFull(p, ds[i], q, bs[i]);
    }
  }

  // ---------------------------------------------------------------- one level at a time

  /** The weak key is known exactly if the element is resolved, the names in its BUILD
      scope are, and the weak keys of those that it is built strictly against. */
  lemma WeakKeyKnown(generate: Dict -> Key, p: Loaded, e: Id)
    requires Injective(generate) && p.Valid() && e in p.g.build
    ensures Within(p.g.build, BuildScope(p.g, e))
    ensures WeakKey(generate, p, e).Some? <==>
      && p.info[e].resolved
      && forall d :: d in BuildScope(p.g, e) ==>
           && p.info[d].project != "" && p.info[d].name != ""
           && (p.info[e].strictRebuild || d in p.info[e].strict ==> WeakKey(generate, p, d).Some?)
  {
    var ds, ws := BuildScope(p.g, e), WeakEntries(generate, p, e);
    BuildScopeBelow(p.g, e);
    forall i | 0 <= i < |ds|
      ensures ds[i] in ds && ds[i] in p.g.build
      ensures AllTruthy(ws[i]) <==>
        && p.info[ds[i]].project != "" && p.info[ds[i]].name != ""
        && (p.info[e].strictRebuild || ds[i] in p.info[e].strict ==> WeakKey(generate, p, ds[i]).Some?)
    {
      var d := p.info[ds[i]];
      TruthyOfThree(Some(d.project), Some(d.name), WeakKey(generate, p, ds[i]));
    }
  }

  /** The strict key is, exactly if the element is resolved, and the names and strict
      keys in its BUILD scope are known. */
  lemma StrictKeyKnown(generate: Dict -> Key, p: Loaded, e: Id)
    requires Injective(generate) && p.Valid() && e in p.g.build
    ensures Within(p.g.build, BuildScope(p.g, e))
    ensures StrictKey(generate, p, e).Some? <==>
      && p.info[e].resolved
      && forall d :: d in BuildScope(p.g, e) ==>
           p.info[d].project != "" && p.info[d].name != "" && StrictKey(generate, p, d).Some?
  {
    var ds, xs := BuildScope(p.g, e), StrictEntries(generate, p, e);
    BuildScopeBelow(p.g, e);
    forall i | 0 <= i < |ds|
      ensures ds[i] in ds && ds[i] in p.g.build
      ensures AllTruthy(xs[i]) <==>
        p.info[ds[i]].project != "" && p.info[ds[i]].name != "" && StrictKey(generate, p, ds[i]).Some?
    {
      var d := p.info[ds[i]];
      TruthyOfThree(Some(d.project), Some(d.name), StrictKey(generate, p, ds[i]));
    }
  }

  /** Known weak keys are equal exactly if the elements' own inputs are, and the
      dependencies agree one by one: in name, in being strict, and if they are, in
      their weak keys. */
  lemma WeakKeyMeans(generate: Dict -> Key, p: Loaded, e: Id, q: Loaded, f: Id)
    requires Injective(generate) && p.Valid() && q.Valid() && e in p.g.build && f in q.g.build
    requires WeakKey(generate, p, e).Some? && WeakKey(generate, q, f).Some?
    ensures Within(p.g.build, BuildScope(p.g, e)) && Within(q.g.build, BuildScope(q.g, f))
    ensures WeakKey(generate, p, e) == WeakKey(generate, q, f) <==>
      && p.info[e].base == q.info[f].base && |BuildScope(p.g, e)| == |BuildScope(q.g, f)|
      && forall i :: 0 <= i < |BuildScope(p.g, e)| ==>
           var d, b := BuildScope(p.g, e)[i], BuildScope(q.g, f)[i];
           && d in p.info && b in q.info && p.info[d].project == q.info[b].project && p.info[d].name == q.info[b].name
           && ((p.info[e].strictRebuild || d in p.info[e].strict) <==>
                 (q.info[f].strictRebuild || b in q.info[f].strict))
           && (p.info[e].strictRebuild || d in p.info[e].strict ==> WeakKey(generate, p, d) == WeakKey(generate, q, b))
  {
    var ds, bs := BuildScope(p.g, e), BuildScope(q.g, f);
    BuildScopeBelow(p.g, e);
    BuildScopeBelow(q.g, f);
    var xs, ys := WeakEntries(generate, p, e), WeakEntries(generate, q, f);
    assert WeakKey(generate, p, e) == WeakKey(generate, q, f) <==> p.info[e].base == q.info[f].base && xs == ys;
    if |ds| == |bs| {
      forall i | 0 <= i < |ds|
        ensures ds[i] in p.info && bs[i] in q.info
        ensures xs[i] == ys[i] <==>
          && p.info[ds[i]].project == q.info[bs[i]].project && p.info[ds[i]].name == q.info[bs[i]].name
          && ((p.info[e].strictRebuild || ds[i] in p.info[e].strict) <==>
                (q.info[f].strictRebuild || bs[i] in q.info[f].strict))
          && (p.info[e].strictRebuild || ds[i] in p.info[e].strict ==>
                WeakKey(generate, p, ds[i]) == WeakKey(generate, q, bs[i]))
      {
        WeakEntriesAgree(generate, p, e, q, f, i);
      }
      assert xs == ys <==> forall i :: 0 <= i < |ds| ==> xs[i] == ys[i];
    }
  }

  lemma WeakEntriesAgree(generate: Dict -> Key, p: Loaded, e: Id, q: Loaded, f: Id, i: nat)
    requires p.Valid() && q.Valid() && e in p.g.build && f in q.g.build
    requires i < |BuildScope(p.g, e)| && i < |BuildScope(q.g, f)|
    ensures var d, b := BuildScope(p.g, e)[i], BuildScope(q.g, f)[i];
      && d in p.info && b in q.info
      && (WeakEntries(generate, p, e)[i] == WeakEntries(generate, q, f)[i] <==>
            && p.info[d].project == q.info[b].project && p.info[d].name == q.info[b].name
            && ((p.info[e].strictRebuild || d in p.info[e].strict) <==>
                  (q.info[f].strictRebuild || b in q.info[f].strict))
            && (p.info[e].strictRebuild || d in p.info[e].strict ==>
                  WeakKey(generate, p, d) == WeakKey(generate, q, b)))
  {
    BuildScopeBelow(p.g, e);
    BuildScopeBelow(q.g, f);
    var x, y := WeakEntries(generate, p, e)[i], WeakEntries(generate, q, f)[i];
    assert |x| == |y| ==> (x == y <==> x[0] == y[0] && x[1] == y[1] && (|x| == 3 ==> x[2] == y[2]));
  }

  /** Known strict keys are equal exactly if the elements' own inputs and weak keys are,
      and the dependencies agree one by one in name and strict key. */
  lemma StrictKeyMeans(generate: Dict -> Key, p: Loaded, e: Id, q: Loaded, f: Id)
    requires Injective(generate) && p.Valid() && q.Valid() && e in p.g.build && f in q.g.build
    requires StrictKey(generate, p, e).Some? && StrictKey(generate, q, f).Some?
    ensures Within(p.g.build, BuildScope(p.g, e)) && Within(q.g.build, BuildScope(q.g, f))
    ensures StrictKey(generate, p, e) == StrictKey(generate, q, f) <==>
      && p.info[e].base == q.info[f].base && WeakKey(generate, p, e) == WeakKey(generate, q, f)
      && |BuildScope(p.g, e)| == |BuildScope(q.g, f)|
      && forall i :: 0 <= i < |BuildScope(p.g, e)| ==>
           var d, b := BuildScope(p.g, e)[i], BuildScope(q.g, f)[i];
           && d in p.info && b in q.info && p.info[d].project == q.info[b].project && p.info[d].name == q.info[b].name
           && StrictKey(generate, p, d) == StrictKey(generate, q, b)
  {
    var ds, bs := BuildScope(p.g, e), BuildScope(q.g, f);
    BuildScopeBelow(p.g, e);
    BuildScopeBelow(q.g, f);
    var xs, ys := StrictEntries(generate, p, e), StrictEntries(generate, q, f);
    assert StrictKey(generate, p, e) == StrictKey(generate, q, f) <==>
      p.info[e].base == q.info[f].base && xs == ys && WeakKey(generate, p, e) == WeakKey(generate, q, f);
    if |ds| == |bs| {
      forall i | 0 <= i < |ds|
        ensures ds[i] in p.info && bs[i] in q.info
        ensures xs[i] == ys[i] <==>
          && p.info[ds[i]].project == q.info[bs[i]].project && p.info[ds[i]].name == q.info[bs[i]].name
          && StrictKey(generate, p, ds[i]) == StrictKey(generate, q, bs[i])
      {
        assert xs[i] == ys[i] <==> xs[i][0] == ys[i][0] && xs[i][1] == ys[i][1] && xs[i][2] == ys[i][2];
      }
      assert xs == ys <==> forall i :: 0 <= i < |ds| ==> xs[i] == ys[i];
    }
  }

  /** A change of the weak key of a dependency that the element is built strictly against
      changes the weak key of the element. */
  lemma StrictDependencyCounts(generate: Dict -> Key, p: Loaded, q: Loaded, e: Id, d: Id)
    requires Injective(generate) && p.Valid() && q.Valid() && e in p.g.build && e in q.g.build
    requires BuildScope(q.g, e) == BuildScope(p.g, e) && d in BuildScope(p.g, e)
    requires p.info[e].strictRebuild || d in p.info[e].strict
    requires WeakKey(generate, p, e).Some?
    requires d in p.g.build && d in q.g.build && WeakKey(generate, q, d) != WeakKey(generate, p, d)
    ensures WeakKey(generate, q, e) != WeakKey(generate, p, e)
  {
    if WeakKey(generate, q, e).Some? {
      var i :| 0 <= i < |BuildScope(p.g, e)| && BuildScope(p.g, e)[i] == d;
      WeakKeyMeans(generate, p, e, q, e);
      assert BuildScope(q.g, e)[i] == d;
    }
  }

  /** If no dependency is strict, the weak key depends on the element's own inputs
      and the names in its BUILD scope, whatever is behind those names. */
  lemma WeakKeyIgnoresContents(generate: Dict -> Key, p: Loaded, e: Id, q: Loaded, f: Id)
    requires p.Valid() && q.Valid() && e in p.g.build && f in q.g.build
    requires p.info[e].resolved && q.info[f].resolved && p.info[e].base == q.info[f].base
    requires |BuildScope(p.g, e)| == |BuildScope(q.g, f)|
    requires forall i :: 0 <= i < |BuildScope(p.g, e)| ==>
      var d, b := BuildScope(p.g, e)[i], BuildScope(q.g, f)[i];
      && d in p.info && b in q.info
      && !p.info[e].strictRebuild && d !in p.info[e].strict
      && !q.info[f].strictRebuild && b !in q.info[f].strict
      && p.info[d].project == q.info[b].project && p.info[d].name == q.info[b].name
    ensures WeakKey(generate, p, e) == WeakKey(generate, q, f)
  {
    assert WeakEntries(generate, p, e) == WeakEntries(generate, q, f);
  }

  // ---------------------------------------------------------------- change

  /** e builds on x: x is in the BUILD scope of e, or of something it builds on. */
  ghost predicate BuildsOn(p: Loaded, e: Id, x: Id)
    requires p.Valid() && e in p.g.build
    decreases Rank(p.g.All(), e)
  {
    BuildScopeBelow(p.g, e);
    e == x || exists d :: d in BuildScope(p.g, e) && BuildsOn(p, d, x)
  }

  /** The same elements and runtime dependencies, and nothing else differs but what
      is declared at x. */
  ghost predicate DiffersAt(p: Loaded, q: Loaded, x: Id) {
    && q.g.runtime == p.g.runtime && q.g.build.Keys == p.g.build.Keys && q.info.Keys == p.info.Keys
    && (forall y :: y in p.g.build && y != x ==> q.g.build[y] == p.g.build[y])
    && (forall y :: y in p.info && y != x ==> q.info[y] == p.info[y])
  }

  /** Changing an element changes the strict key of everything that builds on it:
      its inputs, its build dependencies or which of them are strict, as far as that
      shows in its description; and its name, for everything above it. */
  lemma {:induction false} ChangePropagates(generate: Dict -> Key, p: Loaded, q: Loaded, x: Id, e: Id)
    requires Injective(generate) && p.Valid() && q.Valid() && x in p.g.build && e in p.g.build && DiffersAt(p, q, x)
    requires || Describe(q, x) != Describe(p, x)
             || (e != x && !SameName(q.info[x], p.info[x]))
    requires StrictKey(generate, p, e).Some? && BuildsOn(p, e, x)
    ensures StrictKey(generate, q, e) != StrictKey(generate, p, e)
    decreases Rank(p.g.All(), e)
  {
    if e == x {
      if StrictKey(generate, q, e).Some? { StrictKeysAgree(generate, q, e, p, e); }
    } else {
      BuildScopeBelow(p.g, e);
      var ds := BuildScope(p.g, e);
      var d :| d in ds && BuildsOn(p, d, x);
      var i :| 0 <= i < |ds| && ds[i] == d;
      StrictKeyBelow(generate, p, e, i);
      if d != x || Describe(q, x) != Describe(p, x) { ChangePropagates(generate, p, q, x, d); }
      EntryChanges(generate, p, q, e, i);
    }
  }

  lemma StrictKeyBelow(generate: Dict -> Key, p: Loaded, e: Id, i: nat)
    requires p.Valid() && e in p.g.build && StrictKey(generate, p, e).Some? && i < |BuildScope(p.g, e)|
    ensures BuildScope(p.g, e)[i] in p.g.build && StrictKey(generate, p, BuildScope(p.g, e)[i]).Some?
  {
    BuildScopeBelow(p.g, e);
    var xs := StrictEntries(generate, p, e);
    assert AllTruthy(xs[i]) && Truthy(xs[i][2]);
  }

  /** A key changes with the key or the name of any element in the BUILD scope. */
  lemma EntryChanges(generate: Dict -> Key, p: Loaded, q: Loaded, e: Id, i: nat)
    requires Injective(generate) && p.Valid() && q.Valid() && e in p.g.build && e in q.g.build
    requires BuildScope(q.g, e) == BuildScope(p.g, e) && i < |BuildScope(p.g, e)|
    requires var d := BuildScope(p.g, e)[i];
      && d in p.g.build && d in q.g.build
      && (StrictKey(generate, q, d) != StrictKey(generate, p, d) || !SameName(q.info[d], p.info[d]))
    requires StrictKey(generate, p, e).Some?
    ensures StrictKey(generate, q, e) != StrictKey(generate, p, e)
  {
    var xs, ys := StrictEntries(generate, p, e), StrictEntries(generate, q, e);
    assert xs[i][0] != ys[i][0] || xs[i][1] != ys[i][1] || xs[i][2] != ys[i][2];
    assert xs != ys;
  }

  predicate SameName(a: Info, b: Info) {
    a.project == b.project && a.name == b.name
  }

  /** Names tell the elements of both projects apart. */
  ghost predicate SameNames(p: Loaded, q: Loaded) {
    forall a, b ::
      a in p.info && b in q.info && SameName(p.info[a], q.info[b]) ==> a == b
  }

  /** If an element keeps its strict key, then nothing that it builds on has changed
      in any way: neither what it is, nor the order in which it is staged. */
  lemma {:induction false} SameKeySameScopes(generate: Dict -> Key, p: Loaded, q: Loaded, e: Id, x: Id)
    requires Injective(generate) && p.Valid() && q.Valid() && e in p.g.build && e in q.g.build && SameNames(p, q)
    requires StrictKey(generate, p, e).Some? && StrictKey(generate, q, e) == StrictKey(generate, p, e)
    requires BuildsOn(p, e, x)
    ensures x in p.g.build && x in q.g.build && BuildScope(q.g, x) == BuildScope(p.g, x)
    ensures StrictKey(generate, q, x) == StrictKey(generate, p, x) && Describe(q, x) == Describe(p, x)
    decreases Rank(p.g.All(), e)
  {
    var ds, bs := BuildScope(p.g, e), BuildScope(q.g, e);
    BuildScopeBelow(p.g, e);
    BuildScopeBelow(q.g, e);
    var xs, ys := StrictEntries(generate, p, e), StrictEntries(generate, q, e);
    assert xs == ys;
    forall i | 0 <= i < |ds| ensures ds[i] == bs[i] { assert xs[i][0] == ys[i][0] && xs[i][1] == ys[i][1]; }
    if e == x {
      StrictKeysAgree(generate, q, e, p, e);
    } else {
      var d :| d in ds && BuildsOn(p, d, x);
      var i :| 0 <= i < |ds| && ds[i] == d;
      StrictKeyBelow(generate, p, e, i);
      assert xs[i][2] == ys[i][2];
      SameKeySameScopes(generate, p, q, d, x);
    }
  }

  // ---------------------------------------------------------------- the strong key

  function Lookup(keys: map<Id, Key>, x: Id): Option<Key> {
    if x in keys then Some(keys[x]) else None
  }

  lemma OtherKeysStay(keys: map<Id, Key>, e: Id, key: Key)
    ensures forall x :: x != e ==> Lookup(keys[e := key], x) == Lookup(keys, x)
  { }

  /** The dependency entries of a strong key, from the strong keys known so far. */
  function StrongEntries(p: Loaded, strong: map<Id, Key>, e: Id): (r: seq<seq<Option<string>>>)
    requires p.Shaped() && e in p.g.build
    ensures |r| == |BuildScope(p.g, e)|
  {
    var ds := BuildScope(p.g, e);
    BuildScopeIsBuildDependencies(p.g, e);
    seq(|ds|, i requires 0 <= i < |ds| =>
      [Some(p.info[ds[i]].project), Some(p.info[ds[i]].name), Lookup(strong, ds[i])])
  }

  function StrongKey(generate: Dict -> Key, p: Loaded, strong: map<Id, Key>, weak: Key, e: Id): Option<Key>
    requires p.Shaped() && e in p.g.build
  {
    Calculate(generate, p.info[e].base, StrongEntries(p, strong, e), Some(weak))
  }

  /** A strong key, once it can be calculated, stays what it is. */
  lemma StrongKeyStays(generate: Dict -> Key, p: Loaded, strong: map<Id, Key>, more: map<Id, Key>, weak: Key, e: Id)
    requires p.Shaped() && e in p.g.build
    requires forall x :: x in strong ==> x in more && more[x] == strong[x]
    requires StrongKey(generate, p, strong, weak, e).Some?
    ensures StrongKey(generate, p, more, weak, e) == StrongKey(generate, p, strong, weak, e)
  {
    var xs, ys := StrongEntries(p, strong, e), StrongEntries(p, more, e);
    forall i | 0 <= i < |xs| ensures xs[i] == ys[i] {
      assert AllTruthy(xs[i]);
      assert Truthy(xs[i][2]);
    }
    assert xs == ys;
  }

  /** The names in the BUILD scope of an element are known. */
  ghost predicate NamesKnown(p: Loaded, e: Id)
    requires p.Shaped() && e in p.g.build
  {
    forall d :: d in BuildScope(p.g, e) && d in p.info ==> p.info[d].project != "" && p.info[d].name != ""
  }

  /** A weak key exists only if all names are known. */
  lemma WeakKeyNeedsNames(generate: Dict -> Key, p: Loaded, e: Id)
    requires p.Valid() && e in p.g.build && WeakKey(generate, p, e).Some?
    ensures NamesKnown(p, e)
  {
    var ds, ws := BuildScope(p.g, e), WeakEntries(generate, p, e);
    forall d | d in ds && d in p.info ensures p.info[d].project != "" && p.info[d].name != "" {
      var i :| 0 <= i < |ds| && ds[i] == d;
      assert AllTruthy(ws[i]);
      assert Truthy(ws[i][0]) && Truthy(ws[i][1]);
    }
  }

  /** With the names and strong keys of the whole BUILD scope known, the
      calculation cannot fail. */
  lemma StrongKeyKnown(generate: Dict -> Key, p: Loaded, strong: map<Id, Key>, weak: Key, e: Id)
    requires p.Shaped() && e in p.g.build && NamesKnown(p, e)
    requires forall d :: d in BuildScope(p.g, e) ==> d in strong && strong[d] != ""
    ensures StrongKey(generate, p, strong, weak, e).Some?
  {
    var xs := StrongEntries(p, strong, e);
    forall i | 0 <= i < |xs| ensures AllTruthy(xs[i]) { StrongEntryKnown(p, strong, e, i); }
  }

  lemma StrongEntryKnown(p: Loaded, strong: map<Id, Key>, e: Id, i: nat)
    requires p.Shaped() && e in p.g.build && NamesKnown(p, e) && i < |StrongEntries(p, strong, e)|
    requires forall d :: d in BuildScope(p.g, e) ==> d in strong && strong[d] != ""
    ensures AllTruthy(StrongEntries(p, strong, e)[i])
  {
    var d := BuildScope(p.g, e)[i];
    assert d in BuildScope(p.g, e) && Within(p.g.build, BuildScope(p.g, e)) by {
      BuildScopeIsBuildDependencies(p.g, e);
    }
  }

  /** A strong key calculated from strong keys that all equal the strict ones
      equals the strict key. */
  lemma StrongKeyIsStrict(generate: Dict -> Key, p: Loaded, strong: map<Id, Key>, weak: Key, e: Id)
    requires Injective(generate) && p.Valid() && e in p.g.build && WeakKey(generate, p, e) == Some(weak)
    requires StrongKey(generate, p, strong, weak, e).Some?
    requires forall d ::
      d in BuildScope(p.g, e) && d in strong ==> d in p.g.build && StrictKey(generate, p, d) == Some(strong[d])
    ensures StrictKey(generate, p, e) == StrongKey(generate, p, strong, weak, e)
  {
    var ds := BuildScope(p.g, e);
    BuildScopeBelow(p.g, e);
    var xs, ys := StrongEntries(p, strong, e), StrictEntries(generate, p, e);
    forall i | 0 <= i < |xs| ensures xs[i] == ys[i] {
      assert AllTruthy(xs[i]);
      assert Truthy(xs[i][2]) && ds[i] in ds;
    }
    assert xs == ys;
  }
}
