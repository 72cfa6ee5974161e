/** The artifact of an element, once loaded, names the same dependencies in the
    same order as the element did. */
module ArtifactRoundTrip {
  import opened Wrappers

  import opened Graphs
  import opened Dependencies
  import opened CacheKeys
  import opened ArtifactNames
  import opened ArtifactLoading

  /** The elements of a session together with their strong keys. */
  datatype Built = Built(p: Loaded, strong: map<Id, Key>) {
    ghost predicate Valid() {
      && p.Valid() && p.g.build.Keys <= strong.Keys
      && forall e ::
        e in p.info ==> '/' !in p.info[e].project && p.info[e].project != "" && p.info[e].name != "" && IsKey(strong[e])
    }

    function ArtifactName(e: Id): string
      requires e in p.info && e in strong
    {
      ComposeName(p.info[e].project, NormalName(p.info[e].name), strong[e])
    }

    /** What caching an element records. */
    function ProtoOf(e: Id): Proto
      requires p.Valid() && e in p.g.build && p.g.build.Keys <= strong.Keys
    {
      var ds := BuildScope(p.g, e);
      BuildScopeBelow(p.g, e);
      Proto(strong[e], seq(|ds|, i requires 0 <= i < |ds| =>
        BuildDep(p.info[ds[i]].project, p.info[ds[i]].name, strong[ds[i]])))
    }

    /** The artifact of e is in the cache, and nothing else goes by its name. */
    ghost predicate CachedAt(store: Store, e: Id)
      requires Valid() && e in p.g.build
    {
      && ArtifactName(e) in store && store[ArtifactName(e)] == ProtoOf(e)
      && forall ref {:trigger Instantiate(store, ref)} ::
          Instantiate(store, ref).Some? && Instantiate(store, ref).value.name == ArtifactName(e) ==>
            Instantiate(store, ref).value.refs == DependencyNames(ProtoOf(e))
    }

    /** Element id was loaded from the artifact of e, and its dependencies from
        those of the BUILD scope of e, in order, and so on. */
    ghost predicate Mirrors(t: Table, e: Id, id: nat)
      requires Valid() && e in p.g.build
      decreases Rank(p.g.All(), e)
    {
      BuildScopeBelow(p.g, e);
      var ds := BuildScope(p.g, e);
      && id < |t.elements| && t.elements[id].name == ArtifactName(e) && |t.elements[id].deps| == |ds|
      && forall i :: 0 <= i < |ds| ==> Mirrors(t, ds[i], t.elements[id].deps[i])
    }
  }

  /** An artifact records the BUILD scope in staging order, and its references are read in
      the order of what is recorded. */
  lemma RecordedInOrder(b: Built, e: Id, i: nat)
    requires b.Valid() && e in b.p.g.build && i < |BuildScope(b.p.g, e)|
    ensures var proto, d := b.ProtoOf(e), BuildScope(b.p.g, e)[i];
      && |proto.buildDeps| == |BuildScope(b.p.g, e)| && d in b.p.info && proto.strong == b.strong[e]
      && proto.buildDeps[i] == BuildDep(b.p.info[d].project, b.p.info[d].name, b.strong[d])
      && DependencyNames(proto)[i] == DependencyRef(b.p.info[d].project, b.p.info[d].name, b.strong[d])
  {
    BuildScopeBelow(b.p.g, e);
  }

  /** A name that is both a reference and stored under is the same either way. */
  lemma ReferenceIsStoredName(project: string, name: string, key: Key, store: Store, ref: string)
    requires '/' !in project && project != "" && name != "" && IsKey(key)
    requires Instantiate(store, ref).Some? && Instantiate(store, ref).value.name == DependencyRef(project, name, key)
    ensures ComposeName(project, NormalName(name), key) == DependencyRef(project, name, key)
  {
    NormalNameIsNotEmpty(name);
    NormalNameHasNoSlash(name);
    DependencyRefIs(project, name, key);
    var n := NormalName(name);
    var parsed := VerifyRef(ref).value;
    var found := ComposeName(parsed.project, NormalName(parsed.element), parsed.key);
    var key' := if found in store then store[found].strong else parsed.key;
    assert '/' !in parsed.project;
    ComposedParts(parsed.project, NormalName(parsed.element), key', project, n, key);
  }

  lemma ComposedParts(project: string, name: string, key: Key, project': string, name': string, key': Key)
    requires '/' !in project && '/' !in project' && '/' !in name'
    requires ComposeName(project, name, key) == project' + "/" + name' + "/" + key'
    ensures Rewritten(name') == name'
  {
    RewrittenAgain(name);
    var a, b := Rewritten(name) + "/" + key, name' + "/" + key';
    assert project + "/" + a == ComposeName(project, name, key);
    assert project' + "/" + b == project' + "/" + name' + "/" + key';
    SplitsAtSlash(project, a, project', b);
    SplitsAtSlash(Rewritten(name), key, name', key');
  }

  lemma SplitsAtSlash(a: string, b: string, a': string, b': string)
    requires '/' !in a && '/' !in a' && a + "/" + b == a' + "/" + b'
    ensures a == a' && b == b'
  {
    FirstSlashAfter(a, b);
    FirstSlashAfter(a', b');
    var s := a + "/" + b;
    assert a == s[..|a|] && b == s[|a| + 1..] && a' == s[..|a'|] && b' == s[|a'| + 1..];
  }

  /** What a dependency's reference leads to. */
  lemma DependencyIsFound(b: Built, store: Store, t: Table, d: Id, id: nat)
    requires b.Valid() && d in b.p.g.build && t.Valid(LookupIn(store), {}) && b.CachedAt(store, d)
    requires !HasExtension(NormalName(b.p.info[d].name))
    requires t.Resolved(LookupIn(store), DependencyRef(b.p.info[d].project, b.p.info[d].name, b.strong[d]), id)
    ensures t.elements[id].name == b.ArtifactName(d)
  {
    var info, key := b.p.info[d], b.strong[d];
    var ref := DependencyRef(info.project, info.name, key);
    ReferenceNamesArtifact(info.project, info.name, key);
    if t.elements[id].name == ref {
      assert t.ValidAt(LookupIn(store), id, {});
      var from :| Instantiate(store, from) == Some(Instance(t.elements[id].name, t.elements[id].refs));
      ReferenceIsStoredName(info.project, info.name, key, store, from);
    }
  }

  /** The artifacts of everything that e builds on are cached, and found by their
      references. */
  ghost predicate AllFound(b: Built, store: Store, e: Id)
    requires b.Valid() && e in b.p.g.build
  {
    forall d :: d in b.p.g.build && BuildsOn(b.p, e, d) ==>
      b.CachedAt(store, d) && !HasExtension(NormalName(b.p.info[d].name))
  }

  /** Any element of the right name in a completely loaded table mirrors the
      element whose artifact it is. */
  lemma {:induction false} LoadedMirrors(b: Built, store: Store, t: Table, e: Id, id: nat)
    requires b.Valid() && e in b.p.g.build && t.Valid(LookupIn(store), {})
    requires AllFound(b, store, e)
    requires id < |t.elements| && t.elements[id].name == b.ArtifactName(e)
    ensures b.Mirrors(t, e, id)
    decreases Rank(b.p.g.All(), e)
  {
    BuildScopeBelow(b.p.g, e);
    var ds := BuildScope(b.p.g, e);
    assert BuildsOn(b.p, e, e) && t.ValidAt(LookupIn(store), id, {});
    var deps := t.elements[id].deps;
    forall i | 0 <= i < |ds| ensures b.Mirrors(t, ds[i], deps[i]) {
      assert ds[i] in ds && BuildsOn(b.p, ds[i], ds[i]);
      assert t.Resolved(LookupIn(store), t.elements[id].refs[i], deps[i]);
      DependencyIsFound(b, store, t, ds[i], deps[i]);
      forall d | d in b.p.g.build && BuildsOn(b.p, ds[i], d) ensures BuildsOn(b.p, e, d) { }
      LoadedMirrors(b, store, t, ds[i], deps[i]);
    }
  }

  // ---------------------------------------------------------------- the loaded graph

  /** Loaded elements have build dependencies only. */
  function LoadedProject(t: Table): Project {
    var build := map id | 0 <= id < |t.elements| :: t.elements[id].deps;
    Project(build, map id | id in build :: [])
  }

  lemma LoadedProjectIsValid(store: Store, t: Table, incomplete: set<nat>)
    requires t.Valid(LookupIn(store), incomplete)
    ensures LoadedProject(t).Valid()
  {
    var g := LoadedProject(t);
    forall id | id in g.build ensures Within(g.build, g.build[id]) && Within(g.runtime, g.runtime[id]) {
      assert t.ValidAt(LookupIn(store), id, incomplete);
      forall k | 0 <= k < |g.build[id]| ensures g.build[id][k] in g.build {
        assert t.Resolved(LookupIn(store), t.elements[id].refs[k], t.elements[id].deps[k]);
      }
    }
  }

  /** Without dependencies of their own, distinct elements are traversed as listed. */
  lemma {:induction false} FlatTraversal(es: Edges, ds: seq<Id>, seen: set<Id>)
    requires Closed(es) && Within(es, ds) && NoRepeats(ds) && forall d :: d in ds ==> d !in seen && es[d] == []
    ensures PostorderAll(es, ds, seen).0 == ds
    decreases |ds|
  {
    if ds != [] {
      var (out, seen') := Postorder(es, ds[0], seen);
      assert es[ds[0]] == [] && PostorderAll(es, [], seen + {ds[0]}) == ([], seen + {ds[0]});
      assert out == [ds[0]] && seen' == seen + {ds[0]};
      HeadOrTail(ds);
      assert ds == [ds[0]] + ds[1..];
      forall i, j | 0 <= i < j < |ds[1..]| ensures ds[1..][i] != ds[1..][j] { assert ds[i + 1] != ds[j + 1]; }
      forall d | d in ds[1..] ensures d !in seen' && es[d] == [] {
        var i :| 0 <= i < |ds[1..]| && ds[1..][i] == d;
        assert ds[0] != ds[i + 1];
      }
      FlatTraversal(es, ds[1..], seen');
    }
  }

  /** Distinct names in the BUILD scope, and so distinct loaded dependencies. */
  ghost predicate DistinctNames(b: Built, e: Id)
    requires b.Valid() && e in b.p.g.build
  {
    forall x, y :: x in BuildScope(b.p.g, e) && y in BuildScope(b.p.g, e) && x != y ==>
      x in b.p.info && y in b.p.info && b.ArtifactName(x) != b.ArtifactName(y)
  }

  lemma MirroredDependencies(b: Built, t: Table, e: Id, id: nat)
    requires b.Valid() && e in b.p.g.build && b.Mirrors(t, e, id)
    ensures forall i :: 0 <= i < |BuildScope(b.p.g, e)| ==>
      var d := t.elements[id].deps[i];
      && d < |t.elements| && BuildScope(b.p.g, e)[i] in b.p.info
      && t.elements[d].name == b.ArtifactName(BuildScope(b.p.g, e)[i])
    ensures DistinctNames(b, e) ==> NoRepeats(t.elements[id].deps)
  {
    BuildScopeIsBuildDependencies(b.p.g, e);
    var ds, deps := BuildScope(b.p.g, e), t.elements[id].deps;
    forall i | 0 <= i < |ds|
      ensures deps[i] < |t.elements| && ds[i] in b.p.info && t.elements[deps[i]].name == b.ArtifactName(ds[i])
    {
      BuildScopeBelow(b.p.g, e);
      assert b.Mirrors(t, ds[i], deps[i]);
    }
    if DistinctNames(b, e) {
      forall i, j | 0 <= i < j < |deps| ensures deps[i] != deps[j] {
        assert ds[i] != ds[j] && ds[i] in ds && ds[j] in ds;
      }
    }
  }

  lemma LoadedBuildScope(store: Store, t: Table, id: nat)
    requires t.Valid(LookupIn(store), {}) && id < |t.elements| && NoRepeats(t.elements[id].deps)
    ensures LoadedProject(t).Valid() && BuildScope(LoadedProject(t), id) == t.elements[id].deps
  {
    LoadedProjectIsValid(store, t, {});
    var g := LoadedProject(t);
    assert Within(g.build, g.build[id]);
    FlatTraversal(g.runtime, g.build[id], {});
  }

  /** The BUILD dependencies of a loaded element have the names of the BUILD
      dependencies of the original, in staging order. */
  lemma StagingOrderIsKept(b: Built, store: Store, t: Table, e: Id, id: nat)
    requires b.Valid() && e in b.p.g.build && t.Valid(LookupIn(store), {}) && b.Mirrors(t, e, id) && DistinctNames(b, e)
    ensures LoadedProject(t).Valid() && |BuildScope(LoadedProject(t), id)| == |BuildScope(b.p.g, e)|
    ensures forall i :: 0 <= i < |BuildScope(b.p.g, e)| ==>
      var d, loaded := BuildScope(b.p.g, e)[i], BuildScope(LoadedProject(t), id)[i];
      d in b.p.info && loaded < |t.elements| && t.elements[loaded].name == b.ArtifactName(d)
  {
    MirroredDependencies(b, t, e, id);
    LoadedBuildScope(store, t, id);
  }

  // ---------------------------------------------------------------- loading it

  lemma NameLeadsBack(b: Built, store: Store, e: Id)
    requires b.Valid() && e in b.p.g.build && b.CachedAt(store, e) && !HasExtension(NormalName(b.p.info[e].name))
    ensures Instantiate(store, b.ArtifactName(e)) == Some(Instance(b.ArtifactName(e), DependencyNames(b.ProtoOf(e))))
  {
    StoredNameNamesArtifact(b.p.info[e].project, b.p.info[e].name, b.strong[e]);
  }

  lemma ReferenceLeadsTo(b: Built, store: Store, d: Id)
    requires b.Valid() && d in b.p.g.build && b.CachedAt(store, d) && !HasExtension(NormalName(b.p.info[d].name))
    ensures Instantiate(store, DependencyRef(b.p.info[d].project, b.p.info[d].name, b.strong[d])) ==
      Some(Instance(b.ArtifactName(d), DependencyNames(b.ProtoOf(d))))
  {
    ReferenceNamesArtifact(b.p.info[d].project, b.p.info[d].name, b.strong[d]);
  }

  lemma FoundBelow(b: Built, store: Store, e: Id, d: Id)
    requires b.Valid() && e in b.p.g.build && AllFound(b, store, e) && d in BuildScope(b.p.g, e)
    ensures d in b.p.g.build && AllFound(b, store, d)
    ensures b.CachedAt(store, d) && !HasExtension(NormalName(b.p.info[d].name))
  {
    BuildScopeBelow(b.p.g, e);
    forall x | x in b.p.g.build && BuildsOn(b.p, d, x) ensures BuildsOn(b.p, e, x) { }
    assert BuildsOn(b.p, d, d);
  }

  /** The recorded references of an element lead to artifacts in the same situation. */
  lemma BuiltStep(b: Built, store: Store, e: Id, k: nat)
    requires b.Valid() && e in b.p.g.build && AllFound(b, store, e) && k < |BuildScope(b.p.g, e)|
    ensures var d := BuildScope(b.p.g, e)[k];
      && d in b.p.g.build && AllFound(b, store, d)
      && LookupIn(store)(DependencyNames(b.ProtoOf(e))[k]) ==
           Some(Instance(b.ArtifactName(d), DependencyNames(b.ProtoOf(d))))
  {
    var d := BuildScope(b.p.g, e)[k];
    FoundBelow(b, store, e, d);
    ReferenceLeadsTo(b, store, d);
  }

  /** Whatever the artifact of an element leads to is an artifact of something that
      the element builds on. */
  lemma {:induction false} BuiltChain(b: Built, store: Store, look: Lookup, e: Id, ref: string, p: seq<string>)
    requires b.Valid() && e in b.p.g.build && AllFound(b, store, e) && look == LookupIn(store)
    requires look(ref) == Some(Instance(b.ArtifactName(e), DependencyNames(b.ProtoOf(e)))) && Chain(look, ref, p)
    ensures look(p[|p| - 1]).Some? && SelfNamed(look, p[|p| - 1])
    decreases |p|
  {
    if |p| == 1 {
      assert BuildsOn(b.p, e, e);
      NameLeadsBack(b, store, e);
    } else {
      var k := ChainGoesOn(look, ref, p);
      BuiltStep(b, store, e, k);
      BuiltChain(b, store, look, BuildScope(b.p.g, e)[k], p[1], p[1..]);
    }
  }

  /** Nothing blocks the loading of an artifact with all that it was built from. */
  lemma BuiltIsUnblocked(b: Built, store: Store, e: Id)
    requires b.Valid() && e in b.p.g.build && AllFound(b, store, e)
    ensures Unblocked(LookupIn(store), b.ArtifactName(e)) && Stable(LookupIn(store), b.ArtifactName(e))
  {
    assert BuildsOn(b.p, e, e);
    NameLeadsBack(b, store, e);
    forall p | Chain(LookupIn(store), b.ArtifactName(e), p)
      ensures LookupIn(store)(p[|p| - 1]).Some? && SelfNamed(LookupIn(store), p[|p| - 1])
    {
      BuiltChain(b, store, LookupIn(store), e, b.ArtifactName(e), p);
    }
  }

  /** Loads the artifact of an element into an empty table. */
  method LoadArtifactOf(b: Built, store: Store, e: Id) returns (loader: Loader, id: nat)
    requires b.Valid() && e in b.p.g.build && AllFound(b, store, e)
    ensures loader.table.Valid(LookupIn(store), {}) && b.Mirrors(loader.table, e, id)
  {
    loader := new Loader(store);
    var name := b.ArtifactName(e);
    assert BuildsOn(b.p, e, e);
    NameLeadsBack(b, store, e);
    BuiltIsUnblocked(b, store, e);
    ghost var names := NamesOf(store) + {name};
    NamesCover(store, names);
    var r := loader.NewFromArtifactName(name, names, {});
    id := r.value;
    LoadedMirrors(b, store, loader.table, e, id);
  }
}
