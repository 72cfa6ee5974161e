/** Weak and strict keys are calculated element by element while a project is
    loaded, dependencies first. */
module KeyLoading {
  import opened Wrappers

  import opened Graphs
  import opened Dependencies
  import opened CacheKeys

  /** The keys of x are final: they are what they should be, or cannot be known. */
  ghost predicate KeysFinal(generate: Dict -> Key, p: Loaded, weak: map<Id, Key>, strict: map<Id, Key>, x: Id)
    requires p.Valid()
  {
    x in p.g.build && Lookup(weak, x) == WeakKey(generate, p, x) && Lookup(strict, x) == StrictKey(generate, p, x)
  }

  class KeyTable {
    const generate: Dict -> Key
    const p: Loaded
    var weak: map<Id, Key>
    var strict: map<Id, Key>

    constructor(generate: Dict -> Key, p: Loaded)
      ensures this.generate == generate && this.p == p && weak == map[] && strict == map[]
    {
      this.generate, this.p, weak, strict := generate, p, map[], map[];
    }

    /** Calculates what can be calculated of the two keys of one element. */
    method UpdateCacheKeys(e: Id)
      requires Injective(generate) && p.Valid() && e in p.g.build
      requires forall d {:trigger KeysFinal(generate, p, weak, strict, d)} ::
        d in BuildScope(p.g, e) ==> KeysFinal(generate, p, weak, strict, d)
      requires KeysFinal(generate, p, weak, strict, e) || (e !in weak && e !in strict)
      modifies this
      ensures KeysFinal(generate, p, weak, strict, e)
      ensures forall x ::
        x != e ==> Lookup(weak, x) == Lookup(old(weak), x) && Lookup(strict, x) == Lookup(old(strict), x)
    {
      if e in strict { return; }
      BuildScopeBelow(p.g, e);
      var ds := BuildScope(p.g, e);
      assert forall i :: 0 <= i < |ds| ==> ds[i] in ds && KeysFinal(generate, p, weak, strict, ds[i]);
      ghost var weakEntries, strictEntries := WeakEntries(generate, p, e), StrictEntries(generate, p, e);
      if StrictKey(generate, p, e).Some? { StrictKeyNeedsWeakKey(generate, p, e); }
      if !p.info[e].resolved { return; }

      var weakKeys, strictKeys := weak, strict;
      if e !in weak {
        var entries := seq(|ds|, i requires 0 <= i < |ds| =>
          if p.Strictly(e, ds[i])
          then [Some(p.info[ds[i]].project), Some(p.info[ds[i]].name), Lookup(weakKeys, ds[i])]
          else [Some(p.info[ds[i]].project), Some(p.info[ds[i]].name)]);
        assert entries == weakEntries;
        var key := Calculate(generate, p.info[e].base, entries, None);
        if key.Some? {
          OtherKeysStay(weak, e, key.value);
          weak := weak[e := key.value];
        }
      }

      var entries := seq(|ds|, i requires 0 <= i < |ds| =>
        [Some(p.info[ds[i]].project), Some(p.info[ds[i]].name), Lookup(strictKeys, ds[i])]);
      assert entries == strictEntries;
      var key := Calculate(generate, p.info[e].base, entries, Lookup(weak, e));
      if key.Some? {
        assert e in weak;
        OtherKeysStay(strict, e, key.value);
        strict := strict[e := key.value];
      }
    }

    /** Every element gets its keys after its dependencies have theirs: any such
        order gives the same keys. */
    method LoadAll(order: seq<Id>)
      requires Injective(generate) && p.Valid() && weak == map[] && strict == map[]
      requires DependenciesFirst(p.g.All(), {}, order) && Elements(order) == p.g.build.Keys
      modifies this
      ensures forall x {:trigger KeysFinal(generate, p, weak, strict, x)} ::
        x in p.g.build ==> KeysFinal(generate, p, weak, strict, x)
      ensures weak.Keys <= p.g.build.Keys && strict.Keys <= p.g.build.Keys
    {
      for k := 0 to |order|
        invariant forall x {:trigger KeysFinal(generate, p, weak, strict, x)} ::
          x in order[..k] ==> KeysFinal(generate, p, weak, strict, x)
        invariant weak.Keys <= Elements(order[..k]) && strict.Keys <= Elements(order[..k])
      {
        var e := order[k];
        assert e in Elements(order);
        ScopeComesBefore(p, order, k);
        ghost var was, wis := weak, strict;
        UpdateCacheKeys(e);
        InitOrLast(order[..k + 1]);
        assert order[..k + 1][..k] == order[..k] && order[..k + 1][k] == e;
        forall x | x in order[..k + 1] ensures KeysFinal(generate, p, weak, strict, x) {
          if x != e { assert KeysFinal(generate, p, was, wis, x); }
        }
        forall x | x in weak || x in strict ensures x in order[..k + 1] {
          if x != e { assert Lookup(weak, x) == Lookup(was, x) && Lookup(strict, x) == Lookup(wis, x); }
        }
      }
      assert order[..|order|] == order;
    }
  }

  lemma ScopeComesBefore(p: Loaded, order: seq<Id>, k: nat)
    requires p.Valid() && k < |order| && order[k] in p.g.build && DependenciesFirst(p.g.All(), {}, order)
    ensures forall d :: d in BuildScope(p.g, order[k]) ==> d in order[..k]
  {
    var es := p.g.All();
    BuildScopeIsBuildDependencies(p.g, order[k]);
    forall x, y | x in Elements(order[..k]) && DependsOn(es, x, y) ensures y in Elements(order[..k]) {
      var i :| 0 <= i < k && order[i] == x;
      assert y in order[..i];
      assert order[..k][..i] == order[..i];
    }
    forall d | d in BuildScope(p.g, order[k]) ensures d in order[..k] {
      var b :| b in p.g.build[order[k]] && Reaches(p.g.runtime, b, d);
      AllClosed(p.g);
      assert DependsOn(p.g.build, order[k], b) && DependsOn(es, order[k], b);
      RuntimeReachIsReach(p.g, b, d);
      ClosedSetKeepsReached(es, Elements(order[..k]), b, d);
    }
  }
}
