/** Loading elements from artifacts: an artifact records the BUILD scope of the
    element it was made from, and loading it brings back elements with those
    dependencies, each of them once. */
module ArtifactLoading {
  import opened Wrappers

  import opened CacheKeys
  import opened ArtifactNames

  datatype BuildDep = BuildDep(project: string, name: string, key: Key)

  /** What loading asks of a cached artifact. */
  datatype Proto = Proto(strong: Key, buildDeps: seq<BuildDep>)

  type Store = map<string, Proto>

  function DependencyNames(proto: Proto): (refs: seq<string>)
    ensures |refs| == |proto.buildDeps|
  {
    seq(|proto.buildDeps|, i requires 0 <= i < |proto.buildDeps| =>
      DependencyRef(proto.buildDeps[i].project, proto.buildDeps[i].name, proto.buildDeps[i].key))
  }

  /** An element for the artifact behind a reference: its artifact name, which has
      the strong key if the artifact is cached, and what it depends on. */
  datatype Instance = Instance(name: string, refs: seq<string>)

  function Instantiate(store: Store, ref: string): (r: Option<Instance>)
    ensures r.Some? <==> VerifyRef(ref).Some?
  {
    match VerifyRef(ref)
    case None => None
    case Some(Ref(project, element, key)) =>
      var found := ComposeName(project, NormalName(element), key);
      if found in store
      then Some(Instance(ComposeName(project, NormalName(element), store[found].strong), DependencyNames(store[found])))
      else Some(Instance(found, []))
  }

  /** A reference in the expected format leads to the element of that name and project: by
      the strong key and with the dependencies of the artifact that is stored under the
      name with that key, or without dependencies if there is none. */
  lemma InstantiateMeans(store: Store, project: string, element: string, key: Key)
    requires '/' !in project && '/' !in element && IsKey(key)
    ensures var name := project + "/" + Rewritten(NormalName(element)) + "/";
      Instantiate(store, project + "/" + element + "/" + key) == Some(
        if name + key in store
        then Instance(name + store[name + key].strong, DependencyNames(store[name + key]))
        else Instance(name + key, []))
  {
    VerifyComposed(project, element, key);
  }

  /** What references lead to; nothing, if they are of the wrong format. */
  type Lookup = string -> Option<Instance>

  function LookupIn(store: Store): Lookup {
    ref => Instantiate(store, ref)
  }

  /** All names that loading dependencies can lead to. */
  function NamesOf(store: Store): set<string> {
    set n, r | n in store && r in DependencyNames(store[n]) && Instantiate(store, r).Some? ::
      Instantiate(store, r).value.name
  }

  ghost predicate LeadsInto(look: Lookup, ref: string, names: set<string>) {
    look(ref).Some? ==> look(ref).value.name in names
  }

  /** The names cover whatever dependencies lead to. */
  ghost predicate Covers(look: Lookup, names: set<string>) {
    forall ref, i {:trigger look(ref).value.refs[i]} ::
      look(ref).Some? && 0 <= i < |look(ref).value.refs| ==> LeadsInto(look, look(ref).value.refs[i], names)
  }

  lemma NamesCover(store: Store, names: set<string>)
    requires NamesOf(store) <= names
    ensures Covers(LookupIn(store), names)
  {
    var look := LookupIn(store);
    forall ref, i | look(ref).Some? && 0 <= i < |look(ref).value.refs|
      ensures LeadsInto(look, look(ref).value.refs[i], names)
    {
      assert look(ref).value.refs[i] in look(ref).value.refs;
    }
  }

  /** An element made from an artifact: what the artifact names, and the elements
      for it, as far as they are loaded. */
  datatype Element = Element(name: string, refs: seq<string>, deps: seq<nat>)

  /** The elements instantiated so far, and which of them has which name. */
  datatype Table = Table(interned: map<string, nat>, elements: seq<Element>) {

    /** Element id is what the reference leads to. */
    ghost predicate Resolved(look: Lookup, ref: string, id: nat) {
      && id < |elements|
      && (elements[id].name == ref
          || (look(ref).Some? && elements[id].name == look(ref).value.name))
    }

    /** The dependencies of an element are those its artifact names, in order; or
        the first of them, if loading has not come to an end. */
    ghost predicate ValidAt(look: Lookup, id: nat, incomplete: set<nat>) {
      id < |elements| ==>
        && elements[id].name in interned && interned[elements[id].name] == id
        && (exists ref :: look(ref) == Some(Instance(elements[id].name, elements[id].refs)))
        && |elements[id].deps| <= |elements[id].refs|
        && (id !in incomplete ==> |elements[id].deps| == |elements[id].refs|)
        && Linked(look, elements[id])
    }

    ghost predicate Linked(look: Lookup, element: Element) {
      |element.deps| <= |element.refs| && forall i ::
        0 <= i < |element.deps| ==> Resolved(look, element.refs[i], element.deps[i])
    }

    ghost predicate Valid(look: Lookup, incomplete: set<nat>) {
      && (forall n :: n in interned ==> interned[n] < |elements| && elements[interned[n]].name == n)
      && (forall id {:trigger ValidAt(look, id, incomplete)} :: ValidAt(look, id, incomplete))
    }

    /** Dependencies of the element are missing. */
    ghost predicate Incomplete(id: nat) {
      id < |elements| && |elements[id].deps| < |elements[id].refs|
    }

    /** An element's next dependency cannot be loaded. */
    ghost predicate Stuck(look: Lookup, id: nat) {
      Incomplete(id) && var next := elements[id].refs[|elements[id].deps|]; next !in interned && look(next).None?
    }

    ghost predicate StuckSince(look: Lookup, id: nat) {
      exists x :: x >= id && Stuck(look, x)
    }

    /** The name of every element is a reference to its own artifact. */
    ghost predicate Named(look: Lookup) {
      forall id {:trigger NamedAt(look, id)} :: NamedAt(look, id)
    }

    ghost predicate NamedAt(look: Lookup, id: nat) {
      id < |elements| ==>
        look(elements[id].name) == Some(Instance(elements[id].name, elements[id].refs))
    }

    /** Loading adds elements and leaves the others alone. */
    ghost predicate Extends(t: Table) {
      && |t.elements| <= |elements| && elements[..|t.elements|] == t.elements
      && (forall n :: n in t.interned ==> n in interned && interned[n] == t.interned[n])
    }
  }

  // ---------------------------------------------------------------- what the look says

  /** References that artifacts lead to, one after the other. */
  ghost predicate Chain(look: Lookup, ref: string, p: seq<string>)
    decreases |p|
  {
    && p != [] && p[0] == ref
    && (|p| > 1 ==>
          && look(ref).Some? && p[1] in look(ref).value.refs
          && Chain(look, p[1], p[1..]))
  }

  /** How such a chain goes on. */
  lemma ChainGoesOn(look: Lookup, ref: string, p: seq<string>) returns (k: nat)
    requires Chain(look, ref, p) && |p| > 1
    ensures look(ref).Some? && k < |look(ref).value.refs|
    ensures look(ref).value.refs[k] == p[1] && Chain(look, p[1], p[1..])
  {
    k :| 0 <= k < |look(ref).value.refs| && look(ref).value.refs[k] == p[1];
  }

  /** No reference of the wrong format is on the way. */
  ghost predicate Unblocked(look: Lookup, ref: string) {
    forall p :: Chain(look, ref, p) ==> look(p[|p| - 1]).Some?
  }

  /** The name of what the reference leads to is a reference to the same. */
  ghost predicate SelfNamed(look: Lookup, ref: string) {
    look(ref).Some? ==> look(look(ref).value.name) == look(ref)
  }

  ghost predicate Stable(look: Lookup, ref: string) {
    forall p :: Chain(look, ref, p) ==> SelfNamed(look, p[|p| - 1])
  }

  ghost predicate AllUnblocked(look: Lookup, refs: seq<string>) {
    forall i :: 0 <= i < |refs| ==> Unblocked(look, refs[i])
  }

  ghost predicate AllStable(look: Lookup, refs: seq<string>) {
    forall i :: 0 <= i < |refs| ==> Stable(look, refs[i])
  }

  lemma FirstOfChain(look: Lookup, ref: string)
    ensures Unblocked(look, ref) ==> look(ref).Some?
    ensures Stable(look, ref) ==> SelfNamed(look, ref)
  {
    assert Chain(look, ref, [ref]) && [ref][|[ref]| - 1] == ref;
  }

  lemma RestOfChain(look: Lookup, ref: string)
    requires look(ref).Some?
    ensures Unblocked(look, ref) ==> AllUnblocked(look, look(ref).value.refs)
    ensures Stable(look, ref) ==> AllStable(look, look(ref).value.refs)
  {
    var refs := look(ref).value.refs;
    forall i, p | 0 <= i < |refs| && Chain(look, refs[i], p)
      ensures Unblocked(look, ref) ==> look(p[|p| - 1]).Some?
      ensures Stable(look, ref) ==> SelfNamed(look, p[|p| - 1])
    {
      var q := [ref] + p;
      assert q[1..] == p && q[1] == p[0] && q[|q| - 1] == p[|p| - 1];
      assert Chain(look, ref, q);
    }
  }

  /** What is loaded completely leads to no reference of the wrong format. */
  lemma {:induction false} LoadedIsUnblocked(look: Lookup, t: Table, ref: string, id: nat, p: seq<string>)
    requires t.Valid(look, {}) && t.Named(look) && t.Resolved(look, ref, id)
    requires Stable(look, ref) && Chain(look, ref, p)
    ensures look(p[|p| - 1]).Some?
    decreases |p|
  {
    ResolvedIsInstance(look, t, ref, id);
    if |p| > 1 {
      var k := ChainGoesOn(look, ref, p);
      RestOfChain(look, ref);
      LoadedIsUnblocked(look, t, p[1], t.elements[id].deps[k], p[1..]);
    }
  }

  lemma ResolvedIsInstance(look: Lookup, t: Table, ref: string, id: nat)
    requires t.Valid(look, {}) && t.Named(look) && t.Resolved(look, ref, id) && Stable(look, ref)
    ensures look(ref) == Some(Instance(t.elements[id].name, t.elements[id].refs))
    ensures |t.elements[id].deps| == |t.elements[id].refs| && t.Linked(look, t.elements[id])
  {
    FirstOfChain(look, ref);
    assert t.NamedAt(look, id) && t.ValidAt(look, id, {});
  }

  lemma NamedStays(look: Lookup, t: Table, t': Table)
    requires t.Named(look) && |t'.elements| == |t.elements|
    requires forall id :: 0 <= id < |t.elements| ==>
      t'.elements[id].name == t.elements[id].name && t'.elements[id].refs == t.elements[id].refs
    ensures t'.Named(look)
  {
    forall id ensures t'.NamedAt(look, id) { assert t.NamedAt(look, id); }
  }

  lemma NamedGrows(look: Lookup, t: Table, ref: string)
    requires t.Named(look) && Stable(look, ref) && look(ref).Some?
    ensures var instance := look(ref).value; WithElement(t, instance.name, instance.refs).Named(look)
  {
    FirstOfChain(look, ref);
    var instance := look(ref).value;
    var t' := WithElement(t, instance.name, instance.refs);
    forall id ensures t'.NamedAt(look, id) { assert t.NamedAt(look, id); }
  }

  lemma CompleteIsUnblocked(look: Lookup, t: Table, ref: string, id: nat)
    requires t.Valid(look, {}) && t.Named(look) && t.Resolved(look, ref, id) && Stable(look, ref)
    ensures Unblocked(look, ref)
  {
    forall p | Chain(look, ref, p) ensures look(p[|p| - 1]).Some? { LoadedIsUnblocked(look, t, ref, id, p); }
  }

  // ---------------------------------------------------------------- the table

  lemma StillResolved(look: Lookup, t: Table, t': Table)
    requires |t.elements| <= |t'.elements|
    requires forall id :: 0 <= id < |t.elements| ==> t'.elements[id].name == t.elements[id].name
    ensures forall ref, id {:trigger t'.Resolved(look, ref, id)} ::
      t.Resolved(look, ref, id) ==> t'.Resolved(look, ref, id)
    ensures forall element {:trigger t'.Linked(look, element)} ::
      t.Linked(look, element) ==> t'.Linked(look, element)
  { }

  function WithElement(t: Table, name: string, refs: seq<string>): Table {
    Table(t.interned[name := |t.elements|], t.elements + [Element(name, refs, [])])
  }

  lemma AddsElement(look: Lookup, t: Table, incomplete: set<nat>, ref: string, name: string, refs: seq<string>)
    requires t.Valid(look, incomplete) && name !in t.interned && look(ref) == Some(Instance(name, refs))
    ensures WithElement(t, name, refs).Valid(look, incomplete + {|t.elements|})
    ensures WithElement(t, name, refs).Extends(t)
  {
    var t' := WithElement(t, name, refs);
    StillResolved(look, t, t');
    forall id ensures t'.ValidAt(look, id, incomplete + {|t.elements|}) { assert t.ValidAt(look, id, incomplete); }
  }

  function WithDependencies(t: Table, id: nat, deps: seq<nat>): Table
    requires id < |t.elements|
  {
    t.(elements := t.elements[id := t.elements[id].(deps := deps)])
  }

  lemma LinksOneMore(look: Lookup, t: Table, element: Element, d: nat)
    requires t.Linked(look, element) && |element.deps| < |element.refs|
    requires t.Resolved(look, element.refs[|element.deps|], d)
    ensures t.Linked(look, element.(deps := element.deps + [d]))
  {
    var element' := element.(deps := element.deps + [d]);
    forall i | 0 <= i < |element'.deps| ensures t.Resolved(look, element'.refs[i], element'.deps[i]) {
      if i < |element.deps| { assert element'.deps[i] == element.deps[i]; }
    }
  }

  lemma AddsDependency(look: Lookup, t: Table, incomplete: set<nat>, id: nat, d: nat)
    requires t.Valid(look, incomplete) && id < |t.elements| && id in incomplete
    requires |t.elements[id].deps| < |t.elements[id].refs|
    requires t.Resolved(look, t.elements[id].refs[|t.elements[id].deps|], d)
    ensures WithDependencies(t, id, t.elements[id].deps + [d]).Valid(look, incomplete)
  {
    var t' := WithDependencies(t, id, t.elements[id].deps + [d]);
    StillResolved(look, t, t');
    assert t.ValidAt(look, id, incomplete) && t'.Linked(look, t.elements[id]);
    LinksOneMore(look, t', t.elements[id], d);
    forall x: nat ensures t'.ValidAt(look, x, incomplete) {
      assert t.ValidAt(look, x, incomplete);
      if x < |t.elements| && x != id { assert t'.Linked(look, t.elements[x]); }
    }
  }

  lemma ExtendsLater(t: Table, before: Table, after: Table, id: nat)
    requires id < |t.elements| && id < |before.elements| && after.Extends(before)
    requires before.Extends(WithDependencies(t, id, before.elements[id].deps))
    ensures id < |after.elements| && after.elements[id] == before.elements[id]
    ensures forall deps :: WithDependencies(after, id, deps).Extends(WithDependencies(t, id, deps))
    ensures after.Extends(WithDependencies(t, id, after.elements[id].deps))
  {
    assert after.elements[..|before.elements|][id] == before.elements[id];
    forall deps ensures WithDependencies(after, id, deps).Extends(WithDependencies(t, id, deps)) {
      assert after.elements[..|t.elements|] == before.elements[..|t.elements|];
    }
  }

  /** An element with all its dependencies is complete. */
  lemma Completes(look: Lookup, t: Table, incomplete: set<nat>, id: nat)
    requires t.Valid(look, incomplete + {id}) && id < |t.elements| && |t.elements[id].deps| == |t.elements[id].refs|
    ensures t.Valid(look, incomplete)
  {
    forall x ensures t.ValidAt(look, x, incomplete) { assert t.ValidAt(look, x, incomplete + {id}); }
  }

  lemma NoneStuck(look: Lookup, t: Table, incomplete: set<nat>, id: nat)
    requires t.Valid(look, incomplete) && forall x :: x in incomplete ==> x < id
    ensures !t.StuckSince(look, id)
  {
    forall x | x >= id ensures !t.Stuck(look, x) { assert t.ValidAt(look, x, incomplete); }
  }

  lemma GetsStuck(look: Lookup, before: Table, after: Table, id: nat)
    requires before.Incomplete(id) && after.Extends(before)
    requires after.StuckSince(look, |before.elements|) || (after == before && before.Stuck(look, id))
    ensures after.Incomplete(id) && after.StuckSince(look, id)
  {
    assert after.elements[..|before.elements|][id] == before.elements[id];
    if x :| x >= |before.elements| && after.Stuck(look, x) {
      assert x >= id;
    }
  }

  lemma LessComplete(look: Lookup, t: Table, incomplete: set<nat>, more: set<nat>)
    requires t.Valid(look, incomplete) && forall id :: id in incomplete && id < |t.elements| ==> id in more
    ensures t.Valid(look, more)
  {
    forall id ensures t.ValidAt(look, id, more) { assert t.ValidAt(look, id, incomplete); }
  }

  function Numbers(from: nat, to: nat): (r: set<nat>)
    ensures forall i :: i in r <==> from <= i < to
  {
    if from >= to then {} else Numbers(from, to - 1) + {to - 1}
  }

  lemma LoadedMeans(look: Lookup, t: Table, incomplete: set<nat>, ref: string, id: nat)
    requires t.Valid(look, incomplete) && t.Resolved(look, ref, id)
    ensures incomplete == {} && t.Named(look) && Stable(look, ref) ==> Unblocked(look, ref)
  {
    if incomplete == {} && t.Named(look) && Stable(look, ref) { CompleteIsUnblocked(look, t, ref, id); }
  }

  /** What loading does to the table.  It fails exactly if the reference, or the next
      dependency of one of the elements instantiated for it, is neither the name of
      an instantiated element nor of the right format; and the element that it
      failed to load stays behind under its name, without all of its dependencies. */
  ghost predicate Loads(look: Lookup, t: Table, t': Table, incomplete: set<nat>, ref: string, r: Option<nat>) {
    && t'.Extends(t)
    && (r.Some? ==> t'.Valid(look, incomplete) && t'.Resolved(look, ref, r.value))
    && (r.None? ==> t'.Valid(look, incomplete + Numbers(|t.elements|, |t'.elements|)))
    && (look(ref).None? ==> t' == t)
    && (r.None? <==> ref !in t.interned && (look(ref).None? || t'.StuckSince(look, |t.elements|)))
    && (r.None? && look(ref).Some? ==>
          var name := look(ref).value.name;
          name !in t.interned && name in t'.interned && t'.Incomplete(t'.interned[name]))
  }

  /** What adding the dependencies of element id does to the table. */
  ghost predicate AddsAll(look: Lookup, t: Table, t': Table, incomplete: set<nat>, id: nat, loaded: bool) {
    && id < |t.elements| && id < |t'.elements|
    && t'.Extends(WithDependencies(t, id, t'.elements[id].deps))
    && (loaded ==> t'.Valid(look, incomplete))
    && (!loaded ==> t'.Valid(look, incomplete + Numbers(id, |t'.elements|)))
    && (!loaded ==> t'.Incomplete(id) && t'.StuckSince(look, id))
  }

  /** The element is added before its dependencies are. */
  lemma Begins(look: Lookup, t: Table, incomplete: set<nat>, ref: string, names: set<string>)
    requires t.Valid(look, incomplete) && Covers(look, names) && look(ref).Some?
    requires look(ref).value.name !in t.interned
    ensures var Instance(name, refs) := look(ref).value;
      && WithElement(t, name, refs).Valid(look, incomplete + {|t.elements|})
      && (forall i :: 0 <= i < |refs| ==> LeadsInto(look, refs[i], names))
      && (Unblocked(look, ref) ==> AllUnblocked(look, refs))
      && (Stable(look, ref) ==> AllStable(look, refs))
      && (Stable(look, ref) && t.Named(look) ==> WithElement(t, name, refs).Named(look))
  {
    var Instance(name, refs) := look(ref).value;
    AddsElement(look, t, incomplete, ref, name, refs);
    RestOfChain(look, ref);
    if Stable(look, ref) && t.Named(look) { NamedGrows(look, t, ref); }
  }

  lemma LoadingExtends(look: Lookup, t: Table, t': Table, name: string, refs: seq<string>)
    requires name !in t.interned && |t.elements| < |t'.elements|
    requires t'.Extends(WithDependencies(WithElement(t, name, refs), |t.elements|, t'.elements[|t.elements|].deps))
    ensures t'.Extends(t) && name in t'.interned && t'.interned[name] == |t.elements|
    ensures t'.elements[|t.elements|].name == name
  {
    var id := |t.elements|;
    var added := WithDependencies(WithElement(t, name, refs), id, t'.elements[id].deps);
    assert t'.elements[..id + 1] == added.elements;
    assert t'.elements[..id] == t'.elements[..id + 1][..id] == t.elements;
    assert t'.elements[id] == t'.elements[..id + 1][id];
    assert name in added.interned;
  }

  lemma LoadingFails(look: Lookup, t: Table, t': Table, incomplete: set<nat>, ref: string)
    requires look(ref).Some?
    requires ref !in t.interned && look(ref).value.name !in t.interned
    requires var Instance(name, refs) := look(ref).value;
      AddsAll(look, WithElement(t, name, refs), t', incomplete, |t.elements|, false)
    ensures Loads(look, t, t', incomplete, ref, None)
  {
    var Instance(name, refs) := look(ref).value;
    LoadingExtends(look, t, t', name, refs);
  }

  lemma LoadingSucceeds(look: Lookup, t: Table, t': Table, incomplete: set<nat>, ref: string)
    requires look(ref).Some?
    requires ref !in t.interned && look(ref).value.name !in t.interned
    requires var Instance(name, refs) := look(ref).value;
      AddsAll(look, WithElement(t, name, refs), t', incomplete, |t.elements|, true)
    requires forall id :: id in incomplete ==> id < |t.elements|
    ensures Loads(look, t, t', incomplete, ref, Some(|t.elements|))
    ensures incomplete == {} && t'.Named(look) && Stable(look, ref) ==> Unblocked(look, ref)
  {
    var Instance(name, refs) := look(ref).value;
    LoadingExtends(look, t, t', name, refs);
    NoneStuck(look, t', incomplete, |t.elements|);
    LoadedMeans(look, t', incomplete, ref, |t.elements|);
  }

  /** The first i references of element id are loaded. */
  ghost predicate LoadedSoFar(look: Lookup, t: Table, t': Table, incomplete: set<nat>, id: nat, refs: seq<string>,
                              i: nat) {
    && t'.Valid(look, incomplete + {id})
    && id < |t.elements| <= |t'.elements| && t'.Extends(WithDependencies(t, id, t'.elements[id].deps))
    && |t'.elements[id].deps| == i && t'.elements[id].refs == refs
  }

  lemma LinksOn(look: Lookup, t: Table, before: Table, after: Table, incomplete: set<nat>, id: nat, refs: seq<string>,
                i: nat, d: nat)
    requires LoadedSoFar(look, t, before, incomplete, id, refs, i) && i < |refs|
    requires Loads(look, before, after, incomplete + {id}, refs[i], Some(d))
    ensures id < |after.elements|
    ensures var t' := WithDependencies(after, id, after.elements[id].deps + [d]);
      LoadedSoFar(look, t, t', incomplete, id, refs, i + 1) && (after.Named(look) ==> t'.Named(look))
  {
    ExtendsLater(t, before, after, id);
    AddsDependency(look, after, incomplete + {id}, id, d);
    if after.Named(look) { NamedStays(look, after, WithDependencies(after, id, after.elements[id].deps + [d])); }
  }

  lemma Fails(look: Lookup, t: Table, before: Table, after: Table, incomplete: set<nat>, id: nat, refs: seq<string>,
              i: nat)
    requires LoadedSoFar(look, t, before, incomplete, id, refs, i) && i < |refs|
    requires Loads(look, before, after, incomplete + {id}, refs[i], None)
    ensures AddsAll(look, t, after, incomplete, id, false)
  {
    ExtendsLater(t, before, after, id);
    LessComplete(look, after, incomplete + {id} + Numbers(|before.elements|, |after.elements|),
                 incomplete + Numbers(id, |after.elements|));
    GetsStuck(look, before, after, id);
  }

  class Loader {
    const look: Lookup
    var table: Table

    constructor(store: Store)
      ensures look == LookupIn(store) && table == Table(map[], [])
      ensures table.Valid(look, {}) && table.Named(look)
    {
      look, table := LookupIn(store), Table(map[], []);
    }

    /** Instantiates the element behind a reference, and what it depends on, unless
        that was done before.  It succeeds if no reference of the wrong format is on
        the way; if everything instantiated before is complete, and names are what
        references to the same artifacts lead to, only then. */
    method NewFromArtifactName(ref: string, ghost names: set<string>, ghost incomplete: set<nat>)
      returns (r: Option<nat>)
      requires table.Valid(look, incomplete) && Covers(look, names) && LeadsInto(look, ref, names)
      requires forall id :: id in incomplete ==> id < |table.elements|
      modifies this
      ensures Loads(look, old(table), table, incomplete, ref, r)
      ensures Unblocked(look, ref) ==> r.Some?
      ensures Stable(look, ref) && old(table).Named(look) ==> table.Named(look)
      ensures incomplete == {} && Stable(look, ref) && old(table).Named(look) ==>
        (r.Some? <==> Unblocked(look, ref))
      decreases names - table.interned.Keys, 0
    {
      FirstOfChain(look, ref);
      if ref in table.interned {
        r := Some(table.interned[ref]);
        LoadedMeans(look, table, incomplete, ref, r.value);
        return;
      }
      var instance := look(ref);
      if instance.None? {
        LessComplete(look, table, incomplete, incomplete + Numbers(|table.elements|, |table.elements|));
        return None;
      }
      var name, refs := instance.value.name, instance.value.refs;
      // Another key of the same artifact, then
      if name in table.interned {
        r := Some(table.interned[name]);
        LoadedMeans(look, table, incomplete, ref, r.value);
        return;
      }

      Begins(look, table, incomplete, ref, names);
      var id := |table.elements|;
      table := WithElement(table, name, refs);
      assert name in names && name in table.interned;
      var loaded := AddDependencies(id, refs, names, incomplete);
      if !loaded {
        LoadingFails(look, old(table), table, incomplete, ref);
        return None;
      }
      LoadingSucceeds(look, old(table), table, incomplete, ref);
      return Some(id);
    }

    /** Loads what an element depends on, in order, up to the first failure. */
    method AddDependencies(id: nat, refs: seq<string>, ghost names: set<string>, ghost incomplete: set<nat>)
      returns (loaded: bool)
      requires Covers(look, names) && forall i :: 0 <= i < |refs| ==> LeadsInto(look, refs[i], names)
      requires id < |table.elements| && table.elements[id].deps == [] && table.elements[id].refs == refs
      requires table.Valid(look, incomplete + {id})
      requires forall x :: x in incomplete ==> x < |table.elements|
      modifies this
      ensures AddsAll(look, old(table), table, incomplete, id, loaded)
      ensures AllUnblocked(look, refs) ==> loaded
      ensures AllStable(look, refs) && old(table).Named(look) ==> table.Named(look)
      decreases names - table.interned.Keys, 1
    {
      for i := 0 to |refs|
        invariant LoadedSoFar(look, old(table), table, incomplete, id, refs, i)
        invariant AllStable(look, refs) && old(table).Named(look) ==> table.Named(look)
      {
        ghost var before := table;
        var d := NewFromArtifactName(refs[i], names, incomplete + {id});
        if d.None? {
          Fails(look, old(table), before, table, incomplete, id, refs, i);
          return false;
        }
        LinksOn(look, old(table), before, table, incomplete, id, refs, i, d.value);
        table := WithDependencies(table, id, table.elements[id].deps + [d.value]);
      }
      Completes(look, table, incomplete, id);
      return true;
    }
  }

  /** A dependency recorded without a key. */
  const KEY: Key := seq(64, _ => '0')
  const KEYLESS: Store := map["p/e/" + KEY := Proto(KEY, [BuildDep("q", "f", "")])]

  /** Loading the same artifact again does not fail, and finds the element without
      its dependency. */
  method FailsThenLoads() returns (first: Option<nat>, second: Option<nat>, element: Element)
    ensures first.None? && second.Some?
    ensures element == Element("p/e/" + KEY, [DependencyRef("q", "f", "")], [])
  {
    ghost var names := NamesOf(KEYLESS) + {"p/e/" + KEY};
    NamesCover(KEYLESS, names);
    KeylessLeads();
    var loader := new Loader(KEYLESS);
    first, second, element := LoadTwice(loader, "p/e/" + KEY, DependencyRef("q", "f", ""), names);
  }

  /** An artifact with one dependency, which is of the wrong format; nothing goes by
      the name of either. */
  ghost predicate Leads(look: Lookup, name: string, next: string) {
    && look(name) == Some(Instance(name, [next])) && look(next).None?
    && forall ref {:trigger look(ref)} :: look(ref).Some? ==>
         look(ref).value.name != next && (look(ref).value.name == name ==> look(ref).value.refs == [next])
  }

  /** Loads the same artifact once more. */
  method LoadTwice(loader: Loader, name: string, ghost next: string, ghost names: set<string>)
    returns (first: Option<nat>, second: Option<nat>, element: Element)
    requires loader.table == Table(map[], []) && Covers(loader.look, names) && name in names
    requires Leads(loader.look, name, next)
    modifies loader
    ensures first.None? && second.Some? && element == Element(name, [next], [])
  {
    BlockedAtOnce(loader.look, name, next);
    first := loader.NewFromArtifactName(name, names, {});
    ghost var incomplete := {} + Numbers(0, |loader.table.elements|);
    second := loader.NewFromArtifactName(name, names, incomplete);
    LeadsNowhere(loader.look, loader.table, name, next, second.value, incomplete);
    element := loader.table.elements[second.value];
  }

  lemma LeadsNowhere(look: Lookup, t: Table, name: string, next: string, id: nat, incomplete: set<nat>)
    requires Leads(look, name, next) && t.Valid(look, incomplete) && t.Resolved(look, name, id)
    ensures t.elements[id] == Element(name, [next], [])
  {
    var _ := InstantiatedFrom(look, t, incomplete, id);
    if t.elements[id].deps != [] {
      var d := t.elements[id].deps[0];
      assert t.Resolved(look, t.elements[id].refs[0], d);
      var _ := InstantiatedFrom(look, t, incomplete, d);
    }
  }

  lemma InstantiatedFrom(look: Lookup, t: Table, incomplete: set<nat>, id: nat) returns (ref: string)
    requires t.Valid(look, incomplete) && id < |t.elements|
    ensures look(ref) == Some(Instance(t.elements[id].name, t.elements[id].refs))
    ensures t.Linked(look, t.elements[id])
    ensures id !in incomplete ==> |t.elements[id].deps| == |t.elements[id].refs|
  {
    assert t.ValidAt(look, id, incomplete);
    ref :| look(ref) == Some(Instance(t.elements[id].name, t.elements[id].refs));
  }

  /** Its reference is blocked, although it is one that leads to a name for itself. */
  lemma BlockedAtOnce(look: Lookup, name: string, next: string)
    requires look(name) == Some(Instance(name, [next])) && look(next).None?
    ensures Stable(look, name) && !Unblocked(look, name)
  {
    var blocked := [name, next];
    assert blocked[1..] == [next] && Chain(look, next, [next]) && Chain(look, name, blocked);
    forall p | Chain(look, name, p) ensures SelfNamed(look, p[|p| - 1]) {
      if |p| > 1 {
        assert Chain(look, next, p[1..]);
        assert |p[1..]| == 1;
      }
    }
  }

  lemma KeylessReference()
    ensures DependencyRef("q", "f", "") == "q/f/" && VerifyRef("q/f/").None?
  {
    UnslashedStaysPut("f");
    FirstSlashAfter("q", "f/");
    FirstSlashAfter("f", "");
    assert "q" + "/" + "f/" == "q/f/" && "f" + "/" + "" == "f/" && "q/f/"[2..] == "f/" && "f/"[2..] == "";
  }

  lemma KeylessName()
    ensures VerifyRef("p/e/" + KEY) == Some(Ref("p", "e", KEY))
    ensures ComposeName("p", NormalName("e"), KEY) == "p/e/" + KEY
  {
    assert "p" + "/" + "e" + "/" + KEY == "p/e/" + KEY;
    VerifyComposed("p", "e", KEY);
    UnslashedStaysPut("e");
    assert Rewritten("e") == "e";
  }

  /** Whatever is instantiated has a long name. */
  lemma KeylessInstance(ref: string)
    requires Instantiate(KEYLESS, ref).Some?
    ensures |Instantiate(KEYLESS, ref).value.name| >= 64
    ensures Instantiate(KEYLESS, ref).value.name == "p/e/" + KEY ==>
      Instantiate(KEYLESS, ref).value.refs == [DependencyRef("q", "f", "")]
  {
    assert DependencyNames(KEYLESS["p/e/" + KEY]) == [DependencyRef("q", "f", "")];
  }

  lemma KeylessLeads()
    ensures Leads(LookupIn(KEYLESS), "p/e/" + KEY, DependencyRef("q", "f", ""))
  {
    KeylessName();
    KeylessReference();
    var name, next, look := "p/e/" + KEY, DependencyRef("q", "f", ""), LookupIn(KEYLESS);
    assert look(name) == Some(Instance(name, [next])) by { KeylessInstance(name); }
    assert |next| == 4;
    forall ref | look(ref).Some?
      ensures look(ref).value.name != next && (look(ref).value.name == name ==> look(ref).value.refs == [next])
    {
      KeylessInstance(ref);
    }
  }
}
