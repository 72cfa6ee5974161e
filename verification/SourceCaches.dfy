/** The local source cache: staged sources by name, and the trees behind them. */
module SourceCaches {
  type Name = nat

  type Path = seq<string>

  /** A directory: its files by path. */
  type Tree = map<Path, string>

  /** What an index remote answers about a source, and a storage remote about its
      files. */
  datatype IndexAnswer = Known | Unknown | IndexFailed
  datatype StorageAnswer = Complete | Missing | StorageFailed

  datatype Status = Pulled | NotAvailable | Failed

  /** How pulling from storage remotes in turn ends. */
  function StorageStatus(storage: seq<StorageAnswer>): Status {
    if storage == [] then NotAvailable
    else match storage[0]
      case Complete => Pulled
      case Missing => StorageStatus(storage[1..])
      case StorageFailed => Failed
  }

  lemma {:induction false} StorageStatusMeans(storage: seq<StorageAnswer>)
    ensures StorageStatus(storage).Pulled? <==>
      exists i :: 0 <= i < |storage| && storage[i].Complete? && forall j :: 0 <= j < i ==> storage[j].Missing?
    ensures StorageStatus(storage).NotAvailable? <==> forall i :: 0 <= i < |storage| ==> storage[i].Missing?
  {
    if storage != [] {
      StorageStatusMeans(storage[1..]);
      assert forall i :: 0 < i < |storage| ==> storage[i] == storage[1..][i - 1];
      if storage[0].Missing? && StorageStatus(storage[1..]).Pulled? {
        var i :|
          0 <= i < |storage| - 1 && storage[1..][i].Complete? && forall j :: 0 <= j < i ==> storage[1..][j].Missing?;
        assert storage[i + 1].Complete? && forall j :: 0 <= j < i + 1 ==> storage[j].Missing?;
      }
      if i :| 0 <= i < |storage| && storage[i].Complete? && forall j :: 0 <= j < i ==> storage[j].Missing? {
        if i > 0 {
          assert storage[0].Missing? && storage[1..][i - 1].Complete?;
          assert forall j :: 0 <= j < i - 1 ==> storage[1..][j] == storage[j + 1];
        }
      }
    }
  }

  /** How a pull ends: all index remotes are asked, and the last answer counts. */
  function PullStatus(index: seq<IndexAnswer>, storage: seq<StorageAnswer>): Status {
    if exists i :: 0 <= i < |index| && index[i].IndexFailed? then Failed
    else if index != [] && index[|index| - 1].Known? then StorageStatus(storage)
    else NotAvailable
  }

  class SourceCache {
    const content: Name -> Tree  // what the source of each name consists of
    var protos: map<Name, Tree>
    var local: set<Tree>

    constructor(content: Name -> Tree)
      ensures this.content == content && protos == map[] && local == {} && Honest()
    {
      this.content, protos, local := content, map[], {};
    }

    ghost predicate Honest()
      reads this
    {
      forall name :: name in protos ==> protos[name] == content(name)
    }

    /** The name is known and all files are there. */
    predicate Contains(name: Name)
      reads this
    {
      name in protos && protos[name] in local
    }

    /** Nothing that was contained is lost. */
    twostate predicate Keeps()
      reads this
    {
      old(protos.Keys) <= protos.Keys && old(local) <= local
    }

    method Commit(name: Name, staged: Tree)
      requires Honest() && staged == content(name)
      modifies this
      ensures Honest() && Keeps() && Contains(name) && protos == old(protos)[name := staged]
    {
      local := local + {staged};
      protos := protos[name := staged];
    }

    method Export(name: Name) returns (tree: Tree)
      requires Honest() && Contains(name)
      ensures tree == content(name)
    {
      tree := protos[name];
    }

    /** The name is stored whenever one of them knows it, before any file arrives. */
    method Pull(name: Name, index: seq<IndexAnswer>, storage: seq<StorageAnswer>) returns (r: Status)
      requires Honest()
      modifies this
      ensures Honest() && Keeps() && (r.Pulled? ==> Contains(name))
      ensures r == PullStatus(index, storage)
      ensures (exists i :: 0 <= i < |index| && index[i].IndexFailed?) ==> r.Failed?
      ensures (forall i :: 0 <= i < |index| ==> !index[i].IndexFailed?) ==>
        r == if index != [] && index[|index| - 1].Known? then StorageStatus(storage) else NotAvailable
      ensures protos == old(protos) || protos == old(protos)[name := content(name)]
      ensures (forall i :: 0 <= i < |index| ==> !index[i].IndexFailed?) ==>
        (protos == old(protos)[name := content(name)] <==>
          (name in old(protos) || exists i :: 0 <= i < |index| && index[i].Known?))
    {
      var known := false;
      for i := 0 to |index|
        invariant Honest() && Keeps() && local == old(local)
        invariant forall j :: 0 <= j < i ==> !index[j].IndexFailed?
        invariant known <==> i > 0 && index[i - 1].Known?
        invariant protos == if exists j ::
          0 <= j < i && index[j].Known? then old(protos)[name := content(name)] else old(protos)
      {
        match index[i]
        case IndexFailed => return Failed;
        case Known =>
          protos := protos[name := content(name)];
          known := true;
        case Unknown => known := false;
      }
      assert old(Honest());
      if !known { return NotAvailable; }
      for i := 0 to |storage|
        invariant StorageStatus(storage) == StorageStatus(storage[i..])
      {
        match storage[i]
        case Complete =>
          local := local + {content(name)};
          return Pulled;
        case Missing => assert storage[i..][1..] == storage[i + 1..];
        case StorageFailed => return Failed;
      }
      return NotAvailable;
    }
  }

  /** A source that some index remote knows and some storage remote has in full is
      pulled exactly if the last index remote knows it too. */
  lemma LastIndexRemoteDecides(index: seq<IndexAnswer>, storage: seq<StorageAnswer>)
    requires forall i :: 0 <= i < |index| ==> !index[i].IndexFailed?
    requires exists i :: 0 <= i < |index| && index[i].Known?
    requires forall i :: 0 <= i < |storage| ==> !storage[i].StorageFailed?
    requires exists i :: 0 <= i < |storage| && storage[i].Complete?
    ensures PullStatus(index, storage).Pulled? <==> index[|index| - 1].Known?
  {
    StorageStatusMeans(storage);
    if StorageStatus(storage).Failed? { SomethingFailed(storage); }
  }

  /** A source that one index remote knows is not pulled, although the storage remote
      has all of it. */
  lemma KnownSourceIsNotPulled()
    ensures PullStatus([Known, Unknown], [Complete]) == NotAvailable
    ensures PullStatus([Unknown, Known], [Complete]) == Pulled
  {
    assert [Known, Unknown][1].Unknown? && [Unknown, Known][1].Known?;
  }

  lemma {:induction false} SomethingFailed(storage: seq<StorageAnswer>)
    requires StorageStatus(storage).Failed?
    ensures exists i :: 0 <= i < |storage| && storage[i].StorageFailed?
  {
    if !storage[0].StorageFailed? {
      SomethingFailed(storage[1..]);
      var i :| 0 <= i < |storage| - 1 && storage[1..][i].StorageFailed?;
      assert storage[i + 1].StorageFailed?;
    }
  }
}
