/** The local artifact cache: refs name artifact protos, and a content addressed
    store holds the blobs that protos name.  Refs are written before blobs
    arrive, so a ref alone does not make an artifact cached. */
module ArtifactStore {
  import opened Wrappers

  import opened Graphs
  import opened CacheKeys

  type Digest = nat

  /** The artifact proto, as far as the cache looks into it.  `extras` are the
      buildtree, sources, buildroot and subsandboxes, `meta` the metadata and logs. */
  datatype Proto = Proto(
    strong: Key,
    strict: Key,
    weak: Key,
    files: Option<Digest>,
    extras: seq<Digest>,
    meta: seq<Digest>,
    publicData: Option<Digest>
  ) {
    function Keys(): set<Key> { {strong, strict, weak} }

    /** The blobs that are fetched after the files. */
    function Blobs(): set<Digest> {
      Elements(meta) + if publicData.Some? then {publicData.value} else {}
    }
  }

  datatype Name = Name(element: Id, key: Key)

  /** What blobs mean: the proto in a blob, and the blobs of a directory tree; and what
      a digest that is not set is taken for. */
  datatype Content = Content(proto: Digest -> Proto, tree: Digest -> set<Digest>, blank: Digest) {
    function Files(proto: Proto): set<Digest> {
      if proto.files.Some? then tree(proto.files.value) else {}
    }

    /** What makes an artifact cached: its files, metadata, public data and logs. */
    function Essential(proto: Proto): set<Digest> {
      Files(proto) + proto.Blobs()
    }

    /** What is looked for to tell whether it is: public data even if there is none. */
    function Queried(proto: Proto): set<Digest> {
      Files(proto) + Elements(proto.meta) + {if proto.publicData.Some? then proto.publicData.value else blank}
    }
  }

  /** How fetching blobs from a storage remote ends, and what arrived before. */
  datatype Fetch = Done | BlobMissing(got: set<Digest>) | RemoteFailed(got: set<Digest>) | CacheFailed(got: set<Digest>)

  /** What a storage remote will do when asked for one artifact, and whether the ref can
      be written to a local file in between. */
  datatype Storage = Storage(proto: Fetch, written: bool, files: Fetch, extras: Fetch, meta: Fetch)

  /** What an index remote answers about a name. */
  datatype Answer = Found(digest: Digest) | Unknown | AnswerFailed

  datatype Pulled = PullDone | NotAvailable | PullFailed

  /** What the first index remote that knows a name says it is. */
  function FirstFound(index: seq<Answer>): (r: Option<Digest>)
    ensures r.Some? <==> exists i :: 0 <= i < |index| && index[i].Found?
    ensures r.Some? ==>
      exists i :: 0 <= i < |index| && index[i] == Found(r.value) && forall j :: 0 <= j < i ==> !index[j].Found?
  {
    if index == [] then None
    else if index[0].Found? then Some(index[0].digest)
    else
      var r := FirstFound(index[1..]);
      assert r.Some? ==> exists i ::
        && 0 <= i < |index| - 1 && index[1..][i] == index[i + 1] == Found(r.value)
        && forall j :: 0 <= j < i ==> !index[1..][j].Found?;
      assert forall i :: 0 < i < |index| ==> index[i] == index[1..][i - 1];
      r
  }

  /** How pulling one artifact from one storage remote ends. */
  function Ends(proto: Proto, remote: Storage, pullBuildtrees: bool): Fetch {
    if !remote.proto.Done? then remote.proto
    else if !remote.written then RemoteFailed({})
    else if proto.files.Some? && !remote.files.Done? then remote.files
    else if pullBuildtrees && proto.extras != [] && !remote.extras.Done? then remote.extras
    else remote.meta
  }

  /** The attempt ends with the first thing that does not arrive: the proto, the files if
      there are any, what else is asked for and there, the metadata and logs. */
  lemma EndsMeans(proto: Proto, remote: Storage, pullBuildtrees: bool)
    ensures var r := Ends(proto, remote, pullBuildtrees);
      var hasFiles, hasExtras := proto.files.Some?, pullBuildtrees && proto.extras != [];
      var before := remote.proto.Done? && remote.written;
      && (r.Done? <==>
            && before && (hasFiles ==> remote.files.Done?) && (hasExtras ==> remote.extras.Done?)
            && remote.meta.Done?)
      && (!remote.proto.Done? ==> r == remote.proto)
      && (remote.proto.Done? && !remote.written ==> r.RemoteFailed?)
      && (before && hasFiles && !remote.files.Done? ==> r == remote.files)
      && (before && (hasFiles ==> remote.files.Done?) && hasExtras && !remote.extras.Done? ==> r == remote.extras)
      && (before && (hasFiles ==> remote.files.Done?) && (hasExtras ==> remote.extras.Done?) ==> r == remote.meta)
  { }

  /** What lacks a blob is passed by: an artifact that a remote has in full is pulled,
      whatever blobs the remotes before it lack. */
  lemma MissingIsPassedBy(proto: Proto, storage: seq<Storage>, i: nat, pullBuildtrees: bool)
    requires i < |storage| && forall j :: 0 <= j < i ==> storage[j].proto.BlobMissing? || storage[j].proto.CacheFailed?
    requires storage[i].proto.Done? && storage[i].written && storage[i].files.Done? && storage[i].extras.Done?
    requires storage[i].meta.Done?
    ensures ReachesDone(proto, storage, pullBuildtrees)
  {
    EndsMeans(proto, storage[i], pullBuildtrees);
    forall j | 0 <= j < i ensures !Ends(proto, storage[j], pullBuildtrees).RemoteFailed? {
      EndsMeans(proto, storage[j], pullBuildtrees);
    }
  }

  ghost predicate ReachesDone(proto: Proto, storage: seq<Storage>, pullBuildtrees: bool) {
    exists i :: 0 <= i < |storage| && Ends(proto, storage[i], pullBuildtrees).Done?
      && forall j :: 0 <= j < i ==> !Ends(proto, storage[j], pullBuildtrees).RemoteFailed?
  }

  ghost predicate SomeFails(proto: Proto, storage: seq<Storage>, pullBuildtrees: bool) {
    exists i :: 0 <= i < |storage|
      && (Ends(proto, storage[i], pullBuildtrees).RemoteFailed? || Ends(proto, storage[i], pullBuildtrees).CacheFailed?)
  }

  ghost predicate HonestRefs(refs: map<Name, Proto>) {
    forall name {:trigger name in refs} :: name in refs ==> name.key in refs[name].Keys()
  }

  /** Linking keys to an artifact keeps refs honest exactly if they are its own. */
  lemma HonestLinks(refs: map<Name, Proto>, refs': map<Name, Proto>, element: Id, key: Key, keys: Keys)
    requires HonestRefs(refs) && Name(element, key) in refs
    requires var proto := refs[Name(element, key)];
      refs' == refs[Name(element, keys.strong) := proto][Name(element, keys.strict) := proto]
                   [Name(element, keys.weak) := proto]
    ensures HonestRefs(refs') <==> keys.All() <= refs[Name(element, key)].Keys()
  {
    if HonestRefs(refs') {
      assert Name(element, keys.strong) in refs' && Name(element, keys.strict) in refs';
      assert Name(element, keys.weak) in refs';
    }
  }

  datatype Keys = Keys(strong: Key, strict: Key, weak: Key) {
    function All(): set<Key> { {strong, strict, weak} }
  }

  /** Complete is: all files, metadata and logs, and the public data if there is any. */
  lemma EssentialMeans(content: Content, proto: Proto, blobs: set<Digest>)
    ensures content.Essential(proto) <= blobs <==>
      && (proto.files.Some? ==> content.tree(proto.files.value) <= blobs)
      && (forall d :: d in proto.meta ==> d in blobs)
      && (proto.publicData.Some? ==> proto.publicData.value in blobs)
  {
    assert forall d :: d in proto.meta <==> d in Elements(proto.meta);
    if content.Essential(proto) <= blobs {
      assert content.Files(proto) <= content.Essential(proto) && proto.Blobs() <= content.Essential(proto);
      assert forall d :: d in proto.meta ==> d in proto.Blobs();
      assert proto.publicData.Some? ==> proto.publicData.value in proto.Blobs();
    }
  }

  /** An artifact that is complete is found to be, unless it has no public data. */
  lemma CompleteIsFound(content: Content, proto: Proto, blobs: set<Digest>)
    requires content.Essential(proto) <= blobs
    ensures content.Queried(proto) <= blobs <==> proto.publicData.Some? || content.blank in blobs
  {
    if content.Queried(proto) <= blobs && proto.publicData.None? { assert content.blank in content.Queried(proto); }
  }

  class ArtifactCache {
    const content: Content
    var refs: map<Name, Proto>
    var blobs: set<Digest>

    constructor(content: Content)
      ensures this.content == content && refs == map[] && blobs == {} && Honest()
    {
      this.content, refs, blobs := content, map[], {};
    }

    /** Each ref names its artifact by one of the artifact's keys. */
    ghost predicate Honest()
      reads this
    {
      HonestRefs(refs)
    }

    predicate Complete(proto: Proto)
      reads this
    {
      content.Essential(proto) <= blobs
    }

    // ---------------------------------------------------------------- pulling

    /** Blobs arrive, some of them even if the fetch fails. */
    method FetchBlobs(wanted: set<Digest>, fetch: Fetch) returns (ok: bool)
      modifies `blobs
      ensures ok == fetch.Done? && blobs >= old(blobs) && (ok ==> wanted <= blobs)
    {
      if fetch.Done? {
        blobs := blobs + wanted;
        return true;
      }
      blobs := blobs + fetch.got;
      return false;
    }

    /** Pulls one artifact from one storage remote.  The ref is written as soon as
        the proto is there. */
    method PullArtifactStorage(name: Name, digest: Digest, remote: Storage, pullBuildtrees: bool) returns (r: Fetch)
      requires Honest() && name.key in content.proto(digest).Keys()
      modifies this
      ensures Honest() && blobs >= old(blobs)
      ensures r == Ends(content.proto(digest), remote, pullBuildtrees)
      ensures refs ==
        if remote.proto.Done? && remote.written then old(refs)[name := content.proto(digest)] else old(refs)
      ensures r.Done? ==> refs == old(refs)[name := content.proto(digest)] && Complete(content.proto(digest))
      ensures r.Done? && pullBuildtrees ==> forall d :: d in content.proto(digest).extras ==> content.tree(d) <= blobs
    {
      var ok := FetchBlobs({digest}, remote.proto);
      if !ok { return remote.proto; }
      var proto := content.proto(digest);
      if !remote.written { return RemoteFailed({}); }
      refs := refs[name := proto];
      if proto.files.Some? {
        ok := FetchBlobs(content.tree(proto.files.value), remote.files);
        if !ok { return remote.files; }
      }
      if pullBuildtrees {
        for i := 0 to |proto.extras|
          invariant Honest() && refs == old(refs)[name := proto] && blobs >= old(blobs) && content.Files(proto) <= blobs
          invariant (forall j :: 0 <= j < i ==> content.tree(proto.extras[j]) <= blobs)
          invariant (i > 0 ==> remote.extras.Done?)
        {
          ok := FetchBlobs(content.tree(proto.extras[i]), remote.extras);
          if !ok { return remote.extras; }
        }
      }
      ok := FetchBlobs(proto.Blobs(), remote.meta);
      return if ok then Done else remote.meta;
    }

    /** The first index remote that knows the name decides which artifact it is;
        an error counts only if none knows it. */
    static method FindDigest(index: seq<Answer>) returns (digest: Option<Digest>, failed: bool)
      ensures digest == FirstFound(index)
      ensures digest.None? ==> (failed <==> exists i :: 0 <= i < |index| && index[i].AnswerFailed?)
    {
      failed := false;
      for i := 0 to |index|
        invariant forall j :: 0 <= j < i ==> !index[j].Found?
        invariant failed <==> exists j :: 0 <= j < i && index[j].AnswerFailed?
      {
        match index[i]
        case Found(d) => return Some(d), failed;
        case AnswerFailed => failed := true;
        case Unknown =>
      }
      return None, failed;
    }

    /** Pulls an artifact: storage remotes are tried in turn while blobs are missing
        or the local cache fails; an error of a remote ends the attempt. */
    method Pull(name: Name, index: seq<Answer>, storage: seq<Storage>, pullBuildtrees: bool) returns (r: Pulled)
      requires Honest()
      requires forall i :: 0 <= i < |index| && index[i].Found? ==> name.key in content.proto(index[i].digest).Keys()
      modifies this
      ensures Honest() && blobs >= old(blobs)
      // the only ref that may change, whatever happens
      ensures refs == old(refs) ||
        (FirstFound(index).Some? && refs == old(refs)[name := content.proto(FirstFound(index).value)])
      // nobody knows the artifact
      ensures FirstFound(index).None? ==> refs == old(refs) && blobs == old(blobs) && !r.PullDone?
      ensures FirstFound(index).None? ==>
        (r.PullFailed? <==> exists i :: 0 <= i < |index| && index[i].AnswerFailed?)
      // the pull is done exactly if some remote has it all, and none before it fails
      ensures FirstFound(index).Some? ==>
        (r.PullDone? <==> ReachesDone(content.proto(FirstFound(index).value), storage, pullBuildtrees))
      ensures FirstFound(index).Some? && !r.PullDone? ==>
        (r.PullFailed? <==> SomeFails(content.proto(FirstFound(index).value), storage, pullBuildtrees))
      ensures r.PullDone? ==>
        name in refs && refs[name] == content.proto(FirstFound(index).value) && Complete(refs[name])
      ensures r.PullDone? && pullBuildtrees ==> forall d :: d in refs[name].extras ==> content.tree(d) <= blobs
    {
      var digest, failed := FindDigest(index);
      if failed && digest.None? { return PullFailed; }
      if digest.None? { return NotAvailable; }
      failed := false;
      for i := 0 to |storage|
        invariant Honest() && blobs >= old(blobs)
        invariant refs == old(refs) || refs == old(refs)[name := content.proto(digest.value)]
        invariant forall j :: 0 <= j < i ==>
          var e := Ends(content.proto(digest.value), storage[j], pullBuildtrees); e.BlobMissing? || e.CacheFailed?
        invariant failed <==>
          exists j :: 0 <= j < i && Ends(content.proto(digest.value), storage[j], pullBuildtrees).CacheFailed?
      {
        var fetch := PullArtifactStorage(name, digest.value, storage[i], pullBuildtrees);
        match fetch
        case Done => return PullDone;
        case BlobMissing(_) =>
        case RemoteFailed(_) => return PullFailed;
        case CacheFailed(_) => failed := true;
      }
      return if failed then PullFailed else NotAvailable;
    }

    // ---------------------------------------------------------------- refs

    /** Another key for an existing artifact, supposed to be one of its own. */
    method LinkKey(element: Id, oldKey: Key, newKey: Key)
      requires Name(element, oldKey) in refs
      modifies `refs
      ensures refs == old(refs)[Name(element, newKey) := old(refs)[Name(element, oldKey)]]
      ensures old(Honest()) ==> (Honest() <==> newKey in refs[Name(element, newKey)].Keys())
    {
      if oldKey == newKey {
        assert Name(element, oldKey) in refs;
        return;
      }
      refs := refs[Name(element, newKey) := refs[Name(element, oldKey)]];
    }

    method LinkKeys(element: Id, oldKey: Key, keys: Keys)
      requires Honest() && Name(element, oldKey) in refs
      modifies `refs
      ensures Honest() <==> keys.All() <= old(refs)[Name(element, oldKey)].Keys()
      ensures forall key :: key in keys.All() ==>
        Name(element, key) in refs && refs[Name(element, key)] == old(refs)[Name(element, oldKey)]
      ensures forall name: Name :: name.element != element ==>
        && (name in refs <==> name in old(refs))
        && (name in refs ==> refs[name] == old(refs)[name])
    {
      LinkKey(element, oldKey, keys.strong);
      LinkKey(element, oldKey, keys.strict);
      LinkKey(element, oldKey, keys.weak);
      HonestLinks(old(refs), refs, element, oldKey, keys);
    }

    method Remove(name: Name) returns (found: bool)
      requires Honest()
      modifies `refs
      ensures Honest() && refs == old(refs) - {name} && found == (name in old(refs))
    {
      found := name in refs;
      refs := refs - {name};
    }
  }

  /** The artifact object of one element. */
  class Artifact {
    const cache: ArtifactCache
    const element: Id
    const strictKey: Option<Key>
    const weakKey: Option<Key>
    var strongKey: Option<Key>
    var proto: Option<Proto>
    var cached: Option<bool>
    var remembered: Option<Keys>  // the keys that were read first

    constructor(cache: ArtifactCache, element: Id, strongKey: Option<Key>, strictKey: Option<Key>, weakKey: Option<Key>)
      ensures this.cache == cache && this.element == element && this.strongKey == strongKey
      ensures this.strictKey == strictKey
      ensures this.weakKey == weakKey && proto == None && cached == None && remembered == None && Valid()
    {
      this.cache, this.element := cache, element;
      this.strongKey, this.strictKey, this.weakKey := strongKey, strictKey, weakKey;
      proto, cached, remembered := None, None, None;
    }

    /** An artifact that reports cached is: everything essential is local. */
    ghost predicate Valid()
      reads this, cache
    {
      cached == Some(true) ==> proto.Some? && cache.Complete(proto.value)
    }

    function ExtractKey(): Option<Key>
      reads this
    {
      if Truthy(strongKey) then strongKey else weakKey
    }

    method QueryCache() returns (b: bool)
      requires ExtractKey().Some?
      modifies this`proto, this`cached
      ensures Valid() && cached == Some(b)
      ensures var name := Name(element, ExtractKey().value);
        b <==> name in cache.refs && cache.content.Queried(cache.refs[name]) <= cache.blobs
      // the strong key if there is one, and otherwise the weak key
      ensures var key := if strongKey.Some? && strongKey.value != "" then strongKey else weakKey;
        && key.Some?
        && var name := Name(element, key.value);
        && (b <==>
              && name in cache.refs
              && (cache.refs[name].files.Some? ==> cache.content.tree(cache.refs[name].files.value) <= cache.blobs)
              && (forall d :: d in cache.refs[name].meta ==> d in cache.blobs)
              && (if cache.refs[name].publicData.Some? then cache.refs[name].publicData.value
                  else cache.content.blank) in cache.blobs)
        && (b ==> proto == Some(cache.refs[name]))
      ensures b ==> proto == Some(cache.refs[Name(element, ExtractKey().value)])
    {
      var name := Name(element, ExtractKey().value);
      if name !in cache.refs {
        cached := Some(false);
        return false;
      }
      var artifact := cache.refs[name];
      if artifact.files.Some? && !(cache.content.tree(artifact.files.value) <= cache.blobs) {
        cached := Some(false);
        return false;
      }
      var publicData := if artifact.publicData.Some? then artifact.publicData.value else cache.content.blank;
      assert forall d :: d in artifact.meta <==> d in Elements(artifact.meta);
      if !(Elements(artifact.meta) + {publicData} <= cache.blobs) {
        cached := Some(false);
        return false;
      }
      proto, cached := Some(artifact), Some(true);
      return true;
    }

    /** Taken at the caller's word. */
    method SetCached()
      requires ExtractKey().Some? && Name(element, ExtractKey().value) in cache.refs
      requires cache.Complete(cache.refs[Name(element, ExtractKey().value)])
      modifies this`proto, this`cached
      ensures Valid() && cached == Some(true) && proto == Some(cache.refs[Name(element, ExtractKey().value)])
    {
      proto, cached := Some(cache.refs[Name(element, ExtractKey().value)]), Some(true);
    }

    /** The keys of the artifact, as they were when they were first asked for. */
    method MetadataKeys() returns (keys: Keys)
      requires proto.Some? || remembered.Some?
      modifies this`remembered
      ensures remembered == Some(keys)
      ensures keys ==
        if old(remembered).Some? then old(remembered).value
        else Keys(proto.value.strong, proto.value.strict, proto.value.weak)
    {
      if remembered.None? { remembered := Some(Keys(proto.value.strong, proto.value.strict, proto.value.weak)); }
      return remembered.value;
    }

    /** Pulls the artifact, and then makes it known by its keys: by all of its own, if
        the object is a new one, and otherwise by those that it remembers, so that refs
        stay honest exactly if these are keys of the new artifact as well. */
    method Pull(index: seq<Answer>, storage: seq<Storage>, pullBuildtrees: bool) returns (r: Pulled)
      requires Valid() && cache.Honest() && ExtractKey().Some?
      requires forall i ::
        0 <= i < |index| && index[i].Found? ==> ExtractKey().value in cache.content.proto(index[i].digest).Keys()
      modifies this`proto, this`cached, this`remembered, cache
      ensures Valid() && cache.blobs >= old(cache.blobs)
      ensures r.PullDone? ==> cached == Some(true) && proto.Some? && ExtractKey().value in proto.value.Keys()
      ensures r.PullDone? ==> var key := if strongKey.Some? && strongKey.value != "" then strongKey else weakKey;
        key.Some? && key.value in proto.value.Keys()
      ensures r.PullDone? && old(remembered).None? ==> remembered.Some? && remembered.value.All() == proto.value.Keys()
      ensures r.PullDone? && old(remembered).Some? ==> remembered == old(remembered)
      ensures r.PullDone? ==> forall key :: key in remembered.value.All() ==>
        Name(element, key) in cache.refs && cache.refs[Name(element, key)] == proto.value
      ensures r.PullDone? ==> (cache.Honest() <==> remembered.value.All() <= proto.value.Keys())
      ensures !r.PullDone? ==> cache.Honest() && cached == old(cached) && proto == old(proto)
      ensures forall name: Name :: name.element != element ==>
        && (name in cache.refs <==> name in old(cache.refs))
        && (name in cache.refs ==> cache.refs[name] == old(cache.refs)[name])
    {
      var pullKey := ExtractKey().value;
      r := cache.Pull(Name(element, pullKey), index, storage, pullBuildtrees);
      if !r.PullDone? { return; }
      SetCached();
      var keys := MetadataKeys();
      cache.LinkKeys(element, pullKey, keys);
    }

    /** Stores what was built under the strong and the weak key: blobs first. */
    method Cache(files: Option<Digest>, extras: seq<Digest>, meta: seq<Digest>, publicData: Digest)
      requires Valid() && cache.Honest() && Truthy(strongKey) && strictKey.Some? && weakKey.Some?
      modifies cache
      ensures Valid() && cache.Honest() && cache.blobs >= old(cache.blobs)
      ensures var artifact := Proto(strongKey.value, strictKey.value, weakKey.value, files, extras, meta,
        Some(publicData));
        && cache.refs ==
             old(cache.refs)[Name(element, strongKey.value) := artifact][Name(element, weakKey.value) := artifact]
        && cache.Complete(artifact)
    {
      var artifact := Proto(strongKey.value, strictKey.value, weakKey.value, files, extras, meta,
        Some(publicData));
      cache.blobs := cache.blobs + cache.content.Essential(artifact);
      cache.refs := cache.refs[Name(element, strongKey.value) := artifact];
      if weakKey != strongKey { cache.refs := cache.refs[Name(element, weakKey.value) := artifact]; }
    }
  }

  // ---------------------------------------------------------------- runs

  /** What happens to the cache.  A pull names what each index remote answers for
      a key, and what each storage remote does. */
  datatype Operation =
    | Query(artifact: Artifact)
    | ReadKeys(artifact: Artifact)
    | Load(element: Id, strongKey: Option<Key>, strictKey: Option<Key>, weakKey: Option<Key>,
           index: Key -> seq<Answer>, storage: seq<Storage>, pullBuildtrees: bool)
    | Build(artifact: Artifact, files: Option<Digest>, extras: seq<Digest>, meta: seq<Digest>, publicData: Digest)
    | RemoveRef(name: Name)

  /** An index remote knows artifacts by their own keys only. */
  ghost predicate HonestIndex(content: Content, index: Key -> seq<Answer>) {
    forall key, i {:trigger index(key)[i]} ::
      0 <= i < |index(key)| && index(key)[i].Found? ==> key in content.proto(index(key)[i].digest).Keys()
  }

  ghost predicate Applies(cache: ArtifactCache, op: Operation) {
    op.Load? ==> HonestIndex(cache.content, op.index)
  }

  ghost predicate AllValid(cache: ArtifactCache, artifacts: set<Artifact>)
    reads cache, artifacts
  {
    forall a :: a in artifacts ==> a.cache == cache && a.Valid()
  }

  /** Through any run, every ref names its artifact by one of its keys, and every
      artifact that reports cached has all its essential blobs. */
  method Run(cache: ArtifactCache, artifacts: set<Artifact>, ops: seq<Operation>) returns (all: set<Artifact>)
    requires cache.Honest() && AllValid(cache, artifacts)
    requires forall i :: 0 <= i < |ops| ==> Applies(cache, ops[i])
    modifies cache, artifacts
    ensures cache.Honest() && AllValid(cache, all) && cache.blobs >= old(cache.blobs)
    ensures artifacts <= all && fresh(all - artifacts)
  {
    all := artifacts;
    for i := 0 to |ops|
      invariant cache.Honest() && AllValid(cache, all) && cache.blobs >= old(cache.blobs)
      invariant artifacts <= all && fresh(all - artifacts)
    {
      assert Applies(cache, ops[i]);
      all := Apply(cache, all, ops[i]);
    }
  }

  /** Every load works on a new object.  Operations on objects that there are not do
      nothing. */
  method Apply(cache: ArtifactCache, artifacts: set<Artifact>, op: Operation) returns (all: set<Artifact>)
    requires cache.Honest() && AllValid(cache, artifacts) && Applies(cache, op)
    modifies cache, artifacts
    ensures cache.Honest() && AllValid(cache, all) && cache.blobs >= old(cache.blobs)
    ensures artifacts <= all && fresh(all - artifacts)
  {
    all := artifacts;
    if !op.Load? && !op.RemoveRef? && op.artifact !in artifacts { return; }
    match op
    case Query(a) =>
      if a.ExtractKey().Some? { var found := a.QueryCache(); }
    case ReadKeys(a) =>
      if a.cached == Some(true) { var keys := a.MetadataKeys(); }
    case Load(element, strongKey, strictKey, weakKey, index, storage, pullBuildtrees) =>
      var a := new Artifact(cache, element, strongKey, strictKey, weakKey);
      if a.ExtractKey().Some? {
        var found := a.QueryCache();
        var pulled := a.Pull(index(a.ExtractKey().value), storage, pullBuildtrees);
      }
      all := all + {a};
    case Build(a, files, extras, meta, publicData) =>
      if Truthy(a.strongKey) && a.strictKey.Some? && a.weakKey.Some? {
        a.Cache(files, extras, meta, publicData);
        a.SetCached();
      }
    case RemoveRef(name) =>
      var found := cache.Remove(name);
  }
}
