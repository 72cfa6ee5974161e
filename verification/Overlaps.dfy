/** Which staged files overwrite which others: overlaps within a staging session,
    and overlaps with files of earlier sessions. */
module Overlaps {
  import opened Wrappers

  import opened Graphs
  import opened ArtifactNames

  /** What staging one artifact did. */
  datatype Result = Result(written: seq<string>, overwritten: seq<string>, ignored: seq<string>)

  /** The files an element wrote, relative to the location of its session. */
  datatype Staged = Staged(id: Id, written: seq<string>)

  datatype Action = IGNORE | WARNING | ERROR

  predicate Relative(f: string) {
    f != "" && f[0] != '/'
  }

  /** The elements that wrote a file, in staging order. */
  function Writers(h: seq<Staged>, f: string): seq<Id> {
    if h == [] then []
    else
      var last := h[|h| - 1];
      Writers(h[..|h| - 1], f) + if f in last.written then [last.id] else []
  }

  function Ids(h: seq<Staged>): set<Id> {
    set s | s in h :: s.id
  }

  function Paths(location: string, h: seq<Staged>): set<string> {
    set s, f | s in h && f in s.written :: PathJoin(location, f)
  }

  lemma JoinIsInjective(location: string, f: string, g: string)
    requires Relative(f) && Relative(g) && PathJoin(location, f) == PathJoin(location, g)
    ensures f == g
  {
    var prefix := if location == "" || location[|location| - 1] == '/' then location else location + "/";
    assert PathJoin(location, f) == prefix + f && PathJoin(location, g) == prefix + g;
    assert f == (prefix + f)[|prefix|..] && g == (prefix + g)[|prefix|..];
  }

  lemma {:induction false} WritersWrote(h: seq<Staged>, f: string)
    ensures |Writers(h, f)| <= |h|
    ensures forall id :: id in Writers(h, f) <==> exists s :: s in h && s.id == id && f in s.written
  {
    if h != [] {
      WritersWrote(h[..|h| - 1], f);
      InitOrLast(h);
    }
  }

  /** p are the positions of what was staged and wrote f, in order, and `ws` its elements. */
  ghost predicate Wrote(h: seq<Staged>, f: string, ws: seq<Id>, p: seq<nat>) {
    && |p| == |ws|
    && (forall k :: 0 <= k < |p| ==> p[k] < |h| && f in h[p[k]].written && ws[k] == h[p[k]].id)
    && (forall k, l :: 0 <= k < l < |p| ==> p[k] < p[l])
    && (forall i: nat :: i < |h| && f in h[i].written ==> i in p)
  }

  lemma WroteNext(h: seq<Staged>, f: string, ws: seq<Id>, p: seq<nat>)
    requires h != [] && Wrote(h[..|h| - 1], f, ws, p)
    ensures var n := |h| - 1;
            if f in h[n].written then Wrote(h, f, ws + [h[n].id], p + [n]) else Wrote(h, f, ws, p)
  {
    var n := |h| - 1;
    var q := if f in h[n].written then p + [n] else p;
    forall i: nat | i < |h| && f in h[i].written ensures i in q {
      if i < n { assert h[i] == h[..n][i] && i in p; } else { assert q[|p|] == i; }
    }
  }

  /** Writers come in staging order. */
  lemma {:induction false} WritersInOrder(h: seq<Staged>, f: string) returns (p: seq<nat>)
    ensures Wrote(h, f, Writers(h, f), p)
  {
    if h == [] {
      p := [];
    } else {
      var n := |h| - 1;
      p := WritersInOrder(h[..n], f);
      WroteNext(h, f, Writers(h[..n], f), p);
      assert Writers(h[..n], f) + [] == Writers(h[..n], f);
      if f in h[n].written { p := p + [n]; }
    }
  }

  lemma WritersWhere(location: string, h: seq<Staged>, f: string)
    requires Relative(f) && forall s, g :: s in h && g in s.written ==> Relative(g)
    ensures Writers(h, f) != [] <==> PathJoin(location, f) in Paths(location, h)
  {
    WritersWrote(h, f);
    if PathJoin(location, f) in Paths(location, h) {
      var s, g :| s in h && g in s.written && PathJoin(location, g) == PathJoin(location, f);
      JoinIsInjective(location, f, g);
      assert s.id in Writers(h, f);
    }
    if Writers(h, f) != [] { assert Writers(h, f)[0] in Writers(h, f); }
  }

  lemma {:induction false} NoWriters(h: seq<Staged>, f: string)
    requires forall j :: 0 <= j < |h| ==> f !in h[j].written
    ensures Writers(h, f) == []
  {
    if h != [] { NoWriters(h[..|h| - 1], f); }
  }

  /** The first element that wrote a file is the first of its writers. */
  lemma {:induction false} FirstWriter(h: seq<Staged>, f: string, i: nat)
    requires i < |h| && f in h[i].written && forall j :: 0 <= j < i ==> f !in h[j].written
    ensures Writers(h, f) != [] && Writers(h, f)[0] == h[i].id
  {
    if i < |h| - 1 { FirstWriter(h[..|h| - 1], f, i); } else { NoWriters(h[..i], f); }
  }

  /** Something was overwritten: the file was there before the session, or two
      elements of the session wrote it. */
  predicate Overwrote(location: string, initial: set<string>, h: seq<Staged>, f: string) {
    |Writers(h, f)| > 1 || (|Writers(h, f)| == 1 && PathJoin(location, f) in initial)
  }

  /** The overlap list of a file that was overwritten is the list of its writers. */
  ghost predicate ListedAt(location: string, initial: set<string>, h: seq<Staged>, overlaps: map<string, seq<Id>>,
                           f: string) {
    && (f in overlaps <==> Relative(f) && Overwrote(location, initial, h, f))
    && (f in overlaps ==> overlaps[f] == Writers(h, f))
  }

  ghost predicate Listed(location: string, initial: set<string>, h: seq<Staged>, overlaps: map<string, seq<Id>>) {
    && (forall s, f :: s in h && f in s.written ==> Relative(f))
    && forall f {:trigger ListedAt(location, initial, h, overlaps, f)} :: ListedAt(location, initial, h, overlaps, f)
  }

  /** What staging plain files reports: all files written, and among them those
      that were there already. */
  ghost predicate Reports(location: string, area: set<string>, result: Result) {
    && NoRepeats(result.overwritten) && (forall f :: f in result.written ==> Relative(f))
    && forall f :: f in result.overwritten <==> f in result.written && PathJoin(location, f) in area
  }

  /** What one staged element adds to the lists. */
  lemma StagingKeepsLists(location: string, initial: set<string>, h: seq<Staged>, lists: map<string, seq<Id>>,
                          lists': map<string, seq<Id>>, e: Id, result: Result)
    requires Listed(location, initial, h, lists) && Reports(location, initial + Paths(location, h), result)
    requires forall f :: f in lists' <==> f in lists || f in result.overwritten
    requires forall f :: f in result.overwritten ==> lists'[f] == Writers(h, f) + [e]
    requires forall f :: f in lists && f !in result.overwritten ==> lists'[f] == lists[f]
    ensures Listed(location, initial, h + [Staged(e, result.written)], lists')
  {
    var h' := h + [Staged(e, result.written)];
    assert h'[..|h|] == h;
    forall f ensures ListedAt(location, initial, h', lists', f) {
      assert ListedAt(location, initial, h, lists, f);
      if Relative(f) { WritersWhere(location, h, f); }
    }
  }

  /** A file has an overlap list exactly if some element of the session found it
      in the staging area when it wrote it; the list has one entry exactly if the
      file was there before the session and one element wrote it. */
  lemma OverlapListMeans(location: string, initial: set<string>, h: seq<Staged>, overlaps: map<string, seq<Id>>,
                         f: string)
    requires Listed(location, initial, h, overlaps) && Relative(f)
    ensures f in overlaps <==> exists i :: Overwrites(location, initial, h, f, i)
    ensures f in overlaps ==> (|overlaps[f]| == 1 <==> PathJoin(location, f) in initial && |Writers(h, f)| == 1)
    ensures f in overlaps ==> forall id :: id in overlaps[f] <==> exists s :: s in h && s.id == id && f in s.written
  {
    assert ListedAt(location, initial, h, overlaps, f);
    OverwroteMeans(location, initial, h, f);
    WritersWrote(h, f);
  }

  /** The i-th element of the session wrote a file that was there already. */
  ghost predicate Overwrites(location: string, initial: set<string>, h: seq<Staged>, f: string, i: int) {
    0 <= i < |h| && f in h[i].written && PathJoin(location, f) in initial + Paths(location, h[..i])
  }

  lemma {:induction false} OverwroteMeans(location: string, initial: set<string>, h: seq<Staged>, f: string)
    requires Relative(f) && forall s, g :: s in h && g in s.written ==> Relative(g)
    ensures Overwrote(location, initial, h, f) <==> exists i :: Overwrites(location, initial, h, f, i)
  {
    if h != [] {
      var t := h[..|h| - 1];
      OverwroteMeans(location, initial, t, f);
      WritersWhere(location, t, f);
      forall i | 0 <= i < |t| ensures Overwrites(location, initial, t, f, i) <==>
        Overwrites(location, initial, h, f, i) {
        assert t[..i] == h[..i];
      }
      if f in h[|t|].written && PathJoin(location, f) in initial + Paths(location, t) {
        assert Overwrites(location, initial, h, f, |t|);
      }
      if i :| Overwrites(location, initial, h, f, i) { assert i < |t| ==> Overwrites(location, initial, t, f, i); }
      if i :| Overwrites(location, initial, t, f, i) { assert Overwrites(location, initial, h, f, i); }
    }
  }

  class OverlapCollectorSession {
    const location: string
    const action: Action
    ghost const initial: set<string>
    var filesWritten: seq<Staged>
    var overlaps: map<string, seq<Id>>
    var ignored: map<Id, seq<string>>

    constructor(action: Action, location: string, ghost initial: set<string>)
      ensures this.action == action && this.location == location && this.initial == initial
      ensures Valid() && filesWritten == [] && overlaps == map[] && ignored == map[]
    {
      this.action, this.location, this.initial := action, location, initial;
      filesWritten, overlaps, ignored := [], map[], map[];
    }

    /** What is in the staging area now. */
    ghost function Area(): set<string>
      reads this
    {
      initial + Paths(location, filesWritten)
    }

    ghost predicate Valid()
      reads this
    {
      Listed(location, initial, filesWritten, overlaps)
    }

    /** Every file that was overwritten gets the element added to its list, which
        starts with the bottom-most element that wrote the file in this session. */
    method CollectStageResult(element: Id, result: Result)
      requires Valid() && Reports(location, Area(), result) && element !in Ids(filesWritten)
      modifies this
      ensures Valid() && filesWritten == old(filesWritten) + [Staged(element, result.written)]
      ensures ignored == if result.ignored != [] then old(ignored)[element := result.ignored] else old(ignored)
    {
      for k := 0 to |result.overwritten|
        invariant unchanged(`filesWritten) && unchanged(`ignored)
        invariant forall f :: f in overlaps <==> f in old(overlaps) || f in result.overwritten[..k]
        invariant forall f :: f in result.overwritten[..k] ==> overlaps[f] == Writers(filesWritten, f) + [element]
        invariant forall f :: f in old(overlaps) && f !in result.overwritten[..k] ==> overlaps[f] == old(overlaps)[f]
      {
        var f := result.overwritten[k];
        assert f in result.overwritten && f !in result.overwritten[..k];
        assert ListedAt(location, initial, filesWritten, old(overlaps), f);
        var list := [];
        if f in overlaps {
          list := overlaps[f];
        } else {
          list := FindBottom(f);
        }
        overlaps := overlaps[f := list + [element]];
        assert result.overwritten[..k + 1] == result.overwritten[..k] + [f];
      }
      assert result.overwritten[..|result.overwritten|] == result.overwritten;
      StagingKeepsLists(location, initial, filesWritten, old(overlaps), overlaps, element, result);
      filesWritten := filesWritten + [Staged(element, result.written)];
      if result.ignored != [] { ignored := ignored[element := result.ignored]; }
    }

    /** The bottom-most element that wrote a file in this session, if any. */
    method FindBottom(f: string) returns (list: seq<Id>)
      requires |Writers(filesWritten, f)| <= 1
      ensures list == Writers(filesWritten, f)
    {
      for i := 0 to |filesWritten|
        invariant forall j :: 0 <= j < i ==> f !in filesWritten[j].written
      {
        if f in filesWritten[i].written {
          FirstWriter(filesWritten, f, i);
          return [filesWritten[i].id];
        }
      }
      NoWriters(filesWritten, f);
      return [];
    }
  }

  // ---------------------------------------------------------------- earlier sessions

  /** A session that has ended. */
  datatype Ended = Ended(location: string, filesWritten: seq<Staged>) {
    /** Its i-th element wrote the file with this absolute name, none before it did. */
    ghost predicate FirstWrote(i: nat, filename: string) {
      && i < |filesWritten| && WroteAt(location, filesWritten[i], filename)
      && forall j :: 0 <= j < i ==> !WroteAt(location, filesWritten[j], filename)
    }
  }

  ghost predicate WroteAt(location: string, s: Staged, filename: string) {
    exists f :: f in s.written && PathJoin(location, f) == filename
  }

  ghost function AllPaths(sessions: seq<Ended>): set<string> {
    set k, filename | 0 <= k < |sessions| && filename in Paths(sessions[k].location, sessions[k].filesWritten) ::
      filename
  }

  datatype Found = Found(element: Id, location: string)

  /** The answer is the most recent session that staged the file, and its first
      element that did. */
  ghost predicate Explains(sessions: seq<Ended>, filename: string, found: Found) {
    exists k: nat, i: nat {:trigger sessions[k].FirstWrote(i, filename)} ::
      0 <= k < |sessions| && sessions[k].FirstWrote(i, filename)
      && found == Found(sessions[k].filesWritten[i].id, sessions[k].location)
      && forall j :: k < j < |sessions| ==> filename !in Paths(sessions[j].location, sessions[j].filesWritten)
  }

  /** There is an answer exactly if some session staged the file. */
  ghost predicate Explained(sessions: seq<Ended>, filename: string, r: Option<Found>) {
    if filename in AllPaths(sessions) then r.Some? && Explains(sessions, filename, r.value) else r.None?
  }

  /** Finds the element responsible for a file; the source asserts that there is one. */
  method SearchStageElement(filename: string, sessions: seq<Ended>) returns (r: Option<Found>)
    ensures Explained(sessions, filename, r)
  {
    for k := |sessions| downto 0
      invariant forall j :: k <= j < |sessions| ==> filename !in Paths(sessions[j].location, sessions[j].filesWritten)
    {
      var session := sessions[k];
      for i := 0 to |session.filesWritten|
        invariant forall j :: 0 <= j < i ==> !WroteAt(session.location, session.filesWritten[j], filename)
      {
        var s := session.filesWritten[i];
        if exists n :: 0 <= n < |s.written| && PathJoin(session.location, s.written[n]) == filename {
          assert s in session.filesWritten && session.FirstWrote(i, filename);
          assert filename in Paths(session.location, session.filesWritten) && filename in AllPaths(sessions);
          return Some(Found(s.id, session.location));
        }
        assert !WroteAt(session.location, s, filename);
      }
      forall s, f | s in session.filesWritten && f in s.written ensures PathJoin(session.location, f) != filename {
        var j :| 0 <= j < |session.filesWritten| && session.filesWritten[j] == s;
        assert !WroteAt(session.location, session.filesWritten[j], filename);
      }
    }
    return None;
  }

  // ---------------------------------------------------------------- warnings

  /** Which warnings the project takes for errors. */
  datatype Fatal = Fatal(overlaps: bool, unstaged: bool)

  /** What is reported when a session ends, before an error if one is raised. */
  datatype Report = Report(
    overlaps: bool,
    ignored: map<Id, seq<string>>,
    external: map<string, Option<Found>>,
    raised: bool
  )

  /** Reporting stops after the overlaps of the session. */
  predicate StopsAtOverlaps(fatal: Fatal, r: Report) {
    r.overlaps && fatal.overlaps
  }

  /** Reporting stops before overlaps with earlier sessions. */
  predicate StopsEarly(fatal: Fatal, r: Report) {
    StopsAtOverlaps(fatal, r) || (r.ignored != map[] && fatal.unstaged)
  }

  /** Nobody is found responsible for some file; the source asserts that somebody is. */
  predicate Unexplained(external: map<string, Option<Found>>) {
    exists f :: f in external && external[f].None?
  }

  /** A file that more than one element of the session wrote, not all but the
      bottom-most being allowed to. */
  ghost predicate Forbidden(h: seq<Staged>, whitelisted: (Id, string) -> bool, f: string) {
    |Writers(h, f)| > 1 && exists k :: 1 <= k < |Writers(h, f)| && !whitelisted(Writers(h, f)[k], f)
  }

  /** A file of an earlier session that exactly one element of this one wrote. */
  ghost predicate External(location: string, initial: set<string>, h: seq<Staged>, f: string) {
    Relative(f) && |Writers(h, f)| == 1 && PathJoin(location, f) in initial
  }

  /** Of the elements that wrote a file, all but the bottom-most need to be allowed to. */
  lemma ForbiddenMeans(h: seq<Staged>, whitelisted: (Id, string) -> bool, f: string)
    ensures Forbidden(h, whitelisted, f) <==>
      exists k :: 1 <= k < |Writers(h, f)| && !whitelisted(Writers(h, f)[k], f)
  {
    if k :| 1 <= k < |Writers(h, f)| && !whitelisted(Writers(h, f)[k], f) { assert |Writers(h, f)| > 1; }
  }

  /** A file of an earlier session that is overwritten once, by the only element of this
      one that writes it. */
  lemma ExternalMeans(location: string, initial: set<string>, h: seq<Staged>, f: string)
    requires forall i, j :: 0 <= i < j < |h| ==> h[i].id != h[j].id
    ensures External(location, initial, h, f) ==>
      && f != "" && f[0] != '/' && PathJoin(location, f) in initial
      && exists s :: s in h && f in s.written && Writers(h, f) == [s.id]
  {
    if External(location, initial, h, f) {
      WritersWrote(h, f);
      var id := Writers(h, f)[0];
      assert id in Writers(h, f) && Writers(h, f) == [id];
    }
  }

  /** The answer names a writer of the file: no later session wrote it, and no earlier
      element of the same session did. */
  lemma ExplainsMeans(sessions: seq<Ended>, filename: string, found: Found)
    requires Explains(sessions, filename, found)
    ensures exists k: nat, i: nat ::
      && k < |sessions| && i < |sessions[k].filesWritten|
      && found.element == sessions[k].filesWritten[i].id && found.location == sessions[k].location
      && (exists f :: f in sessions[k].filesWritten[i].written && PathJoin(sessions[k].location, f) == filename)
      && (forall j, f :: 0 <= j < i && f in sessions[k].filesWritten[j].written ==>
            PathJoin(sessions[k].location, f) != filename)
      && (forall j, s, f :: k < j < |sessions| && s in sessions[j].filesWritten && f in s.written ==>
            PathJoin(sessions[j].location, f) != filename)
  {
    var k: nat, i: nat :|
      && k < |sessions| && sessions[k].FirstWrote(i, filename)
      && found == Found(sessions[k].filesWritten[i].id, sessions[k].location)
      && forall j :: k < j < |sessions| ==> filename !in Paths(sessions[j].location, sessions[j].filesWritten);
    forall j, s, f | k < j < |sessions| && s in sessions[j].filesWritten && f in s.written
      ensures PathJoin(sessions[j].location, f) != filename
    {
      assert PathJoin(sessions[j].location, f) in Paths(sessions[j].location, sessions[j].filesWritten);
    }
    forall j, f | 0 <= j < i && f in sessions[k].filesWritten[j].written
      ensures PathJoin(sessions[k].location, f) != filename
    {
      assert !WroteAt(sessions[k].location, sessions[k].filesWritten[j], filename);
    }
    assert WroteAt(sessions[k].location, sessions[k].filesWritten[i], filename);
  }

  class OverlapCollector {
    var sessions: seq<Ended>
    var session: OverlapCollectorSession?
    ghost var foreign: set<string>  // files in the staging area that were not staged through this collector

    constructor(ghost foreign: set<string>)
      ensures sessions == [] && session == null && this.foreign == foreign && Valid()
    {
      sessions, session := [], null;
      this.foreign := foreign;
    }

    ghost predicate Valid()
      reads this, session
    {
      session != null ==> session.Valid() && session.initial == foreign + AllPaths(sessions)
    }

    method BeginSession(action: Action, location: Option<string>)
      requires Valid() && session == null
      modifies this
      ensures Valid() && session != null && fresh(session) && session.action == action && session.filesWritten == []
      ensures session.location == if location.Some? then location.value else "/"
      ensures sessions == old(sessions) && foreign == old(foreign)
    {
      var at := if location.Some? then location.value else "/";
      session := new OverlapCollectorSession(action, at, foreign + AllPaths(sessions));
    }

    method CollectStageResult(element: Id, result: Result)
      requires Valid() && session != null && Reports(session.location, session.Area(), result)
      requires element !in Ids(session.filesWritten)
      modifies session
      ensures Valid() && session.filesWritten == old(session.filesWritten) + [Staged(element, result.written)]
    {
      session.CollectStageResult(element, result);
    }

    /** The files that overlap something other than the session's own. */
    ghost predicate Externals(files: set<string>)
      requires session != null
      reads this, session
    {
      forall f :: f in files <==> External(session.location, session.initial, session.filesWritten, f)
    }

    /** What is reported at the end of the session: its overlaps, the files it did not
        stage, and overlaps with earlier sessions, up to the first that is an error. */
    ghost predicate Reported(whitelisted: (Id, string) -> bool, fatal: Fatal, r: Report)
      requires session != null
      reads this, session
    {
      && (r.overlaps <==> exists f :: Relative(f) && Forbidden(session.filesWritten, whitelisted, f))
      && r.ignored == (if StopsAtOverlaps(fatal, r) then map[] else session.ignored)
      && (session.action.IGNORE? || StopsEarly(fatal, r) ==> r.external == map[])
      && (!session.action.IGNORE? && !StopsEarly(fatal, r) ==> Externals(r.external.Keys))
      && (forall f :: f in r.external ==> Explained(sessions, PathJoin(session.location, f), r.external[f]))
      && (r.raised <==>
            || StopsEarly(fatal, r) || Unexplained(r.external)
            || (r.external != map[] && (session.action.ERROR? || fatal.overlaps)))
    }

    method Warn(whitelisted: (Id, string) -> bool, fatal: Fatal) returns (r: Report)
      requires Valid() && session != null
      ensures Reported(whitelisted, fatal, r)
      ensures foreign == {} ==> !Unexplained(r.external)
    {
      var overlaps, single := Warnings(whitelisted);
      var external := map[];
      if overlaps && fatal.overlaps { return Report(true, map[], map[], true); }
      var ignored := session.ignored;
      if ignored != map[] && fatal.unstaged { return Report(overlaps, ignored, map[], true); }
      if !session.action.IGNORE? { external := ExplainAll(single); }
      ghost var files := external.Keys;
      assert session.action.IGNORE? || Externals(files);
      return Report(overlaps, ignored, external,
        Unexplained(external) || (external != map[] && (session.action.ERROR? || fatal.overlaps)));
    }

    /** Reports, and ends the session unless that is an error. */
    method EndSession(whitelisted: (Id, string) -> bool, fatal: Fatal) returns (r: Report)
      requires Valid() && session != null
      modifies this
      ensures Valid() && foreign == old(foreign)
      ensures old(Reported(whitelisted, fatal, r))
      ensures r.raised <==>
        || (r.overlaps && fatal.overlaps) || (r.ignored != map[] && fatal.unstaged)
        || (exists f :: f in r.external && r.external[f].None?)
        || (r.external != map[] && (old(session).action.ERROR? || fatal.overlaps))
      ensures old(foreign) == {} ==> !Unexplained(r.external)
      ensures r.raised ==> sessions == old(sessions) && session == old(session)
      ensures !r.raised ==>
        session == null && sessions == old(sessions) + [Ended(old(session).location, old(session).filesWritten)]
    {
      r := Warn(whitelisted, fatal);
      if !r.raised {
        sessions := sessions + [Ended(session.location, session.filesWritten)];
        session := null;
      }
    }

    /** Where the files of earlier sessions came from. */
    method ExplainAll(files: set<string>) returns (external: map<string, Option<Found>>)
      requires Valid() && session != null
      ensures external.Keys == files
      ensures forall f :: f in external ==> Explained(sessions, PathJoin(session.location, f), external[f])
      ensures foreign == {} && Externals(files) ==> !Unexplained(external)
    {
      external := map[];
      var todo := files;
      while todo != {}
        invariant todo <= files && external.Keys == files - todo
        invariant forall f :: f in external ==> Explained(sessions, PathJoin(session.location, f), external[f])
      {
        var f :| f in todo;
        todo := todo - {f};
        var found := SearchStageElement(PathJoin(session.location, f), sessions);
        external := external[f := found];
      }
    }

    /** Overlaps within the session, and the files that overlap something else. */
    method Warnings(whitelisted: (Id, string) -> bool) returns (overlaps: bool, single: set<string>)
      requires Valid() && session != null
      ensures overlaps <==> exists f :: Relative(f) && Forbidden(session.filesWritten, whitelisted, f)
      ensures Externals(single)
    {
      var todo := session.overlaps.Keys;
      overlaps, single := false, {};
      while todo != {}
        invariant todo <= session.overlaps.Keys
        invariant overlaps <==>
          exists f :: f in session.overlaps.Keys - todo && Forbidden(session.filesWritten, whitelisted, f)
        invariant forall f :: f in single <==> f in session.overlaps.Keys - todo && |session.overlaps[f]| == 1
      {
        var f :| f in todo;
        assert ListedAt(session.location, session.initial, session.filesWritten, session.overlaps, f);
        todo := todo - {f};
        var list := session.overlaps[f];
        ghost var forbidden := Forbidden(session.filesWritten, whitelisted, f);
        assert list == Writers(session.filesWritten, f) && |list| > 0;
        assert forbidden <==> |list| != 1 && exists k :: 1 <= k < |list| && !whitelisted(list[k], f);
        if |list| == 1 {
          // Something that was there before the session
          single := single + {f};
        } else if exists k :: 1 <= k < |list| && !whitelisted(list[k], f) {
          overlaps := true;
        }
      }
      forall f ensures f in single <==> External(session.location, session.initial, session.filesWritten, f) {
        assert ListedAt(session.location, session.initial, session.filesWritten, session.overlaps, f);
      }
      forall f | Relative(f) && Forbidden(session.filesWritten, whitelisted, f) ensures f in session.overlaps {
        assert ListedAt(session.location, session.initial, session.filesWritten, session.overlaps, f);
      }
      forall f | f in session.overlaps ensures Relative(f) {
        assert ListedAt(session.location, session.initial, session.filesWritten, session.overlaps, f);
      }
    }
  }
}
