/** The counters behind readiness: how many dependencies of an element are not
    ready yet, kept up to date by notifications. */
module Readiness {
  import opened Graphs

  /** Dependencies of one kind, in both directions. */
  datatype Links = Links(needs: map<Id, set<Id>>, neededBy: map<Id, set<Id>>) {
    ghost predicate Valid() {
      && needs.Keys == neededBy.Keys
      && (forall d, x {:trigger d in needs[x]} :: x in needs && d in needs[x] ==> d in neededBy && x in neededBy[d])
      && (forall d, x {:trigger x in neededBy[d]} :: d in neededBy && x in neededBy[d] ==> x in needs && d in needs[x])
    }
  }

  ghost predicate LinkedAt(es: Edges, links: Links, x: Id) {
    && (x in es <==> x in links.needs)
    && (x in es ==> links.needs[x] == Elements(es[x]))
  }

  /** The links hold exactly what the dependency lists list. */
  ghost predicate Linked(es: Edges, links: Links) {
    forall x {:trigger LinkedAt(es, links, x)} :: LinkedAt(es, links, x)
  }

  /** Dependency lists determine the links in both directions. */
  lemma SameLinks(es: Edges, links: Links, links': Links)
    requires links.Valid() && Linked(es, links) && links'.Valid() && Linked(es, links')
    ensures links' == links
  {
    forall x
      ensures x in links'.needs <==> x in links.needs
      ensures x in links.needs ==> links'.needs[x] == links.needs[x]
    {
      assert LinkedAt(es, links, x) && LinkedAt(es, links', x);
    }
    assert links'.needs == links.needs;
    forall y | y in links.neededBy ensures links'.neededBy[y] == links.neededBy[y] {
      forall x ensures x in links'.neededBy[y] <==> x in links.neededBy[y] { }
    }
    assert links'.neededBy == links.neededBy;
  }

  function LinksOf(es: Edges): (links: Links)
    requires Closed(es)
    ensures links.Valid() && Linked(es, links)
  {
    assert forall x :: x in es ==> Within(es, es[x]);
    Links(map x | x in es :: Elements(es[x]), map d | d in es :: set x | x in es && d in es[x])
  }

  /** Notifications (d, x) that d still owes x. */
  type Debts = set<(Id, Id)>

  function DebtsOf(d: Id, xs: set<Id>): Debts {
    set x | x in xs :: (d, x)
  }

  /** The dependencies of x that are not ready, or that are but have not told x. */
  function Unready(links: Links, x: Id, ready: set<Id>, owed: Debts): set<Id>
    requires x in links.needs
  {
    set d | d in links.needs[x] && (d !in ready || (d, x) in owed)
  }

  ghost predicate CountedAt(links: Links, count: map<Id, int>, ready: set<Id>, owed: Debts, x: Id) {
    && (x in count <==> x in links.needs)
    && (x in count ==> count[x] == |Unready(links, x, ready, owed)|)
  }

  /** Each counter is the number of dependencies that are not ready, plus the
      number of notifications still owed by those that are. */
  ghost predicate Counted(links: Links, count: map<Id, int>, ready: set<Id>, owed: Debts) {
    forall x {:trigger CountedAt(links, count, ready, owed, x)} :: CountedAt(links, count, ready, owed, x)
  }

  /** Only a ready element owes notifications, and only to what needs it. */
  ghost predicate ProperDebt(links: Links, ready: set<Id>, owed: Debts, d: Id, x: Id) {
    (d, x) in owed ==> d in ready && x in links.needs && d in links.needs[x]
  }

  ghost predicate Proper(links: Links, ready: set<Id>, owed: Debts) {
    forall d, x {:trigger ProperDebt(links, ready, owed, d, x)} :: ProperDebt(links, ready, owed, d, x)
  }

  /** The length of a dependency list is the size of its set exactly if nothing
      in it repeats. */
  lemma {:induction false} ListLength<T(!new)>(s: seq<T>)
    ensures |Elements(s)| <= |s|
    ensures |Elements(s)| == |s| <==> NoRepeats(s)
  {
    if s != [] {
      var t := s[1..];
      ListLength(t);
      HeadOrTail(s);
      assert Elements(s) == {s[0]} + Elements(t);
      if s[0] in t {
        assert Elements(s) == Elements(t);
        var j :| 0 <= j < |t| && t[j] == s[0];
        assert s[j + 1] == s[0];
      } else {
        if NoRepeats(t) {
          forall i, j | 0 <= i < j < |s| ensures s[i] != s[j] {
            assert s[j] == t[j - 1];
            if i > 0 { assert s[i] == t[i - 1]; } else { assert t[j - 1] in t; }
          }
        } else {
          var i, j :| 0 <= i < j < |t| && t[i] == t[j];
          assert s[i + 1] == s[j + 1];
        }
      }
    }
  }

  /** Counters that start at the lengths of the dependency lists count what is
      not ready yet exactly if no list repeats an element. */
  lemma InitialCount(es: Edges, links: Links, count: map<Id, int>)
    requires Linked(es, links) && count.Keys == es.Keys && forall x :: x in count ==> count[x] == |es[x]|
    ensures Counted(links, count, {}, {}) <==> forall x :: x in es ==> NoRepeats(es[x])
  {
    forall x ensures CountedAt(links, count, {}, {}, x) <==> (x in es ==> NoRepeats(es[x])) {
      assert LinkedAt(es, links, x);
      if x in es {
        ListLength(es[x]);
        assert Unready(links, x, {}, {}) == links.needs[x];
      }
    }
  }

  /** Becoming ready changes no counter, as long as the notifications are owed. */
  lemma MarkReady(links: Links, count: map<Id, int>, ready: set<Id>, owed: Debts, e: Id)
    requires links.Valid() && Counted(links, count, ready, owed) && Proper(links, ready, owed)
    requires e in links.needs && e !in ready
    ensures Counted(links, count, ready + {e}, owed + DebtsOf(e, links.neededBy[e]))
    ensures Proper(links, ready + {e}, owed + DebtsOf(e, links.neededBy[e]))
    ensures owed !! DebtsOf(e, links.neededBy[e])
  {
    var owed' := owed + DebtsOf(e, links.neededBy[e]);
    forall x ensures CountedAt(links, count, ready + {e}, owed', x) {
      assert CountedAt(links, count, ready, owed, x);
      if x in links.needs {
        forall d | d in links.needs[x]
          ensures d in Unready(links, x, ready, owed) <==> d in Unready(links, x, ready + {e}, owed')
        {
          if d == e { assert (e, x) in owed'; }
        }
        assert Unready(links, x, ready, owed) == Unready(links, x, ready + {e}, owed');
      }
    }
    forall d, x ensures ProperDebt(links, ready + {e}, owed', d, x) {
      assert ProperDebt(links, ready, owed, d, x);
    }
    forall x: Id ensures (e, x) !in owed { assert ProperDebt(links, ready, owed, e, x); }
  }

  /** A notification settles one debt and takes one from the counter, which was
      positive. */
  lemma Notify(links: Links, count: map<Id, int>, ready: set<Id>, owed: Debts, e: Id, x: Id)
    requires Counted(links, count, ready, owed) && Proper(links, ready, owed) && (e, x) in owed
    ensures x in count && x in links.needs && count[x] > 0
    ensures Counted(links, count[x := count[x] - 1], ready, owed - {(e, x)})
    ensures Proper(links, ready, owed - {(e, x)})
  {
    var owed' := owed - {(e, x)};
    assert ProperDebt(links, ready, owed, e, x) && CountedAt(links, count, ready, owed, x);
    assert e in Unready(links, x, ready, owed);
    assert Unready(links, x, ready, owed') == Unready(links, x, ready, owed) - {e};
    var count' := count[x := count[x] - 1];
    forall y ensures CountedAt(links, count', ready, owed', y) {
      assert CountedAt(links, count, ready, owed, y);
      if y in links.needs && y != x { assert Unready(links, y, ready, owed') == Unready(links, y, ready, owed); }
    }
    forall d, y ensures ProperDebt(links, ready, owed', d, y) { assert ProperDebt(links, ready, owed, d, y); }
  }

  /** A counter at zero means that every dependency is ready and has said so. */
  lemma ZeroMeansReady(links: Links, count: map<Id, int>, ready: set<Id>, owed: Debts, x: Id)
    requires Counted(links, count, ready, owed) && x in links.needs
    ensures x in count && count[x] >= 0
    ensures count[x] == 0 ==> links.needs[x] <= ready && forall d :: d in links.needs[x] ==> (d, x) !in owed
    ensures owed == {} ==> (count[x] == 0 <==> links.needs[x] <= ready)
  {
    assert CountedAt(links, count, ready, owed, x);
    var unready := Unready(links, x, ready, owed);
    if count[x] == 0 {
      forall d | d in links.needs[x] ensures d in ready && (d, x) !in owed { assert d !in unready; }
    }
    if owed == {} && links.needs[x] <= ready { assert unready == {}; }
  }
}
