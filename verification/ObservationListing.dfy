/** Keyset paging over one collector's observations, newest first. */
module ObservationListing {
  import opened Domain
  import opened Ordering
  import opened Paging
  import opened LogStore

  datatype PageKey = PageKey(eventTime: int, id: string)

  datatype ListResult =
    | BadLimit
    | BadAnchor
    | Page(observations: seq<Observation>, hasMore: bool, next: Option<PageKey>)

  const MAX_LIST_LIMIT := 500

  // Descending (event time, id).
  predicate Precedes(a: PageKey, b: PageKey) {
    a.eventTime > b.eventTime || (a.eventTime == b.eventTime && StringLess(b.id, a.id))
  }

  lemma PrecedesOrder()
    ensures StrictTotalOrder(Precedes)
  {
    hide StringLess;
    forall x: PageKey
      ensures !Precedes(x, x)
    {
      StringTotal(x.id, x.id);
    }
    forall x: PageKey, y: PageKey
      ensures Precedes(x, y) || x == y || Precedes(y, x)
    {
      StringTotal(x.id, y.id);
    }
    forall x: PageKey, y: PageKey, z: PageKey | Precedes(x, y) && Precedes(y, z)
      ensures Precedes(x, z)
    {
      if x.eventTime == z.eventTime {
        StringTransitive(z.id, y.id, x.id);
      }
    }
  }

  function PageKeyOf(o: Observation): PageKey {
    PageKey(o.eventTime, o.id)
  }

  predicate Matches(o: Observation, tenant: string, source: string, filter: Observation -> bool) {
    o.tenant == tenant && o.source == source && filter(o)
  }

  // The rows the statement selects, before its anchor, order and limit.
  function Matching(rows: map<RecordKey, Observation>, tenant: string, source: string, filter: Observation -> bool): set<PageKey> {
    set key | key in rows && Matches(rows[key], tenant, source, filter) :: PageKeyOf(rows[key])
  }

  predicate Keyed(rows: map<RecordKey, Observation>) {
    forall key | key in rows :: KeyOf(rows[key]) == key
  }

  function Keys(os: seq<Observation>): (ks: seq<PageKey>)
    ensures |ks| == |os| && forall i | 0 <= i < |os| :: ks[i] == PageKeyOf(os[i])
  {
    seq(|os|, i requires 0 <= i < |os| => PageKeyOf(os[i]))
  }

  // Rows are left after the page.
  ghost predicate MoreAfter(rows: set<PageKey>, anchor: Option<PageKey>, page: seq<PageKey>) {
    exists x :: x in rows && After(Precedes, anchor, x) && x !in page
  }

  // The page ends, with more to come, at an observation whose empty id makes no anchor.
  ghost predicate EndsUnnamed(rows: set<PageKey>, anchor: Option<PageKey>, limit: int, page: seq<PageKey>) {
    && 0 < limit && IsPage(rows, Precedes, anchor, limit, page)
    && page != [] && page[|page| - 1].id == ""
    && MoreAfter(rows, anchor, page)
  }

  // The query's limit is one more than the page's; what the extra row tells.
  lemma FirstOfPage(rows: set<PageKey>, anchor: Option<PageKey>, limit: nat, records: seq<PageKey>)
    requires IsPage(rows, Precedes, anchor, limit + 1, records)
    ensures var page := if |records| > limit then records[..limit] else records;
      && IsPage(rows, Precedes, anchor, limit, page)
      && (|records| > limit <==> MoreAfter(rows, anchor, page))
  {
    hide Precedes;
    if |records| > limit {
      PrecedesOrder();
      var page := records[..limit];
      var x := records[limit];
      assert x in records;
      forall y | y in page
        ensures Precedes(y, x)
      {
        var i :| 0 <= i < limit && page[i] == y;
      }
      assert x !in page;
      forall z | z in rows && After(Precedes, anchor, z) && z !in page
        ensures forall y | y in page :: Precedes(y, z)
      {
        if z in records {
          var j :| 0 <= j < |records| && records[j] == z;
          assert j == limit;
        } else {
          assert forall y | y in page :: y in records;
        }
      }
    }
  }

  method ListPage(rows: map<RecordKey, Observation>, tenant: string, source: string, limit: int, anchor: Option<PageKey>,
                  filter: Observation -> bool)
    returns (r: ListResult)
    requires Keyed(rows)
    ensures r.BadLimit? <==> limit < 1 || limit > 500
    ensures var all := Matching(rows, tenant, source, filter);
      (r.Page? ==>
         && IsPage(all, Precedes, anchor, limit, Keys(r.observations))
         && (forall o | o in r.observations ::
               KeyOf(o) in rows && rows[KeyOf(o)] == o && o.tenant == tenant && o.source == source && filter(o))
         && (r.hasMore <==> MoreAfter(all, anchor, Keys(r.observations)))
         && r.next == (if r.hasMore then Some(PageKeyOf(r.observations[|r.observations| - 1])) else None)
         && (r.hasMore ==> r.observations[|r.observations| - 1].id != ""))
    ensures r.BadAnchor? ==> exists page :: EndsUnnamed(Matching(rows, tenant, source, filter), anchor, limit, page)
  {
    hide Precedes, IsPage, StrictTotalOrder, MoreAfter;
    if limit < 1 || limit > MAX_LIST_LIMIT {
      return BadLimit;
    }
    PrecedesOrder();
    var all := Matching(rows, tenant, source, filter);
    var records := Query(all, Precedes, anchor, limit + 1);
    FirstOfPage(all, anchor, limit, records);
    PageWithin(all, anchor, limit + 1, records);
    var returned := if |records| > limit then records[..limit] else records;
    var observations: seq<Observation> := [];
    for i := 0 to |returned|
      invariant |observations| == i && Keys(observations) == returned[..i]
      invariant forall o | o in observations ::
        KeyOf(o) in rows && rows[KeyOf(o)] == o && o.tenant == tenant && o.source == source && filter(o)
    {
      assert returned[i] in records;
      var key :| key in rows && Matches(rows[key], tenant, source, filter) && PageKeyOf(rows[key]) == returned[i];
      observations := observations + [rows[key]];
    }
    assert Keys(observations) == returned;
    if |records| > limit {
      var final := observations[|observations| - 1];
      if final.id == "" {
        assert EndsUnnamed(all, anchor, limit, Keys(observations));
        return BadAnchor;
      }
      return Page(observations, true, Some(PageKeyOf(final)));
    }
    r := Page(observations, false, None);
  }

  lemma PageWithin(all: set<PageKey>, anchor: Option<PageKey>, limit: nat, page: seq<PageKey>)
    requires IsPage(all, Precedes, anchor, limit, page)
    ensures |page| <= limit && forall x | x in page :: x in all
  {
  }

  /* ----- Following the anchors ----- */

  lemma NotBoth(x: PageKey, y: PageKey)
    ensures !(Precedes(x, y) && Precedes(y, x)) && !Precedes(x, x)
  {
    hide StringLess;
    StringTotal(x.id, y.id);
    StringTotal(x.id, x.id);
  }

  // The visited list misses nothing before what it holds.
  ghost predicate Leads(seen: seq<PageKey>, all: seq<PageKey>) {
    && Ascending(all, Precedes) && Ascending(seen, Precedes)
    && (forall x | x in seen :: x in all)
    && (forall x, y | x in all && x !in seen && y in seen :: Precedes(y, x))
  }

  lemma HeadsAgree(all: seq<PageKey>, seen: seq<PageKey>)
    requires Leads(seen, all) && seen != []
    ensures all != [] && all[0] == seen[0]
  {
    hide Precedes;
    assert seen[0] in seen;
    var i :| 0 <= i < |all| && all[i] == seen[0];
    assert all[0] in all;
    assert i == 0 || Precedes(all[0], seen[0]);
    NotBoth(all[0], seen[0]);
    assert all[0] in seen;
    assert forall k | 0 < k < |seen| :: Precedes(seen[0], seen[k]);
  }

  // Nothing follows itself, so the first element does not recur.
  lemma HeadOnce(s: seq<PageKey>, x: PageKey)
    requires Ascending(s, Precedes) && s != []
    ensures x in s[1..] <==> x in s && x != s[0]
  {
    hide Precedes;
    assert s == [s[0]] + s[1..];
    if x in s[1..] {
      var k :| 0 <= k < |s| - 1 && s[1..][k] == x;
      assert Precedes(s[0], s[k + 1]);
      NotBoth(s[0], x);
    }
  }

  lemma TailsLead(all: seq<PageKey>, seen: seq<PageKey>)
    requires Leads(seen, all) && seen != [] && all != [] && all[0] == seen[0]
    ensures Leads(seen[1..], all[1..])
  {
    hide Precedes;
    forall x: PageKey
      ensures x in seen[1..] <==> x in seen && x != seen[0]
      ensures x in all[1..] <==> x in all && x != all[0]
    {
      HeadOnce(seen, x);
      HeadOnce(all, x);
    }
  }

  /** What has been visited in order is a prefix of the complete list. */
  lemma {:induction false} VisitedPrefix(all: seq<PageKey>, seen: seq<PageKey>)
    requires Leads(seen, all)
    ensures seen <= all
    decreases |seen|
  {
    hide Leads;
    if seen != [] {
      HeadsAgree(all, seen);
      TailsLead(all, seen);
      VisitedPrefix(all[1..], seen[1..]);
      assert all == [all[0]] + all[1..] && seen == [seen[0]] + seen[1..];
    }
  }

  // By descending event time, then descending id, each observation once.
  ghost predicate NewestFirst(os: seq<Observation>) {
    forall i, j | 0 <= i < j < |os| ::
      os[i].eventTime > os[j].eventTime || (os[i].eventTime == os[j].eventTime && StringLess(os[j].id, os[i].id))
  }

  /** Keys that list the matching rows in order are those of exactly the tenant's observations from the
      source that pass the filter, newest first. */
  lemma VisitedRead(rows: map<RecordKey, Observation>, tenant: string, source: string, filter: Observation -> bool,
                    all: seq<PageKey>, visited: seq<Observation>)
    requires Keyed(rows) && Keys(visited) == all && Ascending(all, Precedes)
    requires forall x :: x in all <==> x in Matching(rows, tenant, source, filter)
    requires forall o | o in visited ::
      KeyOf(o) in rows && rows[KeyOf(o)] == o && o.tenant == tenant && o.source == source && filter(o)
    ensures NewestFirst(visited)
    ensures forall o :: o in visited <==>
      KeyOf(o) in rows && rows[KeyOf(o)] == o && o.tenant == tenant && o.source == source && filter(o)
  {
    hide StringLess;
    forall i, j | 0 <= i < j < |visited|
      ensures visited[i].eventTime > visited[j].eventTime
           || (visited[i].eventTime == visited[j].eventTime && StringLess(visited[j].id, visited[i].id))
    {
      assert Precedes(all[i], all[j]);
    }
    forall o | KeyOf(o) in rows && rows[KeyOf(o)] == o && o.tenant == tenant && o.source == source && filter(o)
      ensures o in visited
    {
      assert Matches(rows[KeyOf(o)], tenant, source, filter);
      assert PageKeyOf(o) in Matching(rows, tenant, source, filter);
      var i :| 0 <= i < |all| && all[i] == PageKeyOf(o);
      assert visited[i] in visited && KeyOf(visited[i]) == KeyOf(o);
    }
  }

  // No page boundary falls on an observation with an empty id.
  ghost predicate BoundariesNamed(all: seq<PageKey>, limit: nat) {
    forall k: nat | 0 < k < |all| && limit > 0 && k % limit == 0 :: all[k - 1].id != ""
  }

  /** Following the next anchors from the start visits every matching observation exactly once, newest
      first, whatever the page size. The walk breaks off exactly when an observation with an empty
      id falls on a page boundary. */
  method Walk(rows: map<RecordKey, Observation>, tenant: string, source: string, limit: nat, filter: Observation -> bool,
              ghost all: seq<PageKey>)
    returns (ok: bool, visited: seq<Observation>)
    requires Keyed(rows) && 1 <= limit <= MAX_LIST_LIMIT
    requires Ascending(all, Precedes) && forall x :: x in all <==> x in Matching(rows, tenant, source, filter)
    ensures ok <==> BoundariesNamed(all, limit)
    ensures ok ==> Keys(visited) == all
    ensures forall o | o in visited ::
      KeyOf(o) in rows && rows[KeyOf(o)] == o && o.tenant == tenant && o.source == source && filter(o)
    ensures ok ==> NewestFirst(visited) && forall o :: o in visited <==>
      KeyOf(o) in rows && rows[KeyOf(o)] == o && o.tenant == tenant && o.source == source && filter(o)
  {
    hide Precedes, IsPage, StrictTotalOrder, BoundariesNamed, Ascending, MoreAfter, BoundariesBefore, Seen, NewestFirst, EndsUnnamed,
      Matching;
    PrecedesOrder();
    ghost var matching := Matching(rows, tenant, source, filter);
    var anchor: Option<PageKey> := None;
    visited := [];
    NothingVisited(matching);
    WalkStarts(all, limit);
    while true
      invariant Seen(matching, Precedes, anchor, Keys(visited)) && Keys(visited) <= all
      invariant |visited| % limit == 0 && BoundariesBefore(all, limit, |visited|)
      invariant forall o | o in visited ::
        KeyOf(o) in rows && rows[KeyOf(o)] == o && o.tenant == tenant && o.source == source && filter(o)
      decreases |all| - |visited|
    {
      var r := ListPage(rows, tenant, source, limit, anchor, filter);
      if r.BadAnchor? {
        BoundaryBreaks(matching, all, anchor, limit, Keys(visited));
        return false, visited;
      }
      NextPage(matching, all, anchor, limit, Keys(visited), Keys(r.observations));
      PageWithin(matching, anchor, limit, Keys(r.observations));
      BoundaryStep(all, limit, |visited|, |visited| + |r.observations|);
      KeysPlus(visited, r.observations);
      visited := visited + r.observations;
      if !r.hasMore {
        VisitedRead(rows, tenant, source, filter, all, visited);
        return true, visited;
      }
      anchor := r.next;
    }
  }

  lemma KeysPlus(a: seq<Observation>, b: seq<Observation>)
    ensures Keys(a + b) == Keys(a) + Keys(b)
  {
  }

  lemma BoundaryBreaks(rows: set<PageKey>, all: seq<PageKey>, anchor: Option<PageKey>, limit: nat, seen: seq<PageKey>)
    requires Ascending(all, Precedes) && (forall x :: x in all <==> x in rows) && limit > 0
    requires Seen(rows, Precedes, anchor, seen) && seen <= all
    requires |seen| % limit == 0 && BoundariesBefore(all, limit, |seen|)
    requires exists page :: EndsUnnamed(rows, anchor, limit, page)
    ensures !BoundariesNamed(all, limit)
  {
    hide Precedes, IsPage, BoundariesNamed, Ascending, MoreAfter, BoundariesBefore, Seen;
    var page :| EndsUnnamed(rows, anchor, limit, page);
    NextPage(rows, all, anchor, limit, seen, page);
    BoundaryStep(all, limit, |seen|, |seen| + limit);
  }

  ghost predicate BoundariesBefore(all: seq<PageKey>, limit: nat, n: nat) {
    forall k: nat | 0 < k <= n && k < |all| && limit > 0 && k % limit == 0 :: all[k - 1].id != ""
  }

  lemma NothingVisited(rows: set<PageKey>)
    ensures Seen(rows, Precedes, None, [])
  {
  }

  lemma WalkStarts(all: seq<PageKey>, limit: nat)
    ensures BoundariesBefore(all, limit, 0)
  {
  }

  /** A page extends the visited prefix; it is the last exactly when the prefix is then complete. */
  lemma NextPage(rows: set<PageKey>, all: seq<PageKey>, anchor: Option<PageKey>, limit: nat, seen: seq<PageKey>, page: seq<PageKey>)
    requires Ascending(all, Precedes) && (forall x :: x in all <==> x in rows) && limit > 0
    requires Seen(rows, Precedes, anchor, seen) && IsPage(rows, Precedes, anchor, limit, page)
    ensures seen + page <= all
    ensures MoreAfter(rows, anchor, page) ==>
      |page| == limit && |seen + page| < |all| && Seen(rows, Precedes, Some(page[limit - 1]), seen + page)
    ensures !MoreAfter(rows, anchor, page) ==> seen + page == all
  {
    hide Precedes;
    PrecedesOrder();
    PageExtends(rows, Precedes, anchor, limit, seen, page);
    forall x, y | x in all && x !in seen + page && y in seen + page
      ensures Precedes(y, x)
    {
      assert After(Precedes, anchor, x);
      if y in seen {
        var i :| 0 <= i < |seen| && seen[i] == y;
        if i < |seen| - 1 {
          Transitive(Precedes, y, anchor.value, x);
        }
      }
    }
    VisitedPrefix(all, seen + page);
    if MoreAfter(rows, anchor, page) {
      var x :| x in rows && After(Precedes, anchor, x) && x !in page;
      NotSeen(rows, anchor, seen, x);
      ShorterPrefix(all, seen + page, x);
    } else {
      forall x | x in all
        ensures x in seen + page
      {
        assert x in seen || After(Precedes, anchor, x);
      }
      AscendingUnique(seen + page, all, Precedes);
    }
  }

  lemma ShorterPrefix(all: seq<PageKey>, s: seq<PageKey>, x: PageKey)
    requires s <= all && x in all && x !in s
    ensures |s| < |all|
  {
    var i :| 0 <= i < |all| && all[i] == x;
    assert forall j | 0 <= j < |s| :: all[j] == s[j] && s[j] in s;
  }

  lemma NotSeen(rows: set<PageKey>, anchor: Option<PageKey>, seen: seq<PageKey>, x: PageKey)
    requires Seen(rows, Precedes, anchor, seen) && After(Precedes, anchor, x)
    ensures x !in seen
  {
    hide Precedes;
    forall y | y in seen
      ensures y != x
    {
      var i :| 0 <= i < |seen| && seen[i] == y;
      assert y == anchor.value || Precedes(y, anchor.value);
      NotBoth(y, anchor.value);
    }
  }

  lemma BoundaryStep(all: seq<PageKey>, limit: nat, n: nat, n': nat)
    requires limit > 0 && n % limit == 0 && BoundariesBefore(all, limit, n) && n <= n' <= |all| && n' - n <= limit
    ensures n' == |all| ==> BoundariesNamed(all, limit)
    ensures n' == n + limit && n' < |all| && all[n' - 1].id != "" ==> BoundariesBefore(all, limit, n') && n' % limit == 0
    ensures n' == n + limit && n' < |all| && all[n' - 1].id == "" ==> !BoundariesNamed(all, limit)
  {
    forall k: nat | n < k < n + limit
      ensures k % limit != 0
    {
      BetweenMultiples(n, limit, k);
    }
    NextMultiple(n, limit);
  }

  lemma Remainder(k: int, limit: int, q: int, r: nat)
    requires limit > 0 && k == q * limit + r && r < limit
    ensures k % limit == r
  {
    var d := k / limit - q;
    assert d * limit == r - k % limit;
    assert d >= 1 ==> d * limit >= limit;
    assert d <= -1 ==> d * limit <= -limit;
  }

  lemma NextMultiple(n: nat, limit: nat)
    requires limit > 0 && n % limit == 0
    ensures (n + limit) % limit == 0
  {
    var q := n / limit;
    assert (q + 1) * limit == q * limit + limit;
    Remainder(n + limit, limit, q + 1, 0);
  }

  lemma BetweenMultiples(n: nat, limit: nat, k: nat)
    requires limit > 0 && n % limit == 0 && n < k < n + limit
    ensures k % limit != 0
  {
    Remainder(k, limit, n / limit, k - n);
  }
}
