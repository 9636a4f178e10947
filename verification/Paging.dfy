/** Keyset paging: a bounded query in ascending key order after an anchor, and the loop that
    follows anchors until a short page. */
module Paging {
  import opened Domain

  ghost predicate StrictTotalOrder<T(!new)>(less: (T, T) -> bool) {
    && (forall x :: !less(x, x))
    && (forall x, y, z :: less(x, y) && less(y, z) ==> less(x, z))
    && (forall x, y :: less(x, y) || x == y || less(y, x))
  }

  ghost predicate Ascending<T>(s: seq<T>, less: (T, T) -> bool) {
    forall i, j | 0 <= i < j < |s| :: less(s[i], s[j])
  }

  predicate After<T>(less: (T, T) -> bool, anchor: Option<T>, x: T) {
    anchor.Some? ==> less(anchor.value, x)
  }

  // The answer to: the rows after the anchor, in key order, at most `limit` of them.
  ghost predicate IsPage<T(!new)>(rows: set<T>, less: (T, T) -> bool, anchor: Option<T>, limit: nat, page: seq<T>) {
    && |page| <= limit
    && Ascending(page, less)
    && (forall x | x in page :: x in rows && After(less, anchor, x))
    && (forall x | x in rows && After(less, anchor, x) && x !in page ::
          |page| == limit && forall y | y in page :: less(y, x))
  }

  lemma Transitive<T(!new)>(less: (T, T) -> bool, x: T, y: T, z: T)
    requires StrictTotalOrder(less) && less(x, y) && less(y, z)
    ensures less(x, z)
  {
  }

  lemma Total<T(!new)>(less: (T, T) -> bool, x: T, y: T)
    requires StrictTotalOrder(less)
    ensures less(x, y) || x == y || less(y, x)
  {
  }

  method Least<T(!new)>(rows: set<T>, less: (T, T) -> bool) returns (m: T)
    requires rows != {} && StrictTotalOrder(less)
    ensures m in rows && forall x | x in rows && x != m :: less(m, x)
  {
    m :| m in rows;
    var rest := rows - {m};
    while rest != {}
      invariant rest <= rows && m in rows
      invariant forall x | x in rows - rest && x != m :: less(m, x)
      decreases rest
    {
      var q :| q in rest;
      Total(less, m, q);
      if less(q, m) {
        forall x | x in rows - rest && x != m
          ensures less(q, x)
        {
          Transitive(less, q, m, x);
        }
        m := q;
      }
      rest := rest - {q};
    }
    assert rows - rest == rows;
  }

  // The database's part: evaluate the query.
  method Query<T(!new)>(rows: set<T>, less: (T, T) -> bool, anchor: Option<T>, limit: nat) returns (page: seq<T>)
    requires StrictTotalOrder(less)
    ensures IsPage(rows, less, anchor, limit, page)
  {
    page := [];
    var rest := set x | x in rows && After(less, anchor, x);
    ghost var all := rest;
    while |page| < limit && rest != {}
      invariant |page| <= limit && rest <= all
      invariant Ascending(page, less)
      invariant forall x | x in page :: x in all && x !in rest
      invariant forall x | x in all && x !in rest :: x in page
      invariant forall x, y | x in page && y in rest :: less(x, y)
      decreases limit - |page|
    {
      var m := Least(rest, less);
      page, rest := page + [m], rest - {m};
    }
  }

  // Everything up to the anchor has been seen, in order, and nothing else.
  ghost predicate Seen<T(!new)>(rows: set<T>, less: (T, T) -> bool, anchor: Option<T>, seen: seq<T>) {
    && Ascending(seen, less)
    && (anchor.Some? <==> seen != [])
    && (anchor.Some? ==> anchor.value == seen[|seen| - 1])
    && (forall x | x in seen :: x in rows)
    && (forall x | x in rows && x !in seen :: After(less, anchor, x))
  }

  lemma PageExtends<T(!new)>(rows: set<T>, less: (T, T) -> bool, anchor: Option<T>, limit: nat, seen: seq<T>, page: seq<T>)
    requires StrictTotalOrder(less) && limit > 0
    requires Seen(rows, less, anchor, seen) && IsPage(rows, less, anchor, limit, page)
    ensures |page| < limit ==> forall x | x in rows :: x in seen + page
    ensures Ascending(seen + page, less)
    ensures forall x | x in seen + page :: x in rows
    ensures page != [] ==> Seen(rows, less, Some(page[|page| - 1]), seen + page)
  {
    forall i, j | 0 <= i < j < |seen + page|
      ensures less((seen + page)[i], (seen + page)[j])
    {
      if i < |seen| <= j {
        var x := page[j - |seen|];
        assert x in page && less(anchor.value, x);
        if i < |seen| - 1 {
          Transitive(less, seen[i], anchor.value, x);
        }
      }
    }
    if page != [] {
      forall x | x in rows && x !in seen + page
        ensures less(page[|page| - 1], x)
      {
        assert page[|page| - 1] in page;
      }
    }
  }

  lemma NothingIn<T>(t: seq<T>)
    requires t != []
    ensures exists x :: x in t
  {
    assert t[0] in t;
  }

  /** Ascending sequences over the same elements are equal, so a complete visit has one possible
      result, whatever the page size. */
  lemma {:induction false} AscendingUnique<T(!new)>(s: seq<T>, t: seq<T>, less: (T, T) -> bool)
    requires StrictTotalOrder(less) && Ascending(s, less) && Ascending(t, less)
    requires forall x :: x in s <==> x in t
    ensures s == t
    decreases |s|
  {
    if t != [] {
      NothingIn(t);
    }
    if s != [] {
      NothingIn(s);
      assert s[0] in s && s[0] in t;
      assert t[0] in t && t[0] in s;
      var i :| 0 <= i < |t| && t[i] == s[0];
      var j :| 0 <= j < |s| && s[j] == t[0];
      assert s[0] == t[0];
      forall x
        ensures x in s[1..] <==> x in t[1..]
      {
        if x in s[1..] {
          var k :| 0 <= k < |s| - 1 && s[1..][k] == x;
          assert less(s[0], s[k + 1]) && x in s;
          var l :| 0 <= l < |t| && t[l] == x;
          assert t[1..][l - 1] == x;
        }
        if x in t[1..] {
          var k :| 0 <= k < |t| - 1 && t[1..][k] == x;
          assert less(t[0], t[k + 1]) && x in t;
          var l :| 0 <= l < |s| && s[l] == x;
          assert s[1..][l - 1] == x;
        }
      }
      AscendingUnique(s[1..], t[1..], less);
      assert s == [s[0]] + s[1..] && t == [t[0]] + t[1..];
    }
  }
}
