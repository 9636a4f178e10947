/** Min/max aggregation: the seen and sequence bounds that every projected row carries. */
module Spans {

  // One contribution to a row: its ingest sequence and event time.
  datatype Point = Point(seqNo: nat, time: int)

  datatype Span = Span(firstSeen: int, lastSeen: int, firstSeq: nat, lastSeq: nat)

  function Fresh(p: Point): Span {
    Span(p.time, p.time, p.seqNo, p.seqNo)
  }

  function Widen(s: Span, p: Point): Span {
    Span(if p.time < s.firstSeen then p.time else s.firstSeen,
         if p.time > s.lastSeen then p.time else s.lastSeen,
         if p.seqNo < s.firstSeq then p.seqNo else s.firstSeq,
         if p.seqNo > s.lastSeq then p.seqNo else s.lastSeq)
  }

  // s holds the exact minima and maxima of a nonempty set of points.
  ghost predicate Covers(s: Span, pts: set<Point>) {
    && (exists p :: p in pts && p.time == s.firstSeen)
    && (exists p :: p in pts && p.time == s.lastSeen)
    && (exists p :: p in pts && p.seqNo == s.firstSeq)
    && (exists p :: p in pts && p.seqNo == s.lastSeq)
    && (forall p | p in pts :: s.firstSeen <= p.time <= s.lastSeen && s.firstSeq <= p.seqNo <= s.lastSeq)
  }

  lemma FreshCovers(p: Point)
    ensures Covers(Fresh(p), {p})
  {
    assert p in {p};
  }

  lemma WidenCovers(s: Span, pts: set<Point>, p: Point)
    requires Covers(s, pts)
    ensures Covers(Widen(s, p), pts + {p})
  {
    var a :| a in pts && a.time == s.firstSeen;
    var b :| b in pts && b.time == s.lastSeen;
    var c :| c in pts && c.seqNo == s.firstSeq;
    var d :| d in pts && d.seqNo == s.lastSeq;
    var all := pts + {p};
    assert a in all && b in all && c in all && d in all && p in all;
  }

  lemma CoversUnique(s: Span, s': Span, pts: set<Point>)
    requires Covers(s, pts) && Covers(s', pts)
    ensures s == s'
  {
    var a :| a in pts && a.time == s.firstSeen;
    var b :| b in pts && b.time == s.lastSeen;
    var c :| c in pts && c.seqNo == s.firstSeq;
    var d :| d in pts && d.seqNo == s.lastSeq;
  }

  function Join(s: Span, t: Span): Span {
    Span(if t.firstSeen < s.firstSeen then t.firstSeen else s.firstSeen,
         if t.lastSeen > s.lastSeen then t.lastSeen else s.lastSeen,
         if t.firstSeq < s.firstSeq then t.firstSeq else s.firstSeq,
         if t.lastSeq > s.lastSeq then t.lastSeq else s.lastSeq)
  }

  lemma JoinCovers(s: Span, ps: set<Point>, t: Span, qs: set<Point>)
    requires Covers(s, ps) && Covers(t, qs)
    ensures Covers(Join(s, t), ps + qs)
  {
    var a :| a in ps && a.time == s.firstSeen;
    var b :| b in ps && b.time == s.lastSeen;
    var c :| c in ps && c.seqNo == s.firstSeq;
    var d :| d in ps && d.seqNo == s.lastSeq;
    var e :| e in qs && e.time == t.firstSeen;
    var f :| f in qs && f.time == t.lastSeen;
    var g :| g in qs && g.seqNo == t.firstSeq;
    var h :| h in qs && h.seqNo == t.lastSeq;
    var all := ps + qs;
    assert a in all && b in all && c in all && d in all && e in all && f in all && g in all && h in all;
  }

  // Folding a nonempty set of points gives its bounds.
  method Bounds(pts: set<Point>) returns (s: Span)
    requires pts != {}
    ensures Covers(s, pts)
  {
    var p :| p in pts;
    s := Fresh(p);
    FreshCovers(p);
    var rest := pts - {p};
    ghost var done := {p};
    while rest != {}
      invariant done + rest == pts
      invariant Covers(s, done)
      decreases rest
    {
      var q :| q in rest;
      WidenCovers(s, done, q);
      s := Widen(s, q);
      rest, done := rest - {q}, done + {q};
    }
    assert done == pts;
  }
}
