/** The entity projector: one row per (tenant, entity id), whose current label and attributes are
    the latest claim by event time with ingest sequence as tie-breaker. */
module EntityProjection {
  import opened Domain
  import opened Spans

  const REFERENCE_CONFLICT := "entity_reference_conflict"
  const TYPE_CONFLICT := "entity_type_conflict"

  datatype EntityKey = EntityKey(tenant: string, id: string)

  datatype EntityRow = EntityRow(
    etype: EntityType,
    displayLabel: string,
    attributes: map<string, string>,
    span: Span,
    latestTime: int,
    latestSeq: nat
  )

  // One observation's claim about one entity.
  datatype Claim = Claim(key: EntityKey, point: Point, ref: EntityRef)

  type Entities = map<EntityKey, EntityRow>

  // (event time, ingest sequence) in lexicographic order.
  predicate Later(p: Point, time: int, seqNo: nat) {
    p.time > time || (p.time == time && p.seqNo > seqNo)
  }

  function FreshRow(c: Claim): EntityRow {
    EntityRow(c.ref.etype, c.ref.displayLabel, c.ref.attributes, Fresh(c.point), c.point.time, c.point.seqNo)
  }

  function MergeRow(row: EntityRow, c: Claim): EntityRow {
    var widened := row.(span := Widen(row.span, c.point));
    if Later(c.point, row.latestTime, row.latestSeq)
    then widened.(displayLabel := c.ref.displayLabel, attributes := c.ref.attributes,
                  latestTime := c.point.time, latestSeq := c.point.seqNo)
    else widened
  }

  // _upsert_entity; None is the entity type conflict.
  function Record(m: Entities, c: Claim): Option<Entities> {
    if c.key in m && m[c.key].etype != c.ref.etype then None
    else Some(m[c.key := if c.key in m then MergeRow(m[c.key], c) else FreshRow(c)])
  }

  function RecordAll(m: Entities, cs: seq<Claim>): Option<Entities> {
    if cs == [] then Some(m)
    else match RecordAll(m, cs[..|cs| - 1])
      case None => None
      case Some(m') => Record(m', cs[|cs| - 1])
  }

  // The subject and object name one entity but describe it differently.
  predicate Contradicts(o: Observation) {
    && o.obj.Some?
    && o.obj.value.id == o.subject.id
    && o.obj.value != o.subject
  }

  function ClaimOf(item: Item, ref: EntityRef): Claim {
    Claim(EntityKey(item.obs.tenant, ref.id), Point(item.seqNo, item.obs.eventTime), ref)
  }

  // The distinct entities an observation refers to, subject first.
  function ClaimsOf(item: Item): seq<Claim> {
    [ClaimOf(item, item.obs.subject)]
    + (if item.obs.obj.Some? && item.obs.obj.value.id != item.obs.subject.id
       then [ClaimOf(item, item.obs.obj.value)] else [])
  }

  function Step(m: Entities, item: Item): Attempt<Entities> {
    if Contradicts(item.obs) then Poison(REFERENCE_CONFLICT)
    else match RecordAll(m, ClaimsOf(item))
      case None => Poison(TYPE_CONFLICT)
      case Some(m') => Done(m')
  }

  class EntityStore {
    var entities: Entities

    constructor ()
      ensures entities == map[]
    {
      entities := map[];
    }

    method Upsert(c: Claim) returns (ok: bool)
      modifies this
      ensures ok <==> Record(old(entities), c).Some?
      ensures entities == if ok then Record(old(entities), c).value else old(entities)
    {
      if c.key !in entities {
        entities := entities[c.key := FreshRow(c)];
        return true;
      }
      var row := entities[c.key];
      if row.etype != c.ref.etype {
        return false;
      }
      var p := c.point;
      if p.time < row.span.firstSeen {
        row := row.(span := row.span.(firstSeen := p.time));
      }
      if p.time > row.span.lastSeen {
        row := row.(span := row.span.(lastSeen := p.time));
      }
      if p.seqNo < row.span.firstSeq {
        row := row.(span := row.span.(firstSeq := p.seqNo));
      }
      if p.seqNo > row.span.lastSeq {
        row := row.(span := row.span.(lastSeq := p.seqNo));
      }
      if Later(p, row.latestTime, row.latestSeq) {
        row := row.(displayLabel := c.ref.displayLabel, attributes := c.ref.attributes);
        row := row.(latestTime := p.time, latestSeq := p.seqNo);
      }
      entities := entities[c.key := row];
      ok := true;
    }

    method Handle(item: Item) returns (verdict: Verdict)
      modifies this
      ensures match Step(old(entities), item)
              case Done(_) => verdict == Handled
              case Poison(code) => verdict == Rejected(code)
              case Aborted => verdict == Raised
      ensures verdict.Handled? ==> entities == Step(old(entities), item).state
    {
      if Contradicts(item.obs) {
        return Rejected(REFERENCE_CONFLICT);
      }
      var cs := ClaimsOf(item);
      ghost var start := entities;
      var i := 0;
      while i < |cs|
        invariant 0 <= i <= |cs|
        invariant RecordAll(start, cs[..i]) == Some(entities)
      {
        assert cs[..i + 1][..i] == cs[..i];
        var ok := Upsert(cs[i]);
        if !ok {
          ConflictPersists(start, cs, i + 1);
          return Rejected(TYPE_CONFLICT);
        }
        i := i + 1;
      }
      assert cs[..i] == cs;
      verdict := Handled;
    }
  }

  lemma {:induction false} ConflictPersists(m: Entities, cs: seq<Claim>, i: nat)
    requires i <= |cs| && RecordAll(m, cs[..i]).None?
    ensures RecordAll(m, cs).None?
    decreases |cs|
  {
    if i == |cs| {
      assert cs[..i] == cs;
    } else {
      assert cs[..|cs| - 1][..i] == cs[..i];
      ConflictPersists(m, cs[..|cs| - 1], i);
    }
  }

  /* ----- The meaning of the rows ----- */

  ghost function ClaimsAbout(cs: set<Claim>, key: EntityKey): set<Claim> {
    set c | c in cs && c.key == key
  }

  ghost function Points(cs: set<Claim>): set<Point> {
    set c | c in cs :: c.point
  }

  // c is the lexicographically greatest claim, and the row shows it.
  ghost predicate ShowsLatest(row: EntityRow, cs: set<Claim>, c: Claim) {
    && c in cs
    && row.displayLabel == c.ref.displayLabel && row.attributes == c.ref.attributes
    && row.latestTime == c.point.time && row.latestSeq == c.point.seqNo
    && forall d | d in cs :: !Later(d.point, c.point.time, c.point.seqNo)
  }

  ghost predicate RowExact(row: EntityRow, cs: set<Claim>) {
    && (forall c | c in cs :: c.ref.etype == row.etype)
    && Covers(row.span, Points(cs))
    && exists c :: ShowsLatest(row, cs, c)
  }

  ghost predicate EntitiesExact(m: Entities, cs: set<Claim>) {
    && (forall c | c in cs :: c.key in m)
    && (forall key | key in m :: RowExact(m[key], ClaimsAbout(cs, key)))
  }

  // Claims about one entity at one position are one claim.
  ghost predicate Identified(cs: set<Claim>) {
    forall c, d | c in cs && d in cs && c.key == d.key && c.point.seqNo == d.point.seqNo :: c == d
  }

  /** The latest claim is the last sighting, and its position lies within the row's bounds. */
  lemma LatestClaimIsLastSeen(row: EntityRow, cs: set<Claim>)
    requires RowExact(row, cs)
    ensures row.latestTime == row.span.lastSeen
    ensures row.span.firstSeq <= row.latestSeq <= row.span.lastSeq
  {
    var c :| ShowsLatest(row, cs, c);
    assert c.point in Points(cs);
    var p :| p in Points(cs) && p.time == row.span.lastSeen;
    var d :| d in cs && d.point == p;
    assert !Later(d.point, c.point.time, c.point.seqNo);
  }

  lemma PointsPlus(cs: set<Claim>, c: Claim)
    ensures Points(cs + {c}) == Points(cs) + {c.point}
  {
    assert c in cs + {c};
    forall p | p in Points(cs)
      ensures p in Points(cs + {c})
    {
      var d :| d in cs && d.point == p;
      assert d in cs + {c};
    }
  }

  lemma MergeRowExact(row: EntityRow, cs: set<Claim>, c: Claim)
    requires RowExact(row, cs) && row.etype == c.ref.etype
    ensures RowExact(MergeRow(row, c), cs + {c})
  {
    hide Covers;
    PointsPlus(cs, c);
    WidenCovers(row.span, Points(cs), c.point);
    var top :| ShowsLatest(row, cs, top);
    var top' := if Later(c.point, row.latestTime, row.latestSeq) then c else top;
    assert ShowsLatest(MergeRow(row, c), cs + {c}, top');
  }

  lemma FreshRowExact(c: Claim)
    ensures RowExact(FreshRow(c), {c})
  {
    FreshCovers(c.point);
    assert Points({c}) == {c.point};
    assert ShowsLatest(FreshRow(c), {c}, c);
  }

  lemma RowUnique(row: EntityRow, row': EntityRow, cs: set<Claim>)
    requires RowExact(row, cs) && RowExact(row', cs)
    requires forall c, d | c in cs && d in cs && c.point.seqNo == d.point.seqNo :: c == d
    ensures row == row'
  {
    hide Covers;
    CoversUnique(row.span, row'.span, Points(cs));
    var c :| ShowsLatest(row, cs, c);
    var d :| ShowsLatest(row', cs, d);
    assert c.point.time == d.point.time && c.point.seqNo == d.point.seqNo;
  }

  lemma RecordExact(m: Entities, cs: set<Claim>, c: Claim)
    requires EntitiesExact(m, cs) && Record(m, c).Some?
    ensures EntitiesExact(Record(m, c).value, cs + {c})
  {
    hide RowExact;
    var m' := Record(m, c).value;
    forall key | key in m'
      ensures RowExact(m'[key], ClaimsAbout(cs + {c}, key))
    {
      var mine := ClaimsAbout(cs, key);
      if key != c.key {
        assert ClaimsAbout(cs + {c}, key) == mine;
      } else if key in m {
        assert ClaimsAbout(cs + {c}, key) == mine + {c};
        MergeRowExact(m[key], mine, c);
      } else {
        assert ClaimsAbout(cs + {c}, key) == {c};
        FreshRowExact(c);
      }
    }
  }

  ghost function ClaimSet(cs: seq<Claim>): set<Claim> {
    set c | c in cs
  }

  lemma {:induction false} RecordAllExact(m: Entities, cs: set<Claim>, more: seq<Claim>)
    requires EntitiesExact(m, cs) && RecordAll(m, more).Some?
    ensures EntitiesExact(RecordAll(m, more).value, cs + ClaimSet(more))
  {
    hide EntitiesExact;
    if more == [] {
      assert cs + ClaimSet(more) == cs;
    } else {
      var init, c := more[..|more| - 1], more[|more| - 1];
      assert more == init + [c];
      RecordAllExact(m, cs, init);
      RecordExact(RecordAll(m, init).value, cs + ClaimSet(init), c);
      assert cs + ClaimSet(init) + {c} == cs + ClaimSet(more);
    }
  }

  /* ----- Any order, any repetition ----- */

  ghost function ItemClaims(items: set<Item>): set<Claim> {
    set it, c | it in items && c in ClaimsOf(it) :: c
  }

  function Project(items: seq<Item>): Attempt<Entities> {
    if items == [] then Done(map[])
    else match Project(items[..|items| - 1])
      case Done(m) => Step(m, items[|items| - 1])
      case other => other
  }

  lemma ItemClaimsPlus(items: set<Item>, it: Item)
    ensures ItemClaims(items + {it}) == ItemClaims(items) + ClaimSet(ClaimsOf(it))
  {
    hide ClaimsOf;
    assert it in items + {it};
    forall c | c in ItemClaims(items)
      ensures c in ItemClaims(items + {it})
    {
      var x :| x in items && c in ClaimsOf(x);
      assert x in items + {it};
    }
  }

  lemma StepExact(m: Entities, items: set<Item>, it: Item)
    requires EntitiesExact(m, ItemClaims(items)) && Step(m, it).Done?
    ensures EntitiesExact(Step(m, it).state, ItemClaims(items + {it}))
  {
    hide EntitiesExact, ClaimsOf;
    ItemClaimsPlus(items, it);
    RecordAllExact(m, ItemClaims(items), ClaimsOf(it));
  }

  /** However the items were ordered and repeated, each row shows the lexicographically greatest
      claim about its entity and the true bounds of all of them. */
  lemma {:induction false} ProjectExact(items: seq<Item>)
    requires Project(items).Done?
    ensures EntitiesExact(Project(items).state, ItemClaims(ItemSet(items)))
  {
    hide EntitiesExact, Step;
    if items == [] {
      EmptyExact();
      assert ItemClaims(ItemSet(items)) == {};
    } else {
      var init, it := items[..|items| - 1], items[|items| - 1];
      assert items == init + [it];
      ProjectExact(init);
      StepExact(Project(init).state, ItemSet(init), it);
      assert ItemSet(items) == ItemSet(init) + {it};
    }
  }

  lemma EmptyExact()
    ensures EntitiesExact(map[], {})
  {
  }

  // A position names one item, as in the ingest log.
  ghost predicate Sequenced(items: set<Item>) {
    forall a, b | a in items && b in items && a.seqNo == b.seqNo :: a == b
  }

  lemma ClaimsIdentified(items: set<Item>)
    requires Sequenced(items)
    ensures Identified(ItemClaims(items))
  {
    forall c, d | c in ItemClaims(items) && d in ItemClaims(items) && c.key == d.key && c.point.seqNo == d.point.seqNo
      ensures c == d
    {
      var x :| x in items && c in ClaimsOf(x);
      var y :| y in items && d in ClaimsOf(y);
      assert x.seqNo == y.seqNo;
    }
  }

  lemma EntitiesUnique(m: Entities, m': Entities, cs: set<Claim>)
    requires EntitiesExact(m, cs) && EntitiesExact(m', cs) && Identified(cs)
    ensures m == m'
  {
    EntityKeys(m, cs);
    EntityKeys(m', cs);
    hide RowExact, ClaimsAbout, Identified;
    assert m.Keys == m'.Keys;
    forall key | key in m
      ensures m[key] == m'[key]
    {
      RowDetermined(m[key], m'[key], cs, key);
    }
  }

  lemma RowDetermined(row: EntityRow, row': EntityRow, cs: set<Claim>, key: EntityKey)
    requires RowExact(row, ClaimsAbout(cs, key)) && RowExact(row', ClaimsAbout(cs, key)) && Identified(cs)
    ensures row == row'
  {
    hide RowExact;
    RowUnique(row, row', ClaimsAbout(cs, key));
  }

  lemma EntityKeys(m: Entities, cs: set<Claim>)
    requires EntitiesExact(m, cs)
    ensures m.Keys == set c | c in cs :: c.key
  {
    forall key | key in m
      ensures exists c :: c in cs && c.key == key
    {
      var c :| ShowsLatest(m[key], ClaimsAbout(cs, key), c);
    }
  }

  // No observation contradicts itself, and no entity id is given two types.
  ghost predicate NoContradictions(items: set<Item>) {
    forall it | it in items :: !Contradicts(it.obs)
  }

  ghost predicate Acceptable(items: set<Item>) {
    && NoContradictions(items)
    && (forall c, d | c in ItemClaims(items) && d in ItemClaims(items) && c.key == d.key :: c.ref.etype == d.ref.etype)
  }

  lemma RecordAllSucceeds(m: Entities, it: Item)
    ensures RecordAll(m, ClaimsOf(it)).Some? <==>
      forall c | c in ClaimsOf(it) :: c.key in m ==> m[c.key].etype == c.ref.etype
  {
    var cs := ClaimsOf(it);
    var first := [ClaimOf(it, it.obs.subject)];
    assert first[..0] == [];
    assert cs[..1] == first;
    assert RecordAll(m, first) == Record(m, first[0]);
    assert cs[0] in cs;
    if |cs| == 2 {
      assert RecordAll(m, cs[..|cs| - 1]) == RecordAll(m, first);
      assert cs[1] in cs && cs[0].key != cs[1].key;
    }
  }

  lemma StepSucceeds(m: Entities, items: set<Item>, it: Item)
    requires EntitiesExact(m, ItemClaims(items)) && Acceptable(items)
    ensures Step(m, it).Done? <==> Acceptable(items + {it})
  {
    hide RowExact, ClaimsOf, ItemClaims;
    ItemClaimsPlus(items, it);
    RecordAllSucceeds(m, it);
    EntityKeys(m, ItemClaims(items));
    assert it in items + {it};
    forall c | c in ItemClaims(items)
      ensures c.key in m && m[c.key].etype == c.ref.etype
    {
      RowType(m[c.key], ClaimsAbout(ItemClaims(items), c.key), c);
    }
    SameItemTypes(it);
  }

  lemma RowType(row: EntityRow, cs: set<Claim>, c: Claim)
    requires RowExact(row, cs) && c in cs
    ensures row.etype == c.ref.etype
  {
  }

  // One observation's claims are about different entities.
  lemma SameItemTypes(it: Item)
    ensures forall c, d | c in ClaimsOf(it) && d in ClaimsOf(it) && c.key == d.key :: c == d
  {
  }

  /** Whether the projector accepts a sequence depends only on the set of its items. */
  lemma {:induction false} ProjectSucceeds(items: seq<Item>)
    ensures Project(items).Done? <==> Acceptable(ItemSet(items))
  {
    hide Acceptable, Step, EntitiesExact;
    if items == [] {
      NothingAcceptable();
      assert ItemSet(items) == {};
    } else {
      var init, it := items[..|items| - 1], items[|items| - 1];
      assert items == init + [it];
      assert ItemSet(items) == ItemSet(init) + {it};
      ProjectSucceeds(init);
      if Project(init).Done? {
        ProjectExact(init);
        StepSucceeds(Project(init).state, ItemSet(init), it);
      } else {
        AcceptableShrinks(ItemSet(init), it);
      }
    }
  }

  lemma NothingAcceptable()
    ensures Acceptable({})
  {
  }

  lemma AcceptableShrinks(items: set<Item>, it: Item)
    ensures Acceptable(items + {it}) ==> Acceptable(items)
  {
    hide ClaimsOf;
    ItemClaimsPlus(items, it);
    assert forall x | x in items :: x in items + {it};
  }

  /** Two runs over the same items, in any order and with any repeats, end alike. */
  lemma OrderAndRepetitionIrrelevant(items: seq<Item>, items': seq<Item>)
    requires ItemSet(items) == ItemSet(items') && Sequenced(ItemSet(items))
    ensures Project(items).Done? <==> Project(items').Done?
    ensures Project(items).Done? ==> Project(items) == Project(items')
  {
    hide EntitiesExact, Identified, Acceptable;
    ProjectSucceeds(items);
    ProjectSucceeds(items');
    if Project(items).Done? {
      ProjectExact(items);
      ProjectExact(items');
      ClaimsIdentified(ItemSet(items));
      EntitiesUnique(Project(items).state, Project(items').state, ItemClaims(ItemSet(items)));
    }
  }

  /* ----- The rows in terms of the observations ----- */

  // The item's observation refers to the entity, as subject or object.
  predicate Refers(it: Item, key: EntityKey, ref: EntityRef) {
    && it.obs.tenant == key.tenant && ref.id == key.id
    && (ref == it.obs.subject || it.obs.obj == Some(ref))
  }

  lemma ReferenceIsClaim(items: set<Item>, it: Item, key: EntityKey, ref: EntityRef)
    requires NoContradictions(items) && it in items && Refers(it, key, ref)
    ensures exists c :: c in ItemClaims(items) && c.key == key && c.ref == ref
                        && c.point.time == it.obs.eventTime && c.point.seqNo == it.seqNo
  {
    var c := if it.obs.obj.Some? && it.obs.obj.value.id == it.obs.subject.id then ClaimOf(it, it.obs.subject) else ClaimOf(it, ref);
    assert c in ClaimsOf(it);
  }

  lemma ClaimIsReference(items: set<Item>, c: Claim)
    requires c in ItemClaims(items)
    ensures exists it :: it in items && Refers(it, c.key, c.ref) && c.point.time == it.obs.eventTime && c.point.seqNo == it.seqNo
  {
    var it :| it in items && c in ClaimsOf(it);
    assert Refers(it, c.key, c.ref);
  }

  // The row of the entity shows the reference ref of the item it.
  predicate Shown(row: EntityRow, it: Item, ref: EntityRef) {
    && row.displayLabel == ref.displayLabel && row.attributes == ref.attributes
    && row.latestTime == it.obs.eventTime && row.latestSeq == it.seqNo
  }

  // No reference is later than (time, seqNo), nor outside the row's bounds, and each has its type.
  predicate Bounded(row: EntityRow, it: Item, ref: EntityRef) {
    && ref.etype == row.etype
    && (it.obs.eventTime < row.latestTime || (it.obs.eventTime == row.latestTime && it.seqNo <= row.latestSeq))
    && row.span.firstSeen <= it.obs.eventTime <= row.span.lastSeen
    && row.span.firstSeq <= it.seqNo <= row.span.lastSeq
  }

  /** There is a row for exactly the entities the items refer to. Its label and attributes are those of the
      reference with the greatest event time and, among these, the greatest ingest sequence, which it
      records; every reference has its type and lies within its bounds, each of which one attains. */
  lemma RowsRead(m: Entities, items: set<Item>, key: EntityKey)
    requires EntitiesExact(m, ItemClaims(items)) && NoContradictions(items)
    ensures key in m <==> exists it, ref :: it in items && Refers(it, key, ref)
    ensures key in m ==>
      var row := m[key];
      && (exists it, ref :: it in items && Refers(it, key, ref) && Shown(row, it, ref))
      && (forall it, ref | it in items && Refers(it, key, ref) :: Bounded(row, it, ref))
      && (exists it, ref :: it in items && Refers(it, key, ref) && it.obs.eventTime == row.span.firstSeen)
      && (exists it, ref :: it in items && Refers(it, key, ref) && it.obs.eventTime == row.span.lastSeen)
      && (exists it, ref :: it in items && Refers(it, key, ref) && it.seqNo == row.span.firstSeq)
      && (exists it, ref :: it in items && Refers(it, key, ref) && it.seqNo == row.span.lastSeq)
  {
    hide ItemClaims, ClaimsAbout, Refers, ShowsLatest, Covers, Points, NoContradictions, RowExact;
    EntityKeys(m, ItemClaims(items));
    forall it, ref | it in items && Refers(it, key, ref)
      ensures key in m && Bounded(m[key], it, ref)
    {
      ReferenceIsClaim(items, it, key, ref);
      var c :| c in ItemClaims(items) && c.key == key && c.ref == ref && c.point.time == it.obs.eventTime && c.point.seqNo == it.seqNo;
      ClaimBounded(m[key], ItemClaims(items), c);
    }
    if key in m {
      ClaimsShown(m[key], items, key);
    }
  }

  lemma ClaimBounded(row: EntityRow, cs: set<Claim>, c: Claim)
    requires RowExact(row, ClaimsAbout(cs, c.key)) && c in cs
    ensures c.ref.etype == row.etype
    ensures c.point.time < row.latestTime || (c.point.time == row.latestTime && c.point.seqNo <= row.latestSeq)
    ensures row.span.firstSeen <= c.point.time <= row.span.lastSeen && row.span.firstSeq <= c.point.seqNo <= row.span.lastSeq
  {
    assert c in ClaimsAbout(cs, c.key) && c.point in Points(ClaimsAbout(cs, c.key));
  }

  lemma ClaimsShown(row: EntityRow, items: set<Item>, key: EntityKey)
    requires RowExact(row, ClaimsAbout(ItemClaims(items), key))
    ensures exists it, ref :: it in items && Refers(it, key, ref) && Shown(row, it, ref)
    ensures exists it, ref :: it in items && Refers(it, key, ref) && it.obs.eventTime == row.span.firstSeen
    ensures exists it, ref :: it in items && Refers(it, key, ref) && it.obs.eventTime == row.span.lastSeen
    ensures exists it, ref :: it in items && Refers(it, key, ref) && it.seqNo == row.span.firstSeq
    ensures exists it, ref :: it in items && Refers(it, key, ref) && it.seqNo == row.span.lastSeq
  {
    hide ItemClaims, Refers;
    var cs := ClaimsAbout(ItemClaims(items), key);
    var c :| ShowsLatest(row, cs, c);
    var first :| first in Points(cs) && first.time == row.span.firstSeen;
    var last :| last in Points(cs) && last.time == row.span.lastSeen;
    var least :| least in Points(cs) && least.seqNo == row.span.firstSeq;
    var greatest :| greatest in Points(cs) && greatest.seqNo == row.span.lastSeq;
    ClaimIsReference(items, c);
    PointIsReference(items, key, first);
    PointIsReference(items, key, last);
    PointIsReference(items, key, least);
    PointIsReference(items, key, greatest);
  }

  lemma PointIsReference(items: set<Item>, key: EntityKey, p: Point)
    requires p in Points(ClaimsAbout(ItemClaims(items), key))
    ensures exists it, ref :: it in items && Refers(it, key, ref) && p.time == it.obs.eventTime && p.seqNo == it.seqNo
  {
    hide ItemClaims, Refers;
    var c :| c in ClaimsAbout(ItemClaims(items), key) && c.point == p;
    ClaimIsReference(items, c);
  }

  // An earlier item gives an entity the item refers to another type.
  ghost predicate Retyped(items: set<Item>, it: Item) {
    exists key, ref, prior, was :: prior in items && Refers(prior, key, was) && Refers(it, key, ref) && was.etype != ref.etype
  }

  /** How one item ends on such rows: it is rejected for contradicting itself exactly when its subject and
      object are one entity described in two ways, rejected for a type conflict exactly when an earlier
      reference gave one of its entities another type, and never raises. */
  lemma StepReports(m: Entities, items: set<Item>, it: Item)
    requires EntitiesExact(m, ItemClaims(items)) && Acceptable(items)
    ensures var contradicts := it.obs.obj.Some? && it.obs.obj.value.id == it.obs.subject.id && it.obs.obj.value != it.obs.subject;
      && (Step(m, it) == Poison("entity_reference_conflict") <==> contradicts)
      && (Step(m, it) == Poison("entity_type_conflict") <==> !contradicts && Retyped(items, it))
      && (Step(m, it).Done? <==> !contradicts && !Retyped(items, it))
  {
    hide EntitiesExact, ItemClaims, Refers, Acceptable, RecordAll, ClaimsOf;
    StepSucceeds(m, items, it);
    if !Contradicts(it.obs) {
      AcceptablePlus(items, it);
    }
  }

  lemma AcceptablePlus(items: set<Item>, it: Item)
    requires Acceptable(items) && !Contradicts(it.obs)
    ensures Acceptable(items + {it}) <==>
      !Retyped(items, it)
  {
    hide Refers, ItemClaims;
    var all := items + {it};
    assert NoContradictions(all);
    if key, ref, prior, was :| prior in items && Refers(prior, key, was) && Refers(it, key, ref) && was.etype != ref.etype {
      ReferenceIsClaim(all, prior, key, was);
      ReferenceIsClaim(all, it, key, ref);
    } else {
      forall c, d | c in ItemClaims(all) && d in ItemClaims(all) && c.key == d.key
        ensures c.ref.etype == d.ref.etype
      {
        SameTypes(items, it, c, d);
      }
    }
  }

  lemma SameTypes(items: set<Item>, it: Item, c: Claim, d: Claim)
    requires Acceptable(items) && !Contradicts(it.obs) && c.key == d.key
    requires c in ItemClaims(items + {it}) && d in ItemClaims(items + {it})
    requires !Retyped(items, it)
    ensures c.ref.etype == d.ref.etype
  {
    hide ItemClaims;
    ClaimIsReference(items + {it}, c);
    ClaimIsReference(items + {it}, d);
    var a :| a in items + {it} && Refers(a, c.key, c.ref);
    var b :| b in items + {it} && Refers(b, d.key, d.ref);
    if a in items && b in items {
      ReferenceIsClaim(items, a, c.key, c.ref);
      ReferenceIsClaim(items, b, d.key, d.ref);
    }
  }

  /** The same of any accepted sequence of items, with repetitions and in any order. */
  lemma ProjectRead(items: seq<Item>, key: EntityKey)
    requires Project(items).Done?
    ensures var m, all := Project(items).state, ItemSet(items);
      && (key in m <==> exists it, ref :: it in all && Refers(it, key, ref))
      && (key in m ==>
            && (exists it, ref :: it in all && Refers(it, key, ref) && Shown(m[key], it, ref))
            && (forall it, ref | it in all && Refers(it, key, ref) :: Bounded(m[key], it, ref)))
  {
    hide Project, Refers, ItemClaims, EntitiesExact;
    ProjectExact(items);
    ProjectSucceeds(items);
    RowsRead(Project(items).state, ItemSet(items), key);
  }
}
