/** The text a relationship identifier is hashed from, and when it determines the relationship. */
module Identifiers {
  import opened Domain
  import opened RelationshipGraph

  function TypeName(r: RelationshipType): string {
    match r
    case HasVulnerability => "has_vulnerability"
    case Targeted => "targeted"
    case CommunicatesWith => "communicates_with"
    case RunsOn => "runs_on"
    case Spawned => "spawned"
    case AuthenticatedTo => "authenticated_to"
    case Accessed => "accessed"
    case ResolvedTo => "resolved_to"
    case Exploited => "exploited"
    case Compromised => "compromised"
    case MovedLaterallyTo => "moved_laterally_to"
  }

  function ProvenanceName(p: Provenance): string {
    match p
    case Observed => "observed"
    case Deterministic => "deterministic"
  }

  function RuleName(rule: Option<RuleId>): string {
    match rule
    case None => "direct"
    case Some(CorSeq001) => "COR-SEQ-001"
    case Some(CorSeq002) => "COR-SEQ-002"
    case Some(CorSeq003) => "COR-SEQ-003"
  }

  function Parts(id: RelationshipId): seq<string> {
    [id.tenant, id.source, TypeName(id.rtype), id.target, ProvenanceName(id.provenance), RuleName(id.rule)]
  }

  function Join(parts: seq<string>): string {
    if parts == [] then "" else if |parts| == 1 then parts[0] else parts[0] + "|" + Join(parts[1..])
  }

  function Material(id: RelationshipId): string {
    Join(Parts(id))
  }

  predicate Plain(s: string) {
    forall i | 0 <= i < |s| :: s[i] != '|'
  }

  // The text up to the first separator is determined.
  lemma FirstPart(a: string, rest: string, b: string, rest': string)
    requires Plain(a) && Plain(b) && a + "|" + rest == b + "|" + rest'
    ensures a == b && rest == rest'
  {
    var text := a + "|" + rest;
    assert text[|a|] == '|' && text[|b|] == '|';
    assert text[..|a|] == a && text[..|b|] == b;
    assert forall k | 0 <= k < |a| :: text[k] == a[k];
    assert forall k | 0 <= k < |b| :: text[k] == b[k];
    assert text[|a| + 1..] == rest && text[|b| + 1..] == rest';
  }

  // The text after the last separator is determined.
  lemma LastPart(rest: string, a: string, rest': string, b: string)
    requires Plain(a) && Plain(b) && rest + "|" + a == rest' + "|" + b
    ensures a == b && rest == rest'
  {
    var text := rest + "|" + a;
    assert text[|rest|] == '|' && text[|rest'|] == '|';
    assert forall k | |rest| < k < |text| :: text[k] == a[k - |rest| - 1];
    assert forall k | |rest'| < k < |text| :: text[k] == b[k - |rest'| - 1];
    assert text[..|rest|] == rest && text[..|rest'|] == rest';
    assert text[|rest| + 1..] == a && text[|rest'| + 1..] == b;
  }

  lemma TypeNamePlain(r: RelationshipType)
    ensures Plain(TypeName(r))
  {
  }

  lemma TypeNamesDiffer(r: RelationshipType, s: RelationshipType)
    requires TypeName(r) == TypeName(s)
    ensures r == s
  {
    var n, c := TypeName(r), TypeName(s);
    assert |n| == |c| && n[0] == c[0];
  }

  lemma EndNames(a: RelationshipId, b: RelationshipId)
    ensures Plain(ProvenanceName(a.provenance)) && Plain(RuleName(a.rule))
    ensures ProvenanceName(a.provenance) == ProvenanceName(b.provenance) ==> a.provenance == b.provenance
    ensures RuleName(a.rule) == RuleName(b.rule) ==> a.rule == b.rule
  {
    assert |ProvenanceName(Observed)| != |ProvenanceName(Deterministic)|;
    var x, y := RuleName(a.rule), RuleName(b.rule);
    assert x == y ==> x[|x| - 1] == y[|y| - 1];
  }

  // The part of the text an entity id can blur: source, type and target.
  function Edge(id: RelationshipId): string {
    id.source + "|" + TypeName(id.rtype) + "|" + id.target
  }

  lemma MaterialOf(id: RelationshipId)
    ensures Material(id) == id.tenant + "|" + (Edge(id) + "|" + ProvenanceName(id.provenance) + "|" + RuleName(id.rule))
  {
    hide TypeName, ProvenanceName, RuleName;
    var p := Parts(id);
    assert p[1..][1..] == p[2..] && p[2..][1..] == p[3..] && p[3..][1..] == p[4..] && p[4..][1..] == p[5..];
    assert Join(p[5..]) == p[5];
    assert Join(p[4..]) == p[4] + "|" + p[5];
    assert Join(p[3..]) == p[3] + "|" + (p[4] + "|" + p[5]);
    assert Join(p[2..]) == p[2] + "|" + (p[3] + "|" + (p[4] + "|" + p[5]));
    assert Join(p[1..]) == p[1] + "|" + (p[2] + "|" + (p[3] + "|" + (p[4] + "|" + p[5])));
    assert Join(p[1..]) == Edge(id) + "|" + p[4] + "|" + p[5];
  }

  // The hashed text, of names given apart.
  ghost predicate Reads(id: RelationshipId, name: string, provenance: string, rule: string) {
    Material(id) == id.tenant + "|" + id.source + "|" + name + "|" + id.target + "|" + provenance + "|" + rule
  }

  lemma ReadsOwn(id: RelationshipId)
    ensures Reads(id, TypeName(id.rtype), ProvenanceName(id.provenance), RuleName(id.rule))
  {
    hide Material, TypeName, ProvenanceName, RuleName;
    MaterialOf(id);
    var e := id.source + "|" + TypeName(id.rtype) + "|" + id.target;
    assert id.tenant + "|" + (e + "|" + ProvenanceName(id.provenance) + "|" + RuleName(id.rule))
        == id.tenant + "|" + id.source + "|" + TypeName(id.rtype) + "|" + id.target + "|" + ProvenanceName(id.provenance) + "|" + RuleName(id.rule);
  }

  /** The hashed text of what each rule derives, and of a statement it starts from. */
  lemma MaterialRead(id: RelationshipId)
    ensures id.rtype == HasVulnerability && id.provenance == Observed && id.rule == None ==>
      Reads(id, "has_vulnerability", "observed", "direct")
    ensures id.rtype == Exploited && id.provenance == Deterministic && id.rule == Some(CorSeq001) ==>
      Reads(id, "exploited", "deterministic", "COR-SEQ-001")
    ensures id.rtype == Compromised && id.provenance == Deterministic && id.rule == Some(CorSeq002) ==>
      Reads(id, "compromised", "deterministic", "COR-SEQ-002")
    ensures id.rtype == MovedLaterallyTo && id.provenance == Deterministic && id.rule == Some(CorSeq003) ==>
      Reads(id, "moved_laterally_to", "deterministic", "COR-SEQ-003")
  {
    hide Reads;
    ReadsOwn(id);
  }

  // Within a tenant the text is the edge, and nothing else can be blurred.
  lemma SameTextSameEdge(a: RelationshipId, b: RelationshipId)
    requires a.tenant == b.tenant
    ensures Material(a) == Material(b) <==> Edge(a) == Edge(b) && a.provenance == b.provenance && a.rule == b.rule
  {
    hide Material, Edge, ProvenanceName, RuleName, Plain;
    MaterialOf(a);
    MaterialOf(b);
    EndNames(a, b);
    EndNames(b, a);
    if Material(a) == Material(b) {
      var x := Edge(a) + "|" + ProvenanceName(a.provenance);
      var y := Edge(b) + "|" + ProvenanceName(b.provenance);
      var p, q := x + "|" + RuleName(a.rule), y + "|" + RuleName(b.rule);
      assert (a.tenant + "|" + p)[|a.tenant| + 1..] == p && (b.tenant + "|" + q)[|b.tenant| + 1..] == q;
      LastPart(x, RuleName(a.rule), y, RuleName(b.rule));
      LastPart(Edge(a), ProvenanceName(a.provenance), Edge(b), ProvenanceName(b.provenance));
    }
  }

  // The text reads as an edge of type r whose source is its first k characters.
  predicate SplitsAt(text: string, k: nat, r: RelationshipType) {
    var name := "|" + TypeName(r) + "|";
    k + |name| <= |text| && text[k..k + |name|] == name
  }

  lemma OwnSplit(id: RelationshipId)
    ensures SplitsAt(Edge(id), |id.source|, id.rtype)
  {
    hide TypeName;
    var name := "|" + TypeName(id.rtype) + "|";
    assert Edge(id) == id.source + name + id.target;
  }

  // The edge that a split reads.
  function ReadAt(id: RelationshipId, k: nat, r: RelationshipType): RelationshipId
    requires SplitsAt(Edge(id), k, r)
  {
    id.(source := Edge(id)[..k], rtype := r, target := Edge(id)[k + |TypeName(r)| + 2..])
  }

  lemma ReadBack(id: RelationshipId, k: nat, r: RelationshipType)
    requires SplitsAt(Edge(id), k, r)
    ensures Edge(ReadAt(id, k, r)) == Edge(id) && |ReadAt(id, k, r).source| == k
  {
    hide TypeName;
    var text, name := Edge(id), "|" + TypeName(r) + "|";
    assert text == text[..k] + text[k..k + |name|] + text[k + |name|..];
  }

  // A source of one length is one edge.
  lemma SameSourceSameEdge(a: RelationshipId, b: RelationshipId)
    requires Edge(a) == Edge(b) && |a.source| == |b.source|
    ensures a.source == b.source && a.rtype == b.rtype && a.target == b.target
  {
    hide TypeName, Plain;
    var text := Edge(a);
    assert text[..|a.source|] == a.source && text[..|b.source|] == b.source;
    assert text[|a.source| + 1..] == TypeName(a.rtype) + "|" + a.target;
    assert text[|b.source| + 1..] == TypeName(b.rtype) + "|" + b.target;
    TypeNamePlain(a.rtype);
    TypeNamePlain(b.rtype);
    FirstPart(TypeName(a.rtype), a.target, TypeName(b.rtype), b.target);
    TypeNamesDiffer(a.rtype, b.rtype);
  }

  /** Exactly when an identifier is its own within its tenant, the scope of every table it keys: no other
      relationship of the tenant has the same hashed text if and only if the text of source, type and
      target can be split at a type name in one place only. */
  lemma DeterminedIffOneSplit(id: RelationshipId)
    ensures (forall other: RelationshipId | other.tenant == id.tenant && Material(other) == Material(id) :: other == id)
       <==> (forall k: nat, r | SplitsAt(Edge(id), k, r) :: k == |id.source|)
  {
    hide Material, Edge, SplitsAt, TypeName;
    if k: nat, r :| SplitsAt(Edge(id), k, r) && k != |id.source| {
      var other := ReadAt(id, k, r);
      ReadBack(id, k, r);
      SameTextSameEdge(other, id);
      assert other.tenant == id.tenant && Material(other) == Material(id) && other != id;
    }
    if forall k: nat, r | SplitsAt(Edge(id), k, r) :: k == |id.source| {
      forall other: RelationshipId | other.tenant == id.tenant && Material(other) == Material(id)
        ensures other == id
      {
        SameTextSameEdge(other, id);
        OwnSplit(other);
        SameSourceSameEdge(other, id);
      }
    }
  }

  /** Separator-free tenants and sources are enough, across tenants too, whatever the targets. */
  lemma MaterialInjective(a: RelationshipId, b: RelationshipId)
    requires Plain(a.tenant) && Plain(b.tenant) && Plain(a.source) && Plain(b.source)
    requires Material(a) == Material(b)
    ensures a == b
  {
    hide Plain, Material, TypeName, ProvenanceName, RuleName;
    MaterialOf(a);
    MaterialOf(b);
    FirstPart(a.tenant, Edge(a) + "|" + ProvenanceName(a.provenance) + "|" + RuleName(a.rule),
              b.tenant, Edge(b) + "|" + ProvenanceName(b.provenance) + "|" + RuleName(b.rule));
    SameTextSameEdge(a, b);
    assert Edge(a) == a.source + "|" + (TypeName(a.rtype) + "|" + a.target);
    assert Edge(b) == b.source + "|" + (TypeName(b.rtype) + "|" + b.target);
    FirstPart(a.source, TypeName(a.rtype) + "|" + a.target, b.source, TypeName(b.rtype) + "|" + b.target);
    SameSourceSameEdge(a, b);
  }

  /** Two relationships of one tenant with one hashed text, of any type: an entity id may contain what
      reads as the type and the end of another. */
  lemma MaterialCollides(id: RelationshipId, middle: string)
    ensures var name := "|" + TypeName(id.rtype) + "|";
      var a := id.(target := middle + name + id.target);
      var b := id.(source := id.source + name + middle);
      a != b && a.tenant == b.tenant && Material(a) == Material(b)
  {
    hide TypeName, Material;
    var name := "|" + TypeName(id.rtype) + "|";
    var a := id.(target := middle + name + id.target);
    var b := id.(source := id.source + name + middle);
    assert |a.source| != |b.source|;
    assert Edge(a) == id.source + name + (middle + name + id.target);
    assert Edge(b) == (id.source + name + middle) + name + id.target;
    assert Edge(a) == Edge(b);
    SameTextSameEdge(a, b);
  }

  /** What the upserts make of such a collision: a row written for one relationship never has the stored
      identity of another of its tenant, so the second is refused rather than merged. */
  lemma CollisionRefused(row: RelationshipRow, d: Entry, e: Entry)
    requires SameIdentity(row, d) && d.rid != e.rid && d.rid.tenant == e.rid.tenant
    ensures !SameIdentity(row, e)
  {
  }
}
