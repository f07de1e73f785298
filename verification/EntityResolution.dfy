/**
  `resolve_extraction` after the grouping loop (`entity_resolution.py`): entities with stable ids,
  the name lookup, relation endpoints, supersession links and disjoint relation periods.
 */
module EntityResolution {
  import opened Options
  import opened Ontology
  import opened Temporal
  import opened Text
  import opened Grouping
  import opened GroupingTheorems
  import opened GroupLoop

  /** `uuid5` over workspace, kind and key is injective: the id is the pair. */
  datatype EntityId = EntityId(kind: EntityKind, key: string)

  datatype Entity = Entity(
    id: EntityId,
    name: string,
    aliases: set<string>,
    keys: set<string>,
    identifiers: set<string>,
    timestamp: Option<Instant>,
    supersededBy: Option<EntityId>)

  // -------------------------------------------------------------------------
  // Entities.
  // -------------------------------------------------------------------------

  /** `a` has a longer normal form than `b`, or the same with a shorter raw text. */
  predicate Completer(norm: NameKey, kind: EntityKind, a: string, b: string) {
    || |norm(a, kind)| > |norm(b, kind)|
    || (|norm(a, kind)| == |norm(b, kind)| && |a| < |b|)
  }

  /** The first most complete spelling. */
  function PickCanonical(norm: NameKey, names: seq<string>, kind: EntityKind): (r: string)
    requires names != []
    ensures r in names && forall n | n in names :: !Completer(norm, kind, n, r)
  {
    var last := names[|names| - 1];
    if |names| == 1 then last
    else
      assert names == names[..|names| - 1] + [last];
      var best := PickCanonical(norm, names[..|names| - 1], kind);
      if Completer(norm, kind, last, best) then last else best
  }

  function StableKey(norm: NameKey, kind: EntityKind, canonical: string, identifiers: set<string>): string {
    var directory := set x | x in identifiers && "directory:" <= x;
    if directory != {} then "id:" + Least(directory)
    else if identifiers != {} then "id:" + Least(identifiers)
    else norm(canonical, kind)
  }

  lemma {:induction false} NamesNotEmpty(c: Cluster)
    requires c != []
    ensures Names(c) != []
  {}

  function IdOf(norm: NameKey, c: Cluster): EntityId
    requires c != []
  {
    NamesNotEmpty(c);
    var kind := c[0].kind;
    EntityId(kind, StableKey(norm, kind, PickCanonical(norm, Names(c), kind), Identifiers(c)))
  }

  function EntityOf(norm: NameKey, c: Cluster, fallback: Option<Instant>): Entity
    requires c != []
  {
    NamesNotEmpty(c);
    var canonical := PickCanonical(norm, Names(c), c[0].kind);
    Entity(IdOf(norm, c), canonical, (set n | n in Names(c)) - {canonical}, Keys(norm, c), Identifiers(c),
           if Stamp(c).Some? then Stamp(c) else fallback, None)
  }

  lemma StableKeyIsAnIdentifier(norm: NameKey, kind: EntityKind, canonical: string, identifiers: set<string>)
      returns (x: string)
    requires identifiers != {}
    ensures x in identifiers && StableKey(norm, kind, canonical, identifiers) == "id:" + x
  {
    var directory := set x | x in identifiers && "directory:" <= x;
    x := if directory != {} then Least(directory) else Least(identifiers);
  }

  /** Identified entities of one extraction never share an id. */
  lemma IdentifiedIdsAreDistinct(norm: NameKey, ms: seq<Mention>, i: nat, j: nat)
    requires i < |Grouped(norm, ms)| && j < |Grouped(norm, ms)| && i != j
    requires Identifiers(Grouped(norm, ms)[i]) != {} && Identifiers(Grouped(norm, ms)[j]) != {}
    ensures Grouped(norm, ms)[i] != [] && Grouped(norm, ms)[j] != []
    ensures IdOf(norm, Grouped(norm, ms)[i]) != IdOf(norm, Grouped(norm, ms)[j])
  {
    var P := Grouped(norm, ms);
    GroupingInvariant(norm, ms);
    assert UniformCluster(norm, P[i], ms) && UniformCluster(norm, P[j], ms);
    NamesNotEmpty(P[i]);
    NamesNotEmpty(P[j]);
    var x := StableKeyIsAnIdentifier(norm, P[i][0].kind, PickCanonical(norm, Names(P[i]), P[i][0].kind),
      Identifiers(P[i]));
    var y := StableKeyIsAnIdentifier(norm, P[j][0].kind, PickCanonical(norm, Names(P[j]), P[j][0].kind),
      Identifiers(P[j]));
    assert ("id:" + x)[3..] == x && ("id:" + y)[3..] == y;
  }

  /** The ids of the identified entities. */
  ghost predicate IsIdentifiedId(norm: NameKey, ms: seq<Mention>, id: EntityId) {
    exists i :: 0 <= i < |Grouped(norm, ms)| && Grouped(norm, ms)[i] != []
      && Identifiers(Grouped(norm, ms)[i]) != {} && IdOf(norm, Grouped(norm, ms)[i]) == id
  }

  lemma IdentifiedIdPersists(norm: NameKey, ms: seq<Mention>, ns: seq<Mention>, id: EntityId)
    requires (forall x :: x in ms <==> x in ns) && IsIdentifiedId(norm, ms, id)
    ensures IsIdentifiedId(norm, ns, id)
  {
    var i :| 0 <= i < |Grouped(norm, ms)| && Grouped(norm, ms)[i] != []
      && Identifiers(Grouped(norm, ms)[i]) != {} && IdOf(norm, Grouped(norm, ms)[i]) == id;
    var j := IdentifiedGroupsIgnoreOrder(norm, ms, ns, i);
    assert IdOf(norm, Grouped(norm, ns)[j]) == id;
  }

  /** The ids of identified entities do not depend on the order of the mentions. */
  lemma IdentifiedIdsIgnoreOrder(norm: NameKey, ms: seq<Mention>, ns: seq<Mention>)
    requires forall x :: x in ms <==> x in ns
    ensures forall id :: IsIdentifiedId(norm, ms, id) <==> IsIdentifiedId(norm, ns, id)
  {
    forall id ensures IsIdentifiedId(norm, ms, id) <==> IsIdentifiedId(norm, ns, id) {
      if IsIdentifiedId(norm, ms, id) {
        IdentifiedIdPersists(norm, ms, ns, id);
      }
      if IsIdentifiedId(norm, ns, id) {
        IdentifiedIdPersists(norm, ns, ms, id);
      }
    }
  }

  // -------------------------------------------------------------------------
  // The name lookup.
  // -------------------------------------------------------------------------

  type Lookup = map<(EntityKind, string), set<EntityId>>

  /** The ids of the entities of one kind that go by a normalized name. */
  function NamedIds(E: seq<Entity>, kind: EntityKind, key: string): set<EntityId> {
    set e | e in E && e.id.kind == kind && key in e.keys :: e.id
  }

  function Find(lookup: Lookup, kind: EntityKind, key: string): set<EntityId> {
    if (kind, key) in lookup then lookup[(kind, key)] else {}
  }

  ghost predicate Indexes(lookup: Lookup, E: seq<Entity>) {
    forall kind, key :: Find(lookup, kind, key) == NamedIds(E, kind, key)
  }

  function One(id: EntityId, present: bool): set<EntityId> {
    if present then {id} else {}
  }

  /** `lookup.setdefault(key, set()).add(id)` for every key of one group. */
  method AddKeys(lookup: Lookup, kind: EntityKind, keys: set<string>, id: EntityId) returns (next: Lookup)
    ensures forall k, key :: Find(next, k, key) == Find(lookup, k, key) + One(id, k == kind && key in keys)
  {
    next := lookup;
    var rest := keys;
    while rest != {}
      invariant rest <= keys
      invariant forall k, key :: Find(next, k, key) == Find(lookup, k, key) + One(id, k == kind && key in keys - rest)
    {
      var key :| key in rest;
      next := next[(kind, key) := Find(next, kind, key) + {id}];
      rest := rest - {key};
    }
  }

  lemma NamedIdsSnoc(E: seq<Entity>, e: Entity, kind: EntityKind, key: string)
    ensures NamedIds(E + [e], kind, key) == NamedIds(E, kind, key) + One(e.id, kind == e.id.kind && key in e.keys)
  {}

  predicate NonEmpty(P: seq<Cluster>) {
    forall i :: 0 <= i < |P| ==> P[i] != []
  }

  /** One entity per group, in group order. */
  function Entities(norm: NameKey, P: seq<Cluster>, fallback: Option<Instant>): (E: seq<Entity>)
    requires NonEmpty(P)
    ensures |E| == |P| && forall i :: 0 <= i < |P| ==> E[i] == EntityOf(norm, P[i], fallback)
  {
    seq(|P|, i requires 0 <= i < |P| => EntityOf(norm, P[i], fallback))
  }

  method BuildEntity(norm: NameKey, g: Group, ghost c: Cluster, timestamp: Option<Instant>) returns (e: Entity)
    requires g.Valid(norm) && g.members == c && c != []
    ensures e == EntityOf(norm, c, timestamp)
  {
    assert c[0] in g.members;
    NamesNotEmpty(c);
    var canonical := PickCanonical(norm, g.names, g.kind);
    e := Entity(EntityId(g.kind, StableKey(norm, g.kind, canonical, g.identifiers)), canonical,
                (set n | n in g.names) - {canonical}, g.keys, g.identifiers,
                if g.timestamp.Some? then g.timestamp else timestamp, None);
  }

  /** Entities in group order, and the lookup from kind and normalized name to their ids. */
  method BuildEntities(norm: NameKey, groups: seq<Group>, ghost P: seq<Cluster>, timestamp: Option<Instant>)
      returns (entities: seq<Entity>, lookup: Lookup)
    requires Represents(norm, groups, P)
    ensures NonEmpty(P) && entities == Entities(norm, P, timestamp) && Indexes(lookup, entities)
  {
    entities, lookup := [], map[];
    for i := 0 to |groups|
      invariant |entities| == i && Indexes(lookup, entities)
      invariant forall j :: 0 <= j < i ==> entities[j] == EntityOf(norm, P[j], timestamp)
    {
      var e := BuildEntity(norm, groups[i], P[i], timestamp);
      lookup := AddKeys(lookup, e.id.kind, e.keys, e.id);
      forall kind, key ensures Find(lookup, kind, key) == NamedIds(entities + [e], kind, key) {
        NamedIdsSnoc(entities, e, kind, key);
      }
      entities := entities + [e];
    }
  }

  lemma GroupsAreNonEmpty(norm: NameKey, ms: seq<Mention>)
    ensures NonEmpty(Grouped(norm, ms))
  {
    GroupsAreHomogeneous(norm, ms);
    forall i | 0 <= i < |Grouped(norm, ms)| ensures Grouped(norm, ms)[i] != [] {
      assert UniformCluster(norm, Grouped(norm, ms)[i], ms);
    }
  }

  /** The entities `resolve_extraction` builds, before supersessions are linked. */
  function ResolvedEntities(norm: NameKey, ms: seq<Mention>, fallback: Option<Instant>): seq<Entity> {
    GroupsAreNonEmpty(norm, ms);
    Entities(norm, Grouped(norm, ms), fallback)
  }

  // -------------------------------------------------------------------------
  // Relation endpoints.
  // -------------------------------------------------------------------------

  /** Every entity, of whatever kind, that goes by the name. */
  function Candidates(norm: NameKey, E: seq<Entity>, name: string): set<EntityId> {
    set e | e in E && norm(name, e.id.kind) in e.keys :: e.id
  }

  /** The entity a relation end names, if there is exactly one. */
  function EndpointOf(norm: NameKey, E: seq<Entity>, name: string): (r: Option<EntityId>)
    ensures r.Some? <==> exists id :: Candidates(norm, E, name) == {id}
    ensures r.Some? ==> Candidates(norm, E, name) == {r.value}
  {
    var found := Candidates(norm, E, name);
    if |found| == 1 then
      Only(found);
      var id :| id in found;
      Some(id)
    else None
  }

  lemma Only<T>(s: set<T>)
    requires |s| == 1
    ensures exists x :: s == {x}
    ensures forall x, y :: x in s && y in s ==> x == y
  {
    var x :| x in s;
    assert |s - {x}| == 0;
    assert s == {x};
  }

  /** The candidates of the kinds looked up so far. */
  function CandidatesAmong(norm: NameKey, E: seq<Entity>, name: string, kinds: seq<EntityKind>): set<EntityId> {
    set e | e in E && e.id.kind in kinds && norm(name, e.id.kind) in e.keys :: e.id
  }

  method Endpoint(norm: NameKey, lookup: Lookup, ghost E: seq<Entity>, name: string)
      returns (id: Option<EntityId>, ambiguous: bool)
    requires Indexes(lookup, E)
    ensures id == EndpointOf(norm, E, name)
    ensures ambiguous <==> |Candidates(norm, E, name)| > 1
  {
    var candidates: set<EntityId> := {};
    for k := 0 to |ENTITY_KINDS|
      invariant candidates == CandidatesAmong(norm, E, name, ENTITY_KINDS[..k])
    {
      var kind := ENTITY_KINDS[k];
      assert ENTITY_KINDS[..k + 1] == ENTITY_KINDS[..k] + [kind];
      assert CandidatesAmong(norm, E, name, ENTITY_KINDS[..k + 1])
        == candidates + NamedIds(E, kind, norm(name, kind));
      candidates := candidates + Find(lookup, kind, norm(name, kind));
    }
    AllKindsListed();
    assert ENTITY_KINDS[..|ENTITY_KINDS|] == ENTITY_KINDS;
    assert candidates == Candidates(norm, E, name);
    ambiguous := |candidates| > 1;
    if |candidates| == 1 {
      Only(candidates);
      var x :| x in candidates;
      id := Some(x);
    } else {
      id := None;
    }
  }

  lemma AllKindsListed()
    ensures forall kind: EntityKind :: kind in ENTITY_KINDS
  {
    forall kind: EntityKind ensures kind in ENTITY_KINDS {
      match kind
      case Person => assert ENTITY_KINDS[0] == kind;
      case Project => assert ENTITY_KINDS[1] == kind;
      case Organization => assert ENTITY_KINDS[2] == kind;
      case Meeting => assert ENTITY_KINDS[3] == kind;
      case Document => assert ENTITY_KINDS[4] == kind;
      case Issue => assert ENTITY_KINDS[5] == kind;
      case Task => assert ENTITY_KINDS[6] == kind;
      case Decision => assert ENTITY_KINDS[7] == kind;
      case Event => assert ENTITY_KINDS[8] == kind;
      case Technology => assert ENTITY_KINDS[9] == kind;
    }
  }
}
