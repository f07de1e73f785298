/**
  `_link_supersessions` (`entity_resolution.py`): each replacing decision is linked from the one it
  replaces, left pending for the graph writer, or reported.
 */
module Supersessions {
  import opened Options
  import opened Ontology
  import opened Extraction
  import opened EntityResolution

  datatype Pending = Pending(newId: EntityId, oldName: string, oldKey: string)

  datatype Outcome =
    | Linked(oldId: EntityId, newId: EntityId)
    | Left(pending: Pending)
    | Unclear(name: string)        // the replacing decision is not one entity
    | SelfReplacing(name: string)
    | AmbiguousOld(name: string)
    | AlreadyReplaced(name: string)

  /** The last entity with an id, as the dictionary `by_id` finds it. */
  function LastIndex(E: seq<Entity>, id: EntityId): (r: Option<nat>)
    ensures r.Some? ==> r.value < |E| && E[r.value].id == id
    ensures r.None? ==> forall e :: e in E ==> e.id != id
  {
    if E == [] then None
    else if E[|E| - 1].id == id then Some(|E| - 1)
    else LastIndex(E[..|E| - 1], id)
  }

  /** What one event does, given the links so far. */
  function Decide(norm: NameKey, lookup: Lookup, E: seq<Entity>, event: ExtractedEvent): Outcome
    requires event.Replaces()
  {
    var news := Find(lookup, Decision, norm(event.name, Decision));
    var oldKey := norm(event.supersedes.value, Decision);
    var olds := Find(lookup, Decision, oldKey);
    if |news| != 1 then Unclear(event.name)
    else
      Only(news);
      var newId :| newId in news;
      if newId in olds then SelfReplacing(event.name)
      else if |olds| > 1 then AmbiguousOld(event.supersedes.value)
      else if olds != {} then
        assert |olds| == 1;
        Only(olds);
        var oldId :| oldId in olds;
        var index := LastIndex(E, oldId);
        if index.Some? && E[index.value].supersededBy !in {None, Some(newId)} then
          AlreadyReplaced(event.supersedes.value)
        else Linked(oldId, newId)
      else Left(Pending(newId, event.supersedes.value, oldKey))
  }

  function Apply(E: seq<Entity>, outcome: Outcome): seq<Entity> {
    match outcome
    case Linked(oldId, newId) =>
      var index := LastIndex(E, oldId);
      if index.Some? then E[index.value := E[index.value].(supersededBy := Some(newId))] else E
    case _ => E
  }

  function Replacing(events: seq<ExtractedEvent>): seq<ExtractedEvent> {
    if events == [] then []
    else Replacing(events[..|events| - 1]) + if events[|events| - 1].Replaces() then [events[|events| - 1]] else []
  }

  /** The entities after the links of the first events. */
  function LinkedEntities(norm: NameKey, lookup: Lookup, E: seq<Entity>, events: seq<ExtractedEvent>): seq<Entity> {
    if events == [] then E
    else
      var before, event := LinkedEntities(norm, lookup, E, events[..|events| - 1]), events[|events| - 1];
      if event.Replaces() then Apply(before, Decide(norm, lookup, before, event)) else before
  }

  /** What became of each replacing event. */
  function Outcomes(norm: NameKey, lookup: Lookup, E: seq<Entity>, events: seq<ExtractedEvent>): (r: seq<Outcome>)
    ensures |r| == |Replacing(events)|
  {
    if events == [] then []
    else
      var front, event := events[..|events| - 1], events[|events| - 1];
      Outcomes(norm, lookup, E, front)
      + if event.Replaces() then [Decide(norm, lookup, LinkedEntities(norm, lookup, E, front), event)] else []
  }

  method LinkSupersessions(norm: NameKey, lookup: Lookup, events: seq<ExtractedEvent>, entities: seq<Entity>)
      returns (linked: seq<Entity>, outcomes: seq<Outcome>)
    ensures linked == LinkedEntities(norm, lookup, entities, events)
    ensures outcomes == Outcomes(norm, lookup, entities, events)
  {
    linked, outcomes := entities, [];
    for i := 0 to |events|
      invariant linked == LinkedEntities(norm, lookup, entities, events[..i])
      invariant outcomes == Outcomes(norm, lookup, entities, events[..i])
    {
      assert events[..i + 1][..i] == events[..i];
      if events[i].Replaces() {
        var outcome := Decide(norm, lookup, linked, events[i]);
        linked := Apply(linked, outcome);
        outcomes := outcomes + [outcome];
      }
    }
    assert events[..|events|] == events;
  }

  // -------------------------------------------------------------------------
  // What the links guarantee.
  // -------------------------------------------------------------------------

  /** `after` is `before` with some unset links set, and nothing else changed. */
  predicate OnlyLinks(before: seq<Entity>, after: seq<Entity>) {
    && |before| == |after|
    && forall i :: 0 <= i < |before| ==>
         && after[i].(supersededBy := before[i].supersededBy) == before[i]
         && (before[i].supersededBy.Some? ==> after[i].supersededBy == before[i].supersededBy)
  }

  /** No entity is linked to itself, and only decisions are linked, to decisions. */
  predicate SoundLinks(E: seq<Entity>) {
    forall e :: e in E && e.supersededBy.Some? ==>
      e.supersededBy.value != e.id && e.id.kind == Decision && e.supersededBy.value.kind == Decision
  }

  lemma OnlyLinksKeepsIndex(lookup: Lookup, before: seq<Entity>, after: seq<Entity>)
    requires OnlyLinks(before, after) && Indexes(lookup, before)
    ensures Indexes(lookup, after)
  {
    forall kind, key ensures NamedIds(before, kind, key) == NamedIds(after, kind, key) {
      forall i | 0 <= i < |before|
        ensures before[i] in before && after[i] in after && before[i].id == after[i].id
          && before[i].keys == after[i].keys
      {
        assert after[i].(supersededBy := before[i].supersededBy) == before[i];
      }
    }
  }

  /** A link goes from an existing decision to a different decision, and never overwrites one. */
  lemma DecideIsSound(norm: NameKey, lookup: Lookup, E: seq<Entity>, event: ExtractedEvent)
    requires event.Replaces() && Indexes(lookup, E) && SoundLinks(E)
    ensures OnlyLinks(E, Apply(E, Decide(norm, lookup, E, event)))
    ensures SoundLinks(Apply(E, Decide(norm, lookup, E, event)))
    ensures Decide(norm, lookup, E, event).Linked? ==> LastIndex(E, Decide(norm, lookup, E, event).oldId).Some?
    ensures Decide(norm, lookup, E, event).Left? ==>
      NamedIds(E, Decision, norm(event.supersedes.value, Decision)) == {}
  {
    var outcome := Decide(norm, lookup, E, event);
    if outcome.Linked? {
      assert outcome.oldId in NamedIds(E, Decision, norm(event.supersedes.value, Decision));
      assert outcome.newId in NamedIds(E, Decision, norm(event.name, Decision));
      var index := LastIndex(E, outcome.oldId);
      assert E[index.value] in E;
    }
  }

  lemma OnlyLinksTransitive(a: seq<Entity>, b: seq<Entity>, c: seq<Entity>)
    requires OnlyLinks(a, b) && OnlyLinks(b, c)
    ensures OnlyLinks(a, c)
  {
    forall i | 0 <= i < |a| ensures c[i].(supersededBy := a[i].supersededBy) == a[i] {
      assert c[i].(supersededBy := b[i].supersededBy) == b[i];
      assert b[i].(supersededBy := a[i].supersededBy) == a[i];
    }
  }

  /**
    Over a whole extraction: nothing but unset links changes, the first link to an entity stays,
    nobody replaces itself, and only decisions replace decisions.
   */
  lemma {:induction false} LinksAreSound(norm: NameKey, lookup: Lookup, E: seq<Entity>, events: seq<ExtractedEvent>)
    requires Indexes(lookup, E) && SoundLinks(E)
    ensures OnlyLinks(E, LinkedEntities(norm, lookup, E, events))
    ensures SoundLinks(LinkedEntities(norm, lookup, E, events))
    ensures Indexes(lookup, LinkedEntities(norm, lookup, E, events))
  {
    if events != [] {
      var front, event := events[..|events| - 1], events[|events| - 1];
      LinksAreSound(norm, lookup, E, front);
      var before := LinkedEntities(norm, lookup, E, front);
      if event.Replaces() {
        DecideIsSound(norm, lookup, before, event);
        OnlyLinksTransitive(E, before, Apply(before, Decide(norm, lookup, before, event)));
        OnlyLinksKeepsIndex(lookup, before, Apply(before, Decide(norm, lookup, before, event)));
      }
    }
  }
}
