/** One extraction result (`domain/extraction.py`) and the text functions the models leave open. */
module Extraction {
  import opened Options
  import opened Ontology
  import opened Temporal
  import opened Grouping

  datatype ExtractedEntity = ExtractedEntity(
    name: string, kind: EntityKind, aliases: seq<string>, identifiers: seq<string>, refs: seq<string>)

  datatype ExtractedEvent = ExtractedEvent(
    name: string, kind: EntityKind, description: string, occurredAt: Option<string>, dueAt: Option<string>,
    supersedes: Option<string>, refs: seq<string>)
  {
    /** `event.supersedes` is truthy. */
    predicate Replaces() {
      kind == Decision && supersedes.Some? && supersedes.value != ""
    }
  }

  datatype ExtractedRelation = ExtractedRelation(
    source: string, target: string, kind: RelationKind, validFrom: Option<string>, validTo: Option<string>,
    refs: seq<string>)

  datatype ExtractedContext = ExtractedContext(
    kind: ContextKind, title: string, body: string, occurredAt: Option<string>, refs: seq<string>)

  datatype Result = Result(
    meeting: bool,
    entities: seq<ExtractedEntity>,
    events: seq<ExtractedEvent>,
    relations: seq<ExtractedRelation>,
    contexts: seq<ExtractedContext>)

  /**
    Unicode and date handling stay uninterpreted: `norm` is `normalize_name`, `identifier` is
    `normalize_identifier`, `instant` is `parse_instant` on a given text, `squash` drops white space and
    folds case, `fold` only folds case, and `strip` is the string method.
   */
  datatype Texts = Texts(
    norm: NameKey,
    identifier: string -> string,
    instant: string -> Option<Instant>,
    squash: string -> string,
    fold: string -> string,
    strip: string -> string)
  {
    function Parse(value: Option<string>): Option<Instant> {
      if value.Some? then instant(value.value) else None
    }
  }

  /** The normalized identifiers of an entity; directory identifiers count only if trusted. */
  function MentionIdentifiers(t: Texts, values: seq<string>, trusted: set<string>): set<string> {
    set v | v in values && t.identifier(v) != ""
      && (!("directory:" <= t.identifier(v)) || t.identifier(v) in trusted) :: t.identifier(v)
  }

  function EntityMention(t: Texts, item: ExtractedEntity, trusted: set<string>): Mention {
    Mention(item.name, item.kind, item.aliases, MentionIdentifiers(t, item.identifiers, trusted), None)
  }

  function EventMention(t: Texts, item: ExtractedEvent): Mention {
    Mention(item.name, item.kind, [], {}, t.Parse(item.occurredAt))
  }

  /** What `resolve_extraction` groups: the entities first, then the events. */
  function Mentions(t: Texts, r: Result, trusted: set<string>): (ms: seq<Mention>)
    ensures |ms| == |r.entities| + |r.events|
    ensures forall i :: 0 <= i < |r.entities| ==> ms[i] == EntityMention(t, r.entities[i], trusted)
    ensures forall i :: 0 <= i < |r.events| ==> ms[|r.entities| + i] == EventMention(t, r.events[i])
  {
    seq(|r.entities|, i requires 0 <= i < |r.entities| => EntityMention(t, r.entities[i], trusted))
    + seq(|r.events|, i requires 0 <= i < |r.events| => EventMention(t, r.events[i]))
  }
}
