/** `resolve_extraction` from end to end. */
module Resolver {
  import opened Options
  import opened Temporal
  import opened Grouping
  import opened GroupLoop
  import opened EntityResolution
  import opened Extraction
  import opened RelationPeriods
  import opened Supersessions

  datatype ResolvedGraph = ResolvedGraph(
    entities: seq<Entity>,
    relations: seq<Relation>,
    supersessions: seq<Outcome>,
    groupWarnings: seq<Warning>,
    relationWarnings: seq<RelationWarning>)

  /** The graph depends on the result, the source date and the trusted identifiers only. */
  method ResolveExtraction(t: Texts, r: Result, timestamp: Option<Instant>, trusted: set<string>)
      returns (graph: ResolvedGraph, lookup: Lookup)
    ensures var E := ResolvedEntities(t.norm, Mentions(t, r, trusted), timestamp);
      && Indexes(lookup, E)
      && graph.entities == LinkedEntities(t.norm, lookup, E, r.events)
      && graph.supersessions == Outcomes(t.norm, lookup, E, r.events)
      && graph.relations == ResolvedRelations(t, E, r.relations, timestamp)
      && graph.groupWarnings == GroupingWarnings(t.norm, Mentions(t, r, trusted))
      && graph.relationWarnings == WarningsFor(t, E, r.relations)
  {
    var mentions := Mentions(t, r, trusted);
    var groups, groupWarnings := GroupMentions(t.norm, mentions);
    var entities;
    entities, lookup := BuildEntities(t.norm, groups, Grouped(t.norm, mentions), timestamp);
    ghost var E := ResolvedEntities(t.norm, mentions, timestamp);
    assert entities == E;
    var linked, outcomes := LinkSupersessions(t.norm, lookup, r.events, entities);
    var periods, relationWarnings := CollectPeriods(t, lookup, E, r.relations, timestamp);
    var relations := EmitRelations(t, E, r.relations, timestamp, periods);
    graph := ResolvedGraph(linked, relations, outcomes, groupWarnings, relationWarnings);
  }
}
