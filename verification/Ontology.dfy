/** The fixed entity, relation and context kinds (`ontology.py`). */
module Ontology {

  datatype EntityKind =
    | Person | Project | Organization | Meeting | Document | Issue | Task | Decision | Event | Technology

  datatype RelationKind =
    | WorksOn | ParticipatedIn | MentionedIn | Created | AssignedTo | RelatedTo | DecidedIn | ResultedIn
    | BlockedBy | DueOn

  datatype ContextKind = EventContext | DecisionContext | TaskContext | IssueContext | FactContext | SummaryContext

  /** The iteration order of the enumeration. */
  const ENTITY_KINDS: seq<EntityKind> :=
    [Person, Project, Organization, Meeting, Document, Issue, Task, Decision, Event, Technology]

  /** The key functions are not modelled: `norm(name, kind)` stands for `normalize_name`. */
  type NameKey = (string, EntityKind) -> string
}
