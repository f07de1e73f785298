/**
  The references of a snapshot: what `validate_artifact` checks about them and what `restore_snapshot`
  writes for them (`demo_snapshot.py`). The validation compares canonical identifiers in SQL rows and
  spellings in the graph; the restore renames spellings.
 */
module SnapshotRefs {
  import opened Options

  datatype Kind = Person | Project | Source | Chunk | Node

  /** A reference to a row of some kind, as the artifact spells it. */
  datatype Ref = Ref(kind: Kind, value: string)

  /** What a row says under an identifier's key. An empty identifier is as good as null. */
  datatype JsonId = Missing | Null | Given(value: string)
  {
    predicate Named() {
      Given? && value != ""
    }
  }

  datatype ProjectRow = ProjectRow(id: string, ownerPerson: Option<string>)

  /** A project inside a confirmed snapshot. */
  datatype ConfirmedProject = ConfirmedProject(id: JsonId, ownerPerson: Option<string>)

  /** The directory as it was when a source was confirmed; people and roster by their ids. */
  datatype Confirmed = Confirmed(
    project: Option<ConfirmedProject>,
    projects: seq<ConfirmedProject>,
    people: seq<JsonId>,
    roster: seq<JsonId>)

  /** `speakers` are the persons of the reviewed and the raw utterances; `confirmed` is `None` if it is empty. */
  datatype SourceRow = SourceRow(id: string, project: Option<string>, speakers: seq<Option<string>>,
                                 confirmed: Option<Confirmed>)
  datatype ChunkRow = ChunkRow(id: string, source: string)
  datatype ContextRow = ContextRow(id: string, source: string, chunk: Option<string>)
  datatype MemberRow = MemberRow(id: JsonId, project: string, person: string)
  datatype SourceProjectRow = SourceProjectRow(id: JsonId, source: string, project: string)
  datatype SourcePersonRow = SourcePersonRow(id: JsonId, source: string, person: string, role: string)

  /** `sources` is `None` for a node without the list, which the validation takes for an empty one. */
  datatype NodeRow = NodeRow(
    id: string,
    source: string,
    chunk: Option<string>,
    sources: Option<seq<string>>,
    supersededBy: Option<string>)
  {
    function Listed(): seq<string> {
      if sources.Some? then sources.value else []
    }
  }

  datatype EdgeRow = EdgeRow(id: string, from: string, to: string, source: string, chunk: Option<string>)

  /** `storeItems` are the source references of the store's issues, decisions and actions. */
  datatype Artifact = Artifact(
    people: seq<string>,
    projects: seq<ProjectRow>,
    sources: seq<SourceRow>,
    chunks: seq<ChunkRow>,
    contexts: seq<ContextRow>,
    members: seq<MemberRow>,
    sourceProjects: seq<SourceProjectRow>,
    sourcePeople: seq<SourcePersonRow>,
    storeSources: seq<string>,
    storeItems: seq<Option<string>>,
    objects: seq<string>,
    nodes: seq<NodeRow>,
    edges: seq<EdgeRow>)

  /** The identifiers of the rows of a kind. */
  function Ids(a: Artifact, kind: Kind): seq<string> {
    match kind
    case Person => a.people
    case Project => seq(|a.projects|, i requires 0 <= i < |a.projects| => a.projects[i].id)
    case Source => seq(|a.sources|, i requires 0 <= i < |a.sources| => a.sources[i].id)
    case Chunk => seq(|a.chunks|, i requires 0 <= i < |a.chunks| => a.chunks[i].id)
    case Node => seq(|a.nodes|, i requires 0 <= i < |a.nodes| => a.nodes[i].id)
  }

  function ContextIds(a: Artifact): seq<string> {
    seq(|a.contexts|, i requires 0 <= i < |a.contexts| => a.contexts[i].id)
  }

  function EdgeIds(a: Artifact): seq<string> {
    seq(|a.edges|, i requires 0 <= i < |a.edges| => a.edges[i].id)
  }

  function MemberIds(a: Artifact): seq<JsonId> {
    seq(|a.members|, i requires 0 <= i < |a.members| => a.members[i].id)
  }

  function SourceProjectIds(a: Artifact): seq<JsonId> {
    seq(|a.sourceProjects|, i requires 0 <= i < |a.sourceProjects| => a.sourceProjects[i].id)
  }

  function SourcePersonIds(a: Artifact): seq<JsonId> {
    seq(|a.sourcePeople|, i requires 0 <= i < |a.sourcePeople| => a.sourcePeople[i].id)
  }

  // -------------------------------------------------------------------------
  // References.
  // -------------------------------------------------------------------------

  /** References in columns with a foreign key, which the validation brings into canonical form first. */
  predicate KeyRef(a: Artifact, r: Ref) {
    match r.kind
    case Person =>
      || (exists i :: 0 <= i < |a.projects| && a.projects[i].ownerPerson == Some(r.value))
      || (exists i :: 0 <= i < |a.members| && a.members[i].person == r.value)
      || exists i :: 0 <= i < |a.sourcePeople| && a.sourcePeople[i].person == r.value
    case Project =>
      || (exists i :: 0 <= i < |a.sources| && a.sources[i].project == Some(r.value))
      || (exists i :: 0 <= i < |a.members| && a.members[i].project == r.value)
      || exists i :: 0 <= i < |a.sourceProjects| && a.sourceProjects[i].project == r.value
    case Source =>
      || (exists i :: 0 <= i < |a.chunks| && a.chunks[i].source == r.value)
      || (exists i :: 0 <= i < |a.contexts| && a.contexts[i].source == r.value)
      || (exists i :: 0 <= i < |a.sourceProjects| && a.sourceProjects[i].source == r.value)
      || exists i :: 0 <= i < |a.sourcePeople| && a.sourcePeople[i].source == r.value
    case Chunk => exists i :: 0 <= i < |a.contexts| && a.contexts[i].chunk == Some(r.value)
    case Node => false
  }

  /** References of SQL rows: those, and the sources of the store's items. */
  predicate SqlRef(a: Artifact, r: Ref) {
    KeyRef(a, r) || (r.kind == Source && Some(r.value) in a.storeItems)
  }

  predicate ProjectHolds(p: ConfirmedProject, r: Ref) {
    match r.kind
    case Person => p.ownerPerson == Some(r.value)
    case Project => p.id == Given(r.value)
    case _ => false
  }

  /** References inside a confirmed snapshot. */
  predicate ConfirmedRef(c: Confirmed, r: Ref) {
    || (r.kind == Person && (Given(r.value) in c.people || Given(r.value) in c.roster))
    || (c.project.Some? && ProjectHolds(c.project.value, r))
    || exists j :: 0 <= j < |c.projects| && ProjectHolds(c.projects[j], r)
  }

  predicate SourceHolds(s: SourceRow, r: Ref) {
    || (r.kind == Person && Some(r.value) in s.speakers)
    || (s.confirmed.Some? && ConfirmedRef(s.confirmed.value, r))
  }

  /** References in a source's utterances and confirmed snapshot, which the restore renames and nothing checks. */
  predicate UncheckedRef(a: Artifact, r: Ref) {
    r.value != "" && exists i :: 0 <= i < |a.sources| && SourceHolds(a.sources[i], r)
  }

  /** References of the graph and of the store's source list, which it compares as they are spelled. */
  predicate SpelledRef(a: Artifact, r: Ref) {
    match r.kind
    case Source =>
      || (exists i :: 0 <= i < |a.nodes| && (a.nodes[i].source == r.value || r.value in a.nodes[i].Listed()))
      || (exists i :: 0 <= i < |a.edges| && a.edges[i].source == r.value)
      || r.value in a.storeSources
    case Chunk =>
      || (exists i :: 0 <= i < |a.nodes| && a.nodes[i].chunk == Some(r.value))
      || exists i :: 0 <= i < |a.edges| && a.edges[i].chunk == Some(r.value)
    case Node =>
      || (exists i :: 0 <= i < |a.nodes| && a.nodes[i].supersededBy == Some(r.value))
      || exists i :: 0 <= i < |a.edges| && (a.edges[i].from == r.value || a.edges[i].to == r.value)
    case _ => false
  }

  // -------------------------------------------------------------------------
  // The validation.
  // -------------------------------------------------------------------------

  /** `str(UUID(value))`, `None` for text that is no identifier. A canonical form is its own canonical form. */
  ghost predicate Canonicalizes(canon: string -> Option<string>) {
    && canon("").None?
    && forall v :: canon(v).Some? ==> canon(canon(v).value) == canon(v)
  }

  predicate DistinctIds(canon: string -> Option<string>, ids: seq<string>) {
    && (forall i :: 0 <= i < |ids| ==> canon(ids[i]).Some?)
    && forall i, j :: 0 <= i < j < |ids| ==> canon(ids[i]) != canon(ids[j])
  }

  /** The canonical identifier is one of the kind's. */
  predicate Known(canon: string -> Option<string>, ids: seq<string>, c: Option<string>) {
    c.Some? && exists i :: 0 <= i < |ids| && canon(ids[i]) == c
  }

  ghost predicate IdsOk(canon: string -> Option<string>, a: Artifact) {
    && (forall kind: Kind :: DistinctIds(canon, Ids(a, kind)))
    && DistinctIds(canon, ContextIds(a)) && DistinctIds(canon, EdgeIds(a))
  }

  ghost predicate RefsOk(canon: string -> Option<string>, a: Artifact) {
    && (forall r: Ref :: SqlRef(a, r) ==> Known(canon, Ids(a, r.kind), canon(r.value)))
    && (forall r: Ref :: SpelledRef(a, r) ==> Known(canon, Ids(a, r.kind), Some(r.value)))
  }

  /** The lookup is by the chunk's spelling and the comparison by the sources' spellings. */
  predicate ChunkAgrees(canon: string -> Option<string>, a: Artifact, context: ContextRow) {
    context.chunk.Some? ==>
      exists j ::
        0 <= j < |a.chunks| && Some(a.chunks[j].id) == canon(context.chunk.value)
          && a.chunks[j].source == context.source
  }

  /** Exactly one object a source, named by the source's canonical identifier. */
  predicate ObjectsOk(canon: string -> Option<string>, a: Artifact) {
    && |a.objects| == |a.sources|
    && (forall i :: 0 <= i < |a.objects| ==> Known(canon, Ids(a, Source), Some(a.objects[i])))
    && forall i :: 0 <= i < |a.sources| ==> canon(a.sources[i].id).Some? && canon(a.sources[i].id).value in a.objects
  }

  /** The store lists every source. */
  predicate StoreOk(canon: string -> Option<string>, a: Artifact) {
    forall i :: 0 <= i < |a.sources| ==> canon(a.sources[i].id).Some? && canon(a.sources[i].id).value in a.storeSources
  }

  /** What `validate_artifact` requires of identifiers and references. */
  ghost predicate Accepted(canon: string -> Option<string>, a: Artifact) {
    && IdsOk(canon, a) && RefsOk(canon, a) && ObjectsOk(canon, a) && StoreOk(canon, a)
    && forall i :: 0 <= i < |a.contexts| ==> ChunkAgrees(canon, a, a.contexts[i])
  }

  // -------------------------------------------------------------------------
  // The restore.
  // -------------------------------------------------------------------------

  /** Renaming under the target is injective and gives canonical identifiers. */
  ghost predicate Renames(remap: string -> string, canon: string -> Option<string>) {
    && (forall u, v :: remap(u) == remap(v) ==> u == v)
    && forall v :: canon(remap(v)) == Some(remap(v))
  }

  /** `_remap` */
  function Renamed(remap: string -> string, v: Option<string>): Option<string> {
    if v.None? || v.value == "" then None else Some(remap(v.value))
  }

  function RenamedAll(remap: string -> string, vs: seq<string>): seq<string> {
    seq(|vs|, i requires 0 <= i < |vs| => remap(vs[i]))
  }

  function RenamedOptions(remap: string -> string, vs: seq<Option<string>>): seq<Option<string>> {
    seq(|vs|, i requires 0 <= i < |vs| => Renamed(remap, vs[i]))
  }

  function RenamedId(remap: string -> string, k: JsonId): JsonId {
    if k.Named() then Given(remap(k.value)) else if k.Missing? then Missing else Null
  }

  function RenamedIds(remap: string -> string, ks: seq<JsonId>): seq<JsonId> {
    seq(|ks|, i requires 0 <= i < |ks| => RenamedId(remap, ks[i]))
  }

  predicate ConfirmedKeysPresent(c: Confirmed) {
    && (c.project.Some? ==> !c.project.value.id.Missing?)
    && (forall j :: 0 <= j < |c.projects| ==> !c.projects[j].id.Missing?)
    && Missing !in c.people && Missing !in c.roster
  }

  /** Nothing is missing that the restore reads and the validation does not ask for. */
  predicate KeysPresent(a: Artifact) {
    && Missing !in MemberIds(a) && Missing !in SourceProjectIds(a) && Missing !in SourcePersonIds(a)
    && (forall i :: 0 <= i < |a.sources| && a.sources[i].confirmed.Some? ==>
          ConfirmedKeysPresent(a.sources[i].confirmed.value))
    && forall i :: 0 <= i < |a.nodes| ==> a.nodes[i].sources.Some?
  }

  /** Every source finds its object by its spelling. */
  predicate ObjectsFound(a: Artifact) {
    forall i :: 0 <= i < |a.sources| ==> a.sources[i].id in a.objects
  }

  /** No identifier is given twice. */
  predicate GivenOnce(ids: seq<JsonId>) {
    forall i, j :: 0 <= i < j < |ids| && ids[i].Named() ==> ids[i] != ids[j]
  }

  /** What a primary key column holds: the given identifiers, and elsewhere what its default draws. */
  function Drawn(draw: nat -> string, ids: seq<JsonId>): seq<string> {
    seq(|ids|, i requires 0 <= i < |ids| => if ids[i].Named() then ids[i].value else draw(i))
  }

  /** `uuid4`: the drawn identifiers are different from each other and from those that are given. */
  predicate DrawsFresh(draw: nat -> string, ids: seq<JsonId>) {
    && (forall i, j :: 0 <= i < j < |ids| ==> draw(i) != draw(j))
    && forall i, j :: 0 <= i < |ids| && 0 <= j < |ids| && ids[j].Given? ==> draw(i) != ids[j].value
  }

  predicate AssociationIdsOk(a: Artifact) {
    GivenOnce(MemberIds(a)) && GivenOnce(SourceProjectIds(a)) && GivenOnce(SourcePersonIds(a))
  }

  predicate Unrepeated<T(==)>(s: seq<T>) {
    forall i, j :: 0 <= i < j < |s| ==> s[i] != s[j]
  }

  function MemberPairs(a: Artifact): seq<(string, string)> {
    seq(|a.members|, i requires 0 <= i < |a.members| => (a.members[i].project, a.members[i].person))
  }

  function SourceProjectPairs(a: Artifact): seq<(string, string)> {
    seq(|a.sourceProjects|,
      i requires 0 <= i < |a.sourceProjects| => (a.sourceProjects[i].source, a.sourceProjects[i].project))
  }

  function SourcePersonTriples(a: Artifact): seq<(string, string, string)> {
    seq(|a.sourcePeople|, i requires 0 <= i < |a.sourcePeople| =>
      (a.sourcePeople[i].source, a.sourcePeople[i].person, a.sourcePeople[i].role))
  }

  /** No association is listed twice. */
  predicate PairsOk(a: Artifact) {
    Unrepeated(MemberPairs(a)) && Unrepeated(SourceProjectPairs(a)) && Unrepeated(SourcePersonTriples(a))
  }

  /** The unique constraints on associations, which nothing in the validation asks for. */
  predicate AssociationsOk(a: Artifact) {
    AssociationIdsOk(a) && PairsOk(a)
  }

  ghost predicate KeysResolve(a: Artifact) {
    forall r: Ref :: KeyRef(a, r) ==> Resolves(a, r)
  }

  /**
    What the tables ask of restored identifiers: the primary keys of associations, their unique pairs
    and the foreign keys. The other primary keys are distinct in every restored artifact.
   */
  ghost predicate DatabaseTakes(b: Artifact) {
    AssociationsOk(b) && KeysResolve(b)
  }

  /**
    The rows, nodes and edges that are written: none if a source finds no object, a key is missing
    (`KeyError`) or the database refuses an identifier.
   */
  ghost function Restored(remap: string -> string, a: Artifact): Option<Artifact> {
    if ObjectsFound(a) && KeysPresent(a) && DatabaseTakes(Rewritten(remap, a)) then Some(Rewritten(remap, a)) else None
  }

  function Rewritten(remap: string -> string, a: Artifact): Artifact {
    Artifact(
      RenamedAll(remap, a.people),
      seq(|a.projects|, i requires 0 <= i < |a.projects| =>
        ProjectRow(remap(a.projects[i].id), Renamed(remap, a.projects[i].ownerPerson))),
      seq(|a.sources|, i requires 0 <= i < |a.sources| =>
        RewrittenSource(remap, a.sources[i])),
      seq(|a.chunks|, i requires 0 <= i < |a.chunks| => ChunkRow(remap(a.chunks[i].id), remap(a.chunks[i].source))),
      seq(|a.contexts|, i requires 0 <= i < |a.contexts| =>
        ContextRow(remap(a.contexts[i].id), remap(a.contexts[i].source), Renamed(remap, a.contexts[i].chunk))),
      seq(|a.members|, i requires 0 <= i < |a.members| =>
        MemberRow(RenamedId(remap, a.members[i].id), remap(a.members[i].project), remap(a.members[i].person))),
      seq(|a.sourceProjects|, i requires 0 <= i < |a.sourceProjects| =>
        SourceProjectRow(RenamedId(remap, a.sourceProjects[i].id), remap(a.sourceProjects[i].source),
          remap(a.sourceProjects[i].project))),
      seq(|a.sourcePeople|, i requires 0 <= i < |a.sourcePeople| =>
        SourcePersonRow(RenamedId(remap, a.sourcePeople[i].id), remap(a.sourcePeople[i].source),
                        remap(a.sourcePeople[i].person), a.sourcePeople[i].role)),
      RenamedAll(remap, a.storeSources),
      RenamedOptions(remap, a.storeItems),
      RenamedAll(remap, a.objects),
      seq(|a.nodes|, i requires 0 <= i < |a.nodes| => RewrittenNode(remap, a.nodes[i])),
      seq(|a.edges|, i requires 0 <= i < |a.edges| => RewrittenEdge(remap, a.edges[i])))
  }

  function RewrittenProject(remap: string -> string, p: ConfirmedProject): ConfirmedProject {
    ConfirmedProject(RenamedId(remap, p.id), Renamed(remap, p.ownerPerson))
  }

  function RewrittenConfirmed(remap: string -> string, c: Confirmed): Confirmed {
    Confirmed(
      if c.project.Some? then Some(RewrittenProject(remap, c.project.value)) else None,
      seq(|c.projects|, j requires 0 <= j < |c.projects| => RewrittenProject(remap, c.projects[j])),
      RenamedIds(remap, c.people),
      RenamedIds(remap, c.roster))
  }

  function RewrittenSource(remap: string -> string, s: SourceRow): SourceRow {
    SourceRow(
      remap(s.id),
      Renamed(remap, s.project),
      RenamedOptions(remap, s.speakers),
      if s.confirmed.Some? then Some(RewrittenConfirmed(remap, s.confirmed.value)) else None)
  }

  function RewrittenNode(remap: string -> string, n: NodeRow): NodeRow {
    NodeRow(
      remap(n.id),
      remap(n.source),
      Renamed(remap, n.chunk),
      if n.sources.Some? then Some(RenamedAll(remap, n.sources.value)) else None,
      Renamed(remap, n.supersededBy))
  }

  function RewrittenEdge(remap: string -> string, e: EdgeRow): EdgeRow {
    EdgeRow(remap(e.id), remap(e.from), remap(e.to), remap(e.source), Renamed(remap, e.chunk))
  }

  /** The reference names a row of the artifact as it is spelled. */
  predicate Resolves(a: Artifact, r: Ref) {
    r.value in Ids(a, r.kind)
  }

  // -------------------------------------------------------------------------
  // Identifiers of directory entries.
  // -------------------------------------------------------------------------

  const PERSON_PREFIX := "directory:person:"
  const PROJECT_PREFIX := "directory:project:"

  /** `_remap_directory_identifier` */
  function RenamedIdentifier(remap: string -> string, canon: string -> Option<string>, v: string): string {
    if PERSON_PREFIX <= v && canon(v[|PERSON_PREFIX|..]).Some? then PERSON_PREFIX + remap(v[|PERSON_PREFIX|..])
    else if PROJECT_PREFIX <= v && canon(v[|PROJECT_PREFIX|..]).Some? then PROJECT_PREFIX + remap(v[|PROJECT_PREFIX|..])
    else v
  }
}
