/** When a restored snapshot's references point at restored rows. */
module SnapshotRefTheorems {
  import opened Options
  import opened SnapshotRefs

  // -------------------------------------------------------------------------
  // Renamed rows.
  // -------------------------------------------------------------------------

  lemma IdsRewritten(remap: string -> string, a: Artifact, kind: Kind)
    ensures Ids(Rewritten(remap, a), kind) == RenamedAll(remap, Ids(a, kind))
  {}

  lemma DistinctRenamed(canon: string -> Option<string>, remap: string -> string, ids: seq<string>)
    requires Renames(remap, canon) && DistinctIds(canon, ids)
    ensures DistinctIds(canon, RenamedAll(remap, ids))
  {
    forall i, j | 0 <= i < j < |ids| ensures canon(remap(ids[i])) != canon(remap(ids[j])) {
      assert canon(ids[i]) != canon(ids[j]);
    }
  }

  lemma GivenOnceRenamed(canon: string -> Option<string>, remap: string -> string, ids: seq<JsonId>)
    requires Canonicalizes(canon) && Renames(remap, canon)
    ensures GivenOnce(RenamedIds(remap, ids)) <==> GivenOnce(ids)
  {
    var after := RenamedIds(remap, ids);
    forall i | 0 <= i < |ids| ensures after[i].Named() <==> ids[i].Named() {
      if ids[i].Named() {
        assert canon(remap(ids[i].value)) == Some(remap(ids[i].value));
      }
    }
    if GivenOnce(ids) {
      forall i, j | 0 <= i < j < |ids| && after[i].Named() ensures after[i] != after[j] {
        assert ids[i] != ids[j];
      }
    }
    if GivenOnce(after) {
      forall i, j | 0 <= i < j < |ids| && ids[i].Named() ensures ids[i] != ids[j] {
        assert after[i] != after[j];
      }
    }
  }

  /** Fresh draws collide with nothing: a column is distinct exactly when no identifier is given twice. */
  lemma DrawnExactlyWhenGivenOnce(draw: nat -> string, ids: seq<JsonId>)
    requires DrawsFresh(draw, ids)
    ensures Unrepeated(Drawn(draw, ids)) <==> GivenOnce(ids)
  {
    var column := Drawn(draw, ids);
    if GivenOnce(ids) {
      forall i, j | 0 <= i < j < |ids| ensures column[i] != column[j] {
        assert ids[i].Named() ==> ids[i] != ids[j];
      }
    }
    if Unrepeated(column) {
      forall i, j | 0 <= i < j < |ids| && ids[i].Named() ensures ids[i] != ids[j] {
        assert column[i] != column[j];
      }
    }
  }

  lemma AssociationIdsRenamed(canon: string -> Option<string>, remap: string -> string, a: Artifact)
    requires Canonicalizes(canon) && Renames(remap, canon)
    ensures AssociationIdsOk(Rewritten(remap, a)) <==> AssociationIdsOk(a)
  {
    var b := Rewritten(remap, a);
    assert MemberIds(b) == RenamedIds(remap, MemberIds(a));
    assert SourceProjectIds(b) == RenamedIds(remap, SourceProjectIds(a));
    assert SourcePersonIds(b) == RenamedIds(remap, SourcePersonIds(a));
    GivenOnceRenamed(canon, remap, MemberIds(a));
    GivenOnceRenamed(canon, remap, SourceProjectIds(a));
    GivenOnceRenamed(canon, remap, SourcePersonIds(a));
  }

  predicate AssociationDraws(draw: nat -> string, a: Artifact) {
    DrawsFresh(draw, MemberIds(a)) && DrawsFresh(draw, SourceProjectIds(a)) && DrawsFresh(draw, SourcePersonIds(a))
  }

  /** Every identifier in the tables and the graph is distinct in its kind, associations included. */
  ghost predicate AllIdsOk(canon: string -> Option<string>, draw: nat -> string, a: Artifact) {
    && IdsOk(canon, a) && Unrepeated(Drawn(draw, MemberIds(a)))
    && Unrepeated(Drawn(draw, SourceProjectIds(a))) && Unrepeated(Drawn(draw, SourcePersonIds(a)))
  }

  /**
    Restored rows, nodes and edges have distinct identifiers within their kind; associations, whose
    identifiers the validation never looks at, have them exactly when the artifact gives none twice.
   */
  lemma RestoredIdsAreDistinct(canon: string -> Option<string>, remap: string -> string, draw: nat -> string,
                               a: Artifact)
    requires Canonicalizes(canon) && Renames(remap, canon) && Accepted(canon, a)
    requires AssociationDraws(draw, Rewritten(remap, a))
    ensures IdsOk(canon, Rewritten(remap, a))
    ensures AllIdsOk(canon, draw, Rewritten(remap, a)) <==> AssociationIdsOk(a)
  {
    var b := Rewritten(remap, a);
    forall kind: Kind ensures DistinctIds(canon, Ids(b, kind)) {
      IdsRewritten(remap, a, kind);
      DistinctRenamed(canon, remap, Ids(a, kind));
    }
    assert ContextIds(b) == RenamedAll(remap, ContextIds(a));
    assert EdgeIds(b) == RenamedAll(remap, EdgeIds(a));
    DistinctRenamed(canon, remap, ContextIds(a));
    DistinctRenamed(canon, remap, EdgeIds(a));
    AssociationIdsRenamed(canon, remap, a);
    DrawnExactlyWhenGivenOnce(draw, MemberIds(b));
    DrawnExactlyWhenGivenOnce(draw, SourceProjectIds(b));
    DrawnExactlyWhenGivenOnce(draw, SourcePersonIds(b));
  }

  lemma UnrepeatedAlike<T>(s: seq<T>, t: seq<T>)
    requires |s| == |t| && forall i, j :: 0 <= i < |s| && 0 <= j < |s| ==> (s[i] == s[j] <==> t[i] == t[j])
    ensures Unrepeated(s) <==> Unrepeated(t)
  {}

  lemma PairsRenamed(canon: string -> Option<string>, remap: string -> string, a: Artifact)
    requires Renames(remap, canon)
    ensures PairsOk(Rewritten(remap, a)) <==> PairsOk(a)
  {
    var b := Rewritten(remap, a);
    UnrepeatedAlike(MemberPairs(a), MemberPairs(b));
    UnrepeatedAlike(SourceProjectPairs(a), SourceProjectPairs(b));
    UnrepeatedAlike(SourcePersonTriples(a), SourcePersonTriples(b));
  }

  // -------------------------------------------------------------------------
  // Renamed references.
  // -------------------------------------------------------------------------

  predicate IsRef(a: Artifact, r: Ref) {
    SqlRef(a, r) || SpelledRef(a, r) || UncheckedRef(a, r)
  }

  /** Every reference of the result was one of the artifact. */
  lemma RefCameFrom(canon: string -> Option<string>, remap: string -> string, a: Artifact, r: Ref) returns (v: string)
    requires Canonicalizes(canon) && Renames(remap, canon) && IsRef(Rewritten(remap, a), r)
    ensures IsRef(a, Ref(r.kind, v)) && r.value == remap(v)
  {
    if KeyRef(Rewritten(remap, a), r) {
      v := KeyRefCameFrom(remap, a, r);
    } else if SqlRef(Rewritten(remap, a), r) {
      v := OptionCameFrom(remap, a.storeItems, r.value);
    } else if SpelledRef(Rewritten(remap, a), r) {
      v := SpelledRefCameFrom(remap, a, r);
    } else {
      v := UncheckedRefCameFrom(remap, a, r);
    }
  }

  lemma OptionCameFrom(remap: string -> string, vs: seq<Option<string>>, w: string) returns (v: string)
    requires Some(w) in RenamedOptions(remap, vs)
    ensures Some(v) in vs && v != "" && w == remap(v)
  {
    var i :| 0 <= i < |vs| && RenamedOptions(remap, vs)[i] == Some(w);
    v := vs[i].value;
  }

  lemma IdCameFrom(remap: string -> string, ks: seq<JsonId>, w: string) returns (v: string)
    requires Given(w) in RenamedIds(remap, ks)
    ensures Given(v) in ks && v != "" && w == remap(v)
  {
    var i :| 0 <= i < |ks| && RenamedIds(remap, ks)[i] == Given(w);
    v := ks[i].value;
  }

  lemma UncheckedRefCameFrom(remap: string -> string, a: Artifact, r: Ref) returns (v: string)
    requires UncheckedRef(Rewritten(remap, a), r)
    ensures UncheckedRef(a, Ref(r.kind, v)) && r.value == remap(v)
  {
    var b := Rewritten(remap, a);
    var i :| 0 <= i < |b.sources| && SourceHolds(b.sources[i], r);
    v := HeldCameFrom(remap, a.sources[i], r);
  }

  lemma HeldCameFrom(remap: string -> string, s: SourceRow, r: Ref) returns (v: string)
    requires SourceHolds(RewrittenSource(remap, s), r)
    ensures SourceHolds(s, Ref(r.kind, v)) && v != "" && r.value == remap(v)
  {
    if r.kind == Person && Some(r.value) in RenamedOptions(remap, s.speakers) {
      v := OptionCameFrom(remap, s.speakers, r.value);
    } else {
      v := ConfirmedCameFrom(remap, s.confirmed.value, r);
    }
  }

  lemma ConfirmedCameFrom(remap: string -> string, c: Confirmed, r: Ref) returns (v: string)
    requires ConfirmedRef(RewrittenConfirmed(remap, c), r)
    ensures ConfirmedRef(c, Ref(r.kind, v)) && v != "" && r.value == remap(v)
  {
    var d := RewrittenConfirmed(remap, c);
    if r.kind == Person && Given(r.value) in d.people {
      v := IdCameFrom(remap, c.people, r.value);
    } else if r.kind == Person && Given(r.value) in d.roster {
      v := IdCameFrom(remap, c.roster, r.value);
    } else if d.project.Some? && ProjectHolds(d.project.value, r) {
      v := ProjectCameFrom(remap, c.project.value, r);
    } else {
      var j :| 0 <= j < |d.projects| && ProjectHolds(d.projects[j], r);
      assert d.projects[j] == RewrittenProject(remap, c.projects[j]);
      v := ProjectCameFrom(remap, c.projects[j], r);
    }
  }

  lemma ProjectCameFrom(remap: string -> string, p: ConfirmedProject, r: Ref) returns (v: string)
    requires ProjectHolds(RewrittenProject(remap, p), r)
    ensures ProjectHolds(p, Ref(r.kind, v)) && v != "" && r.value == remap(v)
  {
    v := if r.kind == Person then p.ownerPerson.value else p.id.value;
  }

  lemma KeyRefCameFrom(remap: string -> string, a: Artifact, r: Ref) returns (v: string)
    requires KeyRef(Rewritten(remap, a), r)
    ensures KeyRef(a, Ref(r.kind, v)) && r.value == remap(v)
  {
    match r.kind
    case Person => v := PersonRefCameFrom(remap, a, r);
    case Project => v := ProjectRefCameFrom(remap, a, r);
    case Source => v := SourceRefCameFrom(remap, a, r);
    case Chunk =>
      var b := Rewritten(remap, a);
      var i :| 0 <= i < |b.contexts| && b.contexts[i].chunk == Some(r.value);
      assert b.contexts[i].chunk == Renamed(remap, a.contexts[i].chunk);
      v := a.contexts[i].chunk.value;
  }

  lemma PersonRefCameFrom(remap: string -> string, a: Artifact, r: Ref) returns (v: string)
    requires r.kind == Person && KeyRef(Rewritten(remap, a), r)
    ensures KeyRef(a, Ref(r.kind, v)) && r.value == remap(v)
  {
    var b := Rewritten(remap, a);
    if i :| 0 <= i < |b.projects| && b.projects[i].ownerPerson == Some(r.value) {
      assert b.projects[i].ownerPerson == Renamed(remap, a.projects[i].ownerPerson);
      v := a.projects[i].ownerPerson.value;
    } else if i :| 0 <= i < |b.members| && b.members[i].person == r.value {
      v := a.members[i].person;
    } else {
      var i :| 0 <= i < |b.sourcePeople| && b.sourcePeople[i].person == r.value;
      v := a.sourcePeople[i].person;
    }
  }

  lemma ProjectRefCameFrom(remap: string -> string, a: Artifact, r: Ref) returns (v: string)
    requires r.kind == Project && KeyRef(Rewritten(remap, a), r)
    ensures KeyRef(a, Ref(r.kind, v)) && r.value == remap(v)
  {
    var b := Rewritten(remap, a);
    if i :| 0 <= i < |b.sources| && b.sources[i].project == Some(r.value) {
      assert b.sources[i] == RewrittenSource(remap, a.sources[i]);
      v := a.sources[i].project.value;
    } else if i :| 0 <= i < |b.members| && b.members[i].project == r.value {
      v := a.members[i].project;
    } else {
      var i :| 0 <= i < |b.sourceProjects| && b.sourceProjects[i].project == r.value;
      v := a.sourceProjects[i].project;
    }
  }

  lemma SourceRefCameFrom(remap: string -> string, a: Artifact, r: Ref) returns (v: string)
    requires r.kind == Source && KeyRef(Rewritten(remap, a), r)
    ensures KeyRef(a, Ref(r.kind, v)) && r.value == remap(v)
  {
    var b := Rewritten(remap, a);
    if i :| 0 <= i < |b.chunks| && b.chunks[i].source == r.value {
      v := a.chunks[i].source;
    } else if i :| 0 <= i < |b.contexts| && b.contexts[i].source == r.value {
      v := a.contexts[i].source;
    } else if i :| 0 <= i < |b.sourceProjects| && b.sourceProjects[i].source == r.value {
      v := a.sourceProjects[i].source;
    } else {
      var i :| 0 <= i < |b.sourcePeople| && b.sourcePeople[i].source == r.value;
      v := a.sourcePeople[i].source;
    }
  }

  lemma SpelledRefCameFrom(remap: string -> string, a: Artifact, r: Ref) returns (v: string)
    requires SpelledRef(Rewritten(remap, a), r)
    ensures SpelledRef(a, Ref(r.kind, v)) && r.value == remap(v)
  {
    var b := Rewritten(remap, a);
    match r.kind
    case Source =>
      if i :| 0 <= i < |b.nodes| && (b.nodes[i].source == r.value || r.value in b.nodes[i].Listed()) {
        assert b.nodes[i] == RewrittenNode(remap, a.nodes[i]);
        if b.nodes[i].source == r.value {
          v := a.nodes[i].source;
        } else {
          v := RenamedMember(remap, a.nodes[i].Listed(), r.value);
        }
      } else if i :| 0 <= i < |b.edges| && b.edges[i].source == r.value {
        v := a.edges[i].source;
      } else {
        v := RenamedMember(remap, a.storeSources, r.value);
      }
    case Chunk =>
      if i :| 0 <= i < |b.nodes| && b.nodes[i].chunk == Some(r.value) {
        v := a.nodes[i].chunk.value;
      } else {
        var i :| 0 <= i < |b.edges| && b.edges[i].chunk == Some(r.value);
        v := a.edges[i].chunk.value;
      }
    case Node =>
      if i :| 0 <= i < |b.nodes| && b.nodes[i].supersededBy == Some(r.value) {
        v := a.nodes[i].supersededBy.value;
      } else {
        var i :| 0 <= i < |b.edges| && (b.edges[i].from == r.value || b.edges[i].to == r.value);
        v := if b.edges[i].from == r.value then a.edges[i].from else a.edges[i].to;
      }
  }

  lemma RenamedMember(remap: string -> string, vs: seq<string>, w: string) returns (v: string)
    requires w in RenamedAll(remap, vs)
    ensures v in vs && w == remap(v)
  {
    var i :| 0 <= i < |vs| && RenamedAll(remap, vs)[i] == w;
    v := vs[i];
  }

  /** Every reference of the artifact is one of the result, renamed. */
  lemma RefGoesTo(canon: string -> Option<string>, remap: string -> string, a: Artifact, r: Ref)
    requires Canonicalizes(canon) && Renames(remap, canon) && IsRef(a, r) && r.value != ""
    ensures IsRef(Rewritten(remap, a), Ref(r.kind, remap(r.value)))
  {
    if KeyRef(a, r) {
      KeyRefGoesTo(remap, a, r);
    } else if SqlRef(a, r) {
      OptionGoesTo(remap, a.storeItems, r.value);
    } else if SpelledRef(a, r) {
      SpelledRefGoesTo(remap, a, r);
    } else {
      UncheckedRefGoesTo(canon, remap, a, r);
    }
  }

  lemma OptionGoesTo(remap: string -> string, vs: seq<Option<string>>, v: string)
    requires Some(v) in vs && v != ""
    ensures Some(remap(v)) in RenamedOptions(remap, vs)
  {
    var i :| 0 <= i < |vs| && vs[i] == Some(v);
    assert RenamedOptions(remap, vs)[i] == Some(remap(v));
  }

  lemma IdGoesTo(remap: string -> string, ks: seq<JsonId>, v: string)
    requires Given(v) in ks && v != ""
    ensures Given(remap(v)) in RenamedIds(remap, ks)
  {
    var i :| 0 <= i < |ks| && ks[i] == Given(v);
    assert RenamedIds(remap, ks)[i] == Given(remap(v));
  }

  lemma UncheckedRefGoesTo(canon: string -> Option<string>, remap: string -> string, a: Artifact, r: Ref)
    requires Canonicalizes(canon) && Renames(remap, canon) && UncheckedRef(a, r)
    ensures UncheckedRef(Rewritten(remap, a), Ref(r.kind, remap(r.value)))
  {
    var i :| 0 <= i < |a.sources| && SourceHolds(a.sources[i], r);
    HeldGoesTo(remap, a.sources[i], r);
    assert Rewritten(remap, a).sources[i] == RewrittenSource(remap, a.sources[i]);
    assert canon(remap(r.value)).Some?;
  }

  lemma HeldGoesTo(remap: string -> string, s: SourceRow, r: Ref)
    requires SourceHolds(s, r) && r.value != ""
    ensures SourceHolds(RewrittenSource(remap, s), Ref(r.kind, remap(r.value)))
  {
    if r.kind == Person && Some(r.value) in s.speakers {
      OptionGoesTo(remap, s.speakers, r.value);
    } else {
      ConfirmedGoesTo(remap, s.confirmed.value, r);
    }
  }

  lemma ConfirmedGoesTo(remap: string -> string, c: Confirmed, r: Ref)
    requires ConfirmedRef(c, r) && r.value != ""
    ensures ConfirmedRef(RewrittenConfirmed(remap, c), Ref(r.kind, remap(r.value)))
  {
    var d := RewrittenConfirmed(remap, c);
    if r.kind == Person && Given(r.value) in c.people {
      IdGoesTo(remap, c.people, r.value);
    } else if r.kind == Person && Given(r.value) in c.roster {
      IdGoesTo(remap, c.roster, r.value);
    } else if c.project.Some? && ProjectHolds(c.project.value, r) {
      ProjectGoesTo(remap, c.project.value, r);
    } else {
      var j :| 0 <= j < |c.projects| && ProjectHolds(c.projects[j], r);
      ProjectGoesTo(remap, c.projects[j], r);
      assert d.projects[j] == RewrittenProject(remap, c.projects[j]);
    }
  }

  lemma ProjectGoesTo(remap: string -> string, p: ConfirmedProject, r: Ref)
    requires ProjectHolds(p, r) && r.value != ""
    ensures ProjectHolds(RewrittenProject(remap, p), Ref(r.kind, remap(r.value)))
  {}

  lemma KeyRefGoesTo(remap: string -> string, a: Artifact, r: Ref)
    requires KeyRef(a, r) && r.value != ""
    ensures KeyRef(Rewritten(remap, a), Ref(r.kind, remap(r.value)))
  {
    match r.kind
    case Person => PersonRefGoesTo(remap, a, r);
    case Project => ProjectRefGoesTo(remap, a, r);
    case Source => SourceRefGoesTo(remap, a, r);
    case Chunk =>
      var i :| 0 <= i < |a.contexts| && a.contexts[i].chunk == Some(r.value);
      assert Rewritten(remap, a).contexts[i].chunk == Some(remap(r.value));
  }

  lemma PersonRefGoesTo(remap: string -> string, a: Artifact, r: Ref)
    requires r.kind == Person && KeyRef(a, r) && r.value != ""
    ensures KeyRef(Rewritten(remap, a), Ref(r.kind, remap(r.value)))
  {
    var b, w := Rewritten(remap, a), remap(r.value);
    if i :| 0 <= i < |a.projects| && a.projects[i].ownerPerson == Some(r.value) {
      assert b.projects[i].ownerPerson == Some(w);
    } else if i :| 0 <= i < |a.members| && a.members[i].person == r.value {
      assert b.members[i].person == w;
    } else {
      var i :| 0 <= i < |a.sourcePeople| && a.sourcePeople[i].person == r.value;
      assert b.sourcePeople[i].person == w;
    }
  }

  lemma ProjectRefGoesTo(remap: string -> string, a: Artifact, r: Ref)
    requires r.kind == Project && KeyRef(a, r) && r.value != ""
    ensures KeyRef(Rewritten(remap, a), Ref(r.kind, remap(r.value)))
  {
    var b, w := Rewritten(remap, a), remap(r.value);
    if i :| 0 <= i < |a.sources| && a.sources[i].project == Some(r.value) {
      assert b.sources[i] == RewrittenSource(remap, a.sources[i]);
    } else if i :| 0 <= i < |a.members| && a.members[i].project == r.value {
      assert b.members[i].project == w;
    } else {
      var i :| 0 <= i < |a.sourceProjects| && a.sourceProjects[i].project == r.value;
      assert b.sourceProjects[i].project == w;
    }
  }

  lemma SourceRefGoesTo(remap: string -> string, a: Artifact, r: Ref)
    requires r.kind == Source && KeyRef(a, r) && r.value != ""
    ensures KeyRef(Rewritten(remap, a), Ref(r.kind, remap(r.value)))
  {
    var b, w := Rewritten(remap, a), remap(r.value);
    if i :| 0 <= i < |a.chunks| && a.chunks[i].source == r.value {
      assert b.chunks[i].source == w;
    } else if i :| 0 <= i < |a.contexts| && a.contexts[i].source == r.value {
      assert b.contexts[i].source == w;
    } else if i :| 0 <= i < |a.sourceProjects| && a.sourceProjects[i].source == r.value {
      assert b.sourceProjects[i].source == w;
    } else {
      var i :| 0 <= i < |a.sourcePeople| && a.sourcePeople[i].source == r.value;
      assert b.sourcePeople[i].source == w;
    }
  }

  lemma SpelledRefGoesTo(remap: string -> string, a: Artifact, r: Ref)
    requires SpelledRef(a, r) && r.value != ""
    ensures SpelledRef(Rewritten(remap, a), Ref(r.kind, remap(r.value)))
  {
    var b, w := Rewritten(remap, a), remap(r.value);
    match r.kind
    case Source =>
      if i :| 0 <= i < |a.nodes| && (a.nodes[i].source == r.value || r.value in a.nodes[i].Listed()) {
        assert b.nodes[i] == RewrittenNode(remap, a.nodes[i]);
        if r.value in a.nodes[i].Listed() {
          MemberRenamed(remap, a.nodes[i].Listed(), r.value);
        }
      } else if i :| 0 <= i < |a.edges| && a.edges[i].source == r.value {
        assert b.edges[i].source == w;
      } else {
        MemberRenamed(remap, a.storeSources, r.value);
      }
    case Chunk =>
      if i :| 0 <= i < |a.nodes| && a.nodes[i].chunk == Some(r.value) {
        NodeFields(remap, a, i);
        assert b.nodes[i].chunk == Some(w);
      } else {
        var i :| 0 <= i < |a.edges| && a.edges[i].chunk == Some(r.value);
        EdgeFields(remap, a, i);
        assert b.edges[i].chunk == Some(w);
      }
    case Node =>
      if i :| 0 <= i < |a.nodes| && a.nodes[i].supersededBy == Some(r.value) {
        NodeFields(remap, a, i);
        assert b.nodes[i].supersededBy == Some(w);
      } else {
        var i :| 0 <= i < |a.edges| && (a.edges[i].from == r.value || a.edges[i].to == r.value);
        EdgeFields(remap, a, i);
        assert b.edges[i].from == w || b.edges[i].to == w;
      }
  }

  lemma NodeFields(remap: string -> string, a: Artifact, i: nat)
    requires i < |a.nodes|
    ensures i < |Rewritten(remap, a).nodes| && Rewritten(remap, a).nodes[i] == RewrittenNode(remap, a.nodes[i])
  {}

  lemma EdgeFields(remap: string -> string, a: Artifact, i: nat)
    requires i < |a.edges|
    ensures i < |Rewritten(remap, a).edges| && Rewritten(remap, a).edges[i] == RewrittenEdge(remap, a.edges[i])
  {}

  lemma MemberRenamed(remap: string -> string, vs: seq<string>, v: string)
    requires v in vs
    ensures remap(v) in RenamedAll(remap, vs)
  {
    var i :| 0 <= i < |vs| && vs[i] == v;
    assert RenamedAll(remap, vs)[i] == remap(v);
  }

  // -------------------------------------------------------------------------
  // When references resolve.
  // -------------------------------------------------------------------------

  /** A renamed reference resolves exactly when the artifact spells it like the identifier it names. */
  lemma ResolvesRenamed(canon: string -> Option<string>, remap: string -> string, a: Artifact, r: Ref)
    requires Renames(remap, canon)
    ensures Resolves(Rewritten(remap, a), Ref(r.kind, remap(r.value))) <==> Resolves(a, r)
  {
    IdsRewritten(remap, a, r.kind);
    if Resolves(a, r) {
      MemberRenamed(remap, Ids(a, r.kind), r.value);
    }
    if remap(r.value) in RenamedAll(remap, Ids(a, r.kind)) {
      var v := RenamedMember(remap, Ids(a, r.kind), remap(r.value));
    }
  }

  ghost predicate AllResolve(a: Artifact) {
    forall r: Ref :: IsRef(a, r) ==> Resolves(a, r)
  }

  lemma NoEmptyRef(canon: string -> Option<string>, a: Artifact, r: Ref)
    requires Canonicalizes(canon) && Accepted(canon, a) && IsRef(a, r)
    ensures r.value != ""
  {
    if SpelledRef(a, r) {
      var i :| 0 <= i < |Ids(a, r.kind)| && canon(Ids(a, r.kind)[i]) == Some(r.value);
      assert canon(r.value) == Some(r.value);
    }
  }

  /**
    Every reference of the restored rows and graph points at a restored row exactly when the artifact
    spells every reference like the identifier of the row it names.
   */
  lemma ReferencesSurviveExactlyWhenSpelledAlike(canon: string -> Option<string>, remap: string -> string, a: Artifact)
    requires Canonicalizes(canon) && Renames(remap, canon) && Accepted(canon, a)
    ensures AllResolve(Rewritten(remap, a)) <==> AllResolve(a)
  {
    var b := Rewritten(remap, a);
    if AllResolve(a) {
      forall r: Ref | IsRef(b, r) ensures Resolves(b, r) {
        var v := RefCameFrom(canon, remap, a, r);
        ResolvesRenamed(canon, remap, a, Ref(r.kind, v));
      }
    }
    if AllResolve(b) {
      forall r: Ref | IsRef(a, r) ensures Resolves(a, r) {
        NoEmptyRef(canon, a, r);
        RefGoesTo(canon, remap, a, r);
        ResolvesRenamed(canon, remap, a, r);
      }
    }
  }

  /** The row with this canonical identifier is spelled canonically. */
  predicate SpelledCanonically(canon: string -> Option<string>, ids: seq<string>, c: string) {
    forall i :: 0 <= i < |ids| && canon(ids[i]) == Some(c) ==> ids[i] == c
  }

  /**
    An accepted graph reference, or an entry of the store's source list, resolves exactly when the
    row it names spells its identifier canonically: the validation does not compare spellings there.
   */
  lemma GraphReferenceResolvesExactlyWhen(canon: string -> Option<string>, a: Artifact, r: Ref)
    requires Canonicalizes(canon) && Accepted(canon, a) && SpelledRef(a, r)
    ensures Resolves(a, r) <==> SpelledCanonically(canon, Ids(a, r.kind), r.value)
  {
    var ids := Ids(a, r.kind);
    assert Known(canon, ids, Some(r.value));
    var i :| 0 <= i < |ids| && canon(ids[i]) == Some(r.value);
    if r.value in ids {
      var j :| 0 <= j < |ids| && ids[j] == r.value;
      assert canon(ids[j]) == canon(canon(ids[i]).value) == canon(ids[i]);
      assert DistinctIds(canon, ids);
      forall k | 0 <= k < |ids| && canon(ids[k]) == Some(r.value) ensures ids[k] == r.value {
        assert k == j;
      }
    }
  }

  /** Once every source has found its object, every graph, store and evidence reference to a source resolves. */
  lemma SourceReferencesResolve(canon: string -> Option<string>, remap: string -> string, a: Artifact, r: Ref)
    requires Canonicalizes(canon) && Renames(remap, canon) && Accepted(canon, a) && ObjectsFound(a)
    requires r.kind == Source && SpelledRef(a, r)
    ensures Resolves(Rewritten(remap, a), Ref(Source, remap(r.value)))
  {
    forall i | 0 <= i < |a.sources| ensures canon(a.sources[i].id) == Some(a.sources[i].id) {
      assert a.sources[i].id in a.objects;
      var k :| 0 <= k < |a.objects| && a.objects[k] == a.sources[i].id;
      assert Known(canon, Ids(a, Source), Some(a.objects[k]));
    }
    assert SpelledCanonically(canon, Ids(a, Source), r.value);
    GraphReferenceResolvesExactlyWhen(canon, a, r);
    ResolvesRenamed(canon, remap, a, r);
  }

  // -------------------------------------------------------------------------
  // When the restore goes through.
  // -------------------------------------------------------------------------

  /** A foreign key holds after the renaming exactly when the artifact spells it like the identifier it names. */
  lemma KeysResolveRenamed(canon: string -> Option<string>, remap: string -> string, a: Artifact)
    requires Canonicalizes(canon) && Renames(remap, canon) && Accepted(canon, a)
    ensures KeysResolve(Rewritten(remap, a)) <==> KeysResolve(a)
  {
    var b := Rewritten(remap, a);
    if KeysResolve(a) {
      forall r: Ref | KeyRef(b, r) ensures Resolves(b, r) {
        var v := KeyRefCameFrom(remap, a, r);
        ResolvesRenamed(canon, remap, a, Ref(r.kind, v));
      }
    }
    if KeysResolve(b) {
      forall r: Ref | KeyRef(a, r) ensures Resolves(a, r) {
        NoEmptyRef(canon, a, r);
        KeyRefGoesTo(remap, a, r);
        ResolvesRenamed(canon, remap, a, r);
      }
    }
  }

  /**
    An accepted artifact is restored exactly when every source's object is named as the source is,
    nothing is missing that the restore reads, no association has the identifier or the pair of
    another, and foreign keys are spelled like what they name.
   */
  lemma RestoredExactlyWhen(canon: string -> Option<string>, remap: string -> string, a: Artifact)
    requires Canonicalizes(canon) && Renames(remap, canon) && Accepted(canon, a)
    ensures Restored(remap, a).Some? <==> ObjectsFound(a) && KeysPresent(a) && AssociationsOk(a) && KeysResolve(a)
  {
    AssociationIdsRenamed(canon, remap, a);
    PairsRenamed(canon, remap, a);
    KeysResolveRenamed(canon, remap, a);
  }

  /** An artifact whose checked identifiers and references are all spelled as `str(UUID(...))` spells them. */
  ghost predicate AllCanonical(canon: string -> Option<string>, a: Artifact) {
    && (forall kind: Kind, id :: id in Ids(a, kind) ==> canon(id) == Some(id))
    && forall r: Ref :: SqlRef(a, r) ==> canon(r.value) == Some(r.value)
  }

  /** Utterances and confirmed snapshots name persons and projects of the artifact as they are spelled. */
  ghost predicate UncheckedResolve(a: Artifact) {
    forall r: Ref :: UncheckedRef(a, r) ==> Resolves(a, r)
  }

  lemma CheckedReferencesResolve(canon: string -> Option<string>, a: Artifact, r: Ref)
    requires Canonicalizes(canon) && Accepted(canon, a) && AllCanonical(canon, a)
    requires SqlRef(a, r) || SpelledRef(a, r)
    ensures Resolves(a, r)
  {
    if SqlRef(a, r) {
      assert Known(canon, Ids(a, r.kind), canon(r.value));
      var i :| 0 <= i < |Ids(a, r.kind)| && canon(Ids(a, r.kind)[i]) == canon(r.value);
      assert Ids(a, r.kind)[i] in Ids(a, r.kind);
    } else {
      GraphReferenceResolvesExactlyWhen(canon, a, r);
    }
  }

  /**
    Even of a canonical artifact the validation promises less than the restore needs: it is restored
    exactly when no key is missing and its associations are proper, and then every reference survives exactly when those
    the validation never reads name rows of the artifact.
   */
  lemma CanonicalArtifactSurvivesExactlyWhen(canon: string -> Option<string>, remap: string -> string,
                                             draw: nat -> string, a: Artifact)
    requires Canonicalizes(canon) && Renames(remap, canon) && Accepted(canon, a) && AllCanonical(canon, a)
    requires AssociationDraws(draw, Rewritten(remap, a))
    ensures Restored(remap, a).Some? <==> KeysPresent(a) && AssociationsOk(a)
    ensures Restored(remap, a).Some? ==> (AllResolve(Restored(remap, a).value) <==> UncheckedResolve(a))
    ensures Restored(remap, a).Some? ==> AllIdsOk(canon, draw, Restored(remap, a).value)
  {
    forall i | 0 <= i < |a.sources| ensures a.sources[i].id in a.objects {
      assert Ids(a, Source)[i] in Ids(a, Source);
    }
    forall r: Ref | SqlRef(a, r) || SpelledRef(a, r) ensures Resolves(a, r) {
      CheckedReferencesResolve(canon, a, r);
    }
    assert AllResolve(a) <==> UncheckedResolve(a) by {
      forall r: Ref | UncheckedResolve(a) && IsRef(a, r) ensures Resolves(a, r) {}
      forall r: Ref | AllResolve(a) && UncheckedRef(a, r) ensures Resolves(a, r) {
        assert IsRef(a, r);
      }
    }
    RestoredExactlyWhen(canon, remap, a);
    ReferencesSurviveExactlyWhenSpelledAlike(canon, remap, a);
    RestoredIdsAreDistinct(canon, remap, draw, a);
  }

  /** A restored context and the chunk it names always agree on their source. */
  lemma ContextAndChunkAgree(canon: string -> Option<string>, remap: string -> string, a: Artifact, i: nat, j: nat)
    requires Canonicalizes(canon) && Renames(remap, canon) && Accepted(canon, a)
    requires i < |a.contexts| && j < |a.chunks|
    requires Rewritten(remap, a).contexts[i].chunk == Some(Rewritten(remap, a).chunks[j].id)
    ensures Rewritten(remap, a).contexts[i].source == Rewritten(remap, a).chunks[j].source
  {
    var context := a.contexts[i];
    assert context.chunk == Some(a.chunks[j].id);
    assert ChunkAgrees(canon, a, context);
    var k :| 0 <= k < |a.chunks| && Some(a.chunks[k].id) == canon(context.chunk.value)
      && a.chunks[k].source == context.source;
    assert DistinctIds(canon, Ids(a, Chunk));
    assert canon(Ids(a, Chunk)[k]) == canon(Ids(a, Chunk)[j]);
    assert k == j;
  }

  // -------------------------------------------------------------------------
  // Snapshots that are accepted and lose something.
  // -------------------------------------------------------------------------

  /** The smallest artifact with one source, chunk, context, node and edge, and with some people and associations. */
  function Small(c: string, node: string, people: seq<string>, projects: seq<ProjectRow>, members: seq<MemberRow>,
                 speakers: seq<Option<string>>): Artifact {
    Artifact(
      people, projects, [SourceRow(c, None, speakers, None)], [ChunkRow(c, c)], [ContextRow(c, c, Some(c))],
      members, [], [],
      [c], [], [c], [NodeRow(node, c, Some(c), Some([c]), None)], [EdgeRow(c, c, c, c, Some(c))])
  }

  lemma OneId(canon: string -> Option<string>, id: string)
    requires canon(id).Some?
    ensures DistinctIds(canon, [id]) && Known(canon, [id], canon(id))
  {
    assert canon([id][0]) == canon(id);
  }

  predicate GoodPeople(canon: string -> Option<string>, people: seq<string>, projects: seq<ProjectRow>,
                       members: seq<MemberRow>) {
    && DistinctIds(canon, people) && |projects| <= 1
    && (forall i :: 0 <= i < |projects| ==> canon(projects[i].id).Some? && projects[i].ownerPerson.None?)
    && forall i :: 0 <= i < |members| ==>
      members[i].person in people && |projects| == 1 && members[i].project == projects[0].id
  }

  lemma SmallIds(canon: string -> Option<string>, c: string, node: string, people: seq<string>,
                 projects: seq<ProjectRow>, members: seq<MemberRow>, speakers: seq<Option<string>>)
    requires canon(c) == Some(c) && canon(node) == Some(c) && GoodPeople(canon, people, projects, members)
    ensures IdsOk(canon, Small(c, node, people, projects, members, speakers))
    ensures var a := Small(c, node, people, projects, members, speakers);
      Ids(a, Person) == people && Ids(a, Source) == [c] && Ids(a, Chunk) == [c] && Ids(a, Node) == [node]
  {
    var a := Small(c, node, people, projects, members, speakers);
    OneId(canon, c);
    OneId(canon, node);
    assert Ids(a, Source) == [c] && Ids(a, Chunk) == [c] && Ids(a, Node) == [node];
    assert ContextIds(a) == [c] && EdgeIds(a) == [c];
    forall kind: Kind ensures DistinctIds(canon, Ids(a, kind)) {
      match kind
      case _ =>
    }
  }

  lemma SmallSqlRefs(c: string, node: string, people: seq<string>, projects: seq<ProjectRow>, members: seq<MemberRow>,
                     speakers: seq<Option<string>>, r: Ref)
    requires SqlRef(Small(c, node, people, projects, members, speakers), r)
    requires forall i :: 0 <= i < |projects| ==> projects[i].ownerPerson.None?
    ensures r == Ref(Source, c) || r == Ref(Chunk, c)
      || (r.kind == Person && exists i :: 0 <= i < |members| && members[i].person == r.value)
      || (r.kind == Project && exists i :: 0 <= i < |members| && members[i].project == r.value)
  {}

  lemma SmallSpelledRefs(c: string, node: string, people: seq<string>, projects: seq<ProjectRow>,
                         members: seq<MemberRow>, speakers: seq<Option<string>>, r: Ref)
    requires SpelledRef(Small(c, node, people, projects, members, speakers), r)
    ensures r.value == c && (r.kind == Source || r.kind == Chunk || r.kind == Node)
  {}

  lemma KnownHere(canon: string -> Option<string>, ids: seq<string>, v: string)
    requires v in ids && canon(v).Some?
    ensures Known(canon, ids, canon(v))
  {
    var i :| 0 <= i < |ids| && ids[i] == v;
    assert canon(ids[i]) == canon(v);
  }

  lemma SmallRefs(canon: string -> Option<string>, c: string, node: string, people: seq<string>,
                  projects: seq<ProjectRow>, members: seq<MemberRow>, speakers: seq<Option<string>>)
    requires canon(c) == Some(c) && canon(node) == Some(c) && GoodPeople(canon, people, projects, members)
    ensures RefsOk(canon, Small(c, node, people, projects, members, speakers))
  {
    var a := Small(c, node, people, projects, members, speakers);
    SmallIds(canon, c, node, people, projects, members, speakers);
    OneId(canon, c);
    OneId(canon, node);
    forall r: Ref | SqlRef(a, r) ensures Known(canon, Ids(a, r.kind), canon(r.value)) {
      SmallSqlRefs(c, node, people, projects, members, speakers, r);
      if r.kind == Person {
        var i :| 0 <= i < |members| && members[i].person == r.value;
        KnownHere(canon, people, r.value);
      } else if r.kind == Project {
        assert Ids(a, Project)[0] == r.value;
        KnownHere(canon, Ids(a, Project), r.value);
      }
    }
    forall r: Ref | SpelledRef(a, r) ensures Known(canon, Ids(a, r.kind), Some(r.value)) {
      SmallSpelledRefs(c, node, people, projects, members, speakers, r);
    }
  }

  lemma SmallIsAccepted(canon: string -> Option<string>, c: string, node: string, people: seq<string>,
                        projects: seq<ProjectRow>, members: seq<MemberRow>, speakers: seq<Option<string>>)
    requires canon(c) == Some(c) && canon(node) == Some(c) && GoodPeople(canon, people, projects, members)
    ensures Accepted(canon, Small(c, node, people, projects, members, speakers))
    ensures ObjectsFound(Small(c, node, people, projects, members, speakers))
  {
    var a := Small(c, node, people, projects, members, speakers);
    SmallIds(canon, c, node, people, projects, members, speakers);
    SmallRefs(canon, c, node, people, projects, members, speakers);
    OneId(canon, c);
    assert a.sources[0].id == c && a.objects[0] == c && a.storeSources[0] == c;
    assert a.chunks[0].id == c && ChunkAgrees(canon, a, a.contexts[0]);
  }

  lemma SmallIsRestored(canon: string -> Option<string>, remap: string -> string, c: string, node: string,
                        speakers: seq<Option<string>>)
    requires Canonicalizes(canon) && Renames(remap, canon) && canon(c) == Some(c) && canon(node) == Some(c)
    ensures Accepted(canon, Small(c, node, [], [], [], speakers))
      && Restored(remap, Small(c, node, [], [], [], speakers)).Some?
  {
    var a := Small(c, node, [], [], [], speakers);
    SmallIsAccepted(canon, c, node, [], [], [], speakers);
    SmallIds(canon, c, node, [], [], [], speakers);
    forall r: Ref | KeyRef(a, r) ensures Resolves(a, r) {
      SmallSqlRefs(c, node, [], [], [], speakers, r);
      assert [c][0] == c;
    }
    RestoredExactlyWhen(canon, remap, a);
  }

  /**
    Whenever an identifier has another spelling: an artifact whose node is spelled that way and whose
    edge uses the canonical form is accepted and restored, and the edge has no ends.
   */
  lemma AcceptedReferenceCanDangle(canon: string -> Option<string>, remap: string -> string, c: string, other: string)
    requires Canonicalizes(canon) && Renames(remap, canon) && canon(other) == Some(c) && other != c
    ensures var a := Small(c, other, [], [], [], []);
      && Accepted(canon, a) && Restored(remap, a).Some?
      && IsRef(Restored(remap, a).value, Ref(Node, remap(c)))
      && !Resolves(Restored(remap, a).value, Ref(Node, remap(c)))
  {
    var a := Small(c, other, [], [], [], []);
    SmallIsRestored(canon, remap, c, other, []);
    assert a.edges[0].from == c && SpelledRef(a, Ref(Node, c));
    NoEmptyRef(canon, a, Ref(Node, c));
    RefGoesTo(canon, remap, a, Ref(Node, c));
    SmallIds(canon, c, other, [], [], [], []);
    ResolvesRenamed(canon, remap, a, Ref(Node, c));
  }

  /**
    A canonical artifact without people whose utterance names one is accepted and restored, and the person is
    nobody.
   */
  lemma AcceptedSpeakerCanDangle(canon: string -> Option<string>, remap: string -> string, c: string, person: string)
    requires Canonicalizes(canon) && Renames(remap, canon) && canon(c) == Some(c) && person != ""
    ensures var a := Small(c, c, [], [], [], [Some(person)]);
      && Accepted(canon, a) && AllCanonical(canon, a) && Restored(remap, a).Some?
      && IsRef(Restored(remap, a).value, Ref(Person, remap(person)))
      && !Resolves(Restored(remap, a).value, Ref(Person, remap(person)))
  {
    var speakers := [Some(person)];
    var a := Small(c, c, [], [], [], speakers);
    SmallIsRestored(canon, remap, c, c, speakers);
    SmallIsCanonical(canon, c, [], [], [], speakers);
    assert speakers[0] == Some(person) && SourceHolds(a.sources[0], Ref(Person, person));
    RefGoesTo(canon, remap, a, Ref(Person, person));
    SmallIds(canon, c, c, [], [], [], speakers);
    ResolvesRenamed(canon, remap, a, Ref(Person, person));
  }

  lemma SmallIsCanonical(canon: string -> Option<string>, c: string, people: seq<string>, projects: seq<ProjectRow>,
                         members: seq<MemberRow>, speakers: seq<Option<string>>)
    requires canon(c) == Some(c) && GoodPeople(canon, people, projects, members)
    requires forall p :: p in people ==> canon(p) == Some(p)
    requires forall i :: 0 <= i < |projects| ==> canon(projects[i].id) == Some(projects[i].id)
    ensures AllCanonical(canon, Small(c, c, people, projects, members, speakers))
  {
    var a := Small(c, c, people, projects, members, speakers);
    SmallIds(canon, c, c, people, projects, members, speakers);
    forall r: Ref | SqlRef(a, r) ensures canon(r.value) == Some(r.value) {
      SmallSqlRefs(c, c, people, projects, members, speakers, r);
    }
  }

  /**
    Whatever two members of a project have for identifiers, the canonical artifact with them is
    accepted. It is restored exactly when neither key is missing and no identifier is given twice;
    null or empty ones are drawn anew.
   */
  lemma TwoMembersAreRestoredExactlyWhen(canon: string -> Option<string>, remap: string -> string, c: string, p: string,
                                         q: string, k: JsonId, l: JsonId)
    requires Canonicalizes(canon) && Renames(remap, canon)
    requires canon(c) == Some(c) && canon(p) == Some(p) && canon(q) == Some(q) && p != q
    ensures var a := Small(c, c, [p, q], [ProjectRow(c, None)], [MemberRow(k, c, p), MemberRow(l, c, q)], []);
      && Accepted(canon, a) && AllCanonical(canon, a) && PairsOk(a)
      && (Restored(remap, a).Some? <==> !k.Missing? && !l.Missing? && (k.Named() ==> k != l))
  {
    var people, projects := [p, q], [ProjectRow(c, None)];
    var members := [MemberRow(k, c, p), MemberRow(l, c, q)];
    var a := Small(c, c, people, projects, members, []);
    assert people[0] == p && people[1] == q;
    SmallIsAccepted(canon, c, c, people, projects, members, []);
    SmallIsCanonical(canon, c, people, projects, members, []);
    TwoMemberColumns(c, people, projects, members);
    forall r: Ref | KeyRef(a, r) ensures Resolves(a, r) {
      CheckedReferencesResolve(canon, a, r);
    }
    RestoredExactlyWhen(canon, remap, a);
  }

  lemma TwoMemberColumns(c: string, people: seq<string>, projects: seq<ProjectRow>, members: seq<MemberRow>)
    requires |members| == 2 && members[0].person != members[1].person
    ensures var a := Small(c, c, people, projects, members, []);
      && MemberIds(a) == [members[0].id, members[1].id] && PairsOk(a)
      && (AssociationIdsOk(a) <==> (members[0].id.Named() ==> members[0].id != members[1].id))
      && (KeysPresent(a) <==> !members[0].id.Missing? && !members[1].id.Missing?)
  {
    var a := Small(c, c, people, projects, members, []);
    var ids := MemberIds(a);
    assert ids == [members[0].id, members[1].id];
    assert MemberPairs(a)[0] != MemberPairs(a)[1];
    assert Missing in ids <==> ids[0] == Missing || ids[1] == Missing;
  }

  /** A canonical artifact whose two members of a project share an identifier is accepted, and cannot be restored. */
  lemma RepeatedAssociationIsRefused(canon: string -> Option<string>, remap: string -> string, c: string, p: string,
                                     q: string, id: string)
    requires Canonicalizes(canon) && Renames(remap, canon) && id != ""
    requires canon(c) == Some(c) && canon(p) == Some(p) && canon(q) == Some(q) && p != q
    ensures var a := Small(c, c, [p, q], [ProjectRow(c, None)],
      [MemberRow(Given(id), c, p), MemberRow(Given(id), c, q)], []);
      Accepted(canon, a) && AllCanonical(canon, a) && PairsOk(a) && Restored(remap, a).None?
  {
    TwoMembersAreRestoredExactlyWhen(canon, remap, c, p, q, Given(id), Given(id));
  }

  // -------------------------------------------------------------------------
  // Directory identifiers.
  // -------------------------------------------------------------------------

  /** A node's identifiers stay distinct, and those that name directory entries follow the entries. */
  lemma IdentifiersStayDistinct(canon: string -> Option<string>, remap: string -> string, v: string, w: string)
    requires Renames(remap, canon) && RenamedIdentifier(remap, canon, v) == RenamedIdentifier(remap, canon, w)
    ensures v == w
  {
    PrefixesDiffer(RenamedIdentifier(remap, canon, v));
    Unprefixed(PERSON_PREFIX, v);
    Unprefixed(PROJECT_PREFIX, v);
    Unprefixed(PERSON_PREFIX, w);
    Unprefixed(PROJECT_PREFIX, w);
    SplitPrefix(PERSON_PREFIX, remap(if PERSON_PREFIX <= v then v[|PERSON_PREFIX|..] else v));
    SplitPrefix(PERSON_PREFIX, remap(if PERSON_PREFIX <= w then w[|PERSON_PREFIX|..] else w));
    SplitPrefix(PROJECT_PREFIX, remap(if PROJECT_PREFIX <= v then v[|PROJECT_PREFIX|..] else v));
    SplitPrefix(PROJECT_PREFIX, remap(if PROJECT_PREFIX <= w then w[|PROJECT_PREFIX|..] else w));
  }

  lemma PrefixesDiffer(v: string)
    ensures !(PERSON_PREFIX <= v && PROJECT_PREFIX <= v)
  {
    assert PERSON_PREFIX[11] == 'e' && PROJECT_PREFIX[11] == 'r';
  }

  lemma SplitPrefix(prefix: string, rest: string)
    ensures prefix <= prefix + rest && (prefix + rest)[|prefix|..] == rest
  {}

  lemma Unprefixed(prefix: string, v: string)
    ensures prefix <= v ==> v == prefix + v[|prefix|..]
  {}

  lemma DirectoryEntriesAreFollowed(canon: string -> Option<string>, remap: string -> string, id: string)
    requires canon(id).Some?
    ensures RenamedIdentifier(remap, canon, PERSON_PREFIX + id) == PERSON_PREFIX + remap(id)
    ensures RenamedIdentifier(remap, canon, PROJECT_PREFIX + id) == PROJECT_PREFIX + remap(id)
  {
    SplitPrefix(PERSON_PREFIX, id);
    SplitPrefix(PROJECT_PREFIX, id);
    PrefixesDiffer(PROJECT_PREFIX + id);
  }
}
