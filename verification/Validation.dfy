/**
  `validate_extraction` (`validation.py`): the checks an agent's result must pass, and the promise
  behind the endpoint check, that every relation end names one entity of the resolved graph.
 */
module Validation {
  import opened Options
  import opened Ontology
  import opened Temporal
  import opened Text
  import opened Grouping
  import opened GroupingTheorems
  import opened EntityResolution
  import opened Extraction
  import opened RelationPeriods

  const MAX_EXTRACTION_BYTES := 256_000
  const MAX_ITEMS_PER_GROUP := 100
  const MAX_QUOTE_CHARS := 1_200
  const MAX_FIELD_CHARS := 10_000

  datatype Error = AnalysisTooLarge | InvalidAnalysis | UngroundedAnalysis | InvalidRelation | InvalidSupersession

  datatype Outcome = Accepted(result: Result) | Rejected(error: Error)

  // -------------------------------------------------------------------------
  // Promotion of structured contexts to events.
  // -------------------------------------------------------------------------

  function EventKind(kind: ContextKind): Option<EntityKind> {
    match kind
    case DecisionContext => Some(Decision)
    case IssueContext => Some(Issue)
    case TaskContext => Some(Task)
    case EventContext => Some(Event)
    case _ => None
  }

  function EventKey(norm: NameKey, e: ExtractedEvent): (EntityKind, string) {
    (e.kind, norm(e.name, e.kind))
  }

  function EventKeys(norm: NameKey, events: seq<ExtractedEvent>): set<(EntityKind, string)> {
    set e | e in events :: EventKey(norm, e)
  }

  function PromotedEvent(c: ExtractedContext, kind: EntityKind): ExtractedEvent {
    ExtractedEvent(c.title, kind, c.body, c.occurredAt, None, None, c.refs)
  }

  /** The context names an event, and no event has that kind and key yet. */
  predicate Promotable(norm: NameKey, c: ExtractedContext, existing: set<(EntityKind, string)>) {
    var kind := EventKind(c.kind);
    kind.Some? && norm(c.title, kind.value) != "" && (kind.value, norm(c.title, kind.value)) !in existing
  }

  /** The events after the contexts have been looked at in order. */
  function Promoted(norm: NameKey, events: seq<ExtractedEvent>, contexts: seq<ExtractedContext>): seq<ExtractedEvent> {
    if contexts == [] then events
    else
      var front, c := Promoted(norm, events, contexts[..|contexts| - 1]), contexts[|contexts| - 1];
      if Promotable(norm, c, EventKeys(norm, front)) then front + [PromotedEvent(c, EventKind(c.kind).value)] else front
  }

  lemma EventKeysSnoc(norm: NameKey, events: seq<ExtractedEvent>, e: ExtractedEvent)
    ensures EventKeys(norm, events + [e]) == EventKeys(norm, events) + {EventKey(norm, e)}
  {
    forall k | k in EventKeys(norm, events) + {EventKey(norm, e)} ensures k in EventKeys(norm, events + [e]) {
      if k == EventKey(norm, e) {
        assert e in events + [e];
      } else {
        var x :| x in events && EventKey(norm, x) == k;
        assert x in events + [e];
      }
    }
  }

  method PromoteStructuredContexts(norm: NameKey, r: Result) returns (out: Result)
    ensures out == r.(events := Promoted(norm, r.events, r.contexts))
  {
    var existing, promoted := EventKeys(norm, r.events), [];
    for i := 0 to |r.contexts|
      invariant r.events + promoted == Promoted(norm, r.events, r.contexts[..i])
      invariant existing == EventKeys(norm, r.events + promoted)
    {
      var c := r.contexts[i];
      assert r.contexts[..i + 1][..i] == r.contexts[..i];
      var kind := EventKind(c.kind);
      if kind.Some? {
        var key := (kind.value, norm(c.title, kind.value));
        if key.1 != "" && key !in existing {
          var event := PromotedEvent(c, kind.value);
          EventKeysSnoc(norm, r.events + promoted, event);
          assert r.events + (promoted + [event]) == (r.events + promoted) + [event];
          promoted := promoted + [event];
          existing := existing + {key};
        }
      }
    }
    assert r.contexts[..|r.contexts|] == r.contexts;
    out := r.(events := r.events + promoted);
  }

  predicate Covered(norm: NameKey, c: ExtractedContext, events: seq<ExtractedEvent>) {
    !Promotable(norm, c, EventKeys(norm, events))
  }

  lemma {:induction false} PromotedExtends(norm: NameKey, events: seq<ExtractedEvent>, contexts: seq<ExtractedContext>)
    ensures events <= Promoted(norm, events, contexts)
    ensures forall i :: 0 <= i < |contexts| ==> Covered(norm, contexts[i], Promoted(norm, events, contexts))
  {
    if contexts != [] {
      var front := Promoted(norm, events, contexts[..|contexts| - 1]);
      PromotedExtends(norm, events, contexts[..|contexts| - 1]);
      assert EventKeys(norm, front) <= EventKeys(norm, Promoted(norm, events, contexts));
      var c := contexts[|contexts| - 1];
      if Promotable(norm, c, EventKeys(norm, front)) {
        assert EventKey(norm, PromotedEvent(c, EventKind(c.kind).value))
          in EventKeys(norm, Promoted(norm, events, contexts));
      }
    }
  }

  lemma {:induction false} NothingToPromote(norm: NameKey, events: seq<ExtractedEvent>, contexts: seq<ExtractedContext>)
    requires forall i :: 0 <= i < |contexts| ==> Covered(norm, contexts[i], events)
    ensures Promoted(norm, events, contexts) == events
  {
    if contexts != [] {
      NothingToPromote(norm, events, contexts[..|contexts| - 1]);
    }
  }

  /** Promotion keeps every event, gives every structured context its event, and repeats nothing. */
  lemma PromotionIsIdempotent(norm: NameKey, events: seq<ExtractedEvent>, contexts: seq<ExtractedContext>)
    ensures Promoted(norm, Promoted(norm, events, contexts), contexts) == Promoted(norm, events, contexts)
  {
    PromotedExtends(norm, events, contexts);
    NothingToPromote(norm, Promoted(norm, events, contexts), contexts);
  }

  // -------------------------------------------------------------------------
  // The endpoint check.
  // -------------------------------------------------------------------------

  /** Entities and events as one list; only kinds, names and aliases matter to the check. */
  function Items(t: Texts, r: Result): seq<Mention> {
    Mentions(t, r, {})
  }

  /** One of the item's names has the normal form the name has for the item's kind. */
  predicate Matches(norm: NameKey, item: Mention, name: string) {
    SomeNameHas(norm, item.Names(), item.kind, norm(name, item.kind))
  }

  function MatchingItems(norm: NameKey, items: seq<Mention>, name: string): set<nat> {
    set i: nat | i < |items| && Matches(norm, items[i], name)
  }

  type Endpoints = map<(EntityKind, string), set<nat>>

  function Filed(endpoints: Endpoints, kind: EntityKind, key: string): set<nat> {
    if (kind, key) in endpoints then endpoints[(kind, key)] else {}
  }

  predicate SomeNameHas(norm: NameKey, names: seq<string>, kind: EntityKind, key: string) {
    exists v :: v in names && norm(v, kind) == key
  }

  predicate HasKey(norm: NameKey, items: seq<Mention>, i: nat, kind: EntityKind, key: string) {
    i < |items| && items[i].kind == kind && SomeNameHas(norm, items[i].Names(), kind, key)
  }

  ghost predicate Files(norm: NameKey, items: seq<Mention>, endpoints: Endpoints) {
    forall kind, key, i: nat :: i in Filed(endpoints, kind, key) <==> HasKey(norm, items, i, kind, key)
  }

  /** `after` is `before` with one item filed under some of its names. */
  ghost predicate FiledAlso(norm: NameKey, before: Endpoints, after: Endpoints, kind: EntityKind, names: seq<string>,
                            index: nat) {
    forall k, key, i: nat :: i in Filed(after, k, key) <==>
      (i in Filed(before, k, key) || (i == index && k == kind && SomeNameHas(norm, names, k, key)))
  }

  lemma FiledSnoc(norm: NameKey, before: Endpoints, middle: Endpoints, kind: EntityKind, names: seq<string>,
                  name: string, index: nat)
    requires FiledAlso(norm, before, middle, kind, names, index)
    ensures FiledAlso(norm, before,
      middle[(kind, norm(name, kind)) := Filed(middle, kind, norm(name, kind)) + {index}], kind, names + [name], index)
  {
    var after := middle[(kind, norm(name, kind)) := Filed(middle, kind, norm(name, kind)) + {index}];
    forall k, key, i: nat
      ensures i in Filed(after, k, key) <==>
        (i in Filed(before, k, key) || (i == index && k == kind && SomeNameHas(norm, names + [name], k, key)))
    {
      assert i in Filed(after, k, key) <==>
        (i in Filed(middle, k, key) || (i == index && k == kind && key == norm(name, kind)));
      assert SomeNameHas(norm, names + [name], k, key) <==>
        (SomeNameHas(norm, names, k, key) || norm(name, k) == key) by {
        assert name in names + [name];
        assert forall v :: v in names ==> v in names + [name];
      }
    }
  }

  /** Files one item under each of its names. */
  method FileItem(norm: NameKey, endpoints: Endpoints, item: Mention, index: nat) returns (next: Endpoints)
    ensures FiledAlso(norm, endpoints, next, item.kind, item.Names(), index)
  {
    next := endpoints;
    var names := item.Names();
    for n := 0 to |names|
      invariant FiledAlso(norm, endpoints, next, item.kind, names[..n], index)
    {
      assert names[..n + 1] == names[..n] + [names[n]];
      FiledSnoc(norm, endpoints, next, item.kind, names[..n], names[n], index);
      var key := norm(names[n], item.kind);
      next := next[(item.kind, key) := Filed(next, item.kind, key) + {index}];
    }
    assert names[..|names|] == names;
  }

  lemma FilesSnoc(norm: NameKey, items: seq<Mention>, n: nat, before: Endpoints, after: Endpoints)
    requires n < |items| && Files(norm, items[..n], before)
    requires FiledAlso(norm, before, after, items[n].kind, items[n].Names(), n)
    ensures Files(norm, items[..n + 1], after)
  {
    forall kind, key, i: nat
      ensures i in Filed(after, kind, key) <==> HasKey(norm, items[..n + 1], i, kind, key)
    {
      assert i in Filed(before, kind, key) <==> HasKey(norm, items[..n], i, kind, key);
    }
  }

  method FileItems(norm: NameKey, items: seq<Mention>) returns (endpoints: Endpoints)
    ensures Files(norm, items, endpoints)
  {
    endpoints := map[];
    assert forall kind, key :: Filed(endpoints, kind, key) == {};
    for i := 0 to |items|
      invariant Files(norm, items[..i], endpoints)
    {
      ghost var before := endpoints;
      endpoints := FileItem(norm, endpoints, items[i], i);
      FilesSnoc(norm, items, i, before, endpoints);
    }
    assert items[..|items|] == items;
  }

  /** The items any kind files under the name's normal form. */
  method FindItems(norm: NameKey, ghost items: seq<Mention>, endpoints: Endpoints, name: string)
      returns (found: set<nat>)
    requires Files(norm, items, endpoints)
    ensures found == MatchingItems(norm, items, name)
  {
    found := {};
    for k := 0 to |ENTITY_KINDS|
      invariant forall i: nat :: i in found <==>
        i < |items| && items[i].kind in ENTITY_KINDS[..k] && Matches(norm, items[i], name)
    {
      var kind := ENTITY_KINDS[k];
      assert ENTITY_KINDS[..k + 1] == ENTITY_KINDS[..k] + [kind];
      found := found + Filed(endpoints, kind, norm(name, kind));
    }
    AllKindsListed();
    assert ENTITY_KINDS[..|ENTITY_KINDS|] == ENTITY_KINDS;
  }

  predicate EndpointUnique(norm: NameKey, items: seq<Mention>, name: string) {
    |MatchingItems(norm, items, name)| == 1
  }

  predicate EndpointsUnique(norm: NameKey, items: seq<Mention>, rs: seq<ExtractedRelation>) {
    forall r :: r in rs ==> EndpointUnique(norm, items, r.source) && EndpointUnique(norm, items, r.target)
  }

  method CheckEndpoints(norm: NameKey, items: seq<Mention>, rs: seq<ExtractedRelation>) returns (ok: bool)
    ensures ok <==> EndpointsUnique(norm, items, rs)
  {
    var endpoints := FileItems(norm, items);
    for i := 0 to |rs|
      invariant forall j :: 0 <= j < i ==>
        EndpointUnique(norm, items, rs[j].source) && EndpointUnique(norm, items, rs[j].target)
    {
      var sources := FindItems(norm, items, endpoints, rs[i].source);
      var targets := FindItems(norm, items, endpoints, rs[i].target);
      if |sources| != 1 || |targets| != 1 {
        assert rs[i] in rs;
        return false;
      }
    }
    return true;
  }

  // -------------------------------------------------------------------------
  // The whole verdict: the first check that fails decides the error.
  // -------------------------------------------------------------------------

  /** The parts of an item the quotation and length checks look at. */
  datatype Checked = Checked(refs: seq<string>, fields: seq<string>)

  function Known(value: Option<string>): seq<string> {
    if value.Some? then [value.value] else []
  }

  function CheckedItems(r: Result): seq<Checked> {
    seq(|r.entities|, i requires 0 <= i < |r.entities| => Checked(r.entities[i].refs, [r.entities[i].name]))
    + seq(|r.events|, i requires 0 <= i < |r.events| =>
        var e := r.events[i];
        Checked(e.refs, [e.name, e.description] + Known(e.occurredAt) + Known(e.dueAt) + Known(e.supersedes)))
    + seq(|r.relations|, i requires 0 <= i < |r.relations| =>
        var x := r.relations[i];
        Checked(x.refs, [x.source, x.target] + Known(x.validFrom) + Known(x.validTo)))
    + seq(|r.contexts|, i requires 0 <= i < |r.contexts| =>
        var c := r.contexts[i];
        Checked(c.refs, [c.title, c.body] + Known(c.occurredAt)))
  }

  predicate Grounded(t: Texts, haystack: string, refs: seq<string>) {
    && refs != []
    && forall ref :: ref in refs ==>
         t.strip(ref) != "" && |ref| <= MAX_QUOTE_CHARS && Contains(haystack, t.squash(ref))
  }

  predicate Short(fields: seq<string>) {
    forall f :: f in fields ==> |f| <= MAX_FIELD_CHARS
  }

  function ItemError(t: Texts, haystack: string, items: seq<Checked>): Option<Error> {
    if items == [] then None
    else if !Grounded(t, haystack, items[0].refs) then Some(UngroundedAnalysis)
    else if !Short(items[0].fields) then Some(AnalysisTooLarge)
    else ItemError(t, haystack, items[1..])
  }

  predicate IdentifiersStated(t: Texts, haystack: string, entities: seq<ExtractedEntity>) {
    forall e, v :: e in entities && v in e.identifiers ==>
      !("directory:" <= t.fold(v)) && Contains(haystack, t.squash(v))
  }

  predicate SupersessionsKnown(t: Texts, known: seq<string>, events: seq<ExtractedEvent>) {
    forall e :: e in events && e.supersedes.Some? && e.supersedes.value != "" ==>
      || (exists k :: k in known && t.norm(k, Decision) == t.norm(e.supersedes.value, Decision))
      || exists d ::
           d in events && d.kind == Decision && t.norm(d.name, Decision) == t.norm(e.supersedes.value, Decision)
  }

  /** What the validator says; `bytes` is the size of the supplied JSON. */
  function Verdict(t: Texts, supplied: Result, bytes: nat, fromMeeting: bool, text: string,
                   known: seq<string>): Outcome {
    var r := supplied.(events := Promoted(t.norm, supplied.events, supplied.contexts));
    var haystack := t.squash(text);
    if bytes > MAX_EXTRACTION_BYTES then Rejected(AnalysisTooLarge)
    else if fromMeeting && !r.meeting then Rejected(InvalidAnalysis)
    else if |r.entities| > MAX_ITEMS_PER_GROUP || |r.events| > MAX_ITEMS_PER_GROUP
         || |r.relations| > MAX_ITEMS_PER_GROUP || |r.contexts| > MAX_ITEMS_PER_GROUP then Rejected(AnalysisTooLarge)
    else if ItemError(t, haystack, CheckedItems(r)).Some? then Rejected(ItemError(t, haystack, CheckedItems(r)).value)
    else if !IdentifiersStated(t, haystack, r.entities) then Rejected(UngroundedAnalysis)
    else if !EndpointsUnique(t.norm, Items(t, r), r.relations) then Rejected(InvalidRelation)
    else if !SupersessionsKnown(t, known, r.events) then Rejected(InvalidSupersession)
    else Accepted(r)
  }

  method FirstItemError(t: Texts, haystack: string, items: seq<Checked>) returns (error: Option<Error>)
    ensures error == ItemError(t, haystack, items)
  {
    for i := 0 to |items|
      invariant ItemError(t, haystack, items) == ItemError(t, haystack, items[i..])
    {
      assert items[i..][1..] == items[i + 1..];
      if !Grounded(t, haystack, items[i].refs) {
        return Some(UngroundedAnalysis);
      }
      if !Short(items[i].fields) {
        return Some(AnalysisTooLarge);
      }
    }
    return None;
  }

  method ValidateExtraction(t: Texts, supplied: Result, bytes: nat, fromMeeting: bool, text: string, known: seq<string>)
      returns (outcome: Outcome)
    ensures outcome == Verdict(t, supplied, bytes, fromMeeting, text, known)
  {
    if bytes > MAX_EXTRACTION_BYTES {
      return Rejected(AnalysisTooLarge);
    }
    var r := PromoteStructuredContexts(t.norm, supplied);
    if fromMeeting && !r.meeting {
      return Rejected(InvalidAnalysis);
    }
    if |r.entities| > MAX_ITEMS_PER_GROUP || |r.events| > MAX_ITEMS_PER_GROUP
       || |r.relations| > MAX_ITEMS_PER_GROUP || |r.contexts| > MAX_ITEMS_PER_GROUP
    {
      return Rejected(AnalysisTooLarge);
    }
    var haystack := t.squash(text);
    var error := FirstItemError(t, haystack, CheckedItems(r));
    if error.Some? {
      return Rejected(error.value);
    }
    if !IdentifiersStated(t, haystack, r.entities) {
      return Rejected(UngroundedAnalysis);
    }
    var unique := CheckEndpoints(t.norm, Items(t, r), r.relations);
    if !unique {
      return Rejected(InvalidRelation);
    }
    if !SupersessionsKnown(t, known, r.events) {
      return Rejected(InvalidSupersession);
    }
    return Accepted(r);
  }

  // -------------------------------------------------------------------------
  // The validator and the resolver.
  // -------------------------------------------------------------------------

  lemma KeyOwnerMatches(norm: NameKey, ms: seq<Mention>, name: string, j: nat) returns (i: nat)
    requires j < |Grouped(norm, ms)| && Grouped(norm, ms)[j] != []
    requires norm(name, Grouped(norm, ms)[j][0].kind) in Keys(norm, Grouped(norm, ms)[j])
    ensures i in MatchingItems(norm, ms, name) && ms[i] in Grouped(norm, ms)[j]
    ensures ms[i].kind == Grouped(norm, ms)[j][0].kind && norm(name, ms[i].kind) != ""
  {
    var c := Grouped(norm, ms)[j];
    GroupsAreHomogeneous(norm, ms);
    assert UniformCluster(norm, c, ms);
    var x: Mention :| x in c && norm(name, c[0].kind) in x.Keys(norm);
    i :| 0 <= i < |ms| && ms[i] == x;
    assert Matches(norm, ms[i], name);
  }

  lemma {:induction false} InTwoClusters(P: seq<Cluster>, x: Mention, j: nat, k: nat)
    requires j < k < |P| && x in P[j] && x in P[k]
    ensures All(P)[x] >= 2
  {
    var n := |P| - 1;
    if k < n {
      InTwoClusters(P[..n], x, j, k);
    } else {
      InOneCluster(P[..n], x, j);
      assert x in multiset(P[n]);
    }
  }

  lemma {:induction false} InOneCluster(P: seq<Cluster>, x: Mention, j: nat)
    requires j < |P| && x in P[j]
    ensures All(P)[x] >= 1
  {
    var n := |P| - 1;
    if j < n {
      InOneCluster(P[..n], x, j);
    } else {
      assert x in multiset(P[n]);
    }
  }

  lemma {:induction false} NamedCount(norm: NameKey, ms: seq<Mention>, x: Mention)
    ensures multiset(Named(norm, ms))[x] <= multiset(ms)[x]
  {
    if ms != [] {
      NamedCount(norm, ms[..|ms| - 1], x);
      assert ms == ms[..|ms| - 1] + [ms[|ms| - 1]];
    }
  }

  lemma CountOnce(ms: seq<Mention>, i: nat)
    requires i < |ms| && forall k :: 0 <= k < |ms| && ms[k] == ms[i] ==> k == i
    ensures multiset(ms)[ms[i]] == 1
  {
    assert ms == ms[..i] + [ms[i]] + ms[i + 1..];
    assert ms[i] !in ms[..i] && ms[i] !in ms[i + 1..];
  }

  /** A mention that matches the name alone is in one group only. */
  lemma OneGroupHolds(norm: NameKey, ms: seq<Mention>, name: string, i: nat, j: nat, k: nat)
    requires MatchingItems(norm, ms, name) == {i} && j < |Grouped(norm, ms)| && k < |Grouped(norm, ms)|
    requires ms[i] in Grouped(norm, ms)[j] && ms[i] in Grouped(norm, ms)[k]
    ensures j == k
  {
    var P := Grouped(norm, ms);
    forall n | 0 <= n < |ms| && ms[n] == ms[i] ensures n == i {
      assert i in MatchingItems(norm, ms, name);
      assert Matches(norm, ms[n], name);
      assert n in MatchingItems(norm, ms, name);
    }
    CountOnce(ms, i);
    NamedCount(norm, ms, ms[i]);
    GroupingConservesMentions(norm, ms);
    if j < k {
      InTwoClusters(P, ms[i], j, k);
    } else if k < j {
      InTwoClusters(P, ms[i], k, j);
    }
  }

  /**
    A name that matches exactly one item resolves to exactly one entity if and only if its normal
    form for that item's kind is not empty.
   */
  lemma UniqueNameResolves(norm: NameKey, ms: seq<Mention>, fallback: Option<Instant>, name: string, i: nat)
    requires MatchingItems(norm, ms, name) == {i}
    ensures EndpointOf(norm, ResolvedEntities(norm, ms, fallback), name).Some? <==> norm(name, ms[i].kind) != ""
  {
    var P, E := Grouped(norm, ms), ResolvedEntities(norm, ms, fallback);
    GroupsAreNonEmpty(norm, ms);
    assert i in MatchingItems(norm, ms, name);
    forall e | e in E && norm(name, e.id.kind) in e.keys
      ensures norm(name, ms[i].kind) != "" && exists j :: 0 <= j < |P| && E[j] == e && ms[i] in P[j]
    {
      var j :| 0 <= j < |E| && E[j] == e;
      var k := KeyOwnerMatches(norm, ms, name, j);
    }
    if norm(name, ms[i].kind) != "" {
      NameFindsItsGroup(norm, ms, fallback, name, i);
    } else {
      assert Candidates(norm, E, name) == {};
    }
  }

  lemma NameFindsItsGroup(norm: NameKey, ms: seq<Mention>, fallback: Option<Instant>, name: string, i: nat)
    requires MatchingItems(norm, ms, name) == {i} && i < |ms| && norm(name, ms[i].kind) != ""
    ensures EndpointOf(norm, ResolvedEntities(norm, ms, fallback), name).Some?
  {
    var E := ResolvedEntities(norm, ms, fallback);
    var g := GroupOfName(norm, ms, fallback, name, i);
    forall e | e in E && norm(name, e.id.kind) in e.keys ensures e == E[g] {
      var j :| 0 <= j < |E| && E[j] == e;
      OnlyGroupOfName(norm, ms, fallback, name, i, g, j);
    }
    assert Candidates(norm, E, name) == {E[g].id};
  }

  lemma GroupOfName(norm: NameKey, ms: seq<Mention>, fallback: Option<Instant>, name: string, i: nat) returns (g: nat)
    requires MatchingItems(norm, ms, name) == {i} && i < |ms| && norm(name, ms[i].kind) != ""
    ensures g < |Grouped(norm, ms)| && ms[i] in Grouped(norm, ms)[g]
    ensures |ResolvedEntities(norm, ms, fallback)| == |Grouped(norm, ms)|
    ensures var e := ResolvedEntities(norm, ms, fallback)[g]; norm(name, e.id.kind) in e.keys
  {
    GroupsAreNonEmpty(norm, ms);
    GroupsAreHomogeneous(norm, ms);
    assert i in MatchingItems(norm, ms, name);
    assert norm(name, ms[i].kind) in ms[i].Keys(norm);
    g := MentionHasGroup(norm, ms, ms[i]);
    assert UniformCluster(norm, Grouped(norm, ms)[g], ms);
  }

  lemma OnlyGroupOfName(norm: NameKey, ms: seq<Mention>, fallback: Option<Instant>, name: string, i: nat, g: nat,
                        j: nat)
    requires MatchingItems(norm, ms, name) == {i} && i < |ms|
    requires g < |Grouped(norm, ms)| && ms[i] in Grouped(norm, ms)[g]
    requires |ResolvedEntities(norm, ms, fallback)| == |Grouped(norm, ms)| && j < |Grouped(norm, ms)|
    requires var e := ResolvedEntities(norm, ms, fallback)[j]; norm(name, e.id.kind) in e.keys
    ensures j == g
  {
    GroupsAreNonEmpty(norm, ms);
    var k := KeyOwnerMatches(norm, ms, name, j);
    OneGroupHolds(norm, ms, name, i, g, j);
  }

  lemma MatchingIgnoresIdentifiers(norm: NameKey, items: seq<Mention>, ms: seq<Mention>, name: string)
    requires |items| == |ms|
    requires forall i :: 0 <= i < |ms| ==> items[i].Names() == ms[i].Names() && items[i].kind == ms[i].kind
    ensures MatchingItems(norm, items, name) == MatchingItems(norm, ms, name)
  {
    forall i: nat | i < |ms| ensures Matches(norm, items[i], name) <==> Matches(norm, ms[i], name) {}
  }

  lemma AcceptedNameIsUnique(t: Texts, r: Result, trusted: set<string>, name: string) returns (i: nat)
    requires EndpointUnique(t.norm, Items(t, r), name)
    ensures i < |Items(t, r)| && Items(t, r)[i].kind == Mentions(t, r, trusted)[i].kind
    ensures MatchingItems(t.norm, Items(t, r), name) == {i} == MatchingItems(t.norm, Mentions(t, r, trusted), name)
  {
    var items, ms := Items(t, r), Mentions(t, r, trusted);
    KindsAgree(t, r, trusted);
    MatchingIgnoresIdentifiers(t.norm, items, ms, name);
    Only(MatchingItems(t.norm, items, name));
    i :| MatchingItems(t.norm, items, name) == {i};
    assert i in MatchingItems(t.norm, items, name);
  }

  /** The name has a non-empty normal form for the kind of the item it was accepted for. */
  predicate NameableEnd(t: Texts, r: Result, name: string) {
    exists i ::
      0 <= i < |Items(t, r)| && Matches(t.norm, Items(t, r)[i], name) && t.norm(name, Items(t, r)[i].kind) != ""
  }

  lemma AcceptedEndResolves(t: Texts, r: Result, trusted: set<string>, fallback: Option<Instant>, name: string)
    requires EndpointUnique(t.norm, Items(t, r), name)
    ensures EndpointOf(t.norm, ResolvedEntities(t.norm, Mentions(t, r, trusted), fallback), name).Some?
       <==> NameableEnd(t, r, name)
  {
    var items := Items(t, r);
    var i := AcceptedNameIsUnique(t, r, trusted, name);
    UniqueNameResolves(t.norm, Mentions(t, r, trusted), fallback, name, i);
    forall j: nat | j < |items| ensures Matches(t.norm, items[j], name) <==> j == i {
      assert j in MatchingItems(t.norm, items, name) <==> j in {i};
    }
  }

  lemma KindsAgree(t: Texts, r: Result, trusted: set<string>)
    ensures forall i :: 0 <= i < |Items(t, r)| ==>
      Items(t, r)[i].Names() == Mentions(t, r, trusted)[i].Names()
        && Items(t, r)[i].kind == Mentions(t, r, trusted)[i].kind
  {
    forall i | 0 <= i < |Items(t, r)|
      ensures Items(t, r)[i].Names() == Mentions(t, r, trusted)[i].Names()
        && Items(t, r)[i].kind == Mentions(t, r, trusted)[i].kind
    {
      if i >= |r.entities| {
        var k := i - |r.entities|;
        assert Mentions(t, r, trusted)[|r.entities| + k] == EventMention(t, r.events[k]);
        assert Items(t, r)[|r.entities| + k] == EventMention(t, r.events[k]);
      }
    }
  }

  /**
    An accepted result loses a relation in the resolver exactly when one of its end names has an
    empty normal form, whatever directory identifiers are trusted and however mentions merge.
   */
  lemma AcceptedRelationsResolve(t: Texts, supplied: Result, bytes: nat, fromMeeting: bool, text: string,
                                 known: seq<string>,
                                 trusted: set<string>, fallback: Option<Instant>, rel: ExtractedRelation)
    requires Verdict(t, supplied, bytes, fromMeeting, text, known).Accepted?
    requires rel in supplied.relations
    ensures var r := Verdict(t, supplied, bytes, fromMeeting, text, known).result;
            var triple := TripleOf(t, ResolvedEntities(t.norm, Mentions(t, r, trusted), fallback), rel);
            triple.Some? <==> NameableEnd(t, r, rel.source) && NameableEnd(t, r, rel.target)
  {
    var r := Verdict(t, supplied, bytes, fromMeeting, text, known).result;
    AcceptedEndResolves(t, r, trusted, fallback, rel.source);
    AcceptedEndResolves(t, r, trusted, fallback, rel.target);
  }

  lemma {:induction false} NothingDropped(t: Texts, E: seq<Entity>, rs: seq<ExtractedRelation>)
    requires forall rel :: rel in rs ==> TripleOf(t, E, rel).Some?
    ensures DroppedCount(t, E, rs) == 0
  {
    if rs != [] {
      NothingDropped(t, E, rs[..|rs| - 1]);
    }
  }

  /** If every end name of an accepted result has a non-empty normal form, no relation is dropped. */
  lemma ValidatorRefinesResolver(t: Texts, supplied: Result, bytes: nat, fromMeeting: bool, text: string,
                                 known: seq<string>, trusted: set<string>, fallback: Option<Instant>)
    requires Verdict(t, supplied, bytes, fromMeeting, text, known).Accepted?
    requires forall rel, kind :: rel in supplied.relations ==>
      t.norm(rel.source, kind) != "" && t.norm(rel.target, kind) != ""
    ensures var r := Verdict(t, supplied, bytes, fromMeeting, text, known).result;
            DroppedCount(t, ResolvedEntities(t.norm, Mentions(t, r, trusted), fallback), r.relations) == 0
  {
    var r := Verdict(t, supplied, bytes, fromMeeting, text, known).result;
    forall rel | rel in r.relations
      ensures TripleOf(t, ResolvedEntities(t.norm, Mentions(t, r, trusted), fallback), rel).Some?
    {
      AcceptedRelationsResolve(t, supplied, bytes, fromMeeting, text, known, trusted, fallback, rel);
      var i := AcceptedNameIsUnique(t, r, {}, rel.source);
      assert i in MatchingItems(t.norm, Items(t, r), rel.source);
      var k := AcceptedNameIsUnique(t, r, {}, rel.target);
      assert k in MatchingItems(t.norm, Items(t, r), rel.target);
    }
    NothingDropped(t, ResolvedEntities(t.norm, Mentions(t, r, trusted), fallback), r.relations);
  }

  /** One entity, one relation from it to itself, and one quotation for both. */
  function SelfRelated(name: string, ref: string): Result {
    Result(false, [ExtractedEntity(name, Technology, [], [], [ref])], [],
           [ExtractedRelation(name, name, RelatedTo, None, None, [ref])], [])
  }

  lemma SelfRelatedItems(name: string, ref: string)
    ensures CheckedItems(SelfRelated(name, ref)) == [Checked([ref], [name]), Checked([ref], [name, name])]
  {
    assert Known(None) == [];
    assert [name, name] + [] + [] == [name, name];
  }

  lemma SelfRelatedIsGrounded(t: Texts, haystack: string, name: string, ref: string)
    requires Grounded(t, haystack, [ref]) && |name| <= MAX_FIELD_CHARS
    ensures ItemError(t, haystack, CheckedItems(SelfRelated(name, ref))) == None
  {
    SelfRelatedItems(name, ref);
    var second := [Checked([ref], [name, name])];
    assert CheckedItems(SelfRelated(name, ref))[1..] == second && second[1..] == [];
    assert Short([name]) && Short([name, name]);
    assert ItemError(t, haystack, second) == ItemError(t, haystack, []);
  }

  lemma SelfRelatedEndsAreUnique(t: Texts, name: string, ref: string)
    ensures EndpointsUnique(t.norm, Items(t, SelfRelated(name, ref)), SelfRelated(name, ref).relations)
  {
    var items := Items(t, SelfRelated(name, ref));
    assert items[0].Names() == [name] && name in items[0].Names();
    assert Matches(t.norm, items[0], name);
    assert MatchingItems(t.norm, items, name) == {0};
  }

  /**
    A name without a normal form, such as one of separators only: whatever quotation of the text
    comes with it, the whole validator accepts its relation, and the resolver drops it.
   */
  lemma SeparatorNameIsDropped(t: Texts, name: string, ref: string, bytes: nat, text: string, known: seq<string>,
                               trusted: set<string>, fallback: Option<Instant>)
    requires bytes <= MAX_EXTRACTION_BYTES && t.norm(name, Technology) == "" && |name| <= MAX_FIELD_CHARS
    requires Grounded(t, t.squash(text), [ref])
    ensures var r := SelfRelated(name, ref);
      && Verdict(t, r, bytes, false, text, known) == Accepted(r)
      && TripleOf(t, ResolvedEntities(t.norm, Mentions(t, r, trusted), fallback), r.relations[0]).None?
  {
    var r := SelfRelated(name, ref);
    SelfRelatedIsGrounded(t, t.squash(text), name, ref);
    SelfRelatedEndsAreUnique(t, name, ref);
    assert Promoted(t.norm, r.events, r.contexts) == [];
    assert r.(events := Promoted(t.norm, r.events, r.contexts)) == r;
    AcceptedRelationsResolve(t, r, bytes, false, text, known, trusted, fallback, r.relations[0]);
    NamelessEnd(t, name, ref);
  }

  lemma NamelessEnd(t: Texts, name: string, ref: string)
    requires t.norm(name, Technology) == ""
    ensures !NameableEnd(t, SelfRelated(name, ref), name)
  {}
}
