/** The relation part of `resolve_extraction`: one list of disjoint periods per triple. */
module RelationPeriods {
  import opened Options
  import opened Ontology
  import opened Temporal
  import opened Extraction
  import opened EntityResolution

  datatype Triple = Triple(source: EntityId, target: EntityId, kind: RelationKind)

  /** `uuid5` over the triple and the start is injective: the id is the pair. */
  datatype RelationId = RelationId(triple: Triple, start: Option<Instant>)

  datatype Relation = Relation(id: RelationId, triple: Triple, period: Interval)

  /** The triple a relation resolves to, unless one of its ends names no single entity. */
  function TripleOf(t: Texts, E: seq<Entity>, r: ExtractedRelation): Option<Triple> {
    var source, target := EndpointOf(t.norm, E, r.source), EndpointOf(t.norm, E, r.target);
    if source.None? || target.None? then None else Some(Triple(source.value, target.value, r.kind))
  }

  /** The period a relation states; an unstated start falls back to the date of the source. */
  function StatedInterval(t: Texts, r: ExtractedRelation, fallback: Option<Instant>): Interval {
    var statedFrom, validTo := t.Parse(r.validFrom), t.Parse(r.validTo);
    var start := if statedFrom.Some? then statedFrom else fallback;
    if validTo.Some? && start.Some? && start.value > validTo.value then
      if statedFrom.Some? then Interval(start, None) else Interval(None, validTo)
    else Interval(start, validTo)
  }

  /** The stated periods of one triple, in the order of the relations. */
  function StatedPeriods(t: Texts, E: seq<Entity>, rs: seq<ExtractedRelation>, fallback: Option<Instant>,
                         x: Triple): seq<Interval> {
    if rs == [] then []
    else
      var r := rs[|rs| - 1];
      StatedPeriods(t, E, rs[..|rs| - 1], fallback, x)
      + if TripleOf(t, E, r) == Some(x) then [StatedInterval(t, r, fallback)] else []
  }

  /** The triples in the order they first appear. */
  function Triples(t: Texts, E: seq<Entity>, rs: seq<ExtractedRelation>): seq<Triple> {
    if rs == [] then []
    else
      var front, x := Triples(t, E, rs[..|rs| - 1]), TripleOf(t, E, rs[|rs| - 1]);
      if x.Some? && x.value !in front then front + [x.value] else front
  }

  datatype RelationWarning =
    | AmbiguousEndpoint(name: string)
    | EndpointMissing(source: string, target: string)
    | EndDropped(source: string, target: string)

  /** An insertion-ordered dictionary from triples to their periods. */
  datatype Periods = Periods(order: seq<Triple>, spans: map<Triple, seq<Interval>>) {

    function Get(x: Triple): seq<Interval> {
      if x in spans then spans[x] else []
    }

    function Add(x: Triple, period: Interval): Periods {
      Periods(if x in spans then order else order + [x], spans[x := Get(x) + [period]])
    }
  }

  ghost predicate Collected(t: Texts, E: seq<Entity>, rs: seq<ExtractedRelation>, fallback: Option<Instant>,
                            p: Periods) {
    && p.order == Triples(t, E, rs)
    && (forall x :: x in p.spans <==> x in p.order)
    && forall x :: p.Get(x) == StatedPeriods(t, E, rs, fallback, x)
  }

  /** The dictionary after one more relation. */
  function Extend(t: Texts, E: seq<Entity>, r: ExtractedRelation, fallback: Option<Instant>, p: Periods): Periods {
    var x := TripleOf(t, E, r);
    if x.None? then p else p.Add(x.value, StatedInterval(t, r, fallback))
  }

  lemma CollectedSnoc(t: Texts, E: seq<Entity>, rs: seq<ExtractedRelation>, r: ExtractedRelation,
                      fallback: Option<Instant>, p: Periods)
    requires Collected(t, E, rs, fallback, p)
    ensures Collected(t, E, rs + [r], fallback, Extend(t, E, r, fallback, p))
  {
    assert (rs + [r])[..|rs|] == rs;
    var x, after := TripleOf(t, E, r), Extend(t, E, r, fallback, p);
    assert after.order == Triples(t, E, rs + [r]);
    forall y ensures after.Get(y) == StatedPeriods(t, E, rs + [r], fallback, y) {
      assert p.Get(y) == StatedPeriods(t, E, rs, fallback, y);
    }
  }

  /** Two warnings for ambiguous ends, in order. */
  function AmbiguityWarnings(t: Texts, E: seq<Entity>, r: ExtractedRelation): seq<RelationWarning> {
    (if |Candidates(t.norm, E, r.source)| > 1 then [AmbiguousEndpoint(r.source)] else [])
    + if |Candidates(t.norm, E, r.target)| > 1 then [AmbiguousEndpoint(r.target)] else []
  }

  /** The relation is dropped, or its end is: it comes before the stated start. */
  function LossWarnings(t: Texts, E: seq<Entity>, r: ExtractedRelation): seq<RelationWarning> {
    var statedFrom, statedTo := t.Parse(r.validFrom), t.Parse(r.validTo);
    if TripleOf(t, E, r).None? then [EndpointMissing(r.source, r.target)]
    else if statedFrom.Some? && statedTo.Some? && statedFrom.value > statedTo.value
      then [EndDropped(r.source, r.target)]
    else []
  }

  function WarningsFor(t: Texts, E: seq<Entity>, rs: seq<ExtractedRelation>): seq<RelationWarning> {
    if rs == [] then []
    else
      var r := rs[|rs| - 1];
      WarningsFor(t, E, rs[..|rs| - 1]) + (AmbiguityWarnings(t, E, r) + LossWarnings(t, E, r))
  }

  /** One turn of the relation loop. */
  method CollectOne(t: Texts, lookup: Lookup, ghost E: seq<Entity>, r: ExtractedRelation, fallback: Option<Instant>,
                    p: Periods)
      returns (next: Periods, warnings: seq<RelationWarning>)
    requires Indexes(lookup, E)
    ensures next == Extend(t, E, r, fallback, p)
    ensures warnings == AmbiguityWarnings(t, E, r) + LossWarnings(t, E, r)
  {
    next, warnings := p, [];
    var source, ambiguousSource := Endpoint(t.norm, lookup, E, r.source);
    var target, ambiguousTarget := Endpoint(t.norm, lookup, E, r.target);
    if ambiguousSource {
      warnings := warnings + [AmbiguousEndpoint(r.source)];
    }
    if ambiguousTarget {
      warnings := warnings + [AmbiguousEndpoint(r.target)];
    }
    assert warnings == AmbiguityWarnings(t, E, r);
    if source.None? || target.None? {
      warnings := warnings + [EndpointMissing(r.source, r.target)];
    } else {
      var statedFrom, validTo := t.Parse(r.validFrom), t.Parse(r.validTo);
      var start := if statedFrom.Some? then statedFrom else fallback;
      if validTo.Some? && start.Some? && start.value > validTo.value {
        if statedFrom.Some? {
          warnings := warnings + [EndDropped(r.source, r.target)];
          validTo := None;
        } else {
          start := None;
        }
      }
      next := p.Add(Triple(source.value, target.value, r.kind), Interval(start, validTo));
    }
  }

  lemma OneMoreRelation(t: Texts, E: seq<Entity>, rs: seq<ExtractedRelation>, i: nat, fallback: Option<Instant>,
                        p: Periods)
    requires i < |rs| && Collected(t, E, rs[..i], fallback, p)
    ensures Collected(t, E, rs[..i + 1], fallback, Extend(t, E, rs[i], fallback, p))
    ensures WarningsFor(t, E, rs[..i + 1])
         == WarningsFor(t, E, rs[..i]) + (AmbiguityWarnings(t, E, rs[i]) + LossWarnings(t, E, rs[i]))
  {
    assert rs[..i + 1] == rs[..i] + [rs[i]] && rs[..i + 1][..i] == rs[..i];
    CollectedSnoc(t, E, rs[..i], rs[i], fallback, p);
  }

  method CollectPeriods(t: Texts, lookup: Lookup, ghost E: seq<Entity>, rs: seq<ExtractedRelation>,
                        fallback: Option<Instant>)
      returns (p: Periods, warnings: seq<RelationWarning>)
    requires Indexes(lookup, E)
    ensures Collected(t, E, rs, fallback, p)
    ensures warnings == WarningsFor(t, E, rs)
  {
    p, warnings := Periods([], map[]), [];
    for i := 0 to |rs|
      invariant Collected(t, E, rs[..i], fallback, p)
      invariant warnings == WarningsFor(t, E, rs[..i])
    {
      OneMoreRelation(t, E, rs, i, fallback, p);
      var more;
      p, more := CollectOne(t, lookup, E, rs[i], fallback, p);
      warnings := warnings + more;
    }
    assert rs[..|rs|] == rs;
  }

  function EndpointMissingCount(warnings: seq<RelationWarning>): nat {
    if warnings == [] then 0
    else EndpointMissingCount(warnings[..|warnings| - 1]) + if warnings[|warnings| - 1].EndpointMissing? then 1 else 0
  }

  lemma {:induction false} EndpointMissingAppend(a: seq<RelationWarning>, b: seq<RelationWarning>)
    ensures EndpointMissingCount(a + b) == EndpointMissingCount(a) + EndpointMissingCount(b)
  {
    if b == [] {
      assert a + b == a;
    } else {
      EndpointMissingAppend(a, b[..|b| - 1]);
      assert (a + b)[..|a + b| - 1] == a + b[..|b| - 1];
    }
  }

  lemma OneRelationWarns(t: Texts, E: seq<Entity>, r: ExtractedRelation)
    ensures EndpointMissingCount(AmbiguityWarnings(t, E, r)) == 0
    ensures EndpointMissingCount(LossWarnings(t, E, r)) == if TripleOf(t, E, r).None? then 1 else 0
  {
    EndpointMissingAppend(if |Candidates(t.norm, E, r.source)| > 1 then [AmbiguousEndpoint(r.source)] else [],
                          if |Candidates(t.norm, E, r.target)| > 1 then [AmbiguousEndpoint(r.target)] else []);
  }

  /** One warning for every dropped relation, and only for those. */
  lemma {:induction false} DroppedRelationsAreReported(t: Texts, E: seq<Entity>, rs: seq<ExtractedRelation>)
    ensures EndpointMissingCount(WarningsFor(t, E, rs)) == DroppedCount(t, E, rs)
  {
    if rs != [] {
      var front, r := rs[..|rs| - 1], rs[|rs| - 1];
      DroppedRelationsAreReported(t, E, front);
      OneRelationWarns(t, E, r);
      EndpointMissingAppend(AmbiguityWarnings(t, E, r), LossWarnings(t, E, r));
      EndpointMissingAppend(WarningsFor(t, E, front), AmbiguityWarnings(t, E, r) + LossWarnings(t, E, r));
    }
  }

  function DroppedCount(t: Texts, E: seq<Entity>, rs: seq<ExtractedRelation>): nat {
    if rs == [] then 0
    else DroppedCount(t, E, rs[..|rs| - 1]) + if TripleOf(t, E, rs[|rs| - 1]).None? then 1 else 0
  }

  function Periodic(x: Triple, spans: seq<Interval>): seq<Relation> {
    seq(|spans|, i requires 0 <= i < |spans| => Relation(RelationId(x, spans[i].validFrom), x, spans[i]))
  }

  /** The relations of the given triples, in that order. */
  function Emitted(t: Texts, E: seq<Entity>, rs: seq<ExtractedRelation>, fallback: Option<Instant>,
                   order: seq<Triple>): seq<Relation> {
    if order == [] then []
    else
      var x := order[|order| - 1];
      Emitted(t, E, rs, fallback, order[..|order| - 1])
      + Periodic(x, Normalized(StatedPeriods(t, E, rs, fallback, x)))
  }

  /** What `resolve_extraction` returns as relations. */
  function ResolvedRelations(t: Texts, E: seq<Entity>, rs: seq<ExtractedRelation>,
                             fallback: Option<Instant>): seq<Relation> {
    Emitted(t, E, rs, fallback, Triples(t, E, rs))
  }

  method EmitTriple(x: Triple, spans: seq<Interval>, relations: seq<Relation>) returns (next: seq<Relation>)
    ensures next == relations + Periodic(x, spans)
  {
    next := relations;
    for k := 0 to |spans|
      invariant next == relations + Periodic(x, spans[..k])
    {
      assert Periodic(x, spans[..k + 1])
        == Periodic(x, spans[..k]) + [Relation(RelationId(x, spans[k].validFrom), x, spans[k])];
      next := next + [Relation(RelationId(x, spans[k].validFrom), x, spans[k])];
    }
    assert spans[..|spans|] == spans;
  }

  method EmitRelations(t: Texts, ghost E: seq<Entity>, ghost rs: seq<ExtractedRelation>,
                       ghost fallback: Option<Instant>, p: Periods)
      returns (relations: seq<Relation>)
    requires Collected(t, E, rs, fallback, p)
    ensures relations == ResolvedRelations(t, E, rs, fallback)
  {
    relations := [];
    for i := 0 to |p.order|
      invariant relations == Emitted(t, E, rs, fallback, p.order[..i])
    {
      EmittedSnoc(t, E, rs, fallback, p.order, i);
      var spans := Normalize(p.Get(p.order[i]));
      relations := EmitTriple(p.order[i], spans, relations);
    }
    assert p.order[..|p.order|] == p.order;
  }

  lemma EmittedSnoc(t: Texts, E: seq<Entity>, rs: seq<ExtractedRelation>, fallback: Option<Instant>, order: seq<Triple>,
                    i: nat)
    requires i < |order|
    ensures Emitted(t, E, rs, fallback, order[..i + 1])
         == Emitted(t, E, rs, fallback, order[..i])
           + Periodic(order[i], Normalized(StatedPeriods(t, E, rs, fallback, order[i])))
  {
    assert order[..i + 1][..i] == order[..i];
  }

  // -------------------------------------------------------------------------
  // What the relations are.
  // -------------------------------------------------------------------------

  /** Every interval the resolver builds is well formed, whatever the source states. */
  lemma StatedIntervalIsWellFormed(t: Texts, r: ExtractedRelation, fallback: Option<Instant>)
    ensures StatedInterval(t, r, fallback).WellFormed()
    ensures StatedInterval(t, r, fallback).validFrom in {None, t.Parse(r.validFrom), fallback}
    ensures StatedInterval(t, r, fallback).validTo in {None, t.Parse(r.validTo)}
  {}

  lemma {:induction false} StatedPeriodsAreWellFormed(t: Texts, E: seq<Entity>, rs: seq<ExtractedRelation>,
                                                      fallback: Option<Instant>, x: Triple)
    ensures AllWellFormed(StatedPeriods(t, E, rs, fallback, x))
  {
    if rs != [] {
      StatedPeriodsAreWellFormed(t, E, rs[..|rs| - 1], fallback, x);
      StatedIntervalIsWellFormed(t, rs[|rs| - 1], fallback);
    }
  }

  predicate Distinct<T(==)>(s: seq<T>) {
    forall i, j :: 0 <= i < j < |s| ==> s[i] != s[j]
  }

  lemma {:induction false} TriplesAreDistinct(t: Texts, E: seq<Entity>, rs: seq<ExtractedRelation>)
    ensures Distinct(Triples(t, E, rs))
    ensures forall x :: x in Triples(t, E, rs) <==> exists r :: r in rs && TripleOf(t, E, r) == Some(x)
  {
    if rs != [] {
      TriplesAreDistinct(t, E, rs[..|rs| - 1]);
      assert rs == rs[..|rs| - 1] + [rs[|rs| - 1]];
    }
  }

  /** Different ids, and periods of one triple in time order, each ending before the next starts. */
  predicate Orderly(relations: seq<Relation>) {
    forall i, j :: 0 <= i < j < |relations| ==>
      && relations[i].id != relations[j].id
      && (relations[i].triple == relations[j].triple ==>
            && relations[i].period.validTo.Some? && relations[j].period.validFrom.Some?
            && relations[i].period.validTo.value < relations[j].period.validFrom.value)
  }

  lemma PeriodicIsOrderly(x: Triple, spans: seq<Interval>)
    requires Separated(spans)
    ensures Orderly(Periodic(x, spans))
  {
    forall i, j | 0 <= i < j < |spans| ensures spans[i].validFrom != spans[j].validFrom {
      assert spans[i].WellFormed();
    }
  }

  lemma OrderlyAppend(a: seq<Relation>, b: seq<Relation>)
    requires Orderly(a) && Orderly(b)
    requires forall r, q :: r in a && q in b ==> r.triple != q.triple
    requires forall r :: r in a || r in b ==> r.id.triple == r.triple
    ensures Orderly(a + b)
  {
    var s := a + b;
    forall i, j | 0 <= i < j < |s|
      ensures s[i].id != s[j].id && (s[i].triple == s[j].triple ==>
        && s[i].period.validTo.Some? && s[j].period.validFrom.Some?
        && s[i].period.validTo.value < s[j].period.validFrom.value)
    {
      if i < |a| <= j {
        assert s[i] in a && s[j] in b;
      }
    }
  }

  lemma {:induction false} EmittedIsOrderly(t: Texts, E: seq<Entity>, rs: seq<ExtractedRelation>,
                                            fallback: Option<Instant>, order: seq<Triple>)
    requires Distinct(order)
    ensures Orderly(Emitted(t, E, rs, fallback, order))
    ensures forall r :: r in Emitted(t, E, rs, fallback, order) ==>
      r.triple in order && r.id == RelationId(r.triple, r.period.validFrom)
  {
    if order != [] {
      var front, x := order[..|order| - 1], order[|order| - 1];
      EmittedIsOrderly(t, E, rs, fallback, front);
      var stated := StatedPeriods(t, E, rs, fallback, x);
      StatedPeriodsAreWellFormed(t, E, rs, fallback, x);
      NormalizedSeparates(stated);
      PeriodicIsOrderly(x, Normalized(stated));
      OrderlyAppend(Emitted(t, E, rs, fallback, front), Periodic(x, Normalized(stated)));
    }
  }

  /**
    Relation ids are distinct, the periods of one (source, target, kind) are disjoint and strictly
    increasing, and no triple is invented.
   */
  lemma ResolvedRelationsAreOrderly(t: Texts, E: seq<Entity>, rs: seq<ExtractedRelation>, fallback: Option<Instant>)
    ensures Orderly(ResolvedRelations(t, E, rs, fallback))
    ensures forall q :: q in ResolvedRelations(t, E, rs, fallback) ==>
      exists r :: r in rs && TripleOf(t, E, r) == Some(q.triple)
  {
    TriplesAreDistinct(t, E, rs);
    EmittedIsOrderly(t, E, rs, fallback, Triples(t, E, rs));
  }

  lemma {:induction false} EmittedIsPeriod(t: Texts, E: seq<Entity>, rs: seq<ExtractedRelation>,
                                           fallback: Option<Instant>, order: seq<Triple>, q: Relation) returns (k: nat)
    requires q in Emitted(t, E, rs, fallback, order)
    ensures q.triple in order
    ensures var spans := Normalized(StatedPeriods(t, E, rs, fallback, q.triple)); k < |spans| && spans[k] == q.period
  {
    var front, x := order[..|order| - 1], order[|order| - 1];
    var spans := Normalized(StatedPeriods(t, E, rs, fallback, x));
    if q in Emitted(t, E, rs, fallback, front) {
      k := EmittedIsPeriod(t, E, rs, fallback, front, q);
    } else {
      assert q in Periodic(x, spans);
      k :| 0 <= k < |spans| && Periodic(x, spans)[k] == q;
    }
  }

  lemma {:induction false} PeriodWasStated(t: Texts, E: seq<Entity>, rs: seq<ExtractedRelation>,
                                           fallback: Option<Instant>,
                                           x: Triple, period: Interval) returns (r: ExtractedRelation)
    requires period in StatedPeriods(t, E, rs, fallback, x)
    ensures r in rs && TripleOf(t, E, r) == Some(x) && StatedInterval(t, r, fallback) == period
  {
    var last := rs[|rs| - 1];
    if TripleOf(t, E, last) == Some(x) && StatedInterval(t, last, fallback) == period {
      r := last;
    } else {
      r := PeriodWasStated(t, E, rs[..|rs| - 1], fallback, x, period);
    }
  }

  /**
    No bound is invented: a known start of a resolved relation was stated by a relation of its triple
    or is the date of the source, and a known end was stated by one.
   */
  lemma ResolvedBoundIsStated(t: Texts, E: seq<Entity>, rs: seq<ExtractedRelation>, fallback: Option<Instant>,
                              q: Relation, start: bool)
      returns (r: ExtractedRelation)
    requires q in ResolvedRelations(t, E, rs, fallback)
    requires if start then q.period.validFrom.Some? else q.period.validTo.Some?
    ensures r in rs && TripleOf(t, E, r) == Some(q.triple)
    ensures start ==>
      q.period.validFrom == t.Parse(r.validFrom) || (t.Parse(r.validFrom).None? && q.period.validFrom == fallback)
    ensures !start ==> q.period.validTo == t.Parse(r.validTo)
  {
    var k := EmittedIsPeriod(t, E, rs, fallback, Triples(t, E, rs), q);
    var stated := StatedPeriods(t, E, rs, fallback, q.triple);
    var x := NormalizedBoundIsInput(stated, k, start);
    assert x in stated && if start then x.validFrom == q.period.validFrom else x.validTo == q.period.validTo;
    r := PeriodWasStated(t, E, rs, fallback, q.triple, x);
    StatedBounds(t, r, fallback);
  }

  lemma StatedBounds(t: Texts, r: ExtractedRelation, fallback: Option<Instant>)
    ensures var period := StatedInterval(t, r, fallback);
      && (period.validFrom.Some? ==>
            period.validFrom == t.Parse(r.validFrom) || (t.Parse(r.validFrom).None? && period.validFrom == fallback))
      && (period.validTo.Some? ==> period.validTo == t.Parse(r.validTo))
  {}

  lemma {:induction false} EmittedHas(t: Texts, E: seq<Entity>, rs: seq<ExtractedRelation>, fallback: Option<Instant>,
                                      order: seq<Triple>, x: Triple, k: nat)
    requires x in order && k < |Normalized(StatedPeriods(t, E, rs, fallback, x))|
    ensures Relation(RelationId(x, Normalized(StatedPeriods(t, E, rs, fallback, x))[k].validFrom), x,
                     Normalized(StatedPeriods(t, E, rs, fallback, x))[k]) in Emitted(t, E, rs, fallback, order)
  {
    var front, last := order[..|order| - 1], order[|order| - 1];
    if x == last {
      var spans := Normalized(StatedPeriods(t, E, rs, fallback, x));
      assert Periodic(x, spans)[k] in Emitted(t, E, rs, fallback, order);
    } else {
      EmittedHas(t, E, rs, fallback, front, x, k);
    }
  }

  lemma {:induction false} PeriodIsStated(t: Texts, E: seq<Entity>, rs: seq<ExtractedRelation>,
                                          fallback: Option<Instant>, r: ExtractedRelation, x: Triple)
    requires r in rs && TripleOf(t, E, r) == Some(x)
    ensures StatedInterval(t, r, fallback) in StatedPeriods(t, E, rs, fallback, x)
  {
    if r != rs[|rs| - 1] {
      PeriodIsStated(t, E, rs[..|rs| - 1], fallback, r, x);
    }
  }

  predicate CoveredBy(relations: seq<Relation>, x: Triple, period: Interval, q: Relation) {
    q in relations && q.triple == x && q.period.Contains(period)
  }

  /** A relation whose ends resolve and whose period is fully known lies in one output relation of its triple. */
  lemma KnownRelationIsCovered(t: Texts, E: seq<Entity>, rs: seq<ExtractedRelation>, fallback: Option<Instant>,
                               r: ExtractedRelation, x: Triple)
      returns (q: Relation)
    requires r in rs && TripleOf(t, E, r) == Some(x)
    requires StatedInterval(t, r, fallback).validFrom.Some? && StatedInterval(t, r, fallback).validTo.Some?
    ensures CoveredBy(ResolvedRelations(t, E, rs, fallback), x, StatedInterval(t, r, fallback), q)
    ensures forall p :: CoveredBy(ResolvedRelations(t, E, rs, fallback), x, StatedInterval(t, r, fallback), p) ==>
      p == q
  {
    q := CoveringRelation(t, E, rs, fallback, r, x);
    ResolvedRelationsAreOrderly(t, E, rs, fallback);
    StatedIntervalIsWellFormed(t, r, fallback);
    OneContainer(ResolvedRelations(t, E, rs, fallback), x, StatedInterval(t, r, fallback));
  }

  lemma CoveringRelation(t: Texts, E: seq<Entity>, rs: seq<ExtractedRelation>, fallback: Option<Instant>,
                         r: ExtractedRelation, x: Triple)
      returns (q: Relation)
    requires r in rs && TripleOf(t, E, r) == Some(x)
    requires StatedInterval(t, r, fallback).validFrom.Some? && StatedInterval(t, r, fallback).validTo.Some?
    ensures CoveredBy(ResolvedRelations(t, E, rs, fallback), x, StatedInterval(t, r, fallback), q)
  {
    var stated := StatedPeriods(t, E, rs, fallback, x);
    PeriodIsStated(t, E, rs, fallback, r, x);
    StatedPeriodsAreWellFormed(t, E, rs, fallback, x);
    var k := KnownSpanHasOnePeriod(stated, StatedInterval(t, r, fallback));
    q := Relation(RelationId(x, Normalized(stated)[k].validFrom), x, Normalized(stated)[k]);
    TriplesAreDistinct(t, E, rs);
    EmittedHas(t, E, rs, fallback, Triples(t, E, rs), x, k);
  }

  lemma OneContainer(relations: seq<Relation>, x: Triple, period: Interval)
    requires Orderly(relations) && period.WellFormed() && period.validFrom.Some? && period.validTo.Some?
    ensures forall q, q' :: CoveredBy(relations, x, period, q) && CoveredBy(relations, x, period, q') ==> q == q'
  {
    forall q, q' | CoveredBy(relations, x, period, q) && CoveredBy(relations, x, period, q')
      ensures q == q'
    {
      var i :| 0 <= i < |relations| && relations[i] == q;
      var j :| 0 <= j < |relations| && relations[j] == q';
      assert !(i < j) && !(j < i);
    }
  }
}
