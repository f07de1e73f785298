/**
  The grouping loop as it runs: a list of mutable groups, absorbed into each other in place and
  removed from the list. It computes the partition `Grouping.Grouped` describes.
 */
module GroupLoop {
  import opened Options
  import opened Ontology
  import opened Temporal
  import opened Grouping
  import Sequences

  class Group {
    const kind: EntityKind
    var names: seq<string>
    var keys: set<string>
    var identifiers: set<string>
    var timestamp: Option<Instant>
    ghost var members: Cluster

    ghost predicate Valid(norm: NameKey)
      reads this
    {
      && (forall x :: x in members ==> x.kind == kind)
      && names == Names(members) && keys == Keys(norm, members)
      && identifiers == Identifiers(members) && timestamp == Stamp(members)
    }

    constructor (ghost norm: NameKey, kind: EntityKind)
      ensures Valid(norm) && this.kind == kind && members == []
    {
      this.kind := kind;
      names, keys, identifiers, timestamp := [], {}, {}, None;
      members := [];
    }

    method Absorb(ghost norm: NameKey, other: Group)
      requires Valid(norm) && other.Valid(norm) && other.kind == kind && other != this
      modifies this
      ensures Valid(norm) && members == old(members) + other.members
    {
      NamesAppend(members, other.members);
      StampAppend(members, other.members);
      names := names + other.names;
      keys := keys + other.keys;
      identifiers := identifiers + other.identifiers;
      timestamp := if timestamp.Some? then timestamp else other.timestamp;
      members := members + other.members;
    }

    method Add(norm: NameKey, m: Mention)
      requires Valid(norm) && m.kind == kind
      modifies this
      ensures Valid(norm) && members == old(members) + [m]
    {
      names := names + m.Names();
      keys := keys + m.Keys(norm);
      identifiers := identifiers + m.identifiers;
      timestamp := if timestamp.Some? then timestamp else m.occurredAt;
      assert (members + [m])[..|members|] == members;
      members := members + [m];
    }
  }

  lemma NamesSnoc(a: Cluster, m: Mention)
    ensures Names(a + [m]) == Names(a) + m.Names()
  {
    assert (a + [m])[..|a|] == a;
  }

  lemma NamesAppendOne(a: Cluster, front: Cluster, last: Mention)
    requires Names(a + front) == Names(a) + Names(front)
    ensures Names(a + (front + [last])) == Names(a) + Names(front + [last])
  {
    assert a + (front + [last]) == (a + front) + [last];
    calc {
      Names((a + front) + [last]);
      { NamesSnoc(a + front, last); }
      (Names(a) + Names(front)) + last.Names();
      { Sequences.Assoc(Names(a), Names(front), last.Names()); }
      Names(a) + (Names(front) + last.Names());
      { NamesSnoc(front, last); }
      Names(a) + Names(front + [last]);
    }
  }

  lemma {:induction false} NamesAppend(a: Cluster, b: Cluster)
    ensures Names(a + b) == Names(a) + Names(b)
  {
    if b == [] {
      assert a + b == a;
    } else {
      NamesAppend(a, b[..|b| - 1]);
      NamesAppendOne(a, b[..|b| - 1], b[|b| - 1]);
      assert b == b[..|b| - 1] + [b[|b| - 1]];
    }
  }

  lemma {:induction false} StampAppend(a: Cluster, b: Cluster)
    ensures Stamp(a + b) == if Stamp(a).Some? then Stamp(a) else Stamp(b)
  {
    if b == [] {
      assert a + b == a;
    } else {
      StampAppend(a, b[..|b| - 1]);
      assert (a + b)[..|a + b| - 1] == a + b[..|b| - 1];
    }
  }

  /** The distinct group objects `gs` hold the clusters `P`. */
  ghost predicate Represents(norm: NameKey, gs: seq<Group>, P: seq<Cluster>)
    reads gs
  {
    && |gs| == |P| && NoDuplicates(gs)
    && forall i :: 0 <= i < |gs| ==> gs[i].Valid(norm) && gs[i].members == P[i] && P[i] != []
  }

  lemma KindOfGroup(norm: NameKey, gs: seq<Group>, P: seq<Cluster>, i: nat, kind: EntityKind)
    requires Represents(norm, gs, P) && i < |P|
    ensures HasKind(P[i], kind) <==> gs[i].kind == kind
  {
    assert P[i][0] in gs[i].members;
  }

  lemma ByIdentifierStep(norm: NameKey, groups: seq<Group>, P: seq<Cluster>, m: Mention, i: nat)
    requires Represents(norm, groups, P) && i < |P|
    ensures var before := Select(groups, ByIdentifier(P[..i], m));
      Select(groups, ByIdentifier(P[..i + 1], m)) == if SharesIdentifier(P[i], m) then before + [groups[i]] else before
  {
    assert P[..i + 1][..i] == P[..i];
    var more: seq<nat> := if SharesIdentifier(P[i], m) then [i] else [];
    assert ByIdentifier(P[..i + 1], m) == ByIdentifier(P[..i], m) + more;
    SelectAppend(groups, ByIdentifier(P[..i], m), more);
  }

  method SelectByIdentifier(ghost norm: NameKey, groups: seq<Group>, ghost P: seq<Cluster>, m: Mention)
      returns (selected: seq<Group>)
    requires Represents(norm, groups, P)
    ensures selected == Select(groups, ByIdentifier(P, m))
  {
    selected := [];
    for i := 0 to |groups|
      invariant InRange(ByIdentifier(P[..i], m), i)
      invariant selected == Select(groups, ByIdentifier(P[..i], m))
    {
      ByIdentifierStep(norm, groups, P, m, i);
      KindOfGroup(norm, groups, P, i, m.kind);
      if groups[i].kind == m.kind && !(groups[i].identifiers !! m.identifiers) {
        selected := selected + [groups[i]];
      }
    }
    assert P[..|groups|] == P;
  }

  lemma InSelection(groups: seq<Group>, idx: seq<nat>, i: nat)
    requires NoDuplicates(groups) && InRange(idx, |groups|) && i < |groups|
    ensures groups[i] in Select(groups, idx) <==> i in idx
  {
    var s := Select(groups, idx);
    if groups[i] in s {
      var k :| 0 <= k < |s| && s[k] == groups[i];
      assert idx[k] == i;
    }
    if i in idx {
      var k :| 0 <= k < |idx| && idx[k] == i;
      assert s[k] == groups[i];
    }
  }

  /** The tests of the name loop, group by group, are the tests on its cluster. */
  lemma NameTest(norm: NameKey, groups: seq<Group>, P: seq<Cluster>, m: Mention, i: nat)
    requires Represents(norm, groups, P) && i < |P|
    ensures SharesName(norm, P[i], m) <==>
      && groups[i].kind == m.kind && !(groups[i].keys !! m.Keys(norm))
      && groups[i] !in Select(groups, ByIdentifier(P, m))
      && (m.identifiers == {} || groups[i].identifiers == {})
  {
    KindOfGroup(norm, groups, P, i, m.kind);
    InSelection(groups, ByIdentifier(P, m), i);
    ByIdentifierHas(P, m);
  }

  lemma ByNameStep(norm: NameKey, groups: seq<Group>, P: seq<Cluster>, m: Mention, i: nat)
    requires Represents(norm, groups, P) && i < |P|
    ensures Select(groups, ByName(norm, P[..i + 1], m))
         == Select(groups, ByName(norm, P[..i], m)) + if SharesName(norm, P[i], m) then [groups[i]] else []
  {
    assert P[..i + 1][..i] == P[..i];
    var more: seq<nat> := if SharesName(norm, P[i], m) then [i] else [];
    assert ByName(norm, P[..i + 1], m) == ByName(norm, P[..i], m) + more;
    SelectAppend(groups, ByName(norm, P[..i], m), more);
  }

  method SelectByName(norm: NameKey, groups: seq<Group>, ghost P: seq<Cluster>, m: Mention, byIdentifier: seq<Group>)
      returns (selected: seq<Group>)
    requires Represents(norm, groups, P) && byIdentifier == Select(groups, ByIdentifier(P, m))
    ensures selected == Select(groups, ByName(norm, P, m))
  {
    selected := [];
    for i := 0 to |groups|
      invariant InRange(ByName(norm, P[..i], m), i)
      invariant selected == Select(groups, ByName(norm, P[..i], m))
    {
      ByNameStep(norm, groups, P, m, i);
      NameTest(norm, groups, P, m, i);
      if groups[i].kind == m.kind && !(groups[i].keys !! m.Keys(norm)) && groups[i] !in byIdentifier
        && (m.identifiers == {} || groups[i].identifiers == {})
      {
        selected := selected + [groups[i]];
      }
    }
    assert P[..|groups|] == P;
  }

  /** The selected groups that do (or do not) carry identifiers. */
  method SelectCarrying(ghost norm: NameKey, ghost groups: seq<Group>, ghost P: seq<Cluster>, ghost idx: seq<nat>,
                        candidates: seq<Group>, identified: bool)
      returns (selected: seq<Group>)
    requires Represents(norm, groups, P) && InRange(idx, |P|) && candidates == Select(groups, idx)
    ensures selected == Select(groups, Carrying(P, idx, identified))
  {
    selected := [];
    for i := 0 to |candidates|
      invariant selected == Select(groups, Carrying(P, idx[..i], identified))
    {
      assert idx[..i + 1][..i] == idx[..i];
      assert candidates[i] == groups[idx[i]];
      if (candidates[i].identifiers != {}) == identified {
        selected := selected + [candidates[i]];
      }
    }
    assert idx[..|candidates|] == idx;
  }

  lemma CutSnoc<T>(s: seq<T>, x: T, j: nat)
    requires j <= |s|
    ensures (s + [x])[..j] + (s + [x])[j + 1..] == if j == |s| then s else s[..j] + s[j + 1..] + [x]
  {}

  lemma {:induction false} KeptWithoutOne(n: nat, drop: set<nat>, i: nat, j: nat)
    requires j < |Kept(n, drop)| && Kept(n, drop)[j] == i
    ensures Kept(n, drop + {i}) == Kept(n, drop)[..j] + Kept(n, drop)[j + 1..]
  {
    var front := Kept(n - 1, drop);
    if n - 1 in drop {
      KeptWithoutOne(n - 1, drop, i, j);
    } else {
      KeptSnoc(n - 1, drop);
      CutSnoc(front, n - 1, j);
      if j == |front| {
        KeptWithoutNone(n - 1, drop, i);
      } else {
        KeptWithoutOne(n - 1, drop, i, j);
        KeptSnoc(n - 1, drop + {i});
      }
    }
  }

  lemma KeptSnoc(n: nat, drop: set<nat>)
    requires n !in drop
    ensures Kept(n + 1, drop) == Kept(n, drop) + [n]
  {}

  lemma {:induction false} KeptWithoutNone(n: nat, drop: set<nat>, i: nat)
    requires i >= n
    ensures Kept(n, drop + {i}) == Kept(n, drop)
  {
    if n > 0 {
      KeptWithoutNone(n - 1, drop, i);
    }
  }

  lemma WithoutOne<T>(s: seq<T>, drop: set<nat>, i: nat, j: nat)
    requires i < |s| && i !in drop && j < |Kept(|s|, drop)| && Kept(|s|, drop)[j] == i
    ensures j < |Without(s, drop)|
    ensures Without(s, drop)[..j] + Without(s, drop)[j + 1..] == Without(s, drop + {i})
  {
    KeptWithoutOne(|s|, drop, i, j);
  }

  /** `groups.remove(other)` on a list that has lost the groups at `drop`. */
  method Remove(ghost groups: seq<Group>, ghost drop: set<nat>, list: seq<Group>, other: Group, ghost i: nat)
      returns (rest: seq<Group>)
    requires NoDuplicates(groups) && list == Without(groups, drop)
    requires i < |groups| && i !in drop && groups[i] == other
    ensures rest == Without(groups, drop + {i})
  {
    ghost var kept := Kept(|groups|, drop);
    KeptHas(|groups|, drop);
    assert i in kept;
    ghost var at :| 0 <= at < |kept| && kept[at] == i;
    var j := 0;
    while list[j] != other
      invariant 0 <= j <= at
      decreases at - j
    {
      j := j + 1;
    }
    assert kept[j] == i by {
      assert groups[kept[j]] == groups[i];
    }
    WithoutOne(groups, drop, i, j);
    rest := list[..j] + list[j + 1..];
  }

  datatype Warning =
    | NamelessDropped(name: string)
    | AmbiguousName(name: string)

  /** Which warning a mention draws. */
  function TurnWarnings(norm: NameKey, P: seq<Cluster>, m: Mention): seq<Warning> {
    if m.Keys(norm) == {} then [NamelessDropped(m.name)]
    else if Ambiguous(norm, P, m) then [AmbiguousName(m.name)]
    else []
  }

  method FindMatched(norm: NameKey, groups: seq<Group>, ghost P: seq<Cluster>, m: Mention)
      returns (matched: seq<Group>, warnings: seq<Warning>)
    requires Represents(norm, groups, P) && m.Keys(norm) != {}
    ensures InRange(Matched(norm, P, m), |P|) && matched == Select(groups, Matched(norm, P, m))
    ensures warnings == TurnWarnings(norm, P, m)
  {
    MatchedInRange(norm, P, m);
    var byIdentifier := SelectByIdentifier(norm, groups, P, m);
    var byName := SelectByName(norm, groups, P, m, byIdentifier);
    warnings := [];
    if byIdentifier != [] {
      var bare := SelectCarrying(norm, groups, P, ByName(norm, P, m), byName, false);
      matched := byIdentifier + bare;
      SelectAppend(groups, ByIdentifier(P, m), Carrying(P, ByName(norm, P, m), false));
    } else {
      var carrying := SelectCarrying(norm, groups, P, ByName(norm, P, m), byName, true);
      if m.identifiers == {} && |carrying| > 1 {
        warnings := [AmbiguousName(m.name)];
        matched := [];
      } else {
        matched := byName;
      }
    }
  }

  /** What the groups stand for while the first `k` matched ones are being folded together. */
  ghost predicate Folding(norm: NameKey, gs: seq<Group>, P: seq<Cluster>, idx: seq<nat>, k: nat)
    reads gs
  {
    && |gs| == |P| && InRange(idx, |P|) && 0 < k <= |idx| && NoDuplicates(gs)
    && (forall i :: 0 <= i < |gs| ==> gs[i].Valid(norm))
    && gs[idx[0]].members == Gather(P, idx[..k])
    && forall i :: 0 <= i < |gs| && i != idx[0] ==> gs[i].members == P[i]
  }

  /** One round of the absorbing loop: `idx[k]` joins `idx[0]` and leaves the list. */
  method AbsorbOne(ghost norm: NameKey, ghost groups: seq<Group>, ghost P: seq<Cluster>, ghost idx: seq<nat>,
                   ghost k: nat, group: Group, other: Group)
    requires Folding(norm, groups, P, idx, k) && NoDuplicates(idx) && k < |idx|
    requires group == groups[idx[0]] && other == groups[idx[k]] && other.kind == group.kind
    modifies group
    ensures Folding(norm, groups, P, idx, k + 1)
  {
    assert idx[k] != idx[0];
    GatherMore(P, idx, k);
    group.Absorb(norm, other);
  }

  /** Folds the matched groups into the first of them and takes the others off the list. */
  method AbsorbMatched(ghost norm: NameKey, groups: seq<Group>, ghost P: seq<Cluster>, ghost idx: seq<nat>,
                       ghost kind: EntityKind, matched: seq<Group>)
      returns (rest: seq<Group>)
    requires Represents(norm, groups, P) && InRange(idx, |P|) && NoDuplicates(idx)
    requires matched == Select(groups, idx) && matched != []
    requires forall k :: 0 <= k < |matched| ==> matched[k].kind == kind
    modifies matched[0]
    ensures Folding(norm, groups, P, idx, |idx|)
    ensures rest == Without(groups, Range(idx[1..]))
  {
    rest := groups;
    StartFolding(norm, groups, P, idx);
    for k := 1 to |matched|
      invariant Folding(norm, groups, P, idx, k)
      invariant rest == Without(groups, Range(idx[1..k]))
    {
      assert matched[k] == groups[idx[k]] && matched[0] == groups[idx[0]];
      AbsorbOne(norm, groups, P, idx, k, matched[0], matched[k]);
      RangeSnoc(idx, k);
      rest := Remove(groups, Range(idx[1..k]), rest, matched[k], idx[k]);
    }
    assert idx[1..|matched|] == idx[1..];
  }

  lemma StartFolding(norm: NameKey, groups: seq<Group>, P: seq<Cluster>, idx: seq<nat>)
    requires Represents(norm, groups, P) && InRange(idx, |P|) && idx != []
    ensures Folding(norm, groups, P, idx, 1)
    ensures groups == Without(groups, Range(idx[1..1]))
  {
    KeptNone(groups);
    GatherOne(P, idx);
    assert Range(idx[1..1]) == {};
  }

  lemma KeptNone<T>(s: seq<T>)
    ensures Without(s, {}) == s
  {
    KeepsAll(|s|);
  }

  lemma {:induction false} KeepsAll(n: nat)
    ensures |Kept(n, {})| == n && forall i :: 0 <= i < n ==> Kept(n, {})[i] == i
  {
    if n > 0 {
      KeepsAll(n - 1);
    }
  }

  lemma GatherOne(P: seq<Cluster>, idx: seq<nat>)
    requires InRange(idx, |P|) && idx != []
    ensures Gather(P, idx[..1]) == P[idx[0]]
  {
    assert idx[..1][..0] == [];
    assert Gather(P, idx[..1][..0]) == [];
  }

  lemma GatherMore(P: seq<Cluster>, idx: seq<nat>, k: nat)
    requires InRange(idx, |P|) && k < |idx|
    ensures Gather(P, idx[..k + 1]) == Gather(P, idx[..k]) + P[idx[k]]
  {
    assert idx[..k + 1][..k] == idx[..k];
  }

  lemma RangeSnoc(idx: seq<nat>, k: nat)
    requires 0 < k < |idx| && NoDuplicates(idx)
    ensures Range(idx[1..k + 1]) == Range(idx[1..k]) + {idx[k]} && idx[k] !in Range(idx[1..k])
  {
    assert idx[1..k + 1] == idx[1..k] + [idx[k]];
  }

  predicate Owns(repr: set<Group>, groups: seq<Group>) {
    forall i :: 0 <= i < |groups| ==> groups[i] in repr
  }

  /** The mention joins the matched groups, folded into one. */
  method JoinMatched(norm: NameKey, groups: seq<Group>, ghost P: seq<Cluster>, ghost idx: seq<nat>, m: Mention,
                     matched: seq<Group>, ghost repr: set<Group>)
      returns (next: seq<Group>)
    requires Represents(norm, groups, P) && Owns(repr, groups) && InRange(idx, |P|) && NoDuplicates(idx)
    requires matched == Select(groups, idx) && matched != []
    requires forall k :: 0 <= k < |matched| ==> matched[k].kind == m.kind
    modifies repr
    ensures Represents(norm, next, Join(P, idx, m)) && Owns(repr, next)
  {
    assert matched[0] == groups[idx[0]];
    next := AbsorbMatched(norm, groups, P, idx, m.kind, matched);
    matched[0].Add(norm, m);
    assert idx[..|idx|] == idx;
    KeptHas(|groups|, Range(idx[1..]));
    SelectionRepresents(norm, groups, P[idx[0] := Gather(P, idx) + [m]], Kept(|groups|, Range(idx[1..])));
  }

  /** One turn of the loop: the groups afterwards hold the clusters of `Turn`. */
  method TakeMention(norm: NameKey, groups: seq<Group>, ghost P: seq<Cluster>, m: Mention, ghost repr: set<Group>)
      returns (next: seq<Group>, warnings: seq<Warning>, ghost footprint: set<Group>)
    requires Represents(norm, groups, P) && Owns(repr, groups)
    modifies repr
    ensures Represents(norm, next, Turn(norm, P, m))
    ensures warnings == TurnWarnings(norm, P, m)
    ensures Owns(footprint, next) && fresh(footprint - repr)
  {
    footprint := repr;
    if m.Keys(norm) == {} {
      return groups, [NamelessDropped(m.name)], repr;
    }
    ghost var idx := Matched(norm, P, m);
    MatchedInRange(norm, P, m);
    var matched;
    matched, warnings := FindMatched(norm, groups, P, m);
    if matched != [] {
      MatchedKinds(norm, groups, P, m);
      next := JoinMatched(norm, groups, P, idx, m, matched, repr);
    } else {
      next := StartGroup(norm, groups, P, m);
      footprint := repr + {next[|groups|]};
    }
  }

  method StartGroup(norm: NameKey, groups: seq<Group>, ghost P: seq<Cluster>, m: Mention) returns (next: seq<Group>)
    requires Represents(norm, groups, P)
    ensures Represents(norm, next, P + [[m]])
    ensures |next| == |groups| + 1 && next[..|groups|] == groups && fresh(next[|groups|])
  {
    var group := new Group(norm, m.kind);
    group.Add(norm, m);
    next := groups + [group];
  }

  lemma MatchedKinds(norm: NameKey, groups: seq<Group>, P: seq<Cluster>, m: Mention)
    requires Represents(norm, groups, P) && InRange(Matched(norm, P, m), |P|)
    ensures forall k :: 0 <= k < |Matched(norm, P, m)| ==> Select(groups, Matched(norm, P, m))[k].kind == m.kind
  {
    var idx := Matched(norm, P, m);
    MatchedInRange(norm, P, m);
    forall k | 0 <= k < |idx| ensures groups[idx[k]].kind == m.kind {
      assert idx[k] in idx;
      KindOfGroup(norm, groups, P, idx[k], m.kind);
    }
  }

  lemma SelectionRepresents(norm: NameKey, gs: seq<Group>, P: seq<Cluster>, idx: seq<nat>)
    requires Represents(norm, gs, P) && InRange(idx, |P|) && NoDuplicates(idx)
    ensures Represents(norm, Select(gs, idx), Select(P, idx))
  {}

  /** The warnings of the grouping loop, in the order it reports them. */
  function GroupingWarnings(norm: NameKey, ms: seq<Mention>): seq<Warning> {
    if ms == [] then []
    else
      var front := ms[..|ms| - 1];
      GroupingWarnings(norm, front) + TurnWarnings(norm, Grouped(norm, front), ms[|ms| - 1])
  }

  lemma GroupedSnoc(norm: NameKey, ms: seq<Mention>, i: nat)
    requires i < |ms|
    ensures Grouped(norm, ms[..i + 1]) == Turn(norm, Grouped(norm, ms[..i]), ms[i])
    ensures GroupingWarnings(norm, ms[..i + 1])
         == GroupingWarnings(norm, ms[..i]) + TurnWarnings(norm, Grouped(norm, ms[..i]), ms[i])
  {
    assert ms[..i + 1][..i] == ms[..i];
  }

  /** The grouping loop of `resolve_extraction`. */
  method GroupMentions(norm: NameKey, mentions: seq<Mention>) returns (groups: seq<Group>, warnings: seq<Warning>)
    ensures Represents(norm, groups, Grouped(norm, mentions))
    ensures warnings == GroupingWarnings(norm, mentions)
  {
    groups, warnings := [], [];
    ghost var P: seq<Cluster>, repr: set<Group> := [], {};
    for i := 0 to |mentions|
      invariant P == Grouped(norm, mentions[..i]) && Represents(norm, groups, P)
      invariant warnings == GroupingWarnings(norm, mentions[..i])
      invariant Owns(repr, groups) && fresh(repr)
    {
      GroupedSnoc(norm, mentions, i);
      var more;
      groups, more, repr := TakeMention(norm, groups, P, mentions[i], repr);
      P := Turn(norm, P, mentions[i]);
      warnings := warnings + more;
    }
    assert mentions[..|mentions|] == mentions;
  }
}
