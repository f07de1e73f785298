/** What the online grouping of mentions guarantees, for every mention list in every order. */
module GroupingTheorems {
  import opened Ontology
  import opened Grouping

  // -------------------------------------------------------------------------
  // The shape of one turn: one cluster absorbs the matched ones, the rest stay.
  // -------------------------------------------------------------------------

  function Absorbed(P: seq<Cluster>, matched: seq<nat>, m: Mention): Cluster
    requires InRange(matched, |P|)
  {
    Gather(P, matched) + [m]
  }

  /** `src` says where each cluster of `Q` except the one at `at` comes from. */
  predicate Rearranged(P: seq<Cluster>, matched: seq<nat>, Q: seq<Cluster>, src: seq<nat>, at: nat, joined: Cluster) {
    && |src| == |Q| && at < |Q| && Q[at] == joined
    && (forall j :: 0 <= j < |Q| && j != at ==> src[j] < |P| && src[j] !in matched && Q[j] == P[src[j]])
    && NoDuplicates(src)
  }

  lemma JoinRearranges(P: seq<Cluster>, matched: seq<nat>, m: Mention) returns (src: seq<nat>, at: nat)
    requires InRange(matched, |P|) && NoDuplicates(matched)
    ensures Rearranged(P, matched, Join(P, matched, m), src, at, Absorbed(P, matched, m))
  {
    if matched == [] {
      src, at := seq(|P| + 1, j => j), |P|;
      assert Absorbed(P, matched, m) == [m];
    } else {
      var head, drop := matched[0], Range(matched[1..]);
      src := Kept(|P|, drop);
      KeptHas(|P|, drop);
      assert head !in drop;
      assert head in src;
      at :| 0 <= at < |src| && src[at] == head;
      var updated := P[head := Absorbed(P, matched, m)];
      assert Join(P, matched, m) == Without(updated, drop);
      forall j | 0 <= j < |src| && j != at
        ensures src[j] !in matched && Without(updated, drop)[j] == P[src[j]]
      {
        assert src[j] in src;
        assert matched == [head] + matched[1..];
      }
    }
  }

  lemma TurnRearranges(norm: NameKey, P: seq<Cluster>, m: Mention) returns (src: seq<nat>, at: nat)
    requires m.Keys(norm) != {}
    ensures InRange(Matched(norm, P, m), |P|)
    ensures Rearranged(P, Matched(norm, P, m), Turn(norm, P, m), src, at, Absorbed(P, Matched(norm, P, m), m))
  {
    MatchedInRange(norm, P, m);
    src, at := JoinRearranges(P, Matched(norm, P, m), m);
  }

  lemma {:induction false} InGather(P: seq<Cluster>, idx: seq<nat>, x: Mention)
    requires InRange(idx, |P|)
    ensures x in Gather(P, idx) <==> exists i :: i in idx && x in P[i]
  {
    if idx != [] {
      var n := |idx| - 1;
      InGather(P, idx[..n], x);
      assert idx == idx[..n] + [idx[n]];
    }
  }

  // -------------------------------------------------------------------------
  // Invariants of the loop.
  // -------------------------------------------------------------------------

  /** Clusters are non-empty, of one kind, and hold only named mentions of `ms`. */
  predicate Homogeneous(norm: NameKey, P: seq<Cluster>, ms: seq<Mention>) {
    forall i :: 0 <= i < |P| ==> UniformCluster(norm, P[i], ms)
  }

  predicate UniformCluster(norm: NameKey, c: Cluster, ms: seq<Mention>) {
    c != [] && forall x :: x in c ==> x.kind == c[0].kind && x in ms && x.Keys(norm) != {}
  }

  /** No two groups of one kind share an identifier. */
  predicate IdentifiersDisjoint(P: seq<Cluster>) {
    forall i, j ::
      0 <= i < |P| && 0 <= j < |P| && i != j && P[i] != [] && P[j] != [] && P[i][0].kind == P[j][0].kind ==>
      Identifiers(P[i]) !! Identifiers(P[j])
  }

  lemma TurnKeepsHomogeneous(norm: NameKey, P: seq<Cluster>, ms: seq<Mention>, m: Mention)
    requires Homogeneous(norm, P, ms)
    ensures Homogeneous(norm, Turn(norm, P, m), ms + [m])
  {
    if m.Keys(norm) != {} {
      var src, at := TurnRearranges(norm, P, m);
      var Q, matched := Turn(norm, P, m), Matched(norm, P, m);
      MatchedInRange(norm, P, m);
      forall x: Mention | x in Q[at] ensures x.kind == m.kind && x in ms + [m] && x.Keys(norm) != {} {
        InGather(P, matched, x);
        if x != m {
          var i :| i in matched && x in P[i];
          assert HasKind(P[i], m.kind) && UniformCluster(norm, P[i], ms);
        }
      }
      assert Q[at][0] in Q[at];
      forall j | 0 <= j < |Q| ensures UniformCluster(norm, Q[j], ms + [m]) {
        if j != at {
          assert UniformCluster(norm, P[src[j]], ms);
        }
      }
    } else {
      forall j | 0 <= j < |P| ensures UniformCluster(norm, P[j], ms + [m]) {
        assert UniformCluster(norm, P[j], ms);
      }
    }
  }

  lemma GatherIdentifiers(P: seq<Cluster>, idx: seq<nat>, m: Mention, x: string)
    requires InRange(idx, |P|)
    ensures x in Identifiers(Absorbed(P, idx, m)) <==>
      x in m.identifiers || exists i :: i in idx && x in Identifiers(P[i])
  {
    forall y ensures y in Gather(P, idx) <==> exists i :: i in idx && y in P[i] {
      InGather(P, idx, y);
    }
    if i :| i in idx && x in Identifiers(P[i]) {
      var y :| y in P[i] && x in y.identifiers;
      assert y in Absorbed(P, idx, m);
    }
    if x in m.identifiers {
      assert m in Absorbed(P, idx, m);
    }
  }

  lemma SharersAreMatched(norm: NameKey, P: seq<Cluster>, m: Mention, i: nat)
    requires i < |P| && i !in Matched(norm, P, m) && HasKind(P[i], m.kind)
    ensures Identifiers(P[i]) !! m.identifiers
  {
    ByIdentifierHas(P, m);
    assert i !in ByIdentifier(P, m);
  }

  /** A cluster with no identifier in common with the mention has none with what the turn joins. */
  lemma DisjointFromAbsorbed(P: seq<Cluster>, matched: seq<nat>, m: Mention, i: nat)
    requires InRange(matched, |P|) && IdentifiersDisjoint(P)
    requires i < |P| && i !in matched && HasKind(P[i], m.kind) && Identifiers(P[i]) !! m.identifiers
    requires forall k :: k in matched ==> HasKind(P[k], m.kind)
    ensures Identifiers(P[i]) !! Identifiers(Absorbed(P, matched, m))
  {
    forall x | x in Identifiers(P[i]) ensures x !in Identifiers(Absorbed(P, matched, m)) {
      GatherIdentifiers(P, matched, m, x);
      forall k | k in matched ensures x !in Identifiers(P[k]) {
        assert P[i][0].kind == P[k][0].kind;
      }
    }
  }

  lemma UnmatchedIsDisjoint(norm: NameKey, P: seq<Cluster>, m: Mention, i: nat)
    requires IdentifiersDisjoint(P) && m.Keys(norm) != {} && InRange(Matched(norm, P, m), |P|)
    requires i < |P| && i !in Matched(norm, P, m) && HasKind(P[i], m.kind)
    ensures Identifiers(P[i]) !! Identifiers(Absorbed(P, Matched(norm, P, m), m))
  {
    MatchedInRange(norm, P, m);
    SharersAreMatched(norm, P, m, i);
    DisjointFromAbsorbed(P, Matched(norm, P, m), m, i);
  }

  lemma TurnKeepsDisjoint(norm: NameKey, P: seq<Cluster>, ms: seq<Mention>, m: Mention)
    requires Homogeneous(norm, P, ms) && IdentifiersDisjoint(P)
    ensures IdentifiersDisjoint(Turn(norm, P, m))
  {
    if m.Keys(norm) != {} {
      var src, at := TurnRearranges(norm, P, m);
      var Q := Turn(norm, P, m);
      TurnKeepsHomogeneous(norm, P, ms, m);
      assert m in Q[at];
      assert UniformCluster(norm, Q[at], ms + [m]);
      forall i, j | 0 <= i < |Q| && 0 <= j < |Q| && i != j && Q[i] != [] && Q[j] != [] && Q[i][0].kind == Q[j][0].kind
        ensures Identifiers(Q[i]) !! Identifiers(Q[j])
      {
        if i == at {
          UnmatchedIsDisjoint(norm, P, m, src[j]);
        } else if j == at {
          UnmatchedIsDisjoint(norm, P, m, src[i]);
        } else {
          assert src[i] != src[j];
        }
      }
    }
  }

  // -------------------------------------------------------------------------
  // Chains of shared identifiers.
  // -------------------------------------------------------------------------

  /** A named mention of `ms` that carries identifiers. */
  predicate Identified(norm: NameKey, ms: seq<Mention>, x: Mention) {
    x in ms && x.Keys(norm) != {} && x.identifiers != {}
  }

  predicate Adjacent(a: Mention, b: Mention) {
    a.kind == b.kind && !(a.identifiers !! b.identifiers)
  }

  predicate IsChain(norm: NameKey, ms: seq<Mention>, p: seq<Mention>) {
    && p != [] && (forall i :: 0 <= i < |p| ==> Identified(norm, ms, p[i]))
    && forall i :: 0 < i < |p| ==> Adjacent(p[i - 1], p[i])
  }

  predicate ChainBetween(norm: NameKey, ms: seq<Mention>, p: seq<Mention>, a: Mention, b: Mention) {
    IsChain(norm, ms, p) && p[0] == a && p[|p| - 1] == b
  }

  /** A chain of same-kind mentions, neighbours sharing an identifier, leads from `a` to `b`. */
  ghost predicate Linked(norm: NameKey, ms: seq<Mention>, a: Mention, b: Mention) {
    exists p :: ChainBetween(norm, ms, p, a, b)
  }

  lemma LinkedReflexive(norm: NameKey, ms: seq<Mention>, a: Mention)
    requires Identified(norm, ms, a)
    ensures Linked(norm, ms, a, a)
  {
    assert ChainBetween(norm, ms, [a], a, a);
  }

  lemma LinkedSymmetric(norm: NameKey, ms: seq<Mention>, a: Mention, b: Mention)
    requires Linked(norm, ms, a, b)
    ensures Linked(norm, ms, b, a)
  {
    var p :| ChainBetween(norm, ms, p, a, b);
    var r := seq(|p|, i requires 0 <= i < |p| => p[|p| - 1 - i]);
    forall i | 0 < i < |r| ensures Adjacent(r[i - 1], r[i]) {
      assert Adjacent(p[|p| - 1 - i], p[|p| - i]);
    }
    assert ChainBetween(norm, ms, r, b, a);
  }

  lemma LinkedTransitive(norm: NameKey, ms: seq<Mention>, a: Mention, b: Mention, c: Mention)
    requires Linked(norm, ms, a, b) && Linked(norm, ms, b, c)
    ensures Linked(norm, ms, a, c)
  {
    var p :| ChainBetween(norm, ms, p, a, b);
    var q :| ChainBetween(norm, ms, q, b, c);
    var r := p + q[1..];
    forall i | 0 < i < |r| ensures Adjacent(r[i - 1], r[i]) {
      if i >= |p| {
        assert Adjacent(q[i - |p|], q[i - |p| + 1]);
      }
    }
    assert ChainBetween(norm, ms, r, a, c);
  }

  lemma LinkedAdjacent(norm: NameKey, ms: seq<Mention>, a: Mention, b: Mention)
    requires Identified(norm, ms, a) && Identified(norm, ms, b) && Adjacent(a, b)
    ensures Linked(norm, ms, a, b)
  {
    assert ChainBetween(norm, ms, [a, b], a, b);
  }

  lemma LinkedMonotone(norm: NameKey, ms: seq<Mention>, more: seq<Mention>, a: Mention, b: Mention)
    requires Linked(norm, ms, a, b) && forall x :: x in ms ==> x in more
    ensures Linked(norm, more, a, b)
  {
    var p :| ChainBetween(norm, ms, p, a, b);
    forall i | 0 <= i < |p| ensures Identified(norm, more, p[i]) {
      assert Identified(norm, ms, p[i]);
    }
    assert ChainBetween(norm, more, p, a, b);
  }

  /** Identified mentions of one cluster are linked: nothing but identifiers joins them. */
  ghost predicate Cohesive(norm: NameKey, ms: seq<Mention>, c: Cluster) {
    forall a, b :: a in c && b in c && a.identifiers != {} && b.identifiers != {} ==> Linked(norm, ms, a, b)
  }

  lemma {:induction false} BareMentionSharesNoIdentifier(P: seq<Cluster>, m: Mention)
    requires m.identifiers == {}
    ensures ByIdentifier(P, m) == []
  {
    if P != [] {
      BareMentionSharesNoIdentifier(P[..|P| - 1], m);
    }
  }

  lemma SameIfShort<T>(s: seq<T>, x: T, y: T)
    requires |s| <= 1 && x in s && y in s
    ensures x == y
  {}

  lemma OneIdentifiedMatch(norm: NameKey, P: seq<Cluster>, m: Mention, i: nat, k: nat)
    requires m.identifiers == {} && i in Matched(norm, P, m) && k in Matched(norm, P, m)
    requires i < |P| && k < |P| && Identifiers(P[i]) != {} && Identifiers(P[k]) != {}
    ensures i == k
  {
    BareMentionSharesNoIdentifier(P, m);
    CarryingHas(P, ByName(norm, P, m), true);
    SameIfShort(Carrying(P, ByName(norm, P, m), true), i, k);
  }

  lemma IdentifiedMatchShares(norm: NameKey, P: seq<Cluster>, m: Mention, i: nat)
    requires m.identifiers != {} && i in Matched(norm, P, m) && i < |P| && Identifiers(P[i]) != {}
    ensures SharesIdentifier(P[i], m)
  {
    ByIdentifierHas(P, m);
    ByNameHas(norm, P, m);
    CarryingHas(P, ByName(norm, P, m), false);
    assert i in ByIdentifier(P, m);
  }

  lemma LinkedToMention(norm: NameKey, P: seq<Cluster>, ms: seq<Mention>, m: Mention, i: nat, a: Mention)
    requires Homogeneous(norm, P, ms) && i < |P| && Cohesive(norm, ms, P[i]) && a in P[i]
    requires SharesIdentifier(P[i], m) && m.Keys(norm) != {} && a.identifiers != {}
    ensures Linked(norm, ms + [m], a, m)
  {
    var x :| x in Identifiers(P[i]) && x in m.identifiers;
    var y :| y in P[i] && x in y.identifiers;
    assert UniformCluster(norm, P[i], ms);
    LinkedMonotone(norm, ms, ms + [m], a, y);
    LinkedAdjacent(norm, ms + [m], y, m);
    LinkedTransitive(norm, ms + [m], a, y, m);
  }

  lemma AbsorbedLinksToMention(norm: NameKey, P: seq<Cluster>, ms: seq<Mention>, m: Mention, a: Mention)
    requires Homogeneous(norm, P, ms) && m.Keys(norm) != {} && m.identifiers != {}
    requires InRange(Matched(norm, P, m), |P|) && forall i :: 0 <= i < |P| ==> Cohesive(norm, ms, P[i])
    requires a in Absorbed(P, Matched(norm, P, m), m) && a.identifiers != {}
    ensures Linked(norm, ms + [m], a, m)
  {
    var matched := Matched(norm, P, m);
    if a == m {
      LinkedReflexive(norm, ms + [m], m);
    } else {
      InGather(P, matched, a);
      var i :| i in matched && a in P[i];
      assert exists x :: x in a.identifiers;
      assert Identifiers(P[i]) != {};
      IdentifiedMatchShares(norm, P, m, i);
      LinkedToMention(norm, P, ms, m, i, a);
    }
  }

  lemma AbsorbedIsCohesive(norm: NameKey, P: seq<Cluster>, ms: seq<Mention>, m: Mention)
    requires Homogeneous(norm, P, ms) && m.Keys(norm) != {} && InRange(Matched(norm, P, m), |P|)
    requires forall i :: 0 <= i < |P| ==> Cohesive(norm, ms, P[i])
    ensures Cohesive(norm, ms + [m], Absorbed(P, Matched(norm, P, m), m))
  {
    var matched := Matched(norm, P, m);
    var c := Absorbed(P, matched, m);
    forall a, b | a in c && b in c && a.identifiers != {} && b.identifiers != {}
      ensures Linked(norm, ms + [m], a, b)
    {
      if m.identifiers != {} {
        AbsorbedLinksToMention(norm, P, ms, m, a);
        AbsorbedLinksToMention(norm, P, ms, m, b);
        LinkedSymmetric(norm, ms + [m], b, m);
        LinkedTransitive(norm, ms + [m], a, m, b);
      } else {
        InGather(P, matched, a);
        InGather(P, matched, b);
        var i :| i in matched && a in P[i];
        var k :| k in matched && b in P[k];
        assert (exists x :: x in a.identifiers) && (exists x :: x in b.identifiers);
        assert Identifiers(P[i]) != {} && Identifiers(P[k]) != {};
        OneIdentifiedMatch(norm, P, m, i, k);
        LinkedMonotone(norm, ms, ms + [m], a, b);
      }
    }
  }

  lemma TurnKeepsCohesive(norm: NameKey, P: seq<Cluster>, ms: seq<Mention>, m: Mention)
    requires Homogeneous(norm, P, ms) && forall i :: 0 <= i < |P| ==> Cohesive(norm, ms, P[i])
    ensures forall j :: 0 <= j < |Turn(norm, P, m)| ==> Cohesive(norm, ms + [m], Turn(norm, P, m)[j])
  {
    forall c, a, b | c in P && a in c && b in c && a.identifiers != {} && b.identifiers != {}
      ensures Linked(norm, ms + [m], a, b)
    {
      var i :| 0 <= i < |P| && P[i] == c;
      assert Cohesive(norm, ms, P[i]);
      LinkedMonotone(norm, ms, ms + [m], a, b);
    }
    if m.Keys(norm) != {} {
      var src, at := TurnRearranges(norm, P, m);
      AbsorbedIsCohesive(norm, P, ms, m);
      forall j | 0 <= j < |Turn(norm, P, m)| ensures Cohesive(norm, ms + [m], Turn(norm, P, m)[j]) {
        if j != at {
          assert P[src[j]] in P;
        }
      }
    }
  }

  // -------------------------------------------------------------------------
  // No mention is lost or duplicated.
  // -------------------------------------------------------------------------

  /** The mentions of the clusters below `n` whose positions are in `pick`. */
  function Held(P: seq<Cluster>, n: nat, pick: set<nat>): multiset<Mention>
    requires n <= |P|
  {
    if n == 0 then multiset{}
    else Held(P, n - 1, pick) + if n - 1 in pick then multiset(P[n - 1]) else multiset{}
  }

  /** All mentions of all clusters. */
  function All(P: seq<Cluster>): multiset<Mention> {
    if P == [] then multiset{} else All(P[..|P| - 1]) + multiset(P[|P| - 1])
  }

  function Below(n: nat): (r: set<nat>)
    ensures forall i: nat :: i in r <==> i < n
  {
    if n == 0 then {} else Below(n - 1) + {n - 1}
  }

  lemma {:induction false} HeldSplits(P: seq<Cluster>, n: nat, a: set<nat>, b: set<nat>)
    requires n <= |P| && a !! b
    ensures Held(P, n, a + b) == Held(P, n, a) + Held(P, n, b)
  {
    if n > 0 {
      HeldSplits(P, n - 1, a, b);
    }
  }

  lemma {:induction false} HeldAgrees(P: seq<Cluster>, Q: seq<Cluster>, n: nat, a: set<nat>, b: set<nat>)
    requires n <= |P| && n <= |Q|
    requires forall i: nat :: i < n ==> (i in a <==> i in b) && (i in a ==> P[i] == Q[i])
    ensures Held(P, n, a) == Held(Q, n, b)
  {
    if n > 0 {
      HeldAgrees(P, Q, n - 1, a, b);
    }
  }

  lemma {:induction false} HeldOne(P: seq<Cluster>, n: nat, i: nat)
    requires n <= |P|
    ensures Held(P, n, {i}) == if i < n then multiset(P[i]) else multiset{}
  {
    if n > 0 {
      HeldOne(P, n - 1, i);
    }
  }

  lemma {:induction false} HeldGathered(P: seq<Cluster>, idx: seq<nat>)
    requires InRange(idx, |P|) && NoDuplicates(idx)
    ensures Held(P, |P|, Range(idx)) == multiset(Gather(P, idx))
  {
    if idx == [] {
      HeldNone(P, |P|);
      assert Range(idx) == {};
    } else {
      var n := |idx| - 1;
      HeldGathered(P, idx[..n]);
      HeldOne(P, |P|, idx[n]);
      HeldSplits(P, |P|, Range(idx[..n]), {idx[n]});
      assert idx == idx[..n] + [idx[n]];
      assert Range(idx) == Range(idx[..n]) + {idx[n]};
    }
  }

  lemma {:induction false} HeldNone(P: seq<Cluster>, n: nat)
    requires n <= |P|
    ensures Held(P, n, {}) == multiset{}
  {
    if n > 0 {
      HeldNone(P, n - 1);
    }
  }

  lemma {:induction false} HeldAll(P: seq<Cluster>)
    ensures All(P) == Held(P, |P|, Below(|P|))
  {
    if P != [] {
      var n := |P| - 1;
      HeldAll(P[..n]);
      HeldAgrees(P[..n], P, n, Below(n), Below(n + 1));
    }
  }

  lemma {:induction false} AllSelected(P: seq<Cluster>, idx: seq<nat>)
    requires InRange(idx, |P|)
    ensures All(Select(P, idx)) == multiset(Gather(P, idx))
  {
    if idx != [] {
      var n := |idx| - 1;
      AllSelected(P, idx[..n]);
      assert Select(P, idx)[..n] == Select(P, idx[..n]);
    }
  }

  lemma AllWithout(P: seq<Cluster>, drop: set<nat>)
    ensures All(Without(P, drop)) == Held(P, |P|, Below(|P|) - drop)
  {
    var kept := Kept(|P|, drop);
    KeptHas(|P|, drop);
    AllSelected(P, kept);
    HeldGathered(P, kept);
    assert Range(kept) == Below(|P|) - drop;
  }

  lemma RangeOfTail(matched: seq<nat>, n: nat)
    requires InRange(matched, n) && NoDuplicates(matched) && matched != []
    ensures Below(n) - Range(matched[1..]) == {matched[0]} + (Below(n) - Range(matched))
  {
    var head, drop := matched[0], Range(matched[1..]);
    assert matched == [head] + matched[1..];
    assert Range(matched) == {head} + drop;
    assert head !in drop;
  }

  /** Replacing the head by what it absorbs and dropping the others keeps what they held. */
  lemma AbsorbConserves(P: seq<Cluster>, matched: seq<nat>, c: Cluster)
    requires InRange(matched, |P|) && NoDuplicates(matched) && matched != []
    ensures All(Without(P[matched[0] := c], Range(matched[1..])))
         == multiset(c) + Held(P, |P|, Below(|P|) - Range(matched))
  {
    var head, n := matched[0], |P|;
    var U, rest := P[head := c], Below(n) - Range(matched);
    RangeOfTail(matched, n);
    AllWithout(U, Range(matched[1..]));
    assert head in Range(matched);
    HeldSplits(U, n, {head}, rest);
    HeldOne(U, n, head);
    HeldAgrees(U, P, n, rest, rest);
  }

  lemma JoinConserves(P: seq<Cluster>, matched: seq<nat>, m: Mention)
    requires InRange(matched, |P|) && NoDuplicates(matched)
    ensures All(Join(P, matched, m)) == All(P) + multiset{m}
  {
    if matched != [] {
      var rest := Below(|P|) - Range(matched);
      AbsorbConserves(P, matched, Absorbed(P, matched, m));
      HeldGathered(P, matched);
      HeldAll(P);
      assert Below(|P|) == Range(matched) + rest;
      HeldSplits(P, |P|, Range(matched), rest);
    }
  }

  /** The mentions the loop keeps: those with a non-empty normalized name or alias. */
  function Named(norm: NameKey, ms: seq<Mention>): seq<Mention> {
    if ms == [] then []
    else Named(norm, ms[..|ms| - 1]) + if ms[|ms| - 1].Keys(norm) == {} then [] else [ms[|ms| - 1]]
  }

  /** Every named mention ends in exactly one group, as often as it was mentioned. */
  lemma {:induction false} GroupingConservesMentions(norm: NameKey, ms: seq<Mention>)
    ensures All(Grouped(norm, ms)) == multiset(Named(norm, ms))
  {
    if ms != [] {
      var front, m := ms[..|ms| - 1], ms[|ms| - 1];
      var P := Grouped(norm, front);
      GroupingConservesMentions(norm, front);
      if m.Keys(norm) != {} {
        MatchedInRange(norm, P, m);
        JoinConserves(P, Matched(norm, P, m), m);
      }
    }
  }

  // -------------------------------------------------------------------------
  // The main results.
  // -------------------------------------------------------------------------

  lemma {:induction false} GroupsAreHomogeneous(norm: NameKey, ms: seq<Mention>)
    ensures Homogeneous(norm, Grouped(norm, ms), ms)
  {
    if ms != [] {
      var front, m := ms[..|ms| - 1], ms[|ms| - 1];
      assert ms == front + [m];
      GroupsAreHomogeneous(norm, front);
      TurnKeepsHomogeneous(norm, Grouped(norm, front), front, m);
    }
  }

  /** Groups of one kind always have pairwise disjoint identifier sets. */
  lemma {:induction false} GroupIdentifiersAreDisjoint(norm: NameKey, ms: seq<Mention>)
    ensures IdentifiersDisjoint(Grouped(norm, ms))
  {
    if ms != [] {
      var front, m := ms[..|ms| - 1], ms[|ms| - 1];
      GroupsAreHomogeneous(norm, front);
      GroupIdentifiersAreDisjoint(norm, front);
      TurnKeepsDisjoint(norm, Grouped(norm, front), front, m);
    }
  }

  lemma {:induction false} GroupsAreCohesive(norm: NameKey, ms: seq<Mention>)
    ensures forall i :: 0 <= i < |Grouped(norm, ms)| ==> Cohesive(norm, ms, Grouped(norm, ms)[i])
  {
    if ms != [] {
      var front, m := ms[..|ms| - 1], ms[|ms| - 1];
      assert ms == front + [m];
      GroupsAreHomogeneous(norm, front);
      GroupsAreCohesive(norm, front);
      TurnKeepsCohesive(norm, Grouped(norm, front), front, m);
    }
  }

  lemma GroupingInvariant(norm: NameKey, ms: seq<Mention>)
    ensures Homogeneous(norm, Grouped(norm, ms), ms)
    ensures IdentifiersDisjoint(Grouped(norm, ms))
    ensures forall i :: 0 <= i < |Grouped(norm, ms)| ==> Cohesive(norm, ms, Grouped(norm, ms)[i])
  {
    GroupsAreHomogeneous(norm, ms);
    GroupIdentifiersAreDisjoint(norm, ms);
    GroupsAreCohesive(norm, ms);
  }

  lemma {:induction false} InAll(P: seq<Cluster>, x: Mention) returns (i: nat)
    requires x in All(P)
    ensures i < |P| && x in P[i]
  {
    if x in P[|P| - 1] {
      i := |P| - 1;
    } else {
      i := InAll(P[..|P| - 1], x);
    }
  }

  lemma {:induction false} NamedHas(norm: NameKey, ms: seq<Mention>, x: Mention)
    ensures x in Named(norm, ms) <==> x in ms && x.Keys(norm) != {}
  {
    if ms != [] {
      NamedHas(norm, ms[..|ms| - 1], x);
      assert ms == ms[..|ms| - 1] + [ms[|ms| - 1]];
    }
  }

  /** Every named mention is in some group. */
  lemma MentionHasGroup(norm: NameKey, ms: seq<Mention>, x: Mention) returns (i: nat)
    requires x in ms && x.Keys(norm) != {}
    ensures i < |Grouped(norm, ms)| && x in Grouped(norm, ms)[i]
  {
    GroupingConservesMentions(norm, ms);
    NamedHas(norm, ms, x);
    assert x in multiset(Named(norm, ms));
    i := InAll(Grouped(norm, ms), x);
  }

  predicate Together(P: seq<Cluster>, a: Mention, b: Mention) {
    exists i :: 0 <= i < |P| && a in P[i] && b in P[i]
  }

  lemma AdjacentAreTogether(norm: NameKey, ms: seq<Mention>, a: Mention, b: Mention, i: nat)
    requires Identified(norm, ms, a) && Identified(norm, ms, b) && Adjacent(a, b)
    requires i < |Grouped(norm, ms)| && a in Grouped(norm, ms)[i]
    ensures b in Grouped(norm, ms)[i]
  {
    var P := Grouped(norm, ms);
    var j := MentionHasGroup(norm, ms, b);
    GroupingInvariant(norm, ms);
    assert UniformCluster(norm, P[i], ms) && UniformCluster(norm, P[j], ms);
    var x :| x in a.identifiers && x in b.identifiers;
    assert x in Identifiers(P[i]) && x in Identifiers(P[j]);
  }

  lemma {:induction false} ChainIsTogether(norm: NameKey, ms: seq<Mention>, p: seq<Mention>, i: nat)
    requires IsChain(norm, ms, p) && i < |Grouped(norm, ms)| && p[0] in Grouped(norm, ms)[i]
    ensures p[|p| - 1] in Grouped(norm, ms)[i]
  {
    if |p| > 1 {
      ChainIsTogether(norm, ms, p[..|p| - 1], i);
      AdjacentAreTogether(norm, ms, p[|p| - 2], p[|p| - 1], i);
    }
  }

  /**
    Two identified mentions end in one group exactly when a chain of same-kind mentions with
    shared identifiers links them; names, aliases and bare mentions never join two of them.
   */
  lemma TogetherExactlyWhenLinked(norm: NameKey, ms: seq<Mention>, a: Mention, b: Mention)
    requires Identified(norm, ms, a) && Identified(norm, ms, b)
    ensures Together(Grouped(norm, ms), a, b) <==> Linked(norm, ms, a, b)
  {
    var P := Grouped(norm, ms);
    GroupingInvariant(norm, ms);
    if Together(P, a, b) {
      var i :| 0 <= i < |P| && a in P[i] && b in P[i];
      assert Cohesive(norm, ms, P[i]);
    }
    if Linked(norm, ms, a, b) {
      var p :| ChainBetween(norm, ms, p, a, b);
      var i := MentionHasGroup(norm, ms, a);
      ChainIsTogether(norm, ms, p, i);
    }
  }

  lemma SameIdentifiersIncluded(norm: NameKey, ms: seq<Mention>, ns: seq<Mention>, i: nat, j: nat, a: Mention)
    requires forall x :: x in ms <==> x in ns
    requires i < |Grouped(norm, ms)| && a in Grouped(norm, ms)[i] && a.identifiers != {}
    requires j < |Grouped(norm, ns)| && a in Grouped(norm, ns)[j]
    ensures Identifiers(Grouped(norm, ms)[i]) <= Identifiers(Grouped(norm, ns)[j])
  {
    var P, Q := Grouped(norm, ms), Grouped(norm, ns);
    GroupingInvariant(norm, ms);
    assert UniformCluster(norm, P[i], ms) && Cohesive(norm, ms, P[i]);
    forall x | x in Identifiers(P[i]) ensures x in Identifiers(Q[j]) {
      var b: Mention :| b in P[i] && x in b.identifiers;
      LinkedMonotone(norm, ms, ns, a, b);
      var p :| ChainBetween(norm, ns, p, a, b);
      ChainIsTogether(norm, ns, p, j);
    }
  }

  /**
    The identified groups do not depend on the order of the mentions: each of them reappears with
    its kind and its exact identifier set whatever order (or repetition) the mentions come in.
   */
  lemma IdentifiedGroupsIgnoreOrder(norm: NameKey, ms: seq<Mention>, ns: seq<Mention>, i: nat) returns (j: nat)
    requires forall x :: x in ms <==> x in ns
    requires i < |Grouped(norm, ms)| && Identifiers(Grouped(norm, ms)[i]) != {}
    ensures j < |Grouped(norm, ns)| && Grouped(norm, ms)[i] != [] && Grouped(norm, ns)[j] != []
    ensures Grouped(norm, ns)[j][0].kind == Grouped(norm, ms)[i][0].kind
    ensures Identifiers(Grouped(norm, ns)[j]) == Identifiers(Grouped(norm, ms)[i])
  {
    var P, Q := Grouped(norm, ms), Grouped(norm, ns);
    GroupingInvariant(norm, ms);
    GroupingInvariant(norm, ns);
    var x :| x in Identifiers(P[i]);
    var a: Mention :| a in P[i] && x in a.identifiers;
    assert UniformCluster(norm, P[i], ms);
    j := MentionHasGroup(norm, ns, a);
    assert UniformCluster(norm, Q[j], ns);
    SameIdentifiersIncluded(norm, ms, ns, i, j, a);
    SameIdentifiersIncluded(norm, ns, ms, j, i, a);
  }

  /** A group's keys are exactly the non-empty normal forms of its names. */
  lemma {:induction false} KeysAreNormalizedNames(norm: NameKey, c: Cluster, kind: EntityKind)
    requires forall x :: x in c ==> x.kind == kind
    ensures Keys(norm, c) == (set v | v in Names(c) :: norm(v, kind)) - {""}
  {
    if c != [] {
      var front, m := c[..|c| - 1], c[|c| - 1];
      KeysAreNormalizedNames(norm, front, kind);
      assert c == front + [m];
      assert Keys(norm, c) == Keys(norm, front) + m.Keys(norm);
      assert (set v | v in Names(c) :: norm(v, kind)) ==
        (set v | v in Names(front) :: norm(v, kind)) + (set v | v in m.Names() :: norm(v, kind));
    }
  }
}
