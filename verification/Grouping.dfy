/**
  The online grouping of mentions in `resolve_extraction` (`entity_resolution.py`).

  A cluster lists the mentions one group has taken in, in the order it took them. Every field of a
  group is a function of its cluster, so the partition of the mentions is the whole state.
 */
module Grouping {
  import opened Options
  import opened Ontology
  import opened Temporal

  datatype Mention = Mention(
    name: string,
    kind: EntityKind,
    aliases: seq<string>,
    identifiers: set<string>,
    occurredAt: Option<Instant>)
  {
    function Names(): seq<string> {
      [name] + aliases
    }

    function Keys(norm: NameKey): set<string> {
      (set v | v in Names() :: norm(v, kind)) - {""}
    }
  }

  type Cluster = seq<Mention>

  function Identifiers(c: Cluster): set<string> {
    set m, x | m in c && x in m.identifiers :: x
  }

  function Keys(norm: NameKey, c: Cluster): set<string> {
    set m, k | m in c && k in m.Keys(norm) :: k
  }

  function Names(c: Cluster): seq<string> {
    if c == [] then [] else Names(c[..|c| - 1]) + c[|c| - 1].Names()
  }

  /** The first known time of occurrence. */
  function Stamp(c: Cluster): Option<Instant> {
    if c == [] then None
    else if Stamp(c[..|c| - 1]).Some? then Stamp(c[..|c| - 1])
    else c[|c| - 1].occurredAt
  }

  // -------------------------------------------------------------------------
  // One turn of the grouping loop.
  // -------------------------------------------------------------------------

  predicate HasKind(c: Cluster, kind: EntityKind) {
    c != [] && c[0].kind == kind
  }

  predicate SharesIdentifier(c: Cluster, m: Mention) {
    HasKind(c, m.kind) && !(Identifiers(c) !! m.identifiers)
  }

  /** Same name, and not two identified sides: those are homonyms. */
  predicate SharesName(norm: NameKey, c: Cluster, m: Mention) {
    && HasKind(c, m.kind) && !(Keys(norm, c) !! m.Keys(norm)) && !SharesIdentifier(c, m)
    && (m.identifiers == {} || Identifiers(c) == {})
  }

  function ByIdentifier(P: seq<Cluster>, m: Mention): (r: seq<nat>)
    ensures InRange(r, |P|)
  {
    if P == [] then []
    else
      var n := |P| - 1;
      ByIdentifier(P[..n], m) + if SharesIdentifier(P[n], m) then [n] else []
  }

  function ByName(norm: NameKey, P: seq<Cluster>, m: Mention): (r: seq<nat>)
    ensures InRange(r, |P|)
  {
    if P == [] then []
    else
      var n := |P| - 1;
      ByName(norm, P[..n], m) + if SharesName(norm, P[n], m) then [n] else []
  }

  predicate NoDuplicates<T(==)>(s: seq<T>) {
    forall i, j :: 0 <= i < j < |s| ==> s[i] != s[j]
  }

  predicate InRange(s: seq<nat>, n: nat) {
    forall i :: 0 <= i < |s| ==> s[i] < n
  }

  /** The part of `idx` whose clusters carry identifiers (or carry none). */
  function Carrying(P: seq<Cluster>, idx: seq<nat>, identified: bool): (r: seq<nat>)
    requires InRange(idx, |P|)
    ensures InRange(r, |P|)
  {
    if idx == [] then []
    else
      var n := |idx| - 1;
      Carrying(P, idx[..n], identified) + if (Identifiers(P[idx[n]]) != {}) == identified then [idx[n]] else []
  }

  lemma {:induction false} ByIdentifierHas(P: seq<Cluster>, m: Mention)
    ensures forall i: nat :: i in ByIdentifier(P, m) <==> i < |P| && SharesIdentifier(P[i], m)
    ensures NoDuplicates(ByIdentifier(P, m))
  {
    if P != [] {
      ByIdentifierHas(P[..|P| - 1], m);
    }
  }

  lemma {:induction false} ByNameHas(norm: NameKey, P: seq<Cluster>, m: Mention)
    ensures forall i: nat :: i in ByName(norm, P, m) <==> i < |P| && SharesName(norm, P[i], m)
    ensures NoDuplicates(ByName(norm, P, m))
  {
    if P != [] {
      ByNameHas(norm, P[..|P| - 1], m);
    }
  }

  lemma {:induction false} CarryingHas(P: seq<Cluster>, idx: seq<nat>, identified: bool)
    requires InRange(idx, |P|)
    ensures forall i: nat :: i in Carrying(P, idx, identified) <==>
      i in idx && i < |P| && (Identifiers(P[i]) != {}) == identified
    ensures NoDuplicates(idx) ==> NoDuplicates(Carrying(P, idx, identified))
  {
    if idx != [] {
      CarryingHas(P, idx[..|idx| - 1], identified);
      assert idx == idx[..|idx| - 1] + [idx[|idx| - 1]];
    }
  }

  predicate Ambiguous(norm: NameKey, P: seq<Cluster>, m: Mention) {
    && ByIdentifier(P, m) == [] && m.identifiers == {}
    && |Carrying(P, ByName(norm, P, m), true)| > 1
  }

  /** The clusters a mention joins, the surviving one first. */
  function Matched(norm: NameKey, P: seq<Cluster>, m: Mention): seq<nat> {
    if ByIdentifier(P, m) != [] then ByIdentifier(P, m) + Carrying(P, ByName(norm, P, m), false)
    else if Ambiguous(norm, P, m) then []
    else ByName(norm, P, m)
  }

  function Gather(P: seq<Cluster>, idx: seq<nat>): Cluster
    requires InRange(idx, |P|)
  {
    if idx == [] then [] else Gather(P, idx[..|idx| - 1]) + P[idx[|idx| - 1]]
  }

  /** The positions below `n` that are not dropped. */
  function Kept(n: nat, drop: set<nat>): (r: seq<nat>)
    ensures InRange(r, n)
  {
    if n == 0 then [] else Kept(n - 1, drop) + if n - 1 in drop then [] else [n - 1]
  }

  lemma {:induction false} KeptHas(n: nat, drop: set<nat>)
    ensures forall i: nat :: i in Kept(n, drop) <==> i < n && i !in drop
    ensures NoDuplicates(Kept(n, drop))
  {
    if n > 0 {
      KeptHas(n - 1, drop);
    }
  }

  function Select<T>(s: seq<T>, idx: seq<nat>): (r: seq<T>)
    requires InRange(idx, |s|)
  {
    seq(|idx|, j requires 0 <= j < |idx| => s[idx[j]])
  }

  lemma SelectAppend<T>(s: seq<T>, a: seq<nat>, b: seq<nat>)
    requires InRange(a, |s|) && InRange(b, |s|)
    ensures InRange(a + b, |s|) && Select(s, a + b) == Select(s, a) + Select(s, b)
  {
  }

  function Without<T>(s: seq<T>, drop: set<nat>): seq<T> {
    Select(s, Kept(|s|, drop))
  }

  function Range(s: seq<nat>): set<nat> {
    set i | i in s
  }

  function Join(P: seq<Cluster>, matched: seq<nat>, m: Mention): seq<Cluster>
    requires InRange(matched, |P|)
  {
    if matched == [] then P + [[m]]
    else Without(P[matched[0] := Gather(P, matched) + [m]], Range(matched[1..]))
  }

  lemma MatchedInRange(norm: NameKey, P: seq<Cluster>, m: Mention)
    ensures InRange(Matched(norm, P, m), |P|) && NoDuplicates(Matched(norm, P, m))
    ensures forall i :: i in Matched(norm, P, m) ==> HasKind(P[i], m.kind)
  {
    ByIdentifierHas(P, m);
    ByNameHas(norm, P, m);
    CarryingHas(P, ByName(norm, P, m), false);
    NoDuplicatesAppend(ByIdentifier(P, m), Carrying(P, ByName(norm, P, m), false));
  }

  lemma NoDuplicatesAppend(s: seq<nat>, t: seq<nat>)
    requires NoDuplicates(s) && NoDuplicates(t) && forall i :: i in s ==> i !in t
    ensures NoDuplicates(s + t)
  {
    forall j, k | 0 <= j < k < |s + t| ensures (s + t)[j] != (s + t)[k] {
      if j < |s| <= k {
        assert s[j] in s && t[k - |s|] in t;
      }
    }
  }

  function Turn(norm: NameKey, P: seq<Cluster>, m: Mention): seq<Cluster> {
    if m.Keys(norm) == {} then P
    else
      MatchedInRange(norm, P, m);
      Join(P, Matched(norm, P, m), m)
  }

  /** The partition the loop has built after `ms`. */
  function Grouped(norm: NameKey, ms: seq<Mention>): seq<Cluster> {
    if ms == [] then [] else Turn(norm, Grouped(norm, ms[..|ms| - 1]), ms[|ms| - 1])
  }
}
