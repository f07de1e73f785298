/**
  Validity intervals of relations (`temporal.py`).

  An instant is a natural number and `EARLIEST` is the smallest one, so an interval with an
  unknown start sorts together with one that starts at the earliest instant.
 */
module Temporal {
  import opened Options
  import Sequences

  type Instant = nat

  const EARLIEST: Instant := 0

  datatype Interval = Interval(validFrom: Option<Instant>, validTo: Option<Instant>) {

    predicate Overlaps(other: Interval) {
      && (validFrom.None? || other.validTo.None? || validFrom.value <= other.validTo.value)
      && (other.validFrom.None? || validTo.None? || other.validFrom.value <= validTo.value)
    }

    /** The earliest known start and the latest known end: an explicit end beats an open one. */
    function Merge(other: Interval): Interval {
      Interval(Pick(validFrom, other.validFrom, true), Pick(validTo, other.validTo, false))
    }

    function SortKey(): Instant {
      if validFrom.Some? then validFrom.value else EARLIEST
    }

    predicate WellFormed() {
      validFrom.Some? && validTo.Some? ==> validFrom.value <= validTo.value
    }

    /** `inner` lies inside this interval, both bounds of both being known. */
    predicate Contains(inner: Interval) {
      && validFrom.Some? && validTo.Some? && inner.validFrom.Some? && inner.validTo.Some?
      && validFrom.value <= inner.validFrom.value && inner.validTo.value <= validTo.value
    }
  }

  /** The smaller or the larger of the known instants. */
  function Pick(a: Option<Instant>, b: Option<Instant>, smaller: bool): Option<Instant> {
    if a.None? then b
    else if b.None? then a
    else if (a.value <= b.value) == smaller then a
    else b
  }

  // -------------------------------------------------------------------------
  // `normalize`: a stable sort followed by a fold into the last interval.
  // -------------------------------------------------------------------------

  predicate Sorted(s: seq<Interval>) {
    forall i, j :: 0 <= i < j < |s| ==> s[i].SortKey() <= s[j].SortKey()
  }

  predicate AllWellFormed(s: seq<Interval>) {
    forall i :: 0 <= i < |s| ==> s[i].WellFormed()
  }

  function Insert(sorted: seq<Interval>, x: Interval): (r: seq<Interval>)
    ensures multiset(r) == multiset(sorted) + multiset{x}
  {
    if sorted == [] || sorted[|sorted| - 1].SortKey() <= x.SortKey() then
      sorted + [x]
    else
      Sequences.Unsnoc(sorted);
      Insert(sorted[..|sorted| - 1], x) + [sorted[|sorted| - 1]]
  }

  lemma {:induction false} InsertKeepsSorted(sorted: seq<Interval>, x: Interval, limit: Instant)
    requires Sorted(sorted) && x.SortKey() <= limit
    requires forall i :: 0 <= i < |sorted| ==> sorted[i].SortKey() <= limit
    ensures Sorted(Insert(sorted, x))
    ensures forall i :: 0 <= i < |Insert(sorted, x)| ==> Insert(sorted, x)[i].SortKey() <= limit
  {
    if sorted != [] && x.SortKey() < sorted[|sorted| - 1].SortKey() {
      InsertKeepsSorted(sorted[..|sorted| - 1], x, sorted[|sorted| - 1].SortKey());
    }
  }

  lemma InsertSorts(sorted: seq<Interval>, x: Interval)
    requires Sorted(sorted)
    ensures Sorted(Insert(sorted, x))
  {
    InsertKeepsSorted(sorted, x, if sorted == [] then x.SortKey() else sorted[|sorted| - 1].SortKey() + x.SortKey());
  }

  /** Python's stable `sorted(intervals, key=...)`. */
  function SortByStart(s: seq<Interval>): (r: seq<Interval>)
    ensures Sorted(r) && multiset(r) == multiset(s)
  {
    if s == [] then []
    else
      Sequences.Unsnoc(s);
      var front, x := SortByStart(s[..|s| - 1]), s[|s| - 1];
      InsertSorts(front, x);
      Insert(front, x)
  }

  function Step(result: seq<Interval>, x: Interval): seq<Interval> {
    if result != [] && result[|result| - 1].Overlaps(x) then
      result[|result| - 1 := result[|result| - 1].Merge(x)]
    else
      result + [x]
  }

  function Fold(result: seq<Interval>, rest: seq<Interval>): seq<Interval>
    decreases |rest|
  {
    if rest == [] then result else Fold(Step(result, rest[0]), rest[1..])
  }

  function Normalized(intervals: seq<Interval>): seq<Interval> {
    Fold([], SortByStart(intervals))
  }

  method Normalize(intervals: seq<Interval>) returns (result: seq<Interval>)
    ensures result == Normalized(intervals)
  {
    var sorted := SortByStart(intervals);
    result := [];
    for i := 0 to |sorted|
      invariant Fold(result, sorted[i..]) == Normalized(intervals)
    {
      assert sorted[i..][1..] == sorted[i + 1..];
      if result != [] && result[|result| - 1].Overlaps(sorted[i]) {
        result := result[|result| - 1 := result[|result| - 1].Merge(sorted[i])];
      } else {
        result := result + [sorted[i]];
      }
    }
  }

  // -------------------------------------------------------------------------
  // The order of the input does not matter.
  // -------------------------------------------------------------------------

  /** What the fold keeps about its result while intervals of sort key `key` or more remain. */
  predicate Foldable(result: seq<Interval>, key: Instant) {
    result != [] ==>
      var last := result[|result| - 1];
      last.WellFormed() && last.SortKey() <= key
  }

  lemma StepKeepsFoldable(result: seq<Interval>, x: Interval, key: Instant)
    requires Foldable(result, x.SortKey()) && x.WellFormed() && x.SortKey() <= key
    ensures Foldable(Step(result, x), key)
  {}

  lemma TiesCommute(result: seq<Interval>, a: Interval, b: Interval)
    requires a.SortKey() == b.SortKey() && Foldable(result, a.SortKey())
    requires a.WellFormed() && b.WellFormed()
    ensures Step(Step(result, a), b) == Step(Step(result, b), a)
  {}

  lemma FoldCons(result: seq<Interval>, x: Interval, rest: seq<Interval>)
    ensures Fold(result, [x] + rest) == Fold(Step(result, x), rest)
  {
    assert ([x] + rest)[1..] == rest;
  }

  lemma {:induction false} FoldTieToFront(result: seq<Interval>, rest: seq<Interval>, j: nat)
    requires j < |rest| && Sorted(rest) && AllWellFormed(rest)
    requires rest[j].SortKey() == rest[0].SortKey() && Foldable(result, rest[0].SortKey())
    ensures Fold(result, rest) == Fold(Step(result, rest[j]), rest[..j] + rest[j + 1..])
    decreases j
  {
    var x, y, tail := rest[0], rest[j], rest[1..];
    assert rest == [x] + tail;
    FoldCons(result, x, tail);
    if j == 0 {
      assert rest[..j] + rest[j + 1..] == tail;
    } else {
      var others := tail[..j - 1] + tail[j..];
      FoldTieToFront(Step(result, x), tail, j - 1);
      TiesCommute(result, x, y);
      FoldCons(Step(result, y), x, others);
      WithoutLater(rest, j);
    }
  }

  lemma WithoutLater(s: seq<Interval>, j: nat)
    requires 0 < j < |s|
    ensures s[..j] + s[j + 1..] == [s[0]] + (s[1..][..j - 1] + s[1..][j..])
  {}

  lemma RemoveAt<T>(s: seq<T>, j: nat)
    requires j < |s|
    ensures multiset(s[..j] + s[j + 1..]) == multiset(s) - multiset{s[j]}
  {
    assert s == s[..j] + [s[j]] + s[j + 1..];
  }

  lemma SortedWithout(s: seq<Interval>, j: nat)
    requires j < |s| && Sorted(s)
    ensures Sorted(s[..j] + s[j + 1..])
  {
    var r := s[..j] + s[j + 1..];
    forall a, b | 0 <= a < b < |r| ensures r[a].SortKey() <= r[b].SortKey() {
      assert r[a] == s[if a < j then a else a + 1] && r[b] == s[if b < j then b else b + 1];
    }
  }

  /** The position in `t` of the first element of a permutation of `t`. */
  lemma FindFirst(s: seq<Interval>, t: seq<Interval>) returns (j: nat)
    requires s != [] && Sorted(s) && Sorted(t) && multiset(s) == multiset(t) && AllWellFormed(s)
    ensures j < |t| && t[j] == s[0] && t[0].SortKey() == s[0].SortKey() && AllWellFormed(t)
    ensures |s| == |t|
  {
    assert |s| == |multiset(s)| == |multiset(t)| == |t|;
    forall i | 0 <= i < |t| ensures t[i].WellFormed() && s[0].SortKey() <= t[i].SortKey() {
      assert t[i] in multiset(s);
    }
    assert s[0] in multiset(t);
    j :| 0 <= j < |t| && t[j] == s[0];
  }

  /** Dropping the first of `s`, and that same element from `t`, keeps a permutation. */
  lemma DropFirst<T>(s: seq<T>, t: seq<T>, j: nat)
    requires s != [] && multiset(s) == multiset(t) && j < |t| && t[j] == s[0]
    ensures multiset(s[1..]) == multiset(t[..j] + t[j + 1..])
  {
    RemoveAt(t, j);
    RemoveAt(s, 0);
    assert s[..0] + s[1..] == s[1..];
  }

  lemma {:induction false} FoldIgnoresTies(result: seq<Interval>, s: seq<Interval>, t: seq<Interval>)
    requires Sorted(s) && Sorted(t) && multiset(s) == multiset(t) && AllWellFormed(s)
    requires s != [] ==> Foldable(result, s[0].SortKey())
    ensures Fold(result, s) == Fold(result, t)
    decreases |s|
  {
    if s == [] {
      assert |multiset(t)| == 0;
    } else {
      var j := FindFirst(s, t);
      var rest := t[..j] + t[j + 1..];
      DropFirst(s, t, j);
      SortedWithout(t, j);
      if s[1..] != [] {
        StepKeepsFoldable(result, s[0], s[1].SortKey());
      }
      FoldIgnoresTies(Step(result, s[0]), s[1..], rest);
      FoldTieToFront(result, t, j);
    }
  }

  lemma SortKeepsWellFormed(intervals: seq<Interval>)
    requires AllWellFormed(intervals)
    ensures AllWellFormed(SortByStart(intervals))
  {
    var s := SortByStart(intervals);
    forall i | 0 <= i < |s| ensures s[i].WellFormed() {
      assert s[i] in multiset(intervals);
    }
  }

  /** Any two orderings of the same well-formed intervals normalize to the same list. */
  lemma NormalizedIgnoresOrder(a: seq<Interval>, b: seq<Interval>)
    requires multiset(a) == multiset(b) && AllWellFormed(a)
    ensures Normalized(a) == Normalized(b)
  {
    SortKeepsWellFormed(a);
    FoldIgnoresTies([], SortByStart(a), SortByStart(b));
  }

  /** An interval that ends before it starts does not even overlap another one with its own start. */
  lemma IllFormedStaysApart(x: Interval, y: Interval)
    requires !x.WellFormed() && x.SortKey() == y.SortKey()
    ensures Normalized([x, y]) == [x, y] && Normalized([y, x]) == [y, x]
  {
    NormalizeTwo(x, y);
    NormalizeTwo(y, x);
  }

  /** Sorting forgets the order of two intervals that start at different times. */
  lemma SortTwo(x: Interval, y: Interval)
    requires x.SortKey() < y.SortKey()
    ensures SortByStart([y, x]) == SortByStart([x, y])
  {
    SortedPair(SortByStart([x, y]), x, y);
    SortedPair(SortByStart([y, x]), x, y);
  }

  lemma SortedPair(r: seq<Interval>, x: Interval, y: Interval)
    requires Sorted(r) && multiset(r) == multiset{x, y} && x.SortKey() < y.SortKey()
    ensures r == [x, y]
  {
    assert |r| == |multiset(r)| == 2;
    assert r[0] in multiset(r) && r[1] in multiset(r);
    assert r == [r[0]] + [r[1]];
    assert multiset(r)[x] == 1 && multiset(r)[y] == 1;
  }

  /**
    Well-formedness is needed: two intervals normalize alike in both orders exactly when they are the
    same, start at different times, or both end no earlier than they start.
   */
  lemma PairOrderMattersExactlyWhen(x: Interval, y: Interval)
    ensures Normalized([x, y]) == Normalized([y, x]) <==>
      x == y || x.SortKey() != y.SortKey() || (x.WellFormed() && y.WellFormed())
  {
    if x.SortKey() != y.SortKey() {
      if x.SortKey() < y.SortKey() {
        SortTwo(x, y);
      } else {
        SortTwo(y, x);
      }
    } else if x.WellFormed() && y.WellFormed() {
      NormalizedIgnoresOrder([x, y], [y, x]);
    } else {
      if !x.WellFormed() {
        IllFormedStaysApart(x, y);
      } else {
        IllFormedStaysApart(y, x);
      }
      assert [x, y][0] == x && [y, x][0] == y;
    }
  }

  lemma NormalizeTwo(x: Interval, y: Interval)
    requires x.SortKey() <= y.SortKey() && !x.Overlaps(y)
    ensures Normalized([x, y]) == [x, y]
  {
    assert SortByStart([x, y]) == [x, y] by {
      SortKeepsSorted([x, y]);
    }
    assert Fold([], [x, y]) == [x, y] by {
      assert [x, y] == [x] + [y] && [y] == [y] + [];
      FoldCons([], x, [y]);
      FoldCons([x], y, []);
    }
  }

  // -------------------------------------------------------------------------
  // What the resulting periods are.
  // -------------------------------------------------------------------------

  /** `bound` is the earliest (latest) of the known instants of `bounds`, unknown if none is. */
  predicate IsExtreme(bound: Option<Instant>, bounds: seq<Option<Instant>>, smallest: bool) {
    match bound
    case None => forall b | b in bounds :: b.None?
    case Some(v) =>
      && bound in bounds
      && forall b | b in bounds && b.Some? :: if smallest then v <= b.value else b.value <= v
  }

  function Starts(s: seq<Interval>): seq<Option<Instant>> {
    seq(|s|, i requires 0 <= i < |s| => s[i].validFrom)
  }

  function Ends(s: seq<Interval>): seq<Option<Instant>> {
    seq(|s|, i requires 0 <= i < |s| => s[i].validTo)
  }

  /** One output period stands for a block of inputs: earliest known start, latest known end. */
  predicate IsHull(hull: Interval, block: seq<Interval>) {
    block != [] && IsExtreme(hull.validFrom, Starts(block), true) && IsExtreme(hull.validTo, Ends(block), false)
  }

  predicate Hulls(result: seq<Interval>, blocks: seq<seq<Interval>>) {
    |result| == |blocks| && forall k :: 0 <= k < |result| ==> IsHull(result[k], blocks[k])
  }

  function Flatten<T>(blocks: seq<seq<T>>): seq<T> {
    if blocks == [] then [] else Flatten(blocks[..|blocks| - 1]) + blocks[|blocks| - 1]
  }

  lemma ExtendHull(hull: Interval, block: seq<Interval>, x: Interval)
    requires IsHull(hull, block)
    ensures IsHull(hull.Merge(x), block + [x])
  {
    assert Starts(block + [x]) == Starts(block) + [x.validFrom];
    assert Ends(block + [x]) == Ends(block) + [x.validTo];
    assert x.validFrom in Starts(block + [x]) && x.validTo in Ends(block + [x]);
  }

  lemma StepHulls(result: seq<Interval>, done: seq<seq<Interval>>, x: Interval) returns (next: seq<seq<Interval>>)
    requires Hulls(result, done)
    ensures Hulls(Step(result, x), next) && Flatten(next) == Flatten(done) + [x]
  {
    var n := |result|;
    if result != [] && result[n - 1].Overlaps(x) {
      ExtendHull(result[n - 1], done[n - 1], x);
      next := done[n - 1 := done[n - 1] + [x]];
      assert next[..n - 1] == done[..n - 1];
    } else {
      assert Starts([x]) == [x.validFrom] && Ends([x]) == [x.validTo];
      next := done + [[x]];
      assert next[..n] == done;
    }
  }

  lemma {:induction false} FoldHulls(result: seq<Interval>, done: seq<seq<Interval>>, rest: seq<Interval>)
      returns (blocks: seq<seq<Interval>>)
    requires Hulls(result, done)
    ensures Hulls(Fold(result, rest), blocks) && Flatten(blocks) == Flatten(done) + rest
    decreases |rest|
  {
    if rest == [] {
      blocks := done;
    } else {
      var next := StepHulls(result, done, rest[0]);
      blocks := FoldHulls(Step(result, rest[0]), next, rest[1..]);
      assert rest == [rest[0]] + rest[1..];
    }
  }

  /**
    The output cuts the sorted input into consecutive non-empty blocks, one block per period:
    nothing is dropped or used twice, and every bound of a period is a bound of its own block.
   */
  lemma NormalizedPartitionsInput(intervals: seq<Interval>) returns (blocks: seq<seq<Interval>>)
    ensures Hulls(Normalized(intervals), blocks)
    ensures Flatten(blocks) == SortByStart(intervals)
    ensures multiset(Flatten(blocks)) == multiset(intervals)
  {
    blocks := FoldHulls([], [], SortByStart(intervals));
    assert Flatten<Interval>([]) + SortByStart(intervals) == SortByStart(intervals);
  }

  /** Periods in time order, each ending before the next one starts. */
  predicate Separated(s: seq<Interval>) {
    && AllWellFormed(s)
    && forall i, j :: 0 <= i < j < |s| ==>
         s[i].validTo.Some? && s[j].validFrom.Some? && s[i].validTo.value < s[j].validFrom.value
  }

  lemma {:induction false} FoldSeparates(result: seq<Interval>, rest: seq<Interval>)
    requires Separated(result) && Sorted(rest) && AllWellFormed(rest)
    requires rest != [] ==> Foldable(result, rest[0].SortKey())
    ensures Separated(Fold(result, rest))
    decreases |rest|
  {
    if rest != [] {
      if |rest| > 1 {
        StepKeepsFoldable(result, rest[0], rest[1].SortKey());
      }
      FoldSeparates(Step(result, rest[0]), rest[1..]);
    }
  }

  /** The validity periods of one relation never overlap, and come out in time order. */
  lemma NormalizedSeparates(intervals: seq<Interval>)
    requires AllWellFormed(intervals)
    ensures Separated(Normalized(intervals))
    ensures forall i, j :: 0 <= i < j < |Normalized(intervals)| ==>
      !Normalized(intervals)[i].Overlaps(Normalized(intervals)[j])
  {
    SortKeepsWellFormed(intervals);
    assert Separated([]);
    FoldSeparates([], SortByStart(intervals));
  }

  lemma {:induction false} InFlatten<T>(blocks: seq<seq<T>>, x: T) returns (k: nat)
    requires x in Flatten(blocks)
    ensures k < |blocks| && x in blocks[k]
  {
    if x in blocks[|blocks| - 1] {
      k := |blocks| - 1;
    } else {
      k := InFlatten(blocks[..|blocks| - 1], x);
    }
  }

  /** A fully known input span lies inside exactly one output period. */
  lemma KnownSpanHasOnePeriod(intervals: seq<Interval>, x: Interval) returns (k: nat)
    requires AllWellFormed(intervals) && x in intervals && x.validFrom.Some? && x.validTo.Some?
    ensures k < |Normalized(intervals)| && Normalized(intervals)[k].Contains(x)
    ensures forall j :: 0 <= j < |Normalized(intervals)| && Normalized(intervals)[j].Contains(x) ==> j == k
  {
    var blocks := NormalizedPartitionsInput(intervals);
    assert x in Flatten(blocks) by {
      assert x in multiset(intervals);
    }
    k := InFlatten(blocks, x);
    HullContains(Normalized(intervals)[k], blocks[k], x);
    NormalizedSeparates(intervals);
    forall j | 0 <= j < |Normalized(intervals)| && Normalized(intervals)[j].Contains(x) ensures j == k {
      ContainedOnce(Normalized(intervals), j, k, x);
    }
  }

  lemma {:induction false} BlockInFlatten<T>(blocks: seq<seq<T>>, k: nat, x: T)
    requires k < |blocks| && x in blocks[k]
    ensures x in Flatten(blocks)
  {
    if k < |blocks| - 1 {
      BlockInFlatten(blocks[..|blocks| - 1], k, x);
    }
  }

  /** The interval is an input and has the bound, as its start or as its end. */
  predicate HasBound(intervals: seq<Interval>, x: Interval, bound: Instant, start: bool) {
    x in intervals && Some(bound) == if start then x.validFrom else x.validTo
  }

  /** Every known bound of a resulting period is the same bound of some input interval. */
  lemma NormalizedBoundIsInput(intervals: seq<Interval>, k: nat, start: bool) returns (x: Interval)
    requires k < |Normalized(intervals)|
    requires if start then Normalized(intervals)[k].validFrom.Some? else Normalized(intervals)[k].validTo.Some?
    ensures HasBound(intervals, x,
      (if start then Normalized(intervals)[k].validFrom else Normalized(intervals)[k].validTo).value, start)
  {
    var blocks := NormalizedPartitionsInput(intervals);
    var hull, block := Normalized(intervals)[k], blocks[k];
    assert IsHull(hull, block);
    var i: nat;
    if start {
      i :| i < |Starts(block)| && Starts(block)[i] == hull.validFrom;
    } else {
      i :| i < |Ends(block)| && Ends(block)[i] == hull.validTo;
    }
    x := block[i];
    BlockInFlatten(blocks, k, x);
    assert x in multiset(Flatten(blocks));
  }

  lemma HullContains(hull: Interval, block: seq<Interval>, x: Interval)
    requires IsHull(hull, block) && x in block && x.validFrom.Some? && x.validTo.Some?
    ensures hull.Contains(x)
  {
    var i :| 0 <= i < |block| && block[i] == x;
    assert Starts(block)[i] == x.validFrom && Ends(block)[i] == x.validTo;
    assert x.validFrom in Starts(block) && x.validTo in Ends(block);
  }

  lemma ContainedOnce(s: seq<Interval>, j: nat, k: nat, x: Interval)
    requires Separated(s) && j < |s| && k < |s| && s[j].Contains(x) && s[k].Contains(x)
    requires x.WellFormed()
    ensures j == k
  {}

  lemma {:induction false} SortKeepsSorted(s: seq<Interval>)
    requires Sorted(s)
    ensures SortByStart(s) == s
  {
    if s != [] {
      SortKeepsSorted(s[..|s| - 1]);
      assert s == s[..|s| - 1] + [s[|s| - 1]];
    }
  }

  lemma {:induction false} FoldKeepsSeparated(done: seq<Interval>, rest: seq<Interval>)
    requires Separated(done + rest)
    ensures Fold(done, rest) == done + rest
    decreases |rest|
  {
    if rest != [] {
      var s, n := done + rest, |done|;
      assert n > 0 ==> s[n - 1] == done[n - 1] && s[n] == rest[0];
      assert done + rest == done + [rest[0]] + rest[1..];
      FoldKeepsSeparated(done + [rest[0]], rest[1..]);
    }
  }

  /** Normalizing again changes nothing. */
  lemma NormalizedIsFixedPoint(intervals: seq<Interval>)
    requires AllWellFormed(intervals)
    ensures Normalized(Normalized(intervals)) == Normalized(intervals)
  {
    var out := Normalized(intervals);
    NormalizedSeparates(intervals);
    SortKeepsSorted(out);
    assert [] + out == out;
    FoldKeepsSeparated([], out);
  }
}
