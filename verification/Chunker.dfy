/** Character chunking with overlap (`chunking.py`). */
module Chunker {
  import opened Options
  import opened Sequences
  import opened Text

  // -------------------------------------------------------------------------
  // The string methods the chunker calls.
  // -------------------------------------------------------------------------

  /** The last space in `s[lo..hi]`, or -1. */
  function Rfind(s: string, lo: nat, hi: nat): (k: int)
    requires hi <= |s|
    ensures k == -1 || (lo <= k < hi && s[k] == ' ')
    ensures forall j :: lo <= j < hi && k < j ==> s[j] != ' '
    decreases hi
  {
    if hi <= lo then -1 else if s[hi - 1] == ' ' then hi - 1 else Rfind(s, lo, hi - 1)
  }

  // -------------------------------------------------------------------------
  // The windows.
  // -------------------------------------------------------------------------

  datatype Window = Window(start: nat, end: nat)

  predicate Usable(size: int, overlap: int) {
    size >= 1 && 0 <= overlap < size
  }

  /** Where the window that starts here ends: at the last space of its second half, if it is cut short. */
  function End(t: string, size: nat, start: nat): (end: nat)
    requires start < |t| && size >= 1
    ensures start < end <= |t| && end - start <= size
  {
    if start + size >= |t| then |t|
    else
      var boundary := Rfind(t, start + size / 2, start + size);
      if boundary > start then boundary else start + size
  }

  function Following(end: nat, overlap: nat, start: nat): nat {
    if end - overlap > start + 1 then end - overlap else start + 1
  }

  predicate Within(t: string, ws: seq<Window>) {
    forall w :: w in ws ==> w.start <= w.end <= |t|
  }

  function Windows(t: string, size: nat, overlap: nat, start: nat): (ws: seq<Window>)
    requires start < |t| && Usable(size, overlap)
    ensures ws != [] && ws[0].start == start && Within(t, ws)
    decreases |t| - start
  {
    var end := End(t, size, start);
    if end >= |t| then [Window(start, end)]
    else [Window(start, end)] + Windows(t, size, overlap, Following(end, overlap, start))
  }

  function Parts(t: string, ws: seq<Window>): seq<string>
    requires Within(t, ws)
  {
    if ws == [] then []
    else PartOf(Strip(t[ws[0].start..ws[0].end])) + Parts(t, ws[1..])
  }

  /** A part that is empty after stripping is dropped. */
  function PartOf(part: string): seq<string> {
    if part != "" then [part] else []
  }

  /** Windows of one text in order: each within its size, and next to each other without gap or step back. */
  predicate Chain(t: string, size: nat, overlap: nat, ws: seq<Window>) {
    && (forall i :: 0 <= i < |ws| ==> ws[i].start < ws[i].end <= |t| && ws[i].end - ws[i].start <= size)
    && (forall i :: 0 <= i < |ws| - 1 ==>
          && ws[i].start < ws[i + 1].start <= ws[i].end <= ws[i + 1].end
          && ws[i].end - ws[i + 1].start <= overlap)
    && (ws != [] ==> ws[|ws| - 1].end == |t|)
  }

  /**
    A window that is cut short ends at a space of its second half with no space after it, or at its
    full size if that half has none.
   */
  lemma WindowEndsAtLastSpace(t: string, size: nat, start: nat)
    requires size >= 1 && start + size < |t|
    ensures var end := End(t, size, start);
      && start + size / 2 <= end <= start + size
      && (end < start + size ==> t[end] == ' ')
      && forall k :: start < k && start + size / 2 <= k < start + size && t[k] == ' ' ==> k <= end < start + size
  {
    var boundary := Rfind(t, start + size / 2, start + size);
    assert boundary > start ==> End(t, size, start) == boundary;
  }

  /** Two searches for a space are compared: the later window never ends before the earlier one. */
  lemma EndsNeverMoveBack(t: string, size: nat, overlap: nat, start: nat)
    requires start < |t| && Usable(size, overlap) && End(t, size, start) < |t|
    ensures var end := End(t, size, start);
      var next := Following(end, overlap, start);
      start < next <= end && end - next <= overlap && next < |t| && end <= End(t, size, next)
  {
    var end := End(t, size, start);
    var next := Following(end, overlap, start);
    if next + size < |t| {
      var boundary := Rfind(t, next + size / 2, next + size);
      var earlier := Rfind(t, start + size / 2, start + size);
      assert next + size > end;
      assert earlier > start ==> t[end] == ' ';
      if next < boundary < end {
        assert false;
      }
    }
  }

  lemma {:induction false} WindowsChain(t: string, size: nat, overlap: nat, start: nat)
    requires start < |t| && Usable(size, overlap)
    ensures Chain(t, size, overlap, Windows(t, size, overlap, start))
    decreases |t| - start
  {
    var end := End(t, size, start);
    if end < |t| {
      EndsNeverMoveBack(t, size, overlap, start);
      var next := Following(end, overlap, start);
      WindowsChain(t, size, overlap, next);
      ChainCons(t, size, overlap, Window(start, end), Windows(t, size, overlap, next));
    }
  }

  lemma ChainCons(t: string, size: nat, overlap: nat, w: Window, rest: seq<Window>)
    requires Chain(t, size, overlap, rest) && rest != []
    requires w.start < w.end <= |t| && w.end - w.start <= size
    requires w.start < rest[0].start <= w.end <= rest[0].end && w.end - rest[0].start <= overlap
    ensures Chain(t, size, overlap, [w] + rest)
  {
    var ws := [w] + rest;
    forall i | 0 <= i < |ws| - 1
      ensures ws[i].start < ws[i + 1].start <= ws[i].end <= ws[i + 1].end && ws[i].end - ws[i + 1].start <= overlap
    {
      if i > 0 {
        assert ws[i] == rest[i - 1] && ws[i + 1] == rest[i - 1 + 1];
      }
    }
  }

  /** The windows' texts, each without what the windows before it already hold. */
  function Rebuilt(t: string, ws: seq<Window>, done: nat): string
    requires Within(t, ws)
  {
    if ws == [] then ""
    else
      var text := t[ws[0].start..ws[0].end];
      (if ws[0].start <= done <= ws[0].end then text[done - ws[0].start..] else text) + Rebuilt(t, ws[1..], ws[0].end)
  }

  lemma {:induction false} ChainRebuilds(t: string, size: nat, overlap: nat, ws: seq<Window>, done: nat)
    requires Within(t, ws) && Chain(t, size, overlap, ws) && ws != [] && ws[0].start <= done <= ws[0].end
    ensures Rebuilt(t, ws, done) == t[done..]
    decreases |ws|
  {
    var w := ws[0];
    SliceOfSlice(t, w.start, done, w.end);
    if |ws| == 1 {
      assert Rebuilt(t, ws[1..], w.end) == "";
      assert t[done..w.end] + "" == t[done..];
    } else {
      ChainTail(t, size, overlap, ws);
      ChainRebuilds(t, size, overlap, ws[1..], w.end);
      Halves(t, done, w.end);
    }
  }

  lemma Halves(t: string, a: nat, b: nat)
    requires a <= b <= |t|
    ensures t[a..b] + t[b..] == t[a..]
  {}

  lemma SliceOfSlice(t: string, a: nat, b: nat, c: nat)
    requires a <= b <= c <= |t|
    ensures t[a..c][b - a..] == t[b..c]
  {}

  lemma ChainTail(t: string, size: nat, overlap: nat, ws: seq<Window>)
    requires Chain(t, size, overlap, ws) && |ws| > 1
    ensures Chain(t, size, overlap, ws[1..]) && ws[1].start <= ws[0].end <= ws[1].end
  {
    var rest := ws[1..];
    assert ws[0].start < ws[0 + 1].start;
    forall i | 0 <= i < |rest| - 1
      ensures rest[i].start < rest[i + 1].start <= rest[i].end <= rest[i + 1].end
        && rest[i].end - rest[i + 1].start <= overlap
    {
      assert rest[i] == ws[i + 1] && rest[i + 1] == ws[i + 1 + 1];
    }
  }

  /** The round trip: the windows' new text put together is the text. */
  lemma WindowsRebuildTheText(t: string, size: nat, overlap: nat)
    requires t != "" && Usable(size, overlap)
    ensures var ws := Windows(t, size, overlap, 0);
      Chain(t, size, overlap, ws) && Rebuilt(t, ws, 0) == t
  {
    WindowsChain(t, size, overlap, 0);
    ChainRebuilds(t, size, overlap, Windows(t, size, overlap, 0), 0);
  }

  /** A piece of a window that its part keeps. */
  predicate Kept(t: string, w: Window, a: nat, b: nat) {
    w.start <= a <= b <= w.end <= |t| && Strip(t[w.start..w.end]) == t[a..b]
  }

  lemma StripKeeps(t: string, w: Window) returns (a: nat, b: nat)
    requires w.start <= w.end <= |t|
    ensures Kept(t, w, a, b)
    ensures forall k :: w.start <= k < w.end && !IsSpace(t[k]) ==> a <= k < b
  {
    var text := t[w.start..w.end];
    var i, j := StripIsSlice(text);
    a, b := w.start + i, w.start + j;
    assert Kept(t, w, a, b) by {
      InnerSlice(t, w.start, w.end, i, j);
    }
    forall k | w.start <= k < w.end && !IsSpace(t[k]) ensures a <= k < b {
      assert text[k - w.start] == t[k];
    }
  }

  predicate Holds(ws: seq<Window>, k: nat, i: nat) {
    i < |ws| && ws[i].start <= k < ws[i].end
  }

  lemma {:induction false} SomeWindowHolds(t: string, size: nat, overlap: nat, start: nat, k: nat) returns (i: nat)
    requires start <= k < |t| && Usable(size, overlap)
    ensures Holds(Windows(t, size, overlap, start), k, i)
    decreases |t| - start
  {
    var end := End(t, size, start);
    if k < end {
      i := 0;
    } else {
      EndsNeverMoveBack(t, size, overlap, start);
      var rest := Windows(t, size, overlap, Following(end, overlap, start));
      var j := SomeWindowHolds(t, size, overlap, Following(end, overlap, start), k);
      i := j + 1;
      assert Windows(t, size, overlap, start)[i] == rest[j];
    }
  }

  /** No character but spaces is lost: a part of some window keeps it. */
  lemma NoTextIsLost(t: string, size: nat, overlap: nat, k: nat) returns (w: Window, a: nat, b: nat)
    requires k < |t| && Usable(size, overlap) && !IsSpace(t[k])
    ensures w in Windows(t, size, overlap, 0) && Kept(t, w, a, b) && a <= k < b
    ensures t[a..b] in Parts(t, Windows(t, size, overlap, 0))
  {
    var ws := Windows(t, size, overlap, 0);
    WindowsChain(t, size, overlap, 0);
    var i := SomeWindowHolds(t, size, overlap, 0, k);
    w := ws[i];
    a, b := StripKeeps(t, w);
    PartOfWindow(t, ws, i);
  }

  lemma {:induction false} PartOfWindow(t: string, ws: seq<Window>, i: nat)
    requires Within(t, ws)
    requires i < |ws| && Strip(t[ws[i].start..ws[i].end]) != ""
    ensures Strip(t[ws[i].start..ws[i].end]) in Parts(t, ws)
  {
    var part := Strip(t[ws[0].start..ws[0].end]);
    if i == 0 {
      assert ([part] + Parts(t, ws[1..]))[0] == part;
    } else {
      assert ws[1..][i - 1] == ws[i];
      PartOfWindow(t, ws[1..], i - 1);
    }
  }

  // -------------------------------------------------------------------------
  // The chunker.
  // -------------------------------------------------------------------------

  datatype Segment = Segment(content: string, startSeconds: Option<real>, endSeconds: Option<real>)

  datatype Source = Source(id: nat, segments: seq<Segment>)

  datatype Chunk = Chunk(sourceId: nat, position: nat, content: string, startSeconds: Option<real>,
                         endSeconds: Option<real>)

  function SplitText(content: string, size: nat, overlap: nat): seq<string>
    requires Usable(size, overlap)
  {
    var t := Strip(content);
    if t == "" then [] else Parts(t, Windows(t, size, overlap, 0))
  }

  lemma {:induction false} PartsFit(t: string, size: nat, ws: seq<Window>)
    requires Within(t, ws) && forall w :: w in ws ==> w.end - w.start <= size
    ensures forall p :: p in Parts(t, ws) ==> p != "" && |p| <= size
  {
    if ws != [] {
      var _, _ := StripIsSlice(t[ws[0].start..ws[0].end]);
      PartsFit(t, size, ws[1..]);
    }
  }

  /** No part is empty or longer than the size. */
  lemma SplitTextFits(content: string, size: nat, overlap: nat)
    requires Usable(size, overlap)
    ensures forall p :: p in SplitText(content, size, overlap) ==> p != "" && |p| <= size
  {
    var t := Strip(content);
    if t != "" {
      WindowsChain(t, size, overlap, 0);
      PartsFit(t, size, Windows(t, size, overlap, 0));
    }
  }

  function Grown(parts: seq<string>, part: string): seq<string> {
    if part != "" then parts + [part] else parts
  }

  /** The loop, with the parts gathered before `start`. */
  function Gather(t: string, size: nat, overlap: nat, start: nat, parts: seq<string>): seq<string>
    requires start < |t| && Usable(size, overlap)
    decreases |t| - start
  {
    var end := End(t, size, start);
    var grown := Grown(parts, Strip(t[start..end]));
    if end >= |t| then grown else Gather(t, size, overlap, Following(end, overlap, start), grown)
  }

  lemma {:induction false} GatherTakesTheWindows(t: string, size: nat, overlap: nat, start: nat, parts: seq<string>)
    requires start < |t| && Usable(size, overlap)
    ensures Gather(t, size, overlap, start, parts) == parts + Parts(t, Windows(t, size, overlap, start))
    decreases |t| - start
  {
    var end := End(t, size, start);
    var part := Strip(t[start..end]);
    GrownByPart(parts, part);
    if end >= |t| {
      assert Parts(t, [Window(start, end)][1..]) == [];
      assert PartOf(part) + [] == PartOf(part);
    } else {
      var next := Following(end, overlap, start);
      var rest := Windows(t, size, overlap, next);
      assert ([Window(start, end)] + rest)[1..] == rest;
      Assoc(parts, PartOf(part), Parts(t, rest));
      GatherTakesTheWindows(t, size, overlap, next, Grown(parts, part));
    }
  }

  lemma GatherStep(t: string, size: nat, overlap: nat, start: nat, parts: seq<string>)
    requires start < |t| && Usable(size, overlap)
    ensures var end := End(t, size, start);
      var next := Following(end, overlap, start);
      var grown := Grown(parts, Strip(t[start..end]));
      if end >= |t| then Gather(t, size, overlap, start, parts) == grown
      else start < next < |t| && Gather(t, size, overlap, start, parts) == Gather(t, size, overlap, next, grown)
  {
    if End(t, size, start) < |t| {
      EndsNeverMoveBack(t, size, overlap, start);
    }
  }

  lemma GrownByPart(parts: seq<string>, part: string)
    ensures Grown(parts, part) == parts + PartOf(part)
  {
    assert parts + [] == parts;
  }

  function PiecesOf(parts: seq<string>, segment: Segment): seq<(string, Segment)> {
    seq(|parts|, i requires 0 <= i < |parts| => (parts[i], segment))
  }

  /** The parts of all segments, each with the segment it came from. */
  function Pieces(segments: seq<Segment>, size: nat, overlap: nat): seq<(string, Segment)>
    requires Usable(size, overlap)
  {
    if segments == [] then []
    else
      var n := |segments| - 1;
      Pieces(segments[..n], size, overlap) + PiecesOf(SplitText(segments[n].content, size, overlap), segments[n])
  }

  /** The chunks number the pieces in order and keep their segments' times. */
  predicate Numbers(chunks: seq<Chunk>, pieces: seq<(string, Segment)>, id: nat) {
    && |chunks| == |pieces|
    && forall i :: 0 <= i < |chunks| ==>
         chunks[i] == Chunk(id, i, pieces[i].0, pieces[i].1.startSeconds, pieces[i].1.endSeconds)
  }

  class CharacterOverlapChunker {
    const size: nat
    const overlap: nat

    ghost predicate Valid() {
      Usable(size, overlap)
    }

    constructor (size: nat, overlap: nat)
      requires Usable(size, overlap)
      ensures this.size == size && this.overlap == overlap && Valid()
    {
      this.size, this.overlap := size, overlap;
    }

    /** `None` where the constructor of the program raises `ValueError`. */
    static method Create(size: int, overlap: int) returns (chunker: Option<CharacterOverlapChunker>)
      ensures chunker.Some? <==> size >= 1 && 0 <= overlap < size
      ensures chunker.Some? ==>
        chunker.value.size == size && chunker.value.overlap == overlap && chunker.value.Valid() && fresh(chunker.value)
    {
      if size < 1 || overlap < 0 || overlap >= size {
        return None;
      }
      var c := new CharacterOverlapChunker(size, overlap);
      chunker := Some(c);
    }

    method Split(content: string) returns (parts: seq<string>)
      requires Valid()
      ensures parts == SplitText(content, size, overlap)
    {
      var t := Strip(content);
      parts := [];
      if t == "" {
        return;
      }
      ghost var all := Parts(t, Windows(t, size, overlap, 0));
      GatherTakesTheWindows(t, size, overlap, 0, []);
      assert [] + all == all;
      var start := 0;
      while start < |t|
        invariant 0 <= start < |t|
        invariant Gather(t, size, overlap, start, parts) == all
        decreases |t| - start
      {
        var end := if start + size < |t| then start + size else |t|;
        if end < |t| {
          var boundary := Rfind(t, start + size / 2, end);
          if boundary > start {
            end := boundary;
          }
        }
        assert end == End(t, size, start);
        var part := Strip(t[start..end]);
        ghost var grown := Grown(parts, part);
        GatherStep(t, size, overlap, start, parts);
        if part != "" {
          parts := parts + [part];
        }
        assert parts == grown;
        if end >= |t| {
          break;
        }
        var next := if end - overlap > start + 1 then end - overlap else start + 1;
        assert next == Following(end, overlap, start);
        start := next;
      }
    }

    method ChunkSource(source: Source) returns (chunks: seq<Chunk>)
      requires Valid()
      ensures Numbers(chunks, Pieces(source.segments, size, overlap), source.id)
    {
      chunks := [];
      for i := 0 to |source.segments|
        invariant Numbers(chunks, Pieces(source.segments[..i], size, overlap), source.id)
      {
        var segment := source.segments[i];
        ghost var before := Pieces(source.segments[..i], size, overlap);
        var parts := Split(segment.content);
        PiecesStep(source.segments, size, overlap, i);
        assert before + PiecesOf(parts[..0], segment) == before;
        for j := 0 to |parts|
          invariant Numbers(chunks, before + PiecesOf(parts[..j], segment), source.id)
        {
          OneMorePiece(before, parts, j, segment);
          OneMoreChunk(chunks, before + PiecesOf(parts[..j], segment), source.id, parts[j], segment);
          chunks := chunks + [Chunk(source.id, |chunks|, parts[j], segment.startSeconds, segment.endSeconds)];
        }
        assert parts[..|parts|] == parts;
      }
      assert source.segments[..|source.segments|] == source.segments;
    }
  }

  lemma PiecesStep(segments: seq<Segment>, size: nat, overlap: nat, i: nat)
    requires Usable(size, overlap) && i < |segments|
    ensures Pieces(segments[..i + 1], size, overlap)
      == Pieces(segments[..i], size, overlap) + PiecesOf(SplitText(segments[i].content, size, overlap), segments[i])
  {
    assert segments[..i + 1][..i] == segments[..i];
  }

  lemma OneMoreChunk(chunks: seq<Chunk>, pieces: seq<(string, Segment)>, id: nat, part: string, segment: Segment)
    requires Numbers(chunks, pieces, id)
    ensures Numbers(
      chunks + [Chunk(id, |chunks|, part, segment.startSeconds, segment.endSeconds)], pieces + [(part, segment)], id)
  {}

  lemma OneMorePiece(before: seq<(string, Segment)>, parts: seq<string>, j: nat, segment: Segment)
    requires j < |parts|
    ensures before + PiecesOf(parts[..j + 1], segment)
      == (before + PiecesOf(parts[..j], segment)) + [(parts[j], segment)]
  {
    assert PiecesOf(parts[..j + 1], segment) == PiecesOf(parts[..j], segment) + [(parts[j], segment)];
  }
}
