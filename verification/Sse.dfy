/**
  Server-sent events as the client reads them (`sse.ts`, `apiStream` in `client.ts`) and as the
  server prints them (`_sse` in `ask/router.py`).
 */
module Sse {
  import opened Sequences

  // -------------------------------------------------------------------------
  // The library calls of the parser.
  // -------------------------------------------------------------------------

  /** Every CR LF becomes LF, from left to right. */
  function Normalized(s: string): (t: string)
    ensures |t| <= |s|
  {
    if s == "" then ""
    else if AtCrLf(s) then "\n" + Normalized(s[2..])
    else [s[0]] + Normalized(s[1..])
  }

  predicate AtCrLf(s: string) {
    |s| >= 2 && s[0] == '\r' && s[1] == '\n'
  }

  /** The complete frames of a text, and the text after the last blank line. */
  datatype Cut = Cut(frames: seq<string>, remainder: string)

  predicate AtBlankLine(s: string) {
    |s| >= 2 && s[0] == '\n' && s[1] == '\n'
  }

  /** The text is one character longer in front. */
  function Prefixed(c: char, cut: Cut): Cut {
    if cut.frames == [] then Cut([], [c] + cut.remainder)
    else Cut([[c] + cut.frames[0]] + cut.frames[1..], cut.remainder)
  }

  /** `split` at blank lines with the last piece popped off. */
  function Split(s: string): Cut {
    if |s| < 2 then Cut([], s)
    else if AtBlankLine(s) then
      var rest := Split(s[2..]);
      Cut([""] + rest.frames, rest.remainder)
    else Prefixed(s[0], Split(s[1..]))
  }

  function Lines(s: string): (lines: seq<string>)
    ensures lines != []
  {
    if s == "" then [""]
    else
      var rest := Lines(s[1..]);
      if s[0] == '\n' then [""] + rest else [[s[0]] + rest[0]] + rest[1..]
  }

  /** The white space and line ends `trimStart` removes. */
  predicate IsBlank(c: char) {
    var n := c as int;
    || 0x09 <= n <= 0x0D || n == 0x20 || n == 0xA0 || n == 0x1680 || 0x2000 <= n <= 0x200A
    || n == 0x2028 || n == 0x2029 || n == 0x202F || n == 0x205F || n == 0x3000 || n == 0xFEFF
  }

  function TrimStart(s: string): string {
    if s != "" && IsBlank(s[0]) then TrimStart(s[1..]) else s
  }

  const DATA := "data:"
  const DONE := "[DONE]"

  function DataLines(lines: seq<string>): seq<string> {
    if lines == [] then []
    else if DATA <= lines[0] then [TrimStart(lines[0][5..])] + DataLines(lines[1..])
    else DataLines(lines[1..])
  }

  function Join(lines: seq<string>): string {
    if lines == [] then "" else if |lines| == 1 then lines[0] else lines[0] + "\n" + Join(lines[1..])
  }

  function Data(frame: string): string {
    Join(DataLines(Lines(frame)))
  }

  // -------------------------------------------------------------------------
  // The parser and the stream.
  // -------------------------------------------------------------------------

  datatype Collected = Collected(payloads: seq<string>, done: bool)

  /** The payloads of some frames, up to the terminal one. */
  function Collect(frames: seq<string>): Collected {
    if frames == [] then Collected([], false)
    else if Data(frames[0]) == DONE then Collected([], true)
    else
      var rest := Collect(frames[1..]);
      if Data(frames[0]) == "" then rest else Collected([Data(frames[0])] + rest.payloads, rest.done)
  }

  method ParseSseFrames(buffer: string) returns (payloads: seq<string>, remainder: string, done: bool)
    ensures remainder == Split(Normalized(buffer)).remainder
    ensures Collected(payloads, done) == Collect(Split(Normalized(buffer)).frames)
  {
    var cut := Split(Normalized(buffer));
    remainder := cut.remainder;
    payloads := [];
    for i := 0 to |cut.frames|
      invariant !Collect(cut.frames[..i]).done && payloads == Collect(cut.frames[..i]).payloads
    {
      CollectAppends(cut.frames[..i], [cut.frames[i]]);
      CollectAppends(cut.frames[..i + 1], cut.frames[i + 1..]);
      assert cut.frames[..i + 1] == cut.frames[..i] + [cut.frames[i]];
      assert cut.frames == cut.frames[..i + 1] + cut.frames[i + 1..];
      var data := Data(cut.frames[i]);
      if data == DONE {
        return payloads, remainder, true;
      }
      if data != "" {
        payloads := payloads + [data];
      }
    }
    assert cut.frames[..|cut.frames|] == cut.frames;
    done := false;
  }

  /** What arrives in the chunks after a carried remainder, and in the final flush. */
  function Fed(buffer: string, chunks: seq<string>): Collected
    decreases |chunks|
  {
    if chunks == [] then Collect(Split(Normalized(buffer + "\n\n")).frames)
    else
      var cut := Split(Normalized(buffer + chunks[0]));
      var now := Collect(cut.frames);
      if now.done then now
      else
        var later := Fed(cut.remainder, chunks[1..]);
        Collected(now.payloads + later.payloads, later.done)
  }

  function Concat(chunks: seq<string>): string {
    if chunks == [] then "" else chunks[0] + Concat(chunks[1..])
  }

  /** One call on the whole text. */
  function Whole(text: string): Collected {
    Collect(Split(Normalized(text + "\n\n")).frames)
  }

  predicate HasCrCrLf(s: string) {
    exists i :: 0 <= i < |s| - 2 && s[i] == '\r' && s[i + 1] == '\r' && s[i + 2] == '\n'
  }

  /** Reads the chunks as they arrive; `payloads` is everything it yields. */
  method ApiStream(chunks: seq<string>) returns (payloads: seq<string>)
    ensures payloads == Fed("", chunks).payloads
    ensures !HasCrCrLf(Concat(chunks)) ==> payloads == Whole(Concat(chunks)).payloads
  {
    if !HasCrCrLf(Concat(chunks)) {
      ChunksDoNotMatter(chunks);
    }
    var buffer := "";
    payloads := [];
    for i := 0 to |chunks|
      invariant Fed("", chunks)
        == Collected(payloads + Fed(buffer, chunks[i..]).payloads, Fed(buffer, chunks[i..]).done)
    {
      assert chunks[i..][1..] == chunks[i + 1..];
      var parsed, remainder, done := ParseSseFrames(buffer + chunks[i]);
      buffer := remainder;
      payloads := payloads + parsed;
      if done {
        return;
      }
    }
    var parsed, _, _ := ParseSseFrames(buffer + "\n\n");
    payloads := payloads + parsed;
  }

  // -------------------------------------------------------------------------
  // Collecting and splitting in pieces.
  // -------------------------------------------------------------------------

  lemma {:induction false} CollectAppends(f: seq<string>, g: seq<string>)
    ensures Collect(f + g) ==
      if Collect(f).done then Collect(f) else Collected(Collect(f).payloads + Collect(g).payloads, Collect(g).done)
  {
    if f == [] {
      assert f + g == g;
    } else {
      Tail(f, g, 1);
      CollectAppends(f[1..], g);
      Assoc([Data(f[0])], Collect(f[1..]).payloads, Collect(g).payloads);
    }
  }

  lemma {:induction false} NoFrameYet(s: string)
    requires Split(s).frames == []
    ensures Split(s).remainder == s
  {
    if |s| >= 2 {
      NoFrameYet(s[1..]);
    }
  }

  /** The remainder is all a later call needs. */
  function Resumed(cut: Cut, t: string): Cut {
    var more := Split(cut.remainder + t);
    Cut(cut.frames + more.frames, more.remainder)
  }

  lemma {:induction false} SplitResumes(s: string, t: string)
    ensures Split(s + t) == Resumed(Split(s), t)
  {
    if Split(s).frames == [] {
      NoFrameYet(s);
    } else if AtBlankLine(s) {
      SplitResumes(s[2..], t);
      Tail(s, t, 2);
      var rest := Split(s[2..]);
      Assoc([""], rest.frames, Split(rest.remainder + t).frames);
    } else {
      SplitResumes(s[1..], t);
      Tail(s, t, 1);
      PrefixedResumes(s[0], Split(s[1..]), t);
    }
  }

  lemma PrefixedResumes(c: char, cut: Cut, t: string)
    requires cut.frames != []
    ensures Prefixed(c, Resumed(cut, t)) == Resumed(Prefixed(c, cut), t)
  {
    var more := Split(cut.remainder + t);
    Tail(cut.frames, more.frames, 1);
    Assoc([[c] + cut.frames[0]], cut.frames[1..], more.frames);
  }

  /** Frames with the blank line each one ended with. */
  function Joined(frames: seq<string>): string {
    if frames == [] then "" else frames[0] + "\n\n" + Joined(frames[1..])
  }

  lemma {:induction false} SplitParts(s: string)
    ensures s == Joined(Split(s).frames) + Split(s).remainder
    ensures Split(Joined(Split(s).frames)) == Cut(Split(s).frames, "")
  {
    if |s| < 2 {
    } else if AtBlankLine(s) {
      SplitParts(s[2..]);
      BlankLinePart(s);
    } else {
      SplitParts(s[1..]);
      Uncons(s);
      if Split(s[1..]).frames != [] {
        JoinedPrefixed(s[0], s[1..]);
        Assoc([s[0]], Joined(Split(s[1..]).frames), Split(s[1..]).remainder);
      }
    }
  }

  lemma BlankLinePart(s: string)
    requires AtBlankLine(s)
    requires s[2..] == Joined(Split(s[2..]).frames) + Split(s[2..]).remainder
    requires Split(Joined(Split(s[2..]).frames)) == Cut(Split(s[2..]).frames, "")
    ensures s == Joined(Split(s).frames) + Split(s).remainder
    ensures Split(Joined(Split(s).frames)) == Cut(Split(s).frames, "")
  {
    var cut := Split(s[2..]);
    var j := Joined(cut.frames);
    assert s == "\n\n" + s[2..];
    Assoc("\n\n", j, cut.remainder);
    Tail([""], cut.frames, 1);
    assert "" + "\n\n" == "\n\n";
    Tail("\n\n", j, 2);
    assert "\n\n"[2..] + j == j;
  }

  lemma JoinedPrefixed(c: char, s: string)
    requires Split(s).frames != [] && !AtBlankLine([c] + s)
    requires s == Joined(Split(s).frames) + Split(s).remainder
    requires Split(Joined(Split(s).frames)) == Cut(Split(s).frames, "")
    ensures Joined(Prefixed(c, Split(s)).frames) == [c] + Joined(Split(s).frames)
    ensures Split([c] + Joined(Split(s).frames)) == Cut(Prefixed(c, Split(s)).frames, "")
  {
    var cut := Split(s);
    var first, rest := cut.frames[0], cut.frames[1..];
    var j := Joined(cut.frames);
    Tail([[c] + first], rest, 1);
    Assoc([c], first, "\n\n");
    Assoc([c], first + "\n\n", Joined(rest));
    assert s[0] == j[0];
    Tail([c], j, 1);
    assert [c][1..] + j == j;
  }

  // -------------------------------------------------------------------------
  // Normalizing in pieces.
  // -------------------------------------------------------------------------

  predicate EndsInCr(s: string) {
    s != "" && s[|s| - 1] == '\r'
  }

  predicate StartsWithLf(s: string) {
    s != "" && s[0] == '\n'
  }

  predicate HasCrLf(s: string) {
    exists i :: 0 <= i < |s| - 1 && s[i] == '\r' && s[i + 1] == '\n'
  }

  lemma {:induction false} NormalizedConcat(a: string, b: string)
    requires !(EndsInCr(a) && StartsWithLf(b))
    ensures Normalized(a + b) == Normalized(a) + Normalized(b)
  {
    if a == "" {
      assert a + b == b;
    } else if AtCrLf(a) {
      NormalizedConcat(a[2..], b);
      Tail(a, b, 2);
      Assoc("\n", Normalized(a[2..]), Normalized(b));
    } else {
      NormalizedConcat(a[1..], b);
      Tail(a, b, 1);
      Assoc([a[0]], Normalized(a[1..]), Normalized(b));
    }
  }

  /** A CR LF that falls between two pieces. */
  lemma NormalizedAcross(front: string, b: string)
    requires StartsWithLf(b)
    ensures Normalized(front + "\r") == Normalized(front) + "\r"
    ensures Normalized((front + "\r") + b) == Normalized(front) + ("\n" + Normalized(b[1..]))
  {
    NormalizedConcat(front, "\r");
    Assoc(front, "\r", b);
    NormalizedConcat(front, "\r" + b);
    NormalizedPair(b);
    NormalizedCr();
  }

  lemma NormalizedCr()
    ensures Normalized("\r") == "\r"
  {
    assert "\r"[1..] == "";
  }

  lemma NormalizedPair(b: string)
    requires StartsWithLf(b)
    ensures Normalized("\r" + b) == "\n" + Normalized(b[1..])
  {
    assert ("\r" + b)[2..] == b[1..];
  }

  lemma HasCrLfCons(c: char, s: string)
    ensures HasCrLf([c] + s) <==> (c == '\r' && StartsWithLf(s)) || HasCrLf(s)
  {
    var t := [c] + s;
    if c == '\r' && StartsWithLf(s) {
      assert t[0] == '\r' && t[0 + 1] == '\n';
    }
    if i :| 0 <= i < |s| - 1 && s[i] == '\r' && s[i + 1] == '\n' {
      assert t[i + 1] == '\r' && t[i + 1 + 1] == '\n';
    }
    if HasCrLf(t) {
      var j :| 0 <= j < |t| - 1 && t[j] == '\r' && t[j + 1] == '\n';
      if j > 0 {
        assert s[j - 1] == '\r' && s[j - 1 + 1] == '\n';
      }
    }
  }

  lemma HasCrCrLfCons(c: char, s: string)
    ensures HasCrCrLf([c] + s) <==> (c == '\r' && |s| >= 2 && s[0] == '\r' && s[1] == '\n') || HasCrCrLf(s)
  {
    var t := [c] + s;
    if c == '\r' && |s| >= 2 && s[0] == '\r' && s[1] == '\n' {
      assert t[0] == '\r' && t[0 + 1] == '\r' && t[0 + 2] == '\n';
    }
    if i :| 0 <= i < |s| - 2 && s[i] == '\r' && s[i + 1] == '\r' && s[i + 2] == '\n' {
      assert t[i + 1] == '\r' && t[i + 1 + 1] == '\r' && t[i + 1 + 2] == '\n';
    }
    if HasCrCrLf(t) {
      var j :| 0 <= j < |t| - 2 && t[j] == '\r' && t[j + 1] == '\r' && t[j + 2] == '\n';
      if j > 0 {
        assert s[j - 1] == '\r' && s[j - 1 + 1] == '\r' && s[j - 1 + 2] == '\n';
      }
    }
  }

  /** Normalizing leaves a CR LF behind exactly where the text had CR CR LF. */
  lemma {:induction false} WhatNormalizingLeaves(s: string)
    ensures HasCrLf(Normalized(s)) <==> HasCrCrLf(s)
  {
    if s == "" {
    } else if AtCrLf(s) {
      WhatNormalizingLeaves(s[2..]);
      HasCrLfCons('\n', Normalized(s[2..]));
      assert s == ['\r'] + s[1..] && s[1..] == ['\n'] + s[2..];
      HasCrCrLfCons('\r', s[1..]);
      HasCrCrLfCons('\n', s[2..]);
    } else {
      WhatNormalizingLeaves(s[1..]);
      HasCrLfCons(s[0], Normalized(s[1..]));
      assert s == [s[0]] + s[1..];
      HasCrCrLfCons(s[0], s[1..]);
    }
  }

  lemma {:induction false} NormalizedIsFixed(s: string)
    requires !HasCrLf(s)
    ensures Normalized(s) == s
  {
    if s != "" {
      assert s == [s[0]] + s[1..];
      HasCrLfCons(s[0], s[1..]);
      NormalizedIsFixed(s[1..]);
    }
  }

  lemma {:induction false} NormalizedEnd(s: string)
    ensures EndsInCr(Normalized(s)) <==> EndsInCr(s)
    ensures s != "" ==> Normalized(s) != ""
  {
    if AtCrLf(s) {
      NormalizedEnd(s[2..]);
    } else if s != "" {
      NormalizedEnd(s[1..]);
    }
  }

  /** Normalizing what was normalized already does no harm, unless the first part holds CR CR LF. */
  lemma NormalizedAgain(a: string, b: string)
    requires !HasCrCrLf(a)
    ensures Normalized(Normalized(a) + b) == Normalized(a + b)
  {
    var n := Normalized(a);
    WhatNormalizingLeaves(a);
    NormalizedEnd(a);
    if EndsInCr(a) && StartsWithLf(b) {
      var front := a[..|a| - 1];
      assert a == front + "\r";
      NormalizedAcross(front, b);
      assert n[..|n| - 1] == Normalized(front);
      CrLfInFront(n, |n| - 1);
      NormalizedIsFixed(Normalized(front));
      NormalizedAcross(Normalized(front), b);
    } else {
      NormalizedIsFixed(n);
      NormalizedConcat(a, b);
      NormalizedConcat(n, b);
    }
  }

  lemma CrLfInFront(s: string, n: nat)
    requires n <= |s|
    ensures HasCrLf(s[..n]) ==> HasCrLf(s)
  {
    if i :| 0 <= i < n - 1 && s[..n][i] == '\r' && s[..n][i + 1] == '\n' {
      assert s[i] == '\r' && s[i + 1] == '\n';
    }
  }

  // -------------------------------------------------------------------------
  // Chunks.
  // -------------------------------------------------------------------------

  /** All frames that come out of the chunks after a carried remainder, and of the final flush. */
  function Frames(buffer: string, chunks: seq<string>): seq<string>
    decreases |chunks|
  {
    if chunks == [] then Split(Normalized(buffer + "\n\n")).frames
    else
      var cut := Split(Normalized(buffer + chunks[0]));
      cut.frames + Frames(cut.remainder, chunks[1..])
  }

  lemma {:induction false} FedCollectsFrames(buffer: string, chunks: seq<string>)
    ensures Fed(buffer, chunks) == Collect(Frames(buffer, chunks))
    decreases |chunks|
  {
    if chunks != [] {
      var cut := Split(Normalized(buffer + chunks[0]));
      FedCollectsFrames(cut.remainder, chunks[1..]);
      CollectAppends(cut.frames, Frames(cut.remainder, chunks[1..]));
    }
  }

  /** Parsing resumes from the carried remainder as if the text had come in one piece. */
  lemma ParsingResumes(t: string, v: string)
    requires !HasCrCrLf(t)
    ensures var cut := Split(Normalized(t));
      var more := Split(Normalized(cut.remainder + v));
      Split(Normalized(t + v)) == Cut(cut.frames + more.frames, more.remainder)
  {
    var n, cut := Normalized(t), Split(Normalized(t));
    var j := Joined(cut.frames);
    SplitParts(n);
    NormalizedAgain(t, v);
    Assoc(j, cut.remainder, v);
    WhatNormalizingLeaves(t);
    assert n[..|j|] == j;
    CrLfInFront(n, |j|);
    NormalizedIsFixed(j);
    JoinedEnd(cut.frames);
    NormalizedConcat(j, cut.remainder + v);
    SplitResumes(j, Normalized(cut.remainder + v));
    assert "" + Normalized(cut.remainder + v) == Normalized(cut.remainder + v);
  }

  lemma {:induction false} JoinedEnd(frames: seq<string>)
    ensures !EndsInCr(Joined(frames))
  {
    if frames != [] {
      JoinedEnd(frames[1..]);
    }
  }

  lemma CrCrLfInFront(a: string, b: string)
    ensures HasCrCrLf(a) ==> HasCrCrLf(a + b)
  {
    if i :| 0 <= i < |a| - 2 && a[i] == '\r' && a[i + 1] == '\r' && a[i + 2] == '\n' {
      assert (a + b)[i] == '\r' && (a + b)[i + 1] == '\r' && (a + b)[i + 2] == '\n';
    }
  }

  lemma {:induction false} FramesResume(t: string, chunks: seq<string>)
    requires !HasCrCrLf(t + Concat(chunks))
    ensures var cut := Split(Normalized(t));
      Split(Normalized((t + Concat(chunks)) + "\n\n")).frames == cut.frames + Frames(cut.remainder, chunks)
    decreases |chunks|
  {
    CrCrLfInFront(t, Concat(chunks));
    var cut := Split(Normalized(t));
    if chunks == [] {
      assert t + Concat(chunks) == t;
      ParsingResumes(t, "\n\n");
    } else {
      ParsingResumes(t, chunks[0]);
      Assoc(t, chunks[0], Concat(chunks[1..]));
      FramesResume(t + chunks[0], chunks[1..]);
      var next := Split(Normalized(cut.remainder + chunks[0]));
      Assoc(cut.frames, next.frames, Frames(next.remainder, chunks[1..]));
    }
  }

  /** However a text without CR CR LF is cut into chunks, the client yields what one call on the whole yields. */
  lemma ChunksDoNotMatter(chunks: seq<string>)
    requires !HasCrCrLf(Concat(chunks))
    ensures Fed("", chunks) == Whole(Concat(chunks))
  {
    FedCollectsFrames("", chunks);
    assert "" + Concat(chunks) == Concat(chunks);
    FramesResume("", chunks);
    assert Split(Normalized("")) == Cut([], "");
    assert [] + Frames("", chunks) == Frames("", chunks);
  }
}
