/** When cutting a stream into chunks is harmless, and the round trip from the server's printer. */
module SseTheorems {
  import opened Sequences
  import opened Sse

  // -------------------------------------------------------------------------
  // Counting carriage returns.
  // -------------------------------------------------------------------------

  function Crs(s: string): nat {
    if s == "" then 0 else (if s[0] == '\r' then 1 else 0) + Crs(s[1..])
  }

  function CrsOf(frames: seq<string>): nat {
    if frames == [] then 0 else Crs(frames[0]) + CrsOf(frames[1..])
  }

  function LastCr(s: string): nat {
    if EndsInCr(s) then 1 else 0
  }

  lemma {:induction false} CrsConcat(a: string, b: string)
    ensures Crs(a + b) == Crs(a) + Crs(b)
  {
    if a == "" {
      assert a + b == b;
    } else {
      Tail(a, b, 1);
      CrsConcat(a[1..], b);
    }
  }

  lemma {:induction false} CrsOfConcat(f: seq<string>, g: seq<string>)
    ensures CrsOf(f + g) == CrsOf(f) + CrsOf(g)
  {
    if f == [] {
      assert f + g == g;
    } else {
      Tail(f, g, 1);
      CrsOfConcat(f[1..], g);
    }
  }

  lemma {:induction false} NormalizingDropsCrs(s: string)
    ensures Crs(Normalized(s)) <= Crs(s) - (if HasCrLf(s) then 1 else 0)
  {
    if s == "" {
    } else if AtCrLf(s) {
      NormalizingDropsCrs(s[2..]);
      Tail("\n", Normalized(s[2..]), 1);
      assert "\n"[1..] + Normalized(s[2..]) == Normalized(s[2..]);
      assert s[1..][1..] == s[2..];
    } else {
      NormalizingDropsCrs(s[1..]);
      Uncons(s);
      HasCrLfCons(s[0], s[1..]);
      CrsConcat([s[0]], Normalized(s[1..]));
      assert [s[0]][1..] == "";
    }
  }

  lemma {:induction false} JoinedCrs(frames: seq<string>)
    ensures Crs(Joined(frames)) == CrsOf(frames)
  {
    if frames != [] {
      JoinedCrs(frames[1..]);
      CrsConcat(frames[0], "\n\n");
      CrsConcat(frames[0] + "\n\n", Joined(frames[1..]));
      assert "\n\n"[1..] == "\n" && "\n"[1..] == "";
    }
  }

  lemma SplitCrs(s: string)
    ensures Crs(s) == CrsOf(Split(s).frames) + Crs(Split(s).remainder)
  {
    SplitParts(s);
    JoinedCrs(Split(s).frames);
    CrsConcat(Joined(Split(s).frames), Split(s).remainder);
  }

  // -------------------------------------------------------------------------
  // The final flush.
  // -------------------------------------------------------------------------

  lemma {:induction false} FlushedRemainder(r: string)
    requires Split(r).frames == []
    ensures Split(r + "\n\n").frames != [] && Crs(Split(r + "\n\n").remainder) == 0
  {
    var nn := "\n\n";
    if r == "" {
      assert r + nn == nn && nn[2..] == "";
    } else if r == "\n" {
      assert (r + nn)[2..] == "\n" && "\n"[1..] == "";
    } else {
      Tail(r, nn, 1);
      NoFrameInTail(r);
      FlushedRemainder(r[1..]);
      assert !AtBlankLine(r + nn);
    }
  }

  lemma NoFrameInTail(r: string)
    requires r != "" && Split(r).frames == []
    ensures Split(r[1..]).frames == [] && !AtBlankLine(r)
  {}

  /** The flush gives out every carriage return it keeps. */
  lemma FlushCrs(x: string)
    ensures CrsOf(Split(Normalized(x + "\n\n")).frames) == Crs(Normalized(x)) - LastCr(x)
  {
    var nn := "\n\n";
    NormalizedEnd(x);
    if EndsInCr(x) {
      var front := x[..|x| - 1];
      assert x == front + "\r";
      NormalizedAcross(front, nn);
      assert nn[1..] == "\n";
      CrsConcat(Normalized(front), "\r");
      assert "\r"[1..] == "";
      FlushedCrs(Normalized(front));
    } else {
      NormalizedConcat(x, nn);
      FlushedCrs(Normalized(x));
    }
    NormalizedBlankLine();
  }

  lemma NormalizedBlankLine()
    ensures Normalized("\n\n") == "\n\n" && Normalized("\n") == "\n"
  {
    assert "\n\n"[1..] == "\n" && "\n"[1..] == "";
  }

  lemma FlushedCrs(y: string)
    ensures CrsOf(Split(y + "\n\n").frames) == Crs(y)
  {
    var cut := Split(y);
    SplitResumes(y, "\n\n");
    SplitParts(y);
    RemainderHasNoFrame(y);
    FlushedRemainder(cut.remainder);
    SplitCrs(y + "\n\n");
    CrsConcat(y, "\n\n");
    assert "\n\n"[1..] == "\n" && "\n"[1..] == "";
  }

  lemma {:induction false} RemainderHasNoFrame(s: string)
    ensures Split(Split(s).remainder).frames == []
  {
    if |s| < 2 {
    } else if AtBlankLine(s) {
      RemainderHasNoFrame(s[2..]);
    } else {
      RemainderHasNoFrame(s[1..]);
      if Split(s).frames == [] {
        NoFrameYet(s);
      }
    }
  }

  // -------------------------------------------------------------------------
  // The exact condition.
  // -------------------------------------------------------------------------

  predicate EndsInCrLf(s: string) {
    |s| >= 2 && s[|s| - 2] == '\r' && s[|s| - 1] == '\n'
  }

  /** A remainder that was normalized but still ends in CR LF. */
  lemma HalfNormalizedRemainder(n: string)
    requires EndsInCrLf(n)
    ensures EndsInCrLf(Split(n).remainder)
  {
    SplitParts(n);
    JoinedEndsInBlankLine(Split(n).frames);
    CrLfAfterBlankLine(Joined(Split(n).frames), Split(n).remainder);
  }

  lemma CrLfAfterBlankLine(j: string, r: string)
    requires EndsInCrLf(j + r)
    requires j == "" || (|j| >= 2 && j[|j| - 1] == '\n' && j[|j| - 2] == '\n')
    ensures EndsInCrLf(r)
  {
    var n := j + r;
    assert forall k :: 0 <= k < |j| ==> n[k] == j[k];
    assert forall k :: 0 <= k < |r| ==> n[|j| + k] == r[k];
  }

  lemma {:induction false} JoinedEndsInBlankLine(frames: seq<string>)
    ensures var j := Joined(frames);
      j == "" || (|j| >= 2 && j[|j| - 1] == '\n' && j[|j| - 2] == '\n')
  {
    if frames != [] {
      JoinedEndsInBlankLine(frames[1..]);
    }
  }

  lemma EndsInCrLfHasIt(s: string)
    requires EndsInCrLf(s)
    ensures HasCrLf(s) && !EndsInCr(s)
  {
    assert s[|s| - 2] == '\r' && s[|s| - 2 + 1] == '\n';
  }

  lemma NormalizedTriple(front: string)
    requires EndsInCr(front)
    ensures Normalized(front + "\r\n") == Normalized(front) + "\n" && EndsInCrLf(Normalized(front + "\r\n"))
  {
    NormalizedConcat(front, "\r\n");
    assert "\r\n"[2..] == "";
    NormalizedEnd(front);
  }

  lemma FirstChunk(front: string)
    requires EndsInCr(front)
    ensures var n := Normalized(front + "\r\n");
      var cut := Split(n);
      && CrsOf(cut.frames) + Crs(Normalized(cut.remainder)) < Crs(n)
      && !EndsInCr(cut.remainder) && EndsInCrLf(cut.remainder)
  {
    var n := Normalized(front + "\r\n");
    NormalizedTriple(front);
    HalfNormalizedRemainder(n);
    EndsInCrLfHasIt(Split(n).remainder);
    NormalizingDropsCrs(Split(n).remainder);
    SplitCrs(n);
  }

  /** What the rest of the text adds after a remainder that does not end in CR. */
  lemma SecondChunk(r: string, b: string)
    requires !EndsInCr(r) && r != ""
    ensures CrsOf(Frames(r, [b])) <= Crs(Normalized(r)) + Crs(Normalized(b)) - LastCr(b)
  {
    NormalizedConcat(r, b);
    var x := Normalized(r + b);
    var cut := Split(x);
    assert |[b][1..]| == 0;
    CrsOfConcat(cut.frames, Frames(cut.remainder, []));
    FlushCrs(cut.remainder);
    NormalizingDropsCrs(cut.remainder);
    SplitCrs(x);
    CrsConcat(Normalized(r), Normalized(b));
    NormalizedEnd(r + b);
    SplitParts(x);
    JoinedEnd(cut.frames);
    SameEnd(Joined(cut.frames), cut.remainder);
    SameEnd(r, b);
  }

  lemma SameEnd(a: string, b: string)
    requires !EndsInCr(a)
    ensures EndsInCr(a + b) <==> EndsInCr(b)
  {
    if b == "" {
      assert a + b == a;
    } else {
      assert (a + b)[|a + b| - 1] == b[|b| - 1];
    }
  }

  /** Cutting right after CR CR LF changes the frames. */
  lemma CuttingAfterCrCrLf(front: string, b: string)
    requires EndsInCr(front)
    ensures Frames("", [front + "\r\n", b]) != Split(Normalized(((front + "\r\n") + b) + "\n\n")).frames
  {
    var a := front + "\r\n";
    var cut := Split(Normalized(a));
    assert "" + a == a && [a, b][1..] == [b];
    FirstChunk(front);
    SecondChunk(cut.remainder, b);
    CrsOfConcat(cut.frames, Frames(cut.remainder, [b]));
    FlushCrs(a + b);
    NormalizedConcat(a, b);
    CrsConcat(Normalized(a), Normalized(b));
    SameEnd(a, b);
  }

  /**
    Cutting a text into chunks never changes the frames the client sees, whatever the cut, exactly
    when the text has no CR CR LF.
   */
  lemma ChunkingIsHarmlessExactlyWithoutCrCrLf(text: string)
    ensures (forall chunks :: Concat(chunks) == text ==> Frames("", chunks) == Split(Normalized(text + "\n\n")).frames)
      <==> !HasCrCrLf(text)
  {
    if HasCrCrLf(text) {
      var i :| 0 <= i < |text| - 2 && text[i] == '\r' && text[i + 1] == '\r' && text[i + 2] == '\n';
      var front, b := text[..i + 1], text[i + 3..];
      assert text == (front + "\r\n") + b;
      CuttingAfterCrCrLf(front, b);
      ConcatOfTwo(front + "\r\n", b);
    } else {
      forall chunks | Concat(chunks) == text ensures Frames("", chunks) == Split(Normalized(text + "\n\n")).frames {
        assert "" + Concat(chunks) == text;
        FramesResume("", chunks);
        assert Split(Normalized("")) == Cut([], "");
        assert [] + Frames("", chunks) == Frames("", chunks);
      }
    }
  }

  lemma ConcatOfTwo(a: string, b: string)
    ensures Concat([a, b]) == a + b
  {
    assert [a, b][1..] == [b] && |[b][1..]| == 0;
    assert Concat([b]) == b + "" == b;
  }

  // -------------------------------------------------------------------------
  // The printer.
  // -------------------------------------------------------------------------

  /** What `json.dumps` gives for an object: it starts with a brace and escapes line ends. */
  predicate JsonObject(e: string) {
    e != "" && e[0] == '{' && '\n' !in e && '\r' !in e
  }

  function Print(data: string): string {
    "data: " + data + "\n\n"
  }

  /** Everything the server sends: one frame an event, then the terminal frame. */
  function Printed(events: seq<string>): string {
    if events == [] then Print(DONE) else Print(events[0]) + Printed(events[1..])
  }

  lemma {:induction false} OneLine(s: string)
    requires '\n' !in s
    ensures Lines(s) == [s]
  {
    if s != "" {
      OneLine(s[1..]);
      Uncons(s);
    }
  }

  lemma {:induction false} SplitFrame(f: string, t: string)
    requires '\n' !in f
    ensures Split((f + "\n\n") + t) == Cut([f] + Split(t).frames, Split(t).remainder)
  {
    var nn := "\n\n";
    if f == "" {
      assert f + nn == nn;
      Tail(nn, t, 2);
      assert nn[2..] + t == t;
    } else {
      Tail(f, nn, 1);
      Tail(f + nn, t, 1);
      SplitFrame(f[1..], t);
      Uncons(f);
      Tail([f[1..]], Split(t).frames, 1);
    }
  }

  lemma PrintedData(data: string)
    requires data == DONE || JsonObject(data)
    ensures Data("data: " + data) == data && '\n' !in "data: " + data
  {
    var line := "data: " + data;
    OneLine(line);
    assert line[5..] == " " + data;
    assert (" " + data)[1..] == data;
    assert TrimStart(" " + data) == TrimStart(data) == data;
    assert DataLines([line][1..]) == [];
    assert DATA <= line;
    assert DataLines([line]) == [data] + [] == [data];
  }

  lemma {:induction false} PrintedParses(events: seq<string>, extra: string)
    requires forall e :: e in events ==> JsonObject(e)
    ensures Collect(Split(Printed(events) + extra).frames) == Collected(events, true)
  {
    var data := if events == [] then DONE else events[0];
    PrintedData(data);
    if events == [] {
      SplitFrame("data: " + data, extra);
      assert ([("data: " + data)] + Split(extra).frames)[0] == "data: " + data;
    } else {
      var t := Printed(events[1..]) + extra;
      Assoc(Print(data), Printed(events[1..]), extra);
      SplitFrame("data: " + data, t);
      PrintedParses(events[1..], extra);
      Tail(["data: " + data], Split(t).frames, 1);
      assert [("data: " + data)][1..] + Split(t).frames == Split(t).frames;
      Uncons(events);
    }
  }

  lemma {:induction false} PrintedHasNoCr(events: seq<string>)
    requires forall e :: e in events ==> JsonObject(e)
    ensures '\r' !in Printed(events)
  {
    if events == [] {
      PrintHasNoCr(DONE);
    } else {
      assert events[0] in events;
      PrintHasNoCr(events[0]);
      PrintedHasNoCr(events[1..]);
    }
  }

  lemma PrintHasNoCr(data: string)
    requires '\r' !in data
    ensures '\r' !in Print(data)
  {
    var s := Print(data);
    forall i | 0 <= i < |s| ensures s[i] != '\r' {
      if 6 <= i < 6 + |data| {
        assert s[i] == data[i - 6];
      }
    }
  }

  lemma {:induction false} NormalizedWithoutCr(a: string, b: string)
    requires '\r' !in a
    ensures Normalized(a + b) == a + Normalized(b)
  {
    if a == "" {
      assert a + b == b && a + Normalized(b) == Normalized(b);
    } else {
      Tail(a, b, 1);
      NormalizedWithoutCr(a[1..], b);
      Uncons(a);
      Assoc([a[0]], a[1..], Normalized(b));
    }
  }

  lemma WithoutCr(s: string)
    requires '\r' !in s
    ensures !HasCrCrLf(s) && Normalized(s) == s
  {
    NormalizedWithoutCr(s, "");
    assert s + "" == s;
  }

  lemma PrintedThenAnything(events: seq<string>, extra: string)
    requires forall e :: e in events ==> JsonObject(e)
    ensures Collect(Split(Normalized(Printed(events) + extra)).frames) == Collected(events, true)
  {
    PrintedHasNoCr(events);
    NormalizedWithoutCr(Printed(events), extra);
    PrintedParses(events, Normalized(extra));
  }

  lemma BeginningOfPrinted(events: seq<string>, t: string)
    requires forall e :: e in events ==> JsonObject(e)
    requires t <= Printed(events)
    ensures !HasCrCrLf(t) && Normalized(t) == t
  {
    PrintedHasNoCr(events);
    assert forall i :: 0 <= i < |t| ==> t[i] == Printed(events)[i];
    WithoutCr(t);
  }

  /** What a call adds to frames that did not end the stream. */
  lemma OneCall(t: string, chunk: string)
    requires !HasCrCrLf(t) && Normalized(t) == t && !Collect(Split(t).frames).done
    ensures var cut := Split(Normalized(Split(t).remainder + chunk));
      var now := Collect(cut.frames);
      && Split(Normalized(t + chunk)) == Cut(Split(t).frames + cut.frames, cut.remainder)
      && Collect(Split(Normalized(t + chunk)).frames)
           == Collected(Collect(Split(t).frames).payloads + now.payloads, now.done)
  {
    ParsingResumes(t, chunk);
    CollectAppends(Split(t).frames, Split(Normalized(Split(t).remainder + chunk)).frames);
  }

  /** The call that gets the end of the terminal frame ends the stream, with whatever comes in the same chunk. */
  lemma LastCallParses(events: seq<string>, t: string, chunk: string)
    requires forall e :: e in events ==> JsonObject(e)
    requires t <= Printed(events) <= t + chunk && !Collect(Split(t).frames).done
    ensures var now := Collect(Split(Normalized(Split(t).remainder + chunk)).frames);
      Collected(Collect(Split(t).frames).payloads + now.payloads, now.done) == Collected(events, true)
  {
    BeginningOfPrinted(events, t);
    OneCall(t, chunk);
    var p := Printed(events);
    Rest(p, t + chunk);
    PrintedThenAnything(events, (t + chunk)[|p|..]);
  }

  /** A call before that goes on as if the text had come in one piece, or has everything already. */
  lemma EarlierCallParses(events: seq<string>, t: string, chunk: string)
    requires forall e :: e in events ==> JsonObject(e)
    requires t + chunk <= Printed(events) && !Collect(Split(t).frames).done
    ensures var cut := Split(Normalized(Split(t).remainder + chunk));
      var now := Collect(cut.frames);
      && Split(t + chunk) == Cut(Split(t).frames + cut.frames, cut.remainder)
      && Collect(Split(t + chunk).frames) == Collected(Collect(Split(t).frames).payloads + now.payloads, now.done)
      && (now.done ==> Collect(Split(t + chunk).frames) == Collected(events, true))
  {
    var p := Printed(events);
    assert t <= p by {
      Rest(t + chunk, p);
      Assoc(t, chunk, p[|t + chunk|..]);
    }
    BeginningOfPrinted(events, t);
    BeginningOfPrinted(events, t + chunk);
    OneCall(t, chunk);
    EndOfBeginning(events, t + chunk);
  }

  /** A beginning of the stream that ends it holds all events. */
  lemma EndOfBeginning(events: seq<string>, t: string)
    requires forall e :: e in events ==> JsonObject(e)
    requires t <= Printed(events)
    ensures Collect(Split(t).frames).done ==> Collect(Split(t).frames) == Collected(events, true)
  {
    var p := Printed(events);
    var rest := p[|t|..];
    Rest(t, p);
    assert p + "" == p;
    SplitResumes(t, rest);
    CollectAppends(Split(t).frames, Split(Split(t).remainder + rest).frames);
    PrintedParses(events, "");
  }

  lemma {:induction false} PrintedEventsArriveFrom(events: seq<string>, t: string, extra: string, chunks: seq<string>)
    requires forall e :: e in events ==> JsonObject(e)
    requires |t| < |Printed(events)| && t + Concat(chunks) == Printed(events) + extra && !Collect(Split(t).frames).done
    ensures var later := Fed(Split(t).remainder, chunks);
      Collected(Collect(Split(t).frames).payloads + later.payloads, later.done) == Collected(events, true)
    decreases |chunks|
  {
    var p := Printed(events);
    PrefixOfBoth(t, Concat(chunks), p, extra);
    if chunks != [] {
      var next := t + chunks[0];
      Assoc(t, chunks[0], Concat(chunks[1..]));
      PrefixOfBoth(next, Concat(chunks[1..]), p, extra);
      if |next| >= |p| {
        LastCallParses(events, t, chunks[0]);
      } else {
        EarlierCallParses(events, t, chunks[0]);
        var now := Collect(Split(Normalized(Split(t).remainder + chunks[0])).frames);
        if !now.done {
          PrintedEventsArriveFrom(events, next, extra, chunks[1..]);
          Assoc(Collect(Split(t).frames).payloads, now.payloads, Fed(Split(next).remainder, chunks[1..]).payloads);
        }
      }
    }
  }

  /** Of two beginnings of one text the shorter begins the longer. */
  lemma PrefixOfBoth(a: string, x: string, b: string, y: string)
    requires a + x == b + y
    ensures |a| <= |b| ==> a <= b
    ensures |b| <= |a| ==> b <= a
    ensures |a| + |x| == |b| + |y|
  {
    assert forall i :: 0 <= i < |a| ==> a[i] == (a + x)[i];
    assert forall i :: 0 <= i < |b| ==> b[i] == (b + y)[i];
    assert |a + x| == |b + y|;
  }

  /**
    The round trip: however the network cuts the server's stream, and whatever follows the terminal
    frame, the client yields exactly the printed events and then stops.
   */
  lemma PrintedEventsArrive(events: seq<string>, extra: string, chunks: seq<string>)
    requires forall e :: e in events ==> JsonObject(e)
    requires Concat(chunks) == Printed(events) + extra
    ensures Fed("", chunks) == Collected(events, true)
  {
    assert "" + Concat(chunks) == Concat(chunks);
    assert Split("") == Cut([], "") && Collect(Split("").frames) == Collected([], false);
    PrintedEventsArriveFrom(events, "", extra, chunks);
    assert [] + Fed("", chunks).payloads == Fed("", chunks).payloads;
  }

  lemma {:induction false} SplitLine(f: string)
    requires '\n' !in f
    ensures Split(f + "\n") == Cut([], f + "\n")
  {
    if f == "" {
      assert f + "\n" == "\n";
    } else {
      SplitLine(f[1..]);
      Tail(f, "\n", 1);
      Uncons(f);
      Assoc([f[0]], f[1..], "\n");
    }
  }

  lemma DataOfLine(value: string)
    requires '\n' !in value && value != "" && !IsBlank(value[0])
    ensures Data("data:" + value) == value
  {
    var line := "data:" + value;
    OneLine(line);
    assert line[5..] == value && DATA <= line;
    assert DataLines([line][1..]) == [];
    assert DataLines([line]) == [value] + [] == [value];
  }

  lemma ShortNormals()
    ensures Normalized("\r\r\n") == "\r\n" && Normalized("\r\n\n") == "\n\n"
    ensures Normalized("\r\r\n\n\n\n") == "\r\n\n\n\n"
  {
    assert "\r\r\n"[1..] == "\r\n" && "\r\n"[2..] == "";
    assert "\r\n\n"[2..] == "\n" && "\n"[1..] == "";
    assert "\r\r\n\n\n\n"[1..] == "\r\n\n\n\n" && "\r\n\n\n\n"[2..] == "\n\n\n";
    assert "\n\n\n"[1..] == "\n\n" && "\n\n"[1..] == "\n";
  }

  /** A payload in one line that the parser yields as it is. */
  predicate PlainValue(value: string) {
    '\r' !in value && '\n' !in value && value != "" && !IsBlank(value[0]) && value != DONE
  }

  /** The difference can reach any such payload: it comes as it is in two chunks, and with a CR in one. */
  lemma CrCrLfCanChangeAPayload(value: string)
    requires PlainValue(value)
    ensures Fed("", ["data:" + value + "\r\r\n", "\n"]).payloads == [value]
    ensures Whole("data:" + value + "\r\r\n\n").payloads != [value]
  {
    InTwoChunks(value);
    InOneChunk(value);
  }

  lemma FirstOfTwo(line: string)
    requires '\r' !in line && '\n' !in line
    ensures Split(Normalized("" + (line + "\r\r\n"))) == Cut([], (line + "\r") + "\n")
  {
    assert "" + (line + "\r\r\n") == line + "\r\r\n";
    ShortNormals();
    NormalizedWithoutCr(line, "\r\r\n");
    assert line + "\r\n" == (line + "\r") + "\n";
    SplitLine(line + "\r");
  }

  lemma SecondOfTwo(line: string)
    requires '\r' !in line && '\n' !in line
    ensures Split(Normalized(((line + "\r") + "\n") + "\n")) == Cut([line], "")
  {
    assert ((line + "\r") + "\n") + "\n" == line + "\r\n\n";
    ShortNormals();
    NormalizedWithoutCr(line, "\r\n\n");
    SplitFrame(line, "");
    assert (line + "\n\n") + "" == line + "\n\n";
  }

  lemma InTwoChunks(value: string)
    requires PlainValue(value)
    ensures Fed("", ["data:" + value + "\r\r\n", "\n"]).payloads == [value]
  {
    var line := "data:" + value;
    FirstOfTwo(line);
    SecondOfTwo(line);
    DataOfLine(value);
    CollectOne(line);
    CollectFlush();
    assert Fed("", []) == Collected([], false);
    FedStep((line + "\r") + "\n", "\n", []);
    FedStep("", line + "\r\r\n", ["\n"]);
    assert [line + "\r\r\n", "\n"] == [line + "\r\r\n"] + ["\n"];
  }

  lemma FedStep(buffer: string, chunk: string, chunks: seq<string>)
    ensures var now := Collect(Split(Normalized(buffer + chunk)).frames);
      var later := Fed(Split(Normalized(buffer + chunk)).remainder, chunks);
      Fed(buffer, [chunk] + chunks) == if now.done then now else Collected(now.payloads + later.payloads, later.done)
  {
    assert ([chunk] + chunks)[1..] == chunks;
  }

  lemma CollectOne(frame: string)
    requires Data(frame) != "" && Data(frame) != DONE
    ensures Collect([frame]) == Collected([Data(frame)], false)
  {
    assert Collect([frame][1..]) == Collected([], false);
  }

  lemma CollectFlush()
    ensures Collect(Split(Normalized("" + "\n\n")).frames) == Collected([], false)
  {
    NormalizedBlankLine();
    assert "" + "\n\n" == "\n\n" && "\n\n"[2..] == "";
    assert Split("\n\n") == Cut([""], "");
    assert Collect([""][1..]) == Collected([], false);
    assert Lines("") == [""] && DataLines([""][1..]) == [];
  }

  lemma OneNormal(line: string)
    requires '\r' !in line
    ensures Normalized((line + "\r\r\n\n") + "\n\n") == line + "\r\n\n\n\n"
  {
    assert (line + "\r\r\n\n") + "\n\n" == line + "\r\r\n\n\n\n";
    ShortNormals();
    NormalizedWithoutCr(line, "\r\r\n\n\n\n");
  }

  lemma OneFrame(line: string)
    requires '\r' !in line && '\n' !in line
    ensures Split(Normalized((line + "\r\r\n\n") + "\n\n")).frames == [line + "\r"] + Split("\n\n").frames
  {
    OneNormal(line);
    assert line + "\r\n\n\n\n" == ((line + "\r") + "\n\n") + "\n\n";
    SplitFrame(line + "\r", "\n\n");
  }

  lemma InOneChunk(value: string)
    requires PlainValue(value)
    ensures Whole("data:" + value + "\r\r\n\n").payloads != [value]
  {
    var line := "data:" + value;
    OneFrame(line);
    DataOfLine(value + "\r");
    assert "data:" + (value + "\r") == line + "\r";
    assert (value + "\r")[|value|] == '\r' && DONE[|DONE| - 1] != '\r';
    FirstPayload(line + "\r", Split("\n\n").frames);
    assert |value + "\r"| != |value|;
  }

  lemma FirstPayload(frame: string, rest: seq<string>)
    requires Data(frame) != "" && Data(frame) != DONE
    ensures var c := Collect([frame] + rest); c.payloads != [] && c.payloads[0] == Data(frame)
  {
    assert ([frame] + rest)[1..] == rest;
  }
}
