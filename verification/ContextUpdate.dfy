/**
  What happens to the store around a merge: closing resolved items (`context_store.py`), extending
  the narrative without a model (`context_updater.py`) and the timeline rows of a source.
 */
module ContextUpdate {
  import opened Options
  import opened Ontology
  import opened Text
  import opened Extraction
  import opened ContextStore

  /** The model's claim that an item is finished, with its quotes. */
  datatype Resolution = Resolution(title: string, refs: seq<string>)

  /** `strip` and `squash` of `_grounded`, left uninterpreted. */
  datatype Quotes = Quotes(strip: string -> string, squash: string -> string)

  /** At least one non-blank quote, and every non-blank quote is in the text. */
  predicate Grounded(q: Quotes, resolution: Resolution, text: string) {
    && (exists ref :: ref in resolution.refs && q.strip(ref) != "")
    && forall ref :: ref in resolution.refs && q.strip(ref) != "" ==> Contains(q.squash(text), q.squash(ref))
  }

  datatype CloseWarning = NotFound(title: string) | NotGrounded(title: string)

  /** What an update reports: a quotation that is not in the text, or something about closing. */
  datatype UpdateWarning = Unverified(title: string) | Issues(warning: CloseWarning) | Actions(warning: CloseWarning)

  function RemovedAt(items: seq<Item>, i: nat): seq<Item>
    requires i < |items|
  {
    items[..i] + items[i + 1..]
  }

  /** The items after the resolutions, in order: each grounded one closes the first item of its key. */
  function Closed(q: Quotes, key: ItemKey, items: seq<Item>, resolutions: seq<Resolution>, text: string): seq<Item> {
    if resolutions == [] then items
    else
      var before, last := Closed(q, key, items, resolutions[..|resolutions| - 1], text), resolutions[|resolutions| - 1];
      var i := First(key, before, key(last.title));
      if i < |before| && Grounded(q, last, text) then RemovedAt(before, i) else before
  }

  /** What is reported for each resolution that closes nothing, in order. */
  function CloseWarnings(q: Quotes, key: ItemKey, items: seq<Item>, resolutions: seq<Resolution>,
                         text: string): seq<CloseWarning> {
    if resolutions == [] then []
    else
      var front, last := resolutions[..|resolutions| - 1], resolutions[|resolutions| - 1];
      var before, warnings := Closed(q, key, items, front, text), CloseWarnings(q, key, items, front, text);
      if First(key, before, key(last.title)) == |before| then warnings + [NotFound(last.title)]
      else if !Grounded(q, last, text) then warnings + [NotGrounded(last.title)]
      else warnings
  }

  method Close(q: Quotes, key: ItemKey, items: seq<Item>, resolutions: seq<Resolution>, text: string)
      returns (remaining: seq<Item>, warnings: seq<CloseWarning>)
    ensures remaining == Closed(q, key, items, resolutions, text)
    ensures warnings == CloseWarnings(q, key, items, resolutions, text)
    ensures |remaining| + |resolutions| == |items| + |warnings|
  {
    remaining, warnings := items, [];
    for n := 0 to |resolutions|
      invariant remaining == Closed(q, key, items, resolutions[..n], text)
      invariant warnings == CloseWarnings(q, key, items, resolutions[..n], text)
      invariant |remaining| + n == |items| + |warnings|
    {
      assert resolutions[..n + 1][..n] == resolutions[..n];
      var resolution := resolutions[n];
      var i := FindKey(key, remaining, key(resolution.title));
      if i == |remaining| {
        warnings := warnings + [NotFound(resolution.title)];
      } else if !Grounded(q, resolution, text) {
        warnings := warnings + [NotGrounded(resolution.title)];
      } else {
        // `remaining.remove(target)` takes the first equal item, and no earlier item has its key.
        remaining := RemovedAt(remaining, i);
      }
    }
    assert resolutions[..|resolutions|] == resolutions;
  }

  method FindKey(key: ItemKey, items: seq<Item>, k: string) returns (i: nat)
    ensures i == First(key, items, k)
  {
    for n := 0 to |items|
      invariant forall j :: 0 <= j < n ==> key(items[j].title) != k
    {
      if key(items[n].title) == k {
        FirstIs(key, items, k, n);
        return n;
      }
    }
    return |items|;
  }

  // -------------------------------------------------------------------------
  // A resolution without proof closes nothing.
  // -------------------------------------------------------------------------

  function Count(key: ItemKey, items: seq<Item>, k: string): nat {
    if items == [] then 0
    else Count(key, items[..|items| - 1], k) + if key(items[|items| - 1].title) == k then 1 else 0
  }

  /** How many grounded resolutions name a key. */
  function Granted(q: Quotes, key: ItemKey, resolutions: seq<Resolution>, text: string, k: string): nat {
    if resolutions == [] then 0
    else
      var last := resolutions[|resolutions| - 1];
      Granted(q, key, resolutions[..|resolutions| - 1], text, k)
      + if key(last.title) == k && Grounded(q, last, text) then 1 else 0
  }

  function GrantedKeys(q: Quotes, key: ItemKey, resolutions: seq<Resolution>, text: string): set<string> {
    set x | x in resolutions && Grounded(q, x, text) :: key(x.title)
  }

  lemma {:induction false} CountAppend(key: ItemKey, a: seq<Item>, b: seq<Item>, k: string)
    ensures Count(key, a + b, k) == Count(key, a, k) + Count(key, b, k)
  {
    if b == [] {
      assert a + b == a;
    } else {
      CountAppend(key, a, b[..|b| - 1], k);
      assert (a + b)[..|a + b| - 1] == a + b[..|b| - 1];
    }
  }

  lemma CountRemoved(key: ItemKey, items: seq<Item>, i: nat, k: string)
    requires i < |items|
    ensures Count(key, items, k) == Count(key, RemovedAt(items, i), k) + if key(items[i].title) == k then 1 else 0
  {
    assert items == (items[..i] + [items[i]]) + items[i + 1..];
    CountAppend(key, items[..i] + [items[i]], items[i + 1..], k);
    CountAppend(key, items[..i], [items[i]], k);
    CountAppend(key, items[..i], items[i + 1..], k);
    assert [items[i]][..0] == [];
    assert Count(key, [items[i]], k) == Count(key, [items[i]][..0], k) + if key(items[i].title) == k then 1 else 0;
  }

  lemma {:induction false} CountZero(key: ItemKey, items: seq<Item>, k: string)
    ensures Count(key, items, k) == 0 <==> First(key, items, k) == |items|
  {
    if items != [] {
      var front, x := items[..|items| - 1], items[|items| - 1];
      CountZero(key, front, k);
      if First(key, front, k) < |front| {
        FirstIs(key, items, k, First(key, front, k));
      } else if key(x.title) == k {
        FirstIs(key, items, k, |front|);
      }
    }
  }

  /** A key loses exactly as many items as grounded resolutions name it, as far as there are any. */
  lemma {:induction false} ClosingCounts(q: Quotes, key: ItemKey, items: seq<Item>, resolutions: seq<Resolution>,
                                         text: string, k: string)
    ensures Count(key, Closed(q, key, items, resolutions, text), k) ==
      var kept := Count(key, items, k) - Granted(q, key, resolutions, text, k);
      if kept < 0 then 0 else kept
  {
    if resolutions != [] {
      var front, last := resolutions[..|resolutions| - 1], resolutions[|resolutions| - 1];
      ClosingCounts(q, key, items, front, text, k);
      var before := Closed(q, key, items, front, text);
      var i := First(key, before, key(last.title));
      CountZero(key, before, k);
      if i < |before| {
        CountRemoved(key, before, i, k);
      }
    }
  }

  lemma RemovingKeepsTheRest(key: ItemKey, items: seq<Item>, i: nat, drop: set<string>)
    requires i < |items| && key(items[i].title) in drop
    ensures Without(key, RemovedAt(items, i), drop) == Without(key, items, drop)
  {
    WithoutSplit(key, items, i, drop);
    WithoutAppend(key, items[..i], items[i + 1..], drop);
  }

  /** Items no grounded resolution names keep value and order. */
  lemma {:induction false} ClosingKeepsTheRest(q: Quotes, key: ItemKey, items: seq<Item>, resolutions: seq<Resolution>,
                                               text: string, granted: set<string>)
    requires GrantedKeys(q, key, resolutions, text) <= granted
    ensures Without(key, Closed(q, key, items, resolutions, text), granted) == Without(key, items, granted)
  {
    if resolutions != [] {
      var front, last := resolutions[..|resolutions| - 1], resolutions[|resolutions| - 1];
      assert forall x :: x in front ==> x in resolutions;
      ClosingKeepsTheRest(q, key, items, front, text, granted);
      var before := Closed(q, key, items, front, text);
      var i := First(key, before, key(last.title));
      if i < |before| && Grounded(q, last, text) {
        assert last in resolutions && key(last.title) in granted;
        RemovingKeepsTheRest(key, before, i, granted);
      }
    }
  }

  // -------------------------------------------------------------------------
  // The update with a model's output.
  // -------------------------------------------------------------------------

  datatype ModelOutput = ModelOutput(summary: string, currentState: string, resolvedIssues: seq<Resolution>,
                                     completedActions: seq<Resolution>)

  function OrElse(text: string, otherwise: string): string {
    if text != "" then text else otherwise
  }

  function UpdatedByModel(q: Quotes, norm: NameKey, s: State, r: Result, sid: string, output: ModelOutput,
                          text: string): State {
    var m := Merged(norm, s, r, sid);
    m.(openIssues := Closed(q, KeyFor(norm, Issue), m.openIssues, output.resolvedIssues, text),
       nextActions := Closed(q, KeyFor(norm, Task), m.nextActions, output.completedActions, text),
       summary := OrElse(q.strip(output.summary), s.summary),
       currentState := OrElse(q.strip(output.currentState), s.currentState))
  }

  /** A quotation `unverified_refs` reports: it is not blank, and not in the text. */
  predicate IsUnverified(q: Quotes, text: string, ref: string) {
    q.squash(ref) != "" && !Contains(q.squash(text), q.squash(ref))
  }

  /** One report for each such quotation of an item. */
  function UnverifiedOf(q: Quotes, text: string, title: string, refs: seq<string>): seq<UpdateWarning> {
    if refs == [] then []
    else
      var front, last := UnverifiedOf(q, text, title, refs[..|refs| - 1]), refs[|refs| - 1];
      if IsUnverified(q, text, last) then front + [Unverified(title)] else front
  }

  /** Only the source's own items can be checked against its text. */
  function UnverifiedRefs(q: Quotes, text: string, sid: string, items: seq<Item>): seq<UpdateWarning> {
    if items == [] then []
    else
      var front, last := UnverifiedRefs(q, text, sid, items[..|items| - 1]), items[|items| - 1];
      if last.sourceId == sid then front + UnverifiedOf(q, text, last.title, last.refs) else front
  }

  function Labelled(warnings: seq<CloseWarning>, issues: bool): seq<UpdateWarning> {
    seq(|warnings|, i requires 0 <= i < |warnings| => if issues then Issues(warnings[i]) else Actions(warnings[i]))
  }

  /** All reports of an update: the quotations of what is left open or decided, then the two closings. */
  function UpdateWarnings(q: Quotes, norm: NameKey, s: State, r: Result, sid: string, output: ModelOutput,
                          text: string): seq<UpdateWarning> {
    var m, out := Merged(norm, s, r, sid), UpdatedByModel(q, norm, s, r, sid, output, text);
    UnverifiedRefs(q, text, sid, out.openIssues + out.decisions + out.nextActions)
    + Labelled(CloseWarnings(q, KeyFor(norm, Issue), m.openIssues, output.resolvedIssues, text), true)
    + Labelled(CloseWarnings(q, KeyFor(norm, Task), m.nextActions, output.completedActions, text), false)
  }

  method FindUnverified(q: Quotes, text: string, sid: string, items: seq<Item>) returns (warnings: seq<UpdateWarning>)
    ensures warnings == UnverifiedRefs(q, text, sid, items)
  {
    warnings := [];
    for i := 0 to |items|
      invariant warnings == UnverifiedRefs(q, text, sid, items[..i])
    {
      assert items[..i + 1][..i] == items[..i];
      if items[i].sourceId == sid {
        ghost var before := warnings;
        var refs := items[i].refs;
        for j := 0 to |refs|
          invariant warnings == before + UnverifiedOf(q, text, items[i].title, refs[..j])
        {
          assert refs[..j + 1][..j] == refs[..j];
          if IsUnverified(q, text, refs[j]) {
            warnings := warnings + [Unverified(items[i].title)];
          }
        }
        assert refs[..|refs|] == refs;
      }
    }
    assert items[..|items|] == items;
  }

  method Update(q: Quotes, norm: NameKey, s: State, r: Result, sid: string, output: ModelOutput, text: string)
      returns (out: State, warnings: seq<UpdateWarning>)
    ensures out == UpdatedByModel(q, norm, s, r, sid, output, text)
    ensures warnings == UpdateWarnings(q, norm, s, r, sid, output, text)
  {
    out := MergeExtraction(norm, s, r, sid);
    var issues, issueWarnings := Close(q, KeyFor(norm, Issue), out.openIssues, output.resolvedIssues, text);
    var actions, actionWarnings := Close(q, KeyFor(norm, Task), out.nextActions, output.completedActions, text);
    out := out.(openIssues := issues, nextActions := actions,
                summary := OrElse(q.strip(output.summary), s.summary),
                currentState := OrElse(q.strip(output.currentState), s.currentState));
    var unverified := FindUnverified(q, text, sid, out.openIssues + out.decisions + out.nextActions);
    warnings := unverified + Labelled(issueWarnings, true) + Labelled(actionWarnings, false);
  }

  predicate ReportedFor(q: Quotes, text: string, sid: string, item: Item) {
    item.sourceId == sid && exists ref :: ref in item.refs && IsUnverified(q, text, ref)
  }

  lemma {:induction false} UnverifiedOfIs(q: Quotes, text: string, title: string, refs: seq<string>)
    ensures forall w :: w in UnverifiedOf(q, text, title, refs) ==> w == Unverified(title)
    ensures UnverifiedOf(q, text, title, refs) != [] <==> exists ref :: ref in refs && IsUnverified(q, text, ref)
  {
    if refs != [] {
      UnverifiedOfIs(q, text, title, refs[..|refs| - 1]);
      assert refs == refs[..|refs| - 1] + [refs[|refs| - 1]];
    }
  }

  /** An update reports a title exactly when an own item of that title quotes what the source does not say. */
  lemma {:induction false} UnverifiedExactly(q: Quotes, text: string, sid: string, items: seq<Item>, w: UpdateWarning)
    ensures w in UnverifiedRefs(q, text, sid, items) <==>
      w.Unverified? && exists item :: item in items && item.title == w.title && ReportedFor(q, text, sid, item)
  {
    if items != [] {
      var front, last := items[..|items| - 1], items[|items| - 1];
      assert items == front + [last];
      UnverifiedExactly(q, text, sid, front, w);
      UnverifiedOfIs(q, text, last.title, last.refs);
      var more := UnverifiedOf(q, text, last.title, last.refs);
      if last.sourceId == sid && more != [] {
        assert more[0] in more;
      }
    }
  }

  /** Whatever the model answers, the decisions are the merged ones, and an open item goes only with proof. */
  lemma ModelOnlyClosesWithProof(q: Quotes, norm: NameKey, s: State, r: Result, sid: string, output: ModelOutput,
                                 text: string)
    ensures var m, out := Merged(norm, s, r, sid), UpdatedByModel(q, norm, s, r, sid, output, text);
            var issues := GrantedKeys(q, KeyFor(norm, Issue), output.resolvedIssues, text);
            var actions := GrantedKeys(q, KeyFor(norm, Task), output.completedActions, text);
            && out.decisions == m.decisions && out.sourceIds == m.sourceIds && out.subject == s.subject
            && Without(KeyFor(norm, Issue), out.openIssues, issues)
                 == Without(KeyFor(norm, Issue), m.openIssues, issues)
            && Without(KeyFor(norm, Task), out.nextActions, actions)
                 == Without(KeyFor(norm, Task), m.nextActions, actions)
  {
    var m := Merged(norm, s, r, sid);
    ClosingKeepsTheRest(q, KeyFor(norm, Issue), m.openIssues, output.resolvedIssues, text,
                        GrantedKeys(q, KeyFor(norm, Issue), output.resolvedIssues, text));
    ClosingKeepsTheRest(q, KeyFor(norm, Task), m.nextActions, output.completedActions, text,
                        GrantedKeys(q, KeyFor(norm, Task), output.completedActions, text));
  }

  // -------------------------------------------------------------------------
  // The update without a model.
  // -------------------------------------------------------------------------

  const MAX_SUMMARY_CHARS := 20_000

  /** The stripped bodies of the summary contexts that are not blank. */
  function Summaries(strip: string -> string, contexts: seq<ExtractedContext>): seq<string> {
    if contexts == [] then []
    else if contexts[0].kind == SummaryContext && strip(contexts[0].body) != "" then
      [strip(contexts[0].body)] + Summaries(strip, contexts[1..])
    else Summaries(strip, contexts[1..])
  }

  function Combined(summary: string, title: string, addition: string): string {
    (if summary != "" then summary + "\n\n" else "") + title + ": " + addition
  }

  /** There is a new summary, and it does not fit behind the old ones. */
  predicate WouldOverflow(strip: string -> string, s: State, r: Result, title: string) {
    var summaries := Summaries(strip, r.contexts);
    summaries != [] && !Contains(s.summary, summaries[0])
      && |Combined(s.summary, title, summaries[0])| > MAX_SUMMARY_CHARS
  }

  function KeylessUpdated(strip: string -> string, norm: NameKey, s: State, r: Result, sid: string,
                          title: string): State {
    var m, summaries := Merged(norm, s, r, sid), Summaries(strip, r.contexts);
    if summaries == [] then m
    else
      var fits := !Contains(s.summary, summaries[0]) && |Combined(s.summary, title, summaries[0])| <= MAX_SUMMARY_CHARS;
      m.(summary := if fits then Combined(s.summary, title, summaries[0]) else s.summary,
         currentState := if s.currentState == "" then summaries[0] else s.currentState)
  }

  method KeylessUpdate(strip: string -> string, norm: NameKey, s: State, r: Result, sid: string, title: string)
      returns (merged: State, full: bool)
    ensures merged == KeylessUpdated(strip, norm, s, r, sid, title)
    ensures full <==> WouldOverflow(strip, s, r, title)
  {
    merged := MergeExtraction(norm, s, r, sid);
    full := false;
    var summaries := [];
    for i := 0 to |r.contexts|
      invariant Summaries(strip, r.contexts) == summaries + Summaries(strip, r.contexts[i..])
    {
      assert r.contexts[i..][1..] == r.contexts[i + 1..];
      var body := strip(r.contexts[i].body);
      if r.contexts[i].kind == SummaryContext && body != "" {
        summaries := summaries + [body];
      }
    }
    if summaries != [] && !Contains(s.summary, summaries[0]) {
      var combined := Combined(s.summary, title, summaries[0]);
      if |combined| <= MAX_SUMMARY_CHARS {
        merged := merged.(summary := combined);
      } else {
        full := true;
      }
    }
    if s.currentState == "" && summaries != [] {
      merged := merged.(currentState := summaries[0]);
    }
  }

  lemma {:induction false} SummariesNotBlank(strip: string -> string, contexts: seq<ExtractedContext>)
    ensures forall x :: x in Summaries(strip, contexts) ==> x != ""
  {
    if contexts != [] {
      SummariesNotBlank(strip, contexts[1..]);
    }
  }

  lemma ContainsAtEnd(front: string, tail: string)
    ensures Contains(front + tail, tail)
  {
    assert (front + tail)[|front|..] == tail;
  }

  /** The earlier narrative is never lost, never outgrows its limit by this step, and a rerun adds nothing. */
  lemma KeylessUpdateKeepsNarrative(strip: string -> string, norm: NameKey, s: State, r: Result, sid: string,
                                    title: string)
    ensures var once := KeylessUpdated(strip, norm, s, r, sid, title);
            && s.summary <= once.summary && (once.summary == s.summary || |once.summary| <= MAX_SUMMARY_CHARS)
            && (s.currentState != "" ==> once.currentState == s.currentState)
            && KeylessUpdated(strip, norm, once, r, sid, title) == once
  {
    var once, summaries := KeylessUpdated(strip, norm, s, r, sid, title), Summaries(strip, r.contexts);
    SummariesNotBlank(strip, r.contexts);
    MergeKeepsNarrative(norm, s, r, sid, once.summary, once.currentState);
    MergeIsIdempotent(norm, s, r, sid);
    if summaries != [] {
      ContainsAtEnd((if s.summary != "" then s.summary + "\n\n" else "") + title + ": ", summaries[0]);
      assert s.summary <= Combined(s.summary, title, summaries[0]);
    }
  }

  lemma MergeKeepsNarrative(norm: NameKey, s: State, r: Result, sid: string, summary: string, current: string)
    ensures var m := Merged(norm, s, r, sid);
            Merged(norm, m.(summary := summary, currentState := current), r, sid)
              == Merged(norm, m, r, sid).(summary := summary, currentState := current)
  {}

  // -------------------------------------------------------------------------
  // Timeline rows.
  // -------------------------------------------------------------------------

  function TimelineKind(kind: EntityKind): Option<ContextKind> {
    match kind
    case Decision => Some(DecisionContext)
    case Issue => Some(IssueContext)
    case Task => Some(TaskContext)
    case Meeting => Some(EventContext)
    case Event => Some(EventContext)
    case _ => None
  }

  /** `key` and `supersedes` are what the row remembers of the event's identity. */
  datatype Row = Row(kind: ContextKind, key: string, supersedes: Option<string>, event: ExtractedEvent)

  function RowKeys(rows: seq<Row>): set<(ContextKind, string)> {
    set r | r in rows :: (r.kind, r.key)
  }

  function RowOf(norm: NameKey, kind: ContextKind, e: ExtractedEvent): Row {
    var key := norm(e.name, e.kind);
    Row(kind, key,
        if e.Replaces() && norm(e.supersedes.value, Decision) != key
          then Some(norm(e.supersedes.value, Decision)) else None,
        e)
  }

  predicate NewRow(norm: NameKey, rows: seq<Row>, e: ExtractedEvent) {
    TimelineKind(e.kind).Some? && (TimelineKind(e.kind).value, norm(e.name, e.kind)) !in RowKeys(rows)
  }

  method TimelineRecords(norm: NameKey, events: seq<ExtractedEvent>) returns (rows: seq<Row>)
    ensures rows == Timeline(norm, events)
  {
    rows := [];
    var seen: set<(ContextKind, string)> := {};
    for i := 0 to |events|
      invariant rows == Timeline(norm, events[..i]) && seen == RowKeys(rows)
    {
      assert events[..i + 1][..i] == events[..i];
      var kind := TimelineKind(events[i].kind);
      if kind.Some? && (kind.value, norm(events[i].name, events[i].kind)) !in seen {
        RowKeysSnoc(rows, RowOf(norm, kind.value, events[i]));
        rows := rows + [RowOf(norm, kind.value, events[i])];
        seen := seen + {(kind.value, norm(events[i].name, events[i].kind))};
      }
    }
    assert events[..|events|] == events;
  }

  lemma RowKeysSnoc(rows: seq<Row>, row: Row)
    ensures RowKeys(rows + [row]) == RowKeys(rows) + {(row.kind, row.key)}
  {
    assert row in rows + [row];
    forall k | k in RowKeys(rows) ensures k in RowKeys(rows + [row]) {
      var x :| x in rows && (x.kind, x.key) == k;
      assert x in rows + [row];
    }
  }

  function Timeline(norm: NameKey, events: seq<ExtractedEvent>): seq<Row> {
    if events == [] then []
    else
      var front, e := Timeline(norm, events[..|events| - 1]), events[|events| - 1];
      if NewRow(norm, front, e) then front + [RowOf(norm, TimelineKind(e.kind).value, e)] else front
  }

  /** One row per timeline kind and key, for every event that has one; no row replaces itself. */
  lemma {:induction false} TimelineIsKeyed(norm: NameKey, events: seq<ExtractedEvent>)
    ensures var rows := Timeline(norm, events);
            && (forall i, j :: 0 <= i < j < |rows| ==> (rows[i].kind, rows[i].key) != (rows[j].kind, rows[j].key))
            && (forall k :: k in RowKeys(rows) <==>
                 exists e :: e in events && TimelineKind(e.kind) == Some(k.0) && norm(e.name, e.kind) == k.1)
            && forall row :: row in rows ==> row.event in events && row.supersedes != Some(row.key)
  {
    if events != [] {
      var rest, e := events[..|events| - 1], events[|events| - 1];
      TimelineIsKeyed(norm, rest);
      var front := Timeline(norm, rest);
      assert events == rest + [e];
      if NewRow(norm, front, e) {
        var row := RowOf(norm, TimelineKind(e.kind).value, e);
        RowKeysSnoc(front, row);
        forall i | 0 <= i < |front| ensures (front[i].kind, front[i].key) != (row.kind, row.key) {
          assert front[i] in front;
        }
      }
    }
  }
}
