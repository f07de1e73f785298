/**
  The context store (`context_store.py`, `context_updater.py`): items merged by key, superseded
  decisions taken out, resolved items closed, and the narrative extended.
 */
module ContextStore {
  import opened Options
  import opened Ontology
  import opened Extraction

  /** What decisions and actions carry beyond a plain item. */
  datatype Detail =
    | Plain
    | Decided(at: Option<string>)
    | Todo(assignee: Option<string>, dueAt: Option<string>)

  datatype Item = Item(title: string, description: string, refs: seq<string>, sourceId: string, detail: Detail)

  datatype State = State(
    subject: string,
    summary: string,
    currentState: string,
    openIssues: seq<Item>,
    decisions: seq<Item>,
    nextActions: seq<Item>,
    sourceIds: seq<string>)

  /** `item_key` for items of one kind. */
  type ItemKey = string -> string

  function KeysOf(key: ItemKey, items: seq<Item>): set<string> {
    set i | i in items :: key(i.title)
  }

  /** Position of the first item with a key, or the length. */
  function First(key: ItemKey, items: seq<Item>, k: string): (r: nat)
    ensures r <= |items| && (r < |items| ==> key(items[r].title) == k)
    ensures forall i :: 0 <= i < r ==> key(items[i].title) != k
  {
    if items == [] || key(items[0].title) == k then 0 else 1 + First(key, items[1..], k)
  }

  function Upserted(key: ItemKey, items: seq<Item>, item: Item): seq<Item> {
    var i := First(key, items, key(item.title));
    if i < |items| then items[i := item] else items + [item]
  }

  function UpsertedAll(key: ItemKey, items: seq<Item>, news: seq<Item>): seq<Item> {
    if news == [] then items
    else Upserted(key, UpsertedAll(key, items, news[..|news| - 1]), news[|news| - 1])
  }

  /** The items whose key is not in `drop`, in order. */
  function Without(key: ItemKey, items: seq<Item>, drop: set<string>): seq<Item> {
    if items == [] then []
    else if key(items[|items| - 1].title) in drop then Without(key, items[..|items| - 1], drop)
    else Without(key, items[..|items| - 1], drop) + [items[|items| - 1]]
  }

  method Upsert(key: ItemKey, items: seq<Item>, item: Item) returns (out: seq<Item>)
    ensures out == Upserted(key, items, item)
  {
    var k := key(item.title);
    for i := 0 to |items|
      invariant forall j :: 0 <= j < i ==> key(items[j].title) != k
    {
      if key(items[i].title) == k {
        return items[i := item];
      }
    }
    return items + [item];
  }

  // -------------------------------------------------------------------------
  // `merge_extraction`
  // -------------------------------------------------------------------------

  function DecisionItem(e: ExtractedEvent, sid: string): Item {
    Item(e.name, e.description, e.refs, sid, Decided(e.occurredAt))
  }

  function IssueItem(e: ExtractedEvent, sid: string): Item {
    Item(e.name, e.description, e.refs, sid, Plain)
  }

  /** The person a task is assigned to, by the first assignment relation that names both. */
  function AssigneeOf(r: Result, rs: seq<ExtractedRelation>, task: string): Option<string> {
    if rs == [] then None
    else if rs[0].kind == AssignedTo && rs[0].source == task && IsPerson(r, rs[0].target) then Some(rs[0].target)
    else if rs[0].kind == AssignedTo && rs[0].target == task && IsPerson(r, rs[0].source) then Some(rs[0].source)
    else AssigneeOf(r, rs[1..], task)
  }

  predicate IsPerson(r: Result, name: string) {
    exists e :: e in r.entities && e.kind == Person && e.name == name
  }

  function ActionItem(r: Result, e: ExtractedEvent, sid: string): Item {
    Item(e.name, e.description, e.refs, sid, Todo(AssigneeOf(r, r.relations, e.name), e.dueAt))
  }

  function ItemOf(r: Result, e: ExtractedEvent, sid: string): Item {
    if e.kind == Decision then DecisionItem(e, sid)
    else if e.kind == Issue then IssueItem(e, sid)
    else ActionItem(r, e, sid)
  }

  /** The store items of the events of one kind, in order. */
  function News(r: Result, events: seq<ExtractedEvent>, kind: EntityKind, sid: string): seq<Item> {
    if events == [] then []
    else if events[|events| - 1].kind != kind then News(r, events[..|events| - 1], kind, sid)
    else News(r, events[..|events| - 1], kind, sid) + [ItemOf(r, events[|events| - 1], sid)]
  }

  function KeyFor(norm: NameKey, kind: EntityKind): ItemKey {
    name => norm(name, kind)
  }

  /** The keys of decisions replaced by a differently named one. */
  function Replaced(norm: NameKey, events: seq<ExtractedEvent>): set<string> {
    set e | e in events && e.Replaces() && norm(e.supersedes.value, Decision) != norm(e.name, Decision)
      :: norm(e.supersedes.value, Decision)
  }

  function Merged(norm: NameKey, s: State, r: Result, sid: string): State {
    s.(decisions := Without(KeyFor(norm, Decision),
                            UpsertedAll(KeyFor(norm, Decision), s.decisions, News(r, r.events, Decision, sid)),
                            Replaced(norm, r.events)),
       openIssues := UpsertedAll(KeyFor(norm, Issue), s.openIssues, News(r, r.events, Issue, sid)),
       nextActions := UpsertedAll(KeyFor(norm, Task), s.nextActions, News(r, r.events, Task, sid)),
       sourceIds := if sid in s.sourceIds then s.sourceIds else s.sourceIds + [sid])
  }

  /** The three lists after the first `i` events have been upserted. */
  ghost predicate UpsertedUpTo(norm: NameKey, s: State, m: State, r: Result, sid: string, i: nat)
    requires i <= |r.events|
  {
    && m.decisions == UpsertedAll(KeyFor(norm, Decision), s.decisions, News(r, r.events[..i], Decision, sid))
    && m.openIssues == UpsertedAll(KeyFor(norm, Issue), s.openIssues, News(r, r.events[..i], Issue, sid))
    && m.nextActions == UpsertedAll(KeyFor(norm, Task), s.nextActions, News(r, r.events[..i], Task, sid))
    && m == s.(decisions := m.decisions, openIssues := m.openIssues, nextActions := m.nextActions)
  }

  lemma NewsSnoc(key: ItemKey, items: seq<Item>, r: Result, i: nat, kind: EntityKind, sid: string)
    requires i < |r.events|
    ensures UpsertedAll(key, items, News(r, r.events[..i + 1], kind, sid)) ==
      var before := UpsertedAll(key, items, News(r, r.events[..i], kind, sid));
      if r.events[i].kind == kind then Upserted(key, before, ItemOf(r, r.events[i], sid)) else before
  {
    assert r.events[..i + 1][..i] == r.events[..i];
    var news := News(r, r.events[..i], kind, sid);
    if r.events[i].kind == kind {
      assert News(r, r.events[..i + 1], kind, sid) == news + [ItemOf(r, r.events[i], sid)];
      UpsertedSnoc(key, items, news, ItemOf(r, r.events[i], sid));
    }
  }

  lemma UpsertedSnoc(key: ItemKey, items: seq<Item>, news: seq<Item>, x: Item)
    ensures UpsertedAll(key, items, news + [x]) == Upserted(key, UpsertedAll(key, items, news), x)
  {
    assert (news + [x])[..|news|] == news;
  }

  method UpsertEvent(norm: NameKey, m: State, r: Result, e: ExtractedEvent, sid: string) returns (next: State)
    ensures next == match e.kind
      case Decision => m.(decisions := Upserted(KeyFor(norm, Decision), m.decisions, ItemOf(r, e, sid)))
      case Issue => m.(openIssues := Upserted(KeyFor(norm, Issue), m.openIssues, ItemOf(r, e, sid)))
      case Task => m.(nextActions := Upserted(KeyFor(norm, Task), m.nextActions, ItemOf(r, e, sid)))
      case _ => m
  {
    next := m;
    if e.kind == Decision {
      var items := Upsert(KeyFor(norm, Decision), m.decisions, DecisionItem(e, sid));
      next := m.(decisions := items);
    } else if e.kind == Issue {
      var items := Upsert(KeyFor(norm, Issue), m.openIssues, IssueItem(e, sid));
      next := m.(openIssues := items);
    } else if e.kind == Task {
      var items := Upsert(KeyFor(norm, Task), m.nextActions, ActionItem(r, e, sid));
      next := m.(nextActions := items);
    }
  }

  method DropKey(key: ItemKey, items: seq<Item>, k: string) returns (out: seq<Item>)
    ensures out == Without(key, items, {k})
  {
    out := [];
    for i := 0 to |items|
      invariant out == Without(key, items[..i], {k})
    {
      assert items[..i + 1][..i] == items[..i];
      if key(items[i].title) != k {
        out := out + [items[i]];
      }
    }
    assert items[..|items|] == items;
  }

  method DropReplaced(norm: NameKey, decisions: seq<Item>, events: seq<ExtractedEvent>) returns (out: seq<Item>)
    ensures out == Without(KeyFor(norm, Decision), decisions, Replaced(norm, events))
  {
    out := decisions;
    WithoutNone(KeyFor(norm, Decision), decisions);
    assert Replaced(norm, events[..0]) == {};
    for i := 0 to |events|
      invariant out == Without(KeyFor(norm, Decision), decisions, Replaced(norm, events[..i]))
    {
      ReplacedSnoc(norm, events, i);
      assert Replaced(norm, events[..i]) + {} == Replaced(norm, events[..i]);
      if events[i].Replaces() {
        var replaced := norm(events[i].supersedes.value, Decision);
        if replaced != norm(events[i].name, Decision) {
          WithoutTwice(KeyFor(norm, Decision), decisions, Replaced(norm, events[..i]), {replaced});
          out := DropKey(KeyFor(norm, Decision), out, replaced);
        }
      }
    }
    assert events[..|events|] == events;
  }

  lemma ReplacedSnoc(norm: NameKey, events: seq<ExtractedEvent>, i: nat)
    requires i < |events|
    ensures Replaced(norm, events[..i + 1]) == Replaced(norm, events[..i]) + Replaced(norm, [events[i]])
    ensures Replaced(norm, [events[i]]) ==
      if events[i].Replaces() && norm(events[i].supersedes.value, Decision) != norm(events[i].name, Decision)
      then {norm(events[i].supersedes.value, Decision)} else {}
  {
    assert events[..i + 1] == events[..i] + [events[i]];
    if events[i].Replaces() {
      assert events[i] in [events[i]];
    }
  }

  lemma {:induction false} WithoutNone(key: ItemKey, items: seq<Item>)
    ensures Without(key, items, {}) == items
  {
    if items != [] {
      WithoutNone(key, items[..|items| - 1]);
    }
  }

  lemma {:induction false} WithoutTwice(key: ItemKey, items: seq<Item>, a: set<string>, b: set<string>)
    ensures Without(key, Without(key, items, a), b) == Without(key, items, a + b)
  {
    if items != [] {
      var front, x := items[..|items| - 1], items[|items| - 1];
      WithoutTwice(key, front, a, b);
      if key(x.title) !in a {
        WithoutSnoc(key, Without(key, front, a), x, b);
      }
    }
  }

  lemma WithoutSnoc(key: ItemKey, items: seq<Item>, x: Item, drop: set<string>)
    ensures Without(key, items + [x], drop)
         == if key(x.title) in drop then Without(key, items, drop) else Without(key, items, drop) + [x]
  {
    assert (items + [x])[..|items|] == items;
  }

  method MergeExtraction(norm: NameKey, s: State, r: Result, sid: string) returns (merged: State)
    ensures merged == Merged(norm, s, r, sid)
  {
    merged := s;
    for i := 0 to |r.events|
      invariant UpsertedUpTo(norm, s, merged, r, sid, i)
    {
      NewsSnoc(KeyFor(norm, Decision), s.decisions, r, i, Decision, sid);
      NewsSnoc(KeyFor(norm, Issue), s.openIssues, r, i, Issue, sid);
      NewsSnoc(KeyFor(norm, Task), s.nextActions, r, i, Task, sid);
      merged := UpsertEvent(norm, merged, r, r.events[i], sid);
    }
    assert r.events[..|r.events|] == r.events;
    var decisions := DropReplaced(norm, merged.decisions, r.events);
    merged := merged.(decisions := decisions);
    if sid !in merged.sourceIds {
      merged := merged.(sourceIds := merged.sourceIds + [sid]);
    }
  }

  // -------------------------------------------------------------------------
  // Merging the same source twice changes nothing.
  // -------------------------------------------------------------------------

  /** The last of `news` with a key, if any. */
  function Latest(key: ItemKey, news: seq<Item>, k: string): (r: Option<Item>)
    ensures r.Some? <==> k in KeysOf(key, news)
    ensures r.Some? ==> key(r.value.title) == k
  {
    if news == [] then None
    else
      assert news == news[..|news| - 1] + [news[|news| - 1]];
      if key(news[|news| - 1].title) == k then Some(news[|news| - 1]) else Latest(key, news[..|news| - 1], k)
  }

  predicate IsFirst(key: ItemKey, items: seq<Item>, i: nat) {
    i < |items| && First(key, items, key(items[i].title)) == i
  }

  function OverlaidAt(key: ItemKey, items: seq<Item>, news: seq<Item>, i: nat): (r: Item)
    requires i < |items|
    ensures key(r.title) == key(items[i].title)
  {
    var latest := Latest(key, news, key(items[i].title));
    if latest.Some? && IsFirst(key, items, i) then latest.value else items[i]
  }

  /** `items` with the first item of every key of `news` replaced by the latest news of that key. */
  function Overlaid(key: ItemKey, items: seq<Item>, news: seq<Item>): (r: seq<Item>)
    ensures |r| == |items| && forall i :: 0 <= i < |items| ==> r[i] == OverlaidAt(key, items, news, i)
  {
    seq(|items|, i requires 0 <= i < |items| => OverlaidAt(key, items, news, i))
  }

  lemma {:induction false} FirstOfSameKeys(key: ItemKey, a: seq<Item>, b: seq<Item>, k: string)
    requires |a| == |b| && forall i :: 0 <= i < |a| ==> key(a[i].title) == key(b[i].title)
    ensures First(key, a, k) == First(key, b, k)
  {
    if a != [] && key(a[0].title) != k {
      FirstOfSameKeys(key, a[1..], b[1..], k);
    }
  }

  lemma FirstFinds(key: ItemKey, items: seq<Item>, k: string)
    ensures k in KeysOf(key, items) <==> First(key, items, k) < |items|
  {
    if i :| 0 <= i < |items| && key(items[i].title) == k {
      assert items[i] in items;
    }
    if First(key, items, k) < |items| {
      assert items[First(key, items, k)] in items;
    }
  }

  /** When every key is present, upserting overlays. */
  lemma {:induction false} UpsertingOverlays(key: ItemKey, items: seq<Item>, news: seq<Item>)
    requires KeysOf(key, news) <= KeysOf(key, items)
    ensures UpsertedAll(key, items, news) == Overlaid(key, items, news)
  {
    if news != [] {
      var front, x := news[..|news| - 1], news[|news| - 1];
      assert news == front + [x] && x in news;
      UpsertingOverlays(key, items, front);
      var before := Overlaid(key, items, front);
      FirstOfSameKeys(key, before, items, key(x.title));
      assert key(x.title) in KeysOf(key, items);
      FirstFinds(key, items, key(x.title));
      OverlaidSnoc(key, items, front, x);
    }
  }

  lemma OverlaidSnoc(key: ItemKey, items: seq<Item>, front: seq<Item>, x: Item)
    requires First(key, items, key(x.title)) < |items|
    ensures Overlaid(key, items, front)[First(key, items, key(x.title)) := x] == Overlaid(key, items, front + [x])
  {
    var at := First(key, items, key(x.title));
    forall i | 0 <= i < |items|
      ensures OverlaidAt(key, items, front + [x], i) == if i == at then x else OverlaidAt(key, items, front, i)
    {
      LatestSnoc(key, front, x, key(items[i].title));
    }
  }

  lemma LatestSnoc(key: ItemKey, front: seq<Item>, x: Item, k: string)
    ensures Latest(key, front + [x], k) == if key(x.title) == k then Some(x) else Latest(key, front, k)
  {
    assert (front + [x])[..|front|] == front;
  }

  lemma KeysAfterUpsert(key: ItemKey, items: seq<Item>, x: Item)
    ensures KeysOf(key, Upserted(key, items, x)) == KeysOf(key, items) + {key(x.title)}
  {
    var k, out := First(key, items, key(x.title)), Upserted(key, items, x);
    assert out[k] == x && x in out;
    forall y | y in KeysOf(key, items) ensures y in KeysOf(key, out) {
      var i :| 0 <= i < |items| && key(items[i].title) == y;
      assert key(out[i].title) == y && out[i] in out;
    }
    forall y | y in KeysOf(key, out) ensures y in KeysOf(key, items) + {key(x.title)} {
      var i :| 0 <= i < |out| && key(out[i].title) == y;
      assert i == k || (out[i] == items[i] && items[i] in items);
    }
  }

  lemma {:induction false} KeysAfterUpsertAll(key: ItemKey, items: seq<Item>, news: seq<Item>)
    ensures KeysOf(key, UpsertedAll(key, items, news)) == KeysOf(key, items) + KeysOf(key, news)
  {
    if news != [] {
      var front, x := news[..|news| - 1], news[|news| - 1];
      KeysAfterUpsertAll(key, items, front);
      KeysAfterUpsert(key, UpsertedAll(key, items, front), x);
      KeysSnoc(key, front, x);
      assert news == front + [x];
    }
  }

  lemma KeysSnoc(key: ItemKey, items: seq<Item>, x: Item)
    ensures KeysOf(key, items + [x]) == KeysOf(key, items) + {key(x.title)}
  {
    assert x in items + [x];
    forall y | y in KeysOf(key, items) ensures y in KeysOf(key, items + [x]) {
      var i :| i in items && key(i.title) == y;
      assert i in items + [x];
    }
  }

  /** After upserting, the first item of every new key is the latest news of that key. */
  lemma {:induction false} LatestIsStored(key: ItemKey, items: seq<Item>, news: seq<Item>, k: string)
    requires k in KeysOf(key, news)
    ensures var out := UpsertedAll(key, items, news);
            First(key, out, k) < |out| && out[First(key, out, k)] == Latest(key, news, k).value
  {
    var front, x := news[..|news| - 1], news[|news| - 1];
    assert news == front + [x];
    var before := UpsertedAll(key, items, front);
    FirstAfterUpsert(key, before, x, k);
    if key(x.title) != k {
      KeysSnoc(key, front, x);
      LatestIsStored(key, items, front, k);
    }
  }

  lemma FirstAfterUpsert(key: ItemKey, items: seq<Item>, x: Item, k: string)
    ensures var out := Upserted(key, items, x);
            if key(x.title) == k then First(key, out, k) < |out| && out[First(key, out, k)] == x
            else First(key, items, k) < |items| ==>
              First(key, out, k) == First(key, items, k) && out[First(key, out, k)] == items[First(key, items, k)]
  {
    var out, at := Upserted(key, items, x), First(key, items, key(x.title));
    if key(x.title) == k {
      FirstIs(key, out, k, at);
    } else if First(key, items, k) < |items| {
      FirstIs(key, out, k, First(key, items, k));
    }
  }

  lemma {:induction false} FirstIs(key: ItemKey, items: seq<Item>, k: string, i: nat)
    requires i < |items| && key(items[i].title) == k && forall j :: 0 <= j < i ==> key(items[j].title) != k
    ensures First(key, items, k) == i
  {}

  /** Upserting the same items again changes nothing. */
  lemma UpsertingIsIdempotent(key: ItemKey, items: seq<Item>, news: seq<Item>)
    ensures UpsertedAll(key, UpsertedAll(key, items, news), news) == UpsertedAll(key, items, news)
  {
    var once := UpsertedAll(key, items, news);
    KeysAfterUpsertAll(key, items, news);
    UpsertingOverlays(key, once, news);
    forall i | 0 <= i < |once| ensures Overlaid(key, once, news)[i] == once[i] {
      if key(once[i].title) in KeysOf(key, news) {
        LatestIsStored(key, items, news, key(once[i].title));
      }
    }
  }

  /** Dropping keys commutes with upserting. */
  lemma WithoutUpserted(key: ItemKey, items: seq<Item>, x: Item, drop: set<string>)
    ensures Without(key, Upserted(key, items, x), drop) ==
      if key(x.title) in drop then Without(key, items, drop) else Upserted(key, Without(key, items, drop), x)
  {
    var i := First(key, items, key(x.title));
    if i == |items| {
      WithoutSnoc(key, items, x, drop);
      NotKept(key, items, drop, key(x.title));
    } else {
      WithoutReplaced(key, items, i, x, drop);
    }
  }

  lemma WithoutReplaced(key: ItemKey, items: seq<Item>, i: nat, x: Item, drop: set<string>)
    requires i < |items| && i == First(key, items, key(x.title))
    ensures Without(key, items[i := x], drop) ==
      if key(x.title) in drop then Without(key, items, drop) else Upserted(key, Without(key, items, drop), x)
  {
    var a, b := Without(key, items[..i], drop), Without(key, items[i + 1..], drop);
    WithoutSplit(key, items, i, drop);
    assert Without(key, items[i := x], drop) == a + (if key(x.title) in drop then [] else [x]) + b by {
      WithoutSplit(key, items[i := x], i, drop);
      assert items[i := x][..i] == items[..i] && items[i := x][i + 1..] == items[i + 1..];
    }
    if key(x.title) !in drop {
      NotKept(key, items[..i], drop, key(x.title));
      UpsertedMiddle(key, a, items[i], b, x);
    }
  }

  lemma UpsertedMiddle(key: ItemKey, a: seq<Item>, y: Item, b: seq<Item>, x: Item)
    requires key(y.title) == key(x.title) && forall i :: 0 <= i < |a| ==> key(a[i].title) != key(x.title)
    ensures Upserted(key, a + [y] + b, x) == a + [x] + b
  {
    FirstIs(key, a + [y] + b, key(x.title), |a|);
  }

  lemma {:induction false} NotKept(key: ItemKey, items: seq<Item>, drop: set<string>, k: string)
    requires forall i :: 0 <= i < |items| ==> key(items[i].title) != k
    ensures forall i :: 0 <= i < |Without(key, items, drop)| ==> key(Without(key, items, drop)[i].title) != k
    ensures First(key, Without(key, items, drop), k) == |Without(key, items, drop)|
  {
    if items != [] {
      NotKept(key, items[..|items| - 1], drop, k);
    }
  }

  lemma {:induction false} WithoutAppend(key: ItemKey, a: seq<Item>, b: seq<Item>, drop: set<string>)
    ensures Without(key, a + b, drop) == Without(key, a, drop) + Without(key, b, drop)
  {
    if b == [] {
      assert a + b == a;
    } else {
      var front, x := b[..|b| - 1], b[|b| - 1];
      assert a + b == (a + front) + [x];
      WithoutSnoc(key, a + front, x, drop);
      WithoutAppend(key, a, front, drop);
    }
  }

  lemma WithoutSplit(key: ItemKey, items: seq<Item>, i: nat, drop: set<string>)
    requires i < |items|
    ensures Without(key, items, drop) == Without(key, items[..i], drop)
      + (if key(items[i].title) in drop then [] else [items[i]]) + Without(key, items[i + 1..], drop)
  {
    assert items == (items[..i] + [items[i]]) + items[i + 1..];
    WithoutAppend(key, items[..i] + [items[i]], items[i + 1..], drop);
    WithoutSnoc(key, items[..i], items[i], drop);
  }

  lemma {:induction false} WithoutUpsertedAll(key: ItemKey, items: seq<Item>, news: seq<Item>, drop: set<string>)
    ensures Without(key, UpsertedAll(key, items, news), drop)
         == UpsertedAll(key, Without(key, items, drop), Without(key, news, drop))
  {
    if news != [] {
      var front, x := news[..|news| - 1], news[|news| - 1];
      WithoutUpsertedAll(key, items, front, drop);
      WithoutUpserted(key, UpsertedAll(key, items, front), x, drop);
      if key(x.title) !in drop {
        UpsertedSnoc(key, Without(key, items, drop), Without(key, front, drop), x);
      }
    }
  }

  /** The superseded decisions of the second run are appended again and taken out again. */
  lemma DecisionsAreIdempotent(key: ItemKey, items: seq<Item>, news: seq<Item>, drop: set<string>)
    ensures var once := Without(key, UpsertedAll(key, items, news), drop);
            Without(key, UpsertedAll(key, once, news), drop) == once
  {
    var once := Without(key, UpsertedAll(key, items, news), drop);
    WithoutUpsertedAll(key, items, news, drop);
    WithoutUpsertedAll(key, once, news, drop);
    WithoutTwice(key, UpsertedAll(key, items, news), drop, drop);
    assert drop + drop == drop;
    UpsertingIsIdempotent(key, Without(key, items, drop), Without(key, news, drop));
  }

  /** Applying the same result and source twice gives the same state as once. */
  lemma MergeIsIdempotent(norm: NameKey, s: State, r: Result, sid: string)
    ensures Merged(norm, Merged(norm, s, r, sid), r, sid) == Merged(norm, s, r, sid)
  {
    DecisionsAreIdempotent(KeyFor(norm, Decision), s.decisions, News(r, r.events, Decision, sid),
      Replaced(norm, r.events));
    UpsertingIsIdempotent(KeyFor(norm, Issue), s.openIssues, News(r, r.events, Issue, sid));
    UpsertingIsIdempotent(KeyFor(norm, Task), s.nextActions, News(r, r.events, Task, sid));
  }

  // -------------------------------------------------------------------------
  // The exact key law.
  // -------------------------------------------------------------------------

  lemma {:induction false} KeysAfterDrop(key: ItemKey, items: seq<Item>, drop: set<string>)
    ensures KeysOf(key, Without(key, items, drop)) == KeysOf(key, items) - drop
  {
    if items != [] {
      var front, x := items[..|items| - 1], items[|items| - 1];
      KeysAfterDrop(key, front, drop);
      assert items == front + [x];
      KeysSnoc(key, front, x);
      KeysSnoc(key, Without(key, front, drop), x);
    }
  }

  predicate UniqueKeys(key: ItemKey, items: seq<Item>) {
    forall i, j :: 0 <= i < j < |items| ==> key(items[i].title) != key(items[j].title)
  }

  lemma {:induction false} UniqueAfterUpsertAll(key: ItemKey, items: seq<Item>, news: seq<Item>)
    requires UniqueKeys(key, items)
    ensures UniqueKeys(key, UpsertedAll(key, items, news))
  {
    if news != [] {
      UniqueAfterUpsertAll(key, items, news[..|news| - 1]);
    }
  }

  lemma {:induction false} UniqueAfterDrop(key: ItemKey, items: seq<Item>, drop: set<string>)
    requires UniqueKeys(key, items)
    ensures UniqueKeys(key, Without(key, items, drop))
  {
    if items != [] {
      var front, x := items[..|items| - 1], items[|items| - 1];
      UniqueAfterDrop(key, front, drop);
      NotKept(key, front, drop, key(x.title));
    }
  }

  /** Items whose key is neither upserted nor dropped keep value and relative order. */
  lemma {:induction false} UntouchedItemsStay(key: ItemKey, items: seq<Item>, news: seq<Item>, touched: set<string>)
    requires KeysOf(key, news) <= touched
    ensures Without(key, UpsertedAll(key, items, news), touched) == Without(key, items, touched)
  {
    WithoutUpsertedAll(key, items, news, touched);
    AllDropped(key, news, touched);
  }

  lemma {:induction false} AllDropped(key: ItemKey, items: seq<Item>, drop: set<string>)
    requires KeysOf(key, items) <= drop
    ensures Without(key, items, drop) == []
  {
    if items != [] {
      var front, x := items[..|items| - 1], items[|items| - 1];
      assert items == front + [x];
      KeysSnoc(key, front, x);
      AllDropped(key, front, drop);
    }
  }

  /**
    The decision keys are the old and the new ones minus those superseded by a differently named
    decision; unique keys stay unique, other decisions keep value and order, and every surviving
    new key holds the latest statement of the source.
   */
  lemma DecisionKeyLaw(norm: NameKey, s: State, r: Result, sid: string)
    ensures var key, news, drop := KeyFor(norm, Decision), News(r, r.events, Decision, sid), Replaced(norm, r.events);
            var out := Merged(norm, s, r, sid).decisions;
            && KeysOf(key, out) == KeysOf(key, s.decisions) + KeysOf(key, news) - drop
            && (UniqueKeys(key, s.decisions) ==> UniqueKeys(key, out))
            && Without(key, out, KeysOf(key, news) + drop) == Without(key, s.decisions, KeysOf(key, news) + drop)
            && forall k :: k in KeysOf(key, news) - drop ==>
                 First(key, out, k) < |out| && Some(out[First(key, out, k)]) == Latest(key, news, k)
  {
    var key, news, drop := KeyFor(norm, Decision), News(r, r.events, Decision, sid), Replaced(norm, r.events);
    var all := UpsertedAll(key, s.decisions, news);
    KeysAfterUpsertAll(key, s.decisions, news);
    KeysAfterDrop(key, all, drop);
    if UniqueKeys(key, s.decisions) {
      UniqueAfterUpsertAll(key, s.decisions, news);
      UniqueAfterDrop(key, all, drop);
    }
    var touched := KeysOf(key, news) + drop;
    WithoutTwice(key, all, drop, touched);
    assert drop + touched == touched;
    UntouchedItemsStay(key, s.decisions, news, touched);
    forall k | k in KeysOf(key, news) - drop
      ensures var out := Without(key, all, drop);
              First(key, out, k) < |out| && Some(out[First(key, out, k)]) == Latest(key, news, k)
    {
      LatestIsStored(key, s.decisions, news, k);
      FirstSurvives(key, all, drop, k);
    }
  }

  lemma FirstSurvives(key: ItemKey, items: seq<Item>, drop: set<string>, k: string)
    requires k !in drop && First(key, items, k) < |items|
    ensures var out := Without(key, items, drop);
            First(key, out, k) < |out| && out[First(key, out, k)] == items[First(key, items, k)]
  {
    var i := First(key, items, k);
    WithoutSplit(key, items, i, drop);
    NotKept(key, items[..i], drop, k);
    FirstIs(key, Without(key, items, drop), k, |Without(key, items[..i], drop)|);
  }

  /** Issue and action keys only grow, by exactly the new ones. */
  lemma OpenItemKeyLaw(norm: NameKey, s: State, r: Result, sid: string)
    ensures var m := Merged(norm, s, r, sid);
            && KeysOf(KeyFor(norm, Issue), m.openIssues)
               == KeysOf(KeyFor(norm, Issue), s.openIssues) + KeysOf(KeyFor(norm, Issue), News(r, r.events, Issue, sid))
            && KeysOf(KeyFor(norm, Task), m.nextActions)
               == KeysOf(KeyFor(norm, Task), s.nextActions) + KeysOf(KeyFor(norm, Task), News(r, r.events, Task, sid))
            && (UniqueKeys(KeyFor(norm, Issue), s.openIssues) ==> UniqueKeys(KeyFor(norm, Issue), m.openIssues))
            && (UniqueKeys(KeyFor(norm, Task), s.nextActions) ==> UniqueKeys(KeyFor(norm, Task), m.nextActions))
  {
    KeysAfterUpsertAll(KeyFor(norm, Issue), s.openIssues, News(r, r.events, Issue, sid));
    KeysAfterUpsertAll(KeyFor(norm, Task), s.nextActions, News(r, r.events, Task, sid));
    if UniqueKeys(KeyFor(norm, Issue), s.openIssues) {
      UniqueAfterUpsertAll(KeyFor(norm, Issue), s.openIssues, News(r, r.events, Issue, sid));
    }
    if UniqueKeys(KeyFor(norm, Task), s.nextActions) {
      UniqueAfterUpsertAll(KeyFor(norm, Task), s.nextActions, News(r, r.events, Task, sid));
    }
  }
}
