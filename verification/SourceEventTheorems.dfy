/** What the delivery system keeps in every reachable state. */
module SourceEventTheorems {
  import opened Options
  import opened SourceEventBroker
  import opened SourceEvents

  // -------------------------------------------------------------------------
  // Messages between their commit and the streams.
  // -------------------------------------------------------------------------

  /** The broker has received the message and not fanned it out yet. */
  ghost predicate InBroker(control: Control, notes: seq<Note>, i: nat) {
    control == Dispatching(i) || Message(i) in notes
  }

  ghost predicate EndNoticed(notes: seq<Note>) {
    notes != [] && notes[0] == Disconnected
  }

  /** Messages wait in commit order, each before everything still in the channel. */
  ghost predicate Ordered(s: System) {
    && s.cursor <= |s.log| && |s.notes| <= NOTIFICATION_QUEUE_SIZE
    && (forall a, b :: 0 <= a < b < |s.notes| && s.notes[a].Message? && s.notes[b].Message? ==>
          s.notes[a].id < s.notes[b].id)
    && (forall a :: 0 <= a < |s.notes| && s.notes[a].Message? ==>
          s.notes[a].id < s.cursor && (s.control.Dispatching? ==> s.control.id < s.notes[a].id))
    && (s.control.Dispatching? ==> s.control.id < s.cursor)
    && (forall a :: 0 < a < |s.notes| ==> s.notes[a] != Disconnected)
    && (s.healthy <==> s.control == Looping || s.control.Dispatching? || s.control == Probing)
  }

  /** What was dropped had been received, and before everything that is still in the broker. */
  ghost predicate DroppedBehind(s: System) {
    && (forall d :: d in s.dropped ==> d < s.cursor)
    && forall d, i: nat :: d in s.dropped && InBroker(s.control, s.notes, i) ==> d < i
  }

  // -------------------------------------------------------------------------
  // Streams.
  // -------------------------------------------------------------------------

  /** The history lists accepted messages of the log in commit order. */
  ghost predicate History(log: seq<Key>, st: Stream) {
    && st.taken <= |st.offered| && st.born <= |log|
    && (forall j :: 0 <= j < |st.offered| ==> st.offered[j] < |log| && log[st.offered[j]] in st.watch)
    && forall j, k :: 0 <= j < k < |st.offered| ==> st.offered[j] < st.offered[k]
  }

  /** The queue is what was offered and not taken, or the reset marker comes first. */
  ghost predicate QueueMatches(log: seq<Key>, st: Stream)
    requires History(log, st)
  {
    && |st.queue| <= QUEUE_SIZE
    && if st.Marked() then st.queue[0] == None
       else
         && |st.queue| == |st.offered| - st.taken
         && forall j :: 0 <= j < |st.queue| ==> st.queue[j] == Some(log[st.offered[st.taken + j]])
  }

  /** An accepted message committed since the subscription. */
  ghost predicate Due(log: seq<Key>, st: Stream, i: nat) {
    st.born <= i < |log| && log[i] in st.watch
  }

  /** Of the due messages before the last offered one exactly those that were dropped are missing. */
  ghost predicate GapFree(s: System, st: Stream) {
    forall i: nat, j :: 0 <= j < |st.offered| && Due(s.log, st, i) && i < st.offered[j] && i !in s.dropped ==>
      i in st.offered
  }

  ghost predicate NoneDropped(s: System, st: Stream) {
    forall j :: 0 <= j < |st.offered| ==> st.offered[j] !in s.dropped
  }

  /** Everything offered came before everything still on its way. */
  ghost predicate Ahead(s: System, st: Stream) {
    && (forall j :: 0 <= j < |st.offered| ==> st.offered[j] < s.cursor)
    && forall j, i: nat :: 0 <= j < |st.offered| && InBroker(s.control, s.notes, i) ==> st.offered[j] < i
  }

  /** A due message is in the history or still on its way, or was dropped, unless the end of the connection is next. */
  ghost predicate NothingLost(s: System, st: Stream) {
    forall i: nat :: Due(s.log, st, i) ==>
      i in st.offered || i in s.dropped || InBroker(s.control, s.notes, i) || s.cursor <= i || EndNoticed(s.notes)
  }

  /** While a message is being dispatched, all due messages before it are in the history or were dropped. */
  ghost predicate CaughtUp(s: System, st: Stream) {
    s.control.Dispatching? ==> forall i: nat :: Due(s.log, st, i) && i < s.control.id && i !in s.dropped ==>
      i in st.offered
  }

  /** A message of the row since the subscription that has yet to come. */
  ghost predicate Waiting(s: System, born: nat, k: Key, i: nat) {
    born <= i < |s.log| && s.log[i] == k && (InBroker(s.control, s.notes, i) || s.cursor <= i)
  }

  /** The i-th message is the last of the row, came since the subscription, and was dropped. */
  ghost predicate LastDropped(log: seq<Key>, dropped: set<nat>, born: nat, k: Key, i: nat) {
    born <= i < |log| && log[i] == k && i in dropped && forall j :: i < j < |log| ==> log[j] != k
  }

  /** The row's last message was dropped, after the stream had subscribed. */
  ghost predicate Missed(s: System, born: nat, k: Key) {
    exists i: nat :: LastDropped(s.log, s.dropped, born, k, i)
  }

  /** Something will still make the stream read the row again, or end. */
  ghost predicate Owed(s: System, st: Stream, k: Key) {
    || st.phase == Reading(k) || Some(k) in st.queue || st.Marked()
    || !s.up || EndNoticed(s.notes) || exists i: nat :: Waiting(s, st.born, k, i)
  }

  /** What a stream past its snapshot shows is the row's state, or a new look at it is owed, or was missed. */
  ghost predicate Fresh(s: System, st: Stream) {
    st.phase != Subscribed ==>
      && st.watch <= st.View().Keys
      && (st.phase.Reading? || st.phase.Got? ==> st.phase.k in st.watch)
      && forall k :: k in st.watch && k in s.db ==>
           st.View()[k] == s.db[k].job || Owed(s, st, k) || Missed(s, st.born, k)
  }

  ghost predicate StreamInv(s: System, st: Stream) {
    && History(s.log, st) && QueueMatches(s.log, st) && GapFree(s, st) && NoneDropped(s, st) && Ahead(s, st)
    && (s.healthy || st.Marked())
    && (!st.Marked() ==> NothingLost(s, st) && CaughtUp(s, st))
    && Fresh(s, st)
  }

  ghost predicate Inv(s: System) {
    Ordered(s) && DroppedBehind(s) && forall id :: id in s.streams ==> StreamInv(s, s.streams[id])
  }

  lemma StartedKeepsInv(s: System)
    requires Started(s)
    ensures Inv(s)
  {}

  // -------------------------------------------------------------------------
  // Steps of the database and the connection.
  // -------------------------------------------------------------------------

  /** Whatever was coming still comes, and what the loop will notice it still will. */
  ghost predicate StillComing(s: System, t: System) {
    && t.log == s.log && t.dropped == s.dropped && (t.up ==> s.up) && (EndNoticed(s.notes) ==> EndNoticed(t.notes))
    && forall i: nat :: InBroker(s.control, s.notes, i) || s.cursor <= i ==>
         InBroker(t.control, t.notes, i) || t.cursor <= i
  }

  /** Nothing new is in the broker but what left the channel. */
  ghost predicate NothingNew(s: System, t: System) {
    && s.cursor <= t.cursor
    && forall i: nat :: InBroker(t.control, t.notes, i) ==> InBroker(s.control, s.notes, i) || s.cursor <= i
  }

  lemma StillComingKeepsFresh(s: System, t: System, st: Stream)
    requires Fresh(s, st) && StillComing(s, t)
    requires forall x :: x in t.db ==> x in s.db && t.db[x] == s.db[x]
    ensures Fresh(t, st)
  {
    if st.phase != Subscribed {
      forall x | x in st.watch && x in t.db && st.View()[x] != t.db[x].job && !Missed(t, st.born, x)
        ensures Owed(t, st, x)
      {
        if i: nat :| Waiting(s, st.born, x, i) {
          assert Waiting(t, st.born, x, i);
        }
      }
    }
  }

  lemma WriteKeepsFresh(s: System, k: Key, row: Row, st: Stream)
    requires Ordered(s) && Fresh(s, st) && st.born <= |s.log|
    ensures Fresh(Next(s, Write(k, row)), st)
  {
    var t := Next(s, Write(k, row));
    if st.phase != Subscribed {
      forall x | x in st.watch && x in t.db
        ensures st.View()[x] == t.db[x].job || Owed(t, st, x) || Missed(t, st.born, x)
      {
        if x == k && t.log != s.log {
          assert t.log[|s.log|] == k && Waiting(t, st.born, k, |s.log|);
        } else if st.View()[x] != s.db[x].job {
          WriteKeepsReason(s, k, row, st, x);
        }
      }
    }
  }

  lemma WriteKeepsReason(s: System, k: Key, row: Row, st: Stream, x: Key)
    requires Owed(s, st, x) || Missed(s, st.born, x)
    requires x == k ==> Next(s, Write(k, row)).log == s.log
    ensures Owed(Next(s, Write(k, row)), st, x) || Missed(Next(s, Write(k, row)), st.born, x)
  {
    var t := Next(s, Write(k, row));
    if i: nat :| Waiting(s, st.born, x, i) {
      assert Waiting(t, st.born, x, i);
    }
    if i: nat :| LastDropped(s.log, s.dropped, st.born, x, i) {
      assert LastDropped(t.log, t.dropped, st.born, x, i);
    }
  }

  lemma WriteKeeps(s: System, k: Key, row: Row, st: Stream)
    requires Ordered(s) && StreamInv(s, st)
    ensures StreamInv(Next(s, Write(k, row)), st)
  {
    var t := Next(s, Write(k, row));
    WriteKeepsFresh(s, k, row, st);
    forall i: nat | Due(t.log, st, i) ensures Due(s.log, st, i) || i == |s.log| {}
  }

  lemma DeleteKeeps(s: System, k: Key, st: Stream)
    requires StreamInv(s, st)
    ensures StreamInv(Next(s, Delete(k)), st)
  {
    StillComingKeepsFresh(s, Next(s, Delete(k)), st);
  }

  /** Steps that touch neither the streams nor what is on its way to them. */
  lemma SameChannelKeeps(s: System, t: System, st: Stream)
    requires StreamInv(s, st) && t.db == s.db && t.healthy == s.healthy && t.dropped == s.dropped
    requires t.log == s.log && t.notes == s.notes && t.control == s.control && t.cursor == s.cursor
    requires t.up ==> s.up
    ensures StreamInv(t, st)
  {
    StillComingKeepsFresh(s, t, st);
  }

  /** A stream that was just reset is in order whatever else was lost. */
  lemma ResetIsInv(s: System, t: System, st: Stream)
    requires Ordered(s) && StreamInv(s, st) && NothingNew(s, t) && t.log == s.log && t.db == s.db
      && t.dropped == s.dropped
    ensures StreamInv(t, st.(queue := RESET))
  {
    var m := st.(queue := RESET);
    assert m.queue[0] == None && m.Marked();
    assert m.View() == st.View();
    forall x | st.phase != Subscribed && x in st.watch && x in t.db ensures Owed(t, m, x) {}
  }

  // -------------------------------------------------------------------------
  // Steps of the connection's callbacks.
  // -------------------------------------------------------------------------

  lemma AppendedNote(notes: seq<Note>, note: Note, i: nat)
    ensures Message(i) in notes + [note] <==> Message(i) in notes || note == Message(i)
  {}

  lemma DeliverKeeps(s: System, st: Stream)
    requires Ordered(s) && StreamInv(s, st) && Enabled(s, Deliver) && !Overflows(s.notes)
    ensures StreamInv(Next(s, Deliver), st)
  {
    var t := Next(s, Deliver);
    forall i: nat ensures InBroker(t.control, t.notes, i) <==> InBroker(s.control, s.notes, i) || i == s.cursor {
      AppendedNote(s.notes, Message(s.cursor), i);
    }
    StillComingKeepsFresh(s, t, st);
  }

  lemma MalformedKeeps(s: System, st: Stream)
    requires Ordered(s) && StreamInv(s, st) && Enabled(s, DeliverMalformed) && !Overflows(s.notes)
    ensures StreamInv(Next(s, DeliverMalformed), st)
  {
    var t := Next(s, DeliverMalformed);
    forall i: nat ensures InBroker(t.control, t.notes, i) <==> InBroker(s.control, s.notes, i) {
      AppendedNote(s.notes, Malformed, i);
    }
    StillComingKeepsFresh(s, t, st);
  }

  /** Once the end of the connection is queued, everything else may be gone. */
  lemma EndKeeps(s: System, t: System, st: Stream)
    requires Ordered(s) && StreamInv(s, st) && t.notes == [Disconnected]
    requires t == s.(notes := t.notes, control := t.control) && (t.control == s.control || t.control == Looping)
    requires t.healthy == s.healthy
    ensures StreamInv(t, st)
  {
    forall i: nat ensures InBroker(t.control, t.notes, i) ==> InBroker(s.control, s.notes, i) {}
    assert EndNoticed(t.notes);
    forall x | st.phase != Subscribed && x in st.watch && x in t.db ensures Owed(t, st, x) {}
  }

  // -------------------------------------------------------------------------
  // Steps of the loop.
  // -------------------------------------------------------------------------

  lemma DroppedNote(notes: seq<Note>, i: nat)
    requires notes != []
    ensures Message(i) in notes <==> Message(i) in notes[1..] || notes[0] == Message(i)
  {
    assert notes == [notes[0]] + notes[1..];
  }

  lemma FirstIsOldest(s: System, i: nat)
    requires Ordered(s) && s.notes != [] && s.notes[0].Message? && Message(i) in s.notes
    ensures s.notes[0].id <= i
  {
    var a :| 0 <= a < |s.notes| && s.notes[a] == Message(i);
  }

  lemma TakeMessageKeeps(s: System, st: Stream, id: nat)
    requires Ordered(s) && StreamInv(s, st) && Enabled(s, Take) && s.notes[0] == Message(id)
    ensures StreamInv(Next(s, Take), st)
  {
    var t := Next(s, Take);
    assert Message(id) in s.notes;
    forall i: nat ensures InBroker(t.control, t.notes, i) <==> InBroker(s.control, s.notes, i) {
      DroppedNote(s.notes, i);
    }
    if !st.Marked() {
      forall i: nat | Due(t.log, st, i) && i < id && i !in t.dropped ensures i in st.offered {
        if Message(i) in s.notes {
          FirstIsOldest(s, i);
        }
      }
    }
    StillComingKeepsFresh(s, t, st);
  }

  lemma TakeMalformedKeeps(s: System, st: Stream)
    requires Ordered(s) && StreamInv(s, st) && Enabled(s, Take) && s.notes[0] == Malformed
    ensures StreamInv(Next(s, Take), st)
  {
    var t := Next(s, Take);
    forall i: nat ensures InBroker(t.control, t.notes, i) <==> InBroker(s.control, s.notes, i) {
      DroppedNote(s.notes, i);
    }
    StillComingKeepsFresh(s, t, st);
  }

  lemma ProbeKeeps(s: System, t: System, st: Stream)
    requires StreamInv(s, st) && !s.control.Dispatching? && !t.control.Dispatching?
    requires t == s.(control := t.control) && t.healthy == s.healthy
    ensures StreamInv(t, st)
  {
    forall i: nat ensures InBroker(t.control, t.notes, i) <==> InBroker(s.control, s.notes, i) {}
    StillComingKeepsFresh(s, t, st);
  }

  /** After a timeout the message is neither fanned out nor tried again, and no stream is told. */
  lemma TimeoutKeeps(s: System, st: Stream)
    requires Ordered(s) && DroppedBehind(s) && StreamInv(s, st) && Enabled(s, DispatchTimesOut)
    ensures StreamInv(Next(s, DispatchTimesOut), st)
  {
    var t, id := Next(s, DispatchTimesOut), s.control.id;
    assert InBroker(s.control, s.notes, id);
    forall i: nat ensures InBroker(s.control, s.notes, i) <==> InBroker(t.control, t.notes, i) || i == id {}
    if st.phase != Subscribed {
      forall x | x in st.watch && x in t.db && st.View()[x] != t.db[x].job && !Owed(t, st, x)
        ensures Missed(t, st.born, x)
      {
        TimeoutKeepsReason(s, st, x);
      }
    }
  }

  /** A row whose last message is dropped is missed; before that, a later one is still to come. */
  lemma TimeoutKeepsReason(s: System, st: Stream, x: Key)
    requires Ordered(s) && DroppedBehind(s) && StreamInv(s, st) && Enabled(s, DispatchTimesOut) && x in st.watch
    requires Owed(s, st, x) || Missed(s, st.born, x)
    ensures Owed(Next(s, DispatchTimesOut), st, x) || Missed(Next(s, DispatchTimesOut), st.born, x)
  {
    var t, id := Next(s, DispatchTimesOut), s.control.id;
    assert InBroker(s.control, s.notes, id);
    if i: nat :| Waiting(s, st.born, x, i) {
      if i != id {
        assert Waiting(t, st.born, x, i);
      } else if j: nat :| id < j < |s.log| && s.log[j] == x {
        LaterStillComes(s, st, x, j);
      } else {
        assert LastDropped(t.log, t.dropped, st.born, x, id);
      }
    } else if i: nat :| LastDropped(s.log, s.dropped, st.born, x, i) {
      assert LastDropped(t.log, t.dropped, st.born, x, i);
    }
  }

  lemma LaterStillComes(s: System, st: Stream, x: Key, j: nat)
    requires Ordered(s) && DroppedBehind(s) && StreamInv(s, st) && Enabled(s, DispatchTimesOut) && x in st.watch
    requires st.born <= s.control.id < j < |s.log| && s.log[j] == x
    ensures Owed(Next(s, DispatchTimesOut), st, x)
  {
    var t, id := Next(s, DispatchTimesOut), s.control.id;
    assert InBroker(s.control, s.notes, id);
    if !st.Marked() && !EndNoticed(s.notes) {
      assert Due(s.log, st, j) && j !in s.dropped && j !in st.offered;
      assert Waiting(t, st.born, x, j);
    }
  }

  /** A message that is found goes to the streams that watch its row. */
  lemma FedKeeps(s: System, t: System, st: Stream, id: nat)
    requires Ordered(s) && DroppedBehind(s) && StreamInv(s, st) && s.control == Dispatching(id) && id < |s.log|
    requires t == s.(control := Looping, streams := t.streams)
    ensures StreamInv(t, Fed(st, s.log[id], id))
  {
    FedKeepsFresh(s, t, st, id);
    if s.log[id] in st.watch && !st.Marked() && |st.queue| < QUEUE_SIZE {
      FedKeepsHistory(s, t, st, id);
    } else {
      UnfedKeepsHistory(s, t, st, id);
    }
  }

  lemma FedKeepsFresh(s: System, t: System, st: Stream, id: nat)
    requires Fresh(s, st) && s.control == Dispatching(id) && id < |s.log|
    requires t == s.(control := Looping, streams := t.streams)
    ensures Fresh(t, Fed(st, s.log[id], id))
  {
    var fed := Fed(st, s.log[id], id);
    assert fed.View() == st.View();
    if st.phase != Subscribed {
      forall x | x in st.watch && x in t.db && st.View()[x] != t.db[x].job && !Missed(t, fed.born, x)
        ensures Owed(t, fed, x)
      {
        FedKeepsOwed(s, t, st, id, x);
      }
    }
  }

  /** A stream that does not watch the row, or is reset already, or is reset now. */
  lemma UnfedKeepsHistory(s: System, t: System, st: Stream, id: nat)
    requires Ordered(s) && StreamInv(s, st) && s.control == Dispatching(id) && id < |s.log|
    requires t == s.(control := Looping, streams := t.streams)
    requires !(s.log[id] in st.watch && !st.Marked() && |st.queue| < QUEUE_SIZE) && Fresh(t, Fed(st, s.log[id], id))
    ensures StreamInv(t, Fed(st, s.log[id], id))
  {
    var fed := Fed(st, s.log[id], id);
    assert InBroker(s.control, s.notes, id);
    if s.log[id] in st.watch && st.Marked() {
      assert fed.queue[0] == None && fed.Marked();
    } else if s.log[id] in st.watch {
      assert fed.queue == RESET && fed.Marked();
    }
  }

  lemma FedKeepsOwed(s: System, t: System, st: Stream, id: nat, x: Key)
    requires s.control == Dispatching(id) && id < |s.log| && t == s.(control := Looping, streams := t.streams)
    requires Owed(s, st, x) && x in st.watch
    ensures Owed(t, Fed(st, s.log[id], id), x)
  {
    var fed := Fed(st, s.log[id], id);
    if fed.queue == RESET {
      assert fed.queue[0] == None && fed.Marked();
    } else {
      assert fed.queue == st.queue || fed.queue == st.queue + [Some(s.log[id])];
      if i: nat :| Waiting(s, st.born, x, i) {
        if i == id {
          assert fed.queue[|fed.queue| - 1] == Some(x);
        } else {
          assert Waiting(t, st.born, x, i);
        }
      }
    }
  }

  lemma FedKeepsHistory(s: System, t: System, st: Stream, id: nat)
    requires Ordered(s) && DroppedBehind(s) && StreamInv(s, st) && s.control == Dispatching(id) && id < |s.log|
    requires t == s.(control := Looping, streams := t.streams)
    requires s.log[id] in st.watch && !st.Marked() && |st.queue| < QUEUE_SIZE
    ensures var fed := Fed(st, s.log[id], id);
      && History(t.log, fed) && QueueMatches(t.log, fed) && GapFree(t, fed) && NoneDropped(t, fed) && !fed.Marked()
      && Ahead(t, fed) && NothingLost(t, fed)
  {
    var fed := Fed(st, s.log[id], id);
    assert InBroker(s.control, s.notes, id);
    assert fed.offered == st.offered + [id] && fed.queue == st.queue + [Some(s.log[id])];
    FedKeepsQueue(s.log, st, fed, id);
    FedIsAhead(s, t, st, fed, id);
    forall i: nat | i in st.offered || i == id ensures i in fed.offered {
      OneMoreOffered(st.offered, id, i);
    }
  }

  lemma OneMoreOffered(offered: seq<nat>, id: nat, i: nat)
    ensures i in offered + [id] <==> i in offered || i == id
  {}

  lemma FedKeepsQueue(log: seq<Key>, st: Stream, fed: Stream, id: nat)
    requires History(log, st) && QueueMatches(log, st) && !st.Marked() && |st.queue| < QUEUE_SIZE
    requires id < |log| && log[id] in st.watch && forall j :: 0 <= j < |st.offered| ==> st.offered[j] < id
    requires fed == st.(queue := st.queue + [Some(log[id])], offered := st.offered + [id])
    ensures History(log, fed) && QueueMatches(log, fed) && !fed.Marked()
  {}

  lemma FedIsAhead(s: System, t: System, st: Stream, fed: Stream, id: nat)
    requires Ordered(s) && DroppedBehind(s) && Ahead(s, st) && NoneDropped(s, st) && s.control == Dispatching(id)
    requires t == s.(control := Looping, streams := t.streams) && fed.offered == st.offered + [id]
    ensures Ahead(t, fed) && NoneDropped(t, fed)
  {
    assert InBroker(s.control, s.notes, id);
    forall i: nat | InBroker(t.control, t.notes, i) ensures InBroker(s.control, s.notes, i) && id < i {
      DispatchedIsOldest(s, i);
    }
  }

  // -------------------------------------------------------------------------
  // Steps of the streams.
  // -------------------------------------------------------------------------

  lemma SubscribeKeeps(s: System, watch: set<Key>)
    requires s.healthy && Ordered(s)
    ensures StreamInv(s, Stream(watch, [], Subscribed, map[], |s.log|, [], 0))
  {}

  /** A step that leaves the queue and its history alone only has to keep the shown jobs right. */
  lemma SameQueueKeeps(s: System, st: Stream, after: Stream)
    requires StreamInv(s, st) && Fresh(s, after)
    requires after == st.(phase := after.phase, seen := after.seen)
    ensures StreamInv(s, after)
  {}

  lemma SnapshotKeeps(s: System, st: Stream)
    requires StreamInv(s, st) && st.watch <= s.db.Keys
    ensures StreamInv(s, st.(phase := Idle, seen := map k | k in st.watch && k in s.db :: s.db[k].job))
  {
    var after := st.(phase := Idle, seen := map k | k in st.watch && k in s.db :: s.db[k].job);
    assert Fresh(s, after);
    SameQueueKeeps(s, st, after);
  }

  lemma PopKeeps(s: System, st: Stream, k: Key)
    requires StreamInv(s, st) && st.phase == Idle && st.queue != [] && st.queue[0] == Some(k)
    ensures StreamInv(s, st.(queue := st.queue[1..], phase := Reading(k), taken := st.taken + 1))
  {
    var after := st.(queue := st.queue[1..], phase := Reading(k), taken := st.taken + 1);
    assert !st.Marked();
    assert st.queue == [Some(k)] + after.queue;
    assert !after.Marked();
    assert after.View() == st.View();
    forall x | Owed(s, st, x) ensures Owed(s, after, x) {}
  }

  lemma ReadKeeps(s: System, st: Stream)
    requires StreamInv(s, st) && st.phase.Reading? && st.phase.k in s.db
    ensures StreamInv(s, st.(phase := Got(st.phase.k, s.db[st.phase.k].job)))
  {
    var after := st.(phase := Got(st.phase.k, s.db[st.phase.k].job));
    forall x | Owed(s, st, x) && x != st.phase.k ensures Owed(s, after, x) {}
    assert Fresh(s, after);
    SameQueueKeeps(s, st, after);
  }

  lemma SendKeeps(s: System, st: Stream)
    requires StreamInv(s, st) && st.phase.Got?
    ensures StreamInv(s, st.(phase := Idle, seen := st.seen[st.phase.k := st.phase.job]))
  {
    var after := st.(phase := Idle, seen := st.seen[st.phase.k := st.phase.job]);
    assert after.View() == st.View();
    forall x | Owed(s, st, x) ensures Owed(s, after, x) {}
    assert Fresh(s, after);
    SameQueueKeeps(s, st, after);
  }

  // -------------------------------------------------------------------------
  // Every step, every run.
  // -------------------------------------------------------------------------

  lemma StepKeepsOrder(s: System, a: Action)
    requires Ordered(s) && Enabled(s, a)
    ensures Ordered(Next(s, a))
  {
    match a
    case Deliver => NotifyKeepsOrder(s, Next(s, a), Message(s.cursor));
    case DeliverMalformed => NotifyKeepsOrder(s, Next(s, a), Malformed);
    case Take =>
      if !s.notes[0].Disconnected? {
        TakeKeepsOrder(s, Next(s, a));
      }
    case _ =>
  }

  lemma NotifyKeepsOrder(s: System, t: System, note: Note)
    requires Ordered(s) && t.log == s.log && t.healthy == s.healthy && t.control == s.control
    requires t.notes == Notified(s.notes, note) && s.cursor <= t.cursor <= |s.log|
    requires note != Disconnected && (note.Message? ==> note.id == s.cursor && s.cursor < t.cursor)
    ensures Ordered(t)
  {}

  lemma TakeKeepsOrder(s: System, t: System)
    requires Ordered(s) && s.control == Looping && s.notes != [] && s.notes[0] != Disconnected
    requires t
      == s.(notes := s.notes[1..], control := if s.notes[0].Message? then Dispatching(s.notes[0].id) else Looping)
    ensures Ordered(t)
  {}

  lemma StepsBringNothingNew(s: System, a: Action)
    requires Ordered(s) && Enabled(s, a)
    ensures NothingNew(s, Next(s, a))
  {
    var t := Next(s, a);
    forall i: nat | InBroker(t.control, t.notes, i) ensures InBroker(s.control, s.notes, i) || s.cursor <= i {
      match a
      case Deliver => AppendedNote(s.notes, Message(s.cursor), i);
      case DeliverMalformed => AppendedNote(s.notes, Malformed, i);
      case Take => DroppedNote(s.notes, i);
      case _ =>
    }
  }

  lemma StepKeepsDroppedBehind(s: System, a: Action)
    requires Ordered(s) && DroppedBehind(s) && Enabled(s, a)
    ensures DroppedBehind(Next(s, a))
  {
    var t := Next(s, a);
    StepsBringNothingNew(s, a);
    forall d, i: nat | d in t.dropped && InBroker(t.control, t.notes, i) ensures d < i {
      if d !in s.dropped {
        DispatchedIsOldest(s, i);
      }
    }
  }

  lemma DispatchedIsOldest(s: System, i: nat)
    requires Ordered(s) && s.control.Dispatching? && Message(i) in s.notes
    ensures s.control.id < i
  {
    var a :| 0 <= a < |s.notes| && s.notes[a] == Message(i);
  }

  lemma StepKeepsInv(s: System, a: Action)
    requires Inv(s) && Enabled(s, a)
    ensures Inv(Next(s, a))
  {
    StepKeepsOrder(s, a);
    var t := Next(s, a);
    StepKeepsDroppedBehind(s, a);
    forall id | id in t.streams ensures StreamInv(t, t.streams[id]) {
      StepKeepsStream(s, a, id);
    }
  }

  /** Steps of streams, of retention and of the network change nothing a message's way depends on. */
  predicate LeavesBroker(a: Action) {
    a.Subscribe? || a.Step? || a.Prune? || a.Die?
  }

  lemma LeavesBrokerKeeps(s: System, a: Action, st: Stream)
    requires Enabled(s, a) && LeavesBroker(a) && StreamInv(s, st)
    ensures StreamInv(Next(s, a), st)
  {
    SameChannelKeeps(s, Next(s, a), st);
  }

  lemma StepKeepsStream(s: System, a: Action, id: nat)
    requires Ordered(s) && DroppedBehind(s) && (id in s.streams ==> StreamInv(s, s.streams[id]))
    requires Enabled(s, a) && id in Next(s, a).streams
    ensures StreamInv(Next(s, a), Next(s, a).streams[id])
  {
    if !LeavesBroker(a) {
      StepsWithOldStreams(s, a, id);
      BrokerKeepsStream(s, a, id, s.streams[id]);
    } else {
      LocalStepKeepsStream(s, a, id);
      LeavesBrokerKeeps(s, a, Next(s, a).streams[id]);
    }
  }

  lemma StepsWithOldStreams(s: System, a: Action, id: nat)
    requires Enabled(s, a) && id in Next(s, a).streams && !(a.Subscribe? && a.id == id)
    ensures id in s.streams
  {}

  lemma LocalStepKeepsStream(s: System, a: Action, id: nat)
    requires Ordered(s) && LeavesBroker(a) && (id in s.streams ==> StreamInv(s, s.streams[id]))
    requires Enabled(s, a) && id in Next(s, a).streams
    ensures StreamInv(s, Next(s, a).streams[id])
  {
    if a.Subscribe? && a.id == id {
      SubscribeKeeps(s, a.watch);
    } else {
      StepsWithOldStreams(s, a, id);
      if a.Step? && a.id == id {
        MoveKeeps(s, s.streams[id], a.move);
      } else {
        assert Next(s, a).streams[id] == s.streams[id];
      }
    }
  }

  lemma MoveKeeps(s: System, st: Stream, move: Move)
    requires StreamInv(s, st) && CanMove(st, move) && Advance(s.db, st, move).Some?
    ensures StreamInv(s, Advance(s.db, st, move).value)
  {
    match move
    case Snapshot => SnapshotKeeps(s, st);
    case Pop => PopKeeps(s, st, st.queue[0].value);
    case Read => ReadKeeps(s, st);
    case Send => SendKeeps(s, st);
  }

  lemma BrokerKeepsStream(s: System, a: Action, id: nat, st: Stream)
    requires Ordered(s) && DroppedBehind(s) && StreamInv(s, st) && Enabled(s, a) && !LeavesBroker(a)
    requires id in s.streams && s.streams[id] == st
    ensures id in Next(s, a).streams && StreamInv(Next(s, a), Next(s, a).streams[id])
  {
    if a.Write? || a.Delete? || a.Deliver? || a.DeliverMalformed? || a.Terminate? {
      CallbackKeepsStream(s, a, id, st);
    } else {
      LoopKeepsStream(s, a, id, st);
    }
  }

  /** Steps of the database and of the connection's callbacks. */
  lemma CallbackKeepsStream(s: System, a: Action, id: nat, st: Stream)
    requires Ordered(s) && StreamInv(s, st) && Enabled(s, a) && id in s.streams && s.streams[id] == st
    requires a.Write? || a.Delete? || a.Deliver? || a.DeliverMalformed? || a.Terminate?
    ensures id in Next(s, a).streams && StreamInv(Next(s, a), Next(s, a).streams[id])
  {
    var t := Next(s, a);
    match a
    case Write(k, row) => WriteKeeps(s, k, row, st);
    case Delete(k) => DeleteKeeps(s, k, st);
    case Deliver => if Overflows(s.notes) { ResetIsInv(s, t, st); } else { DeliverKeeps(s, st); }
    case DeliverMalformed => if Overflows(s.notes) { ResetIsInv(s, t, st); } else { MalformedKeeps(s, st); }
    case Terminate => EndKeeps(s, t, st);
  }

  lemma LoopKeepsStream(s: System, a: Action, id: nat, st: Stream)
    requires Ordered(s) && DroppedBehind(s) && StreamInv(s, st) && Enabled(s, a) && id in s.streams
      && s.streams[id] == st
    requires a.Take? || a.FinishDispatch? || a.FailDispatch? || a.DispatchTimesOut? || a.WaitTimesOut? || a.Probed?
      || a.CloseDone? || a.Reconnect? || a.Stop?
    ensures id in Next(s, a).streams && StreamInv(Next(s, a), Next(s, a).streams[id])
  {
    var t := Next(s, a);
    match a
    case Take => TakeKeeps(s, t, id, st);
    case FinishDispatch(found) => FinishKeeps(s, t, found, id, st);
    case DispatchTimesOut => TimeoutKeeps(s, st);
    case WaitTimesOut => ProbeKeeps(s, t, st);
    case Probed(alive) => if alive { ProbeKeeps(s, t, st); } else { EndKeeps(s, t, st); }
    case CloseDone => ClosedKeeps(s, t, st);
    case _ => ResettingKeepsStream(s, a, id, st);
  }

  lemma ResettingKeepsStream(s: System, a: Action, id: nat, st: Stream)
    requires Ordered(s) && StreamInv(s, st) && Enabled(s, a) && id in s.streams && s.streams[id] == st
    requires a.FailDispatch? || a.Reconnect? || a.Stop?
    ensures id in Next(s, a).streams && StreamInv(Next(s, a), Next(s, a).streams[id])
  {
    StepsBringNothingNew(s, a);
    ResetIsInv(s, Next(s, a), st);
  }

  lemma TakeKeeps(s: System, t: System, id: nat, st: Stream)
    requires Ordered(s) && StreamInv(s, st) && Enabled(s, Take) && id in s.streams && s.streams[id] == st
    requires t == Next(s, Take)
    ensures id in t.streams && StreamInv(t, t.streams[id])
  {
    if s.notes[0].Message? {
      TakeMessageKeeps(s, st, s.notes[0].id);
    } else if s.notes[0].Malformed? {
      TakeMalformedKeeps(s, st);
    } else {
      ResetIsInv(s, t, st);
    }
  }

  lemma FinishKeeps(s: System, t: System, found: bool, id: nat, st: Stream)
    requires Ordered(s) && DroppedBehind(s) && StreamInv(s, st) && Enabled(s, FinishDispatch(found))
      && id in s.streams && s.streams[id] == st
    requires t == Next(s, FinishDispatch(found))
    ensures id in t.streams && StreamInv(t, t.streams[id])
  {
    if found {
      FedKeeps(s, t, st, s.control.id);
    } else {
      ResetIsInv(s, t, st);
    }
  }

  /** Between the interruption and the reconnection every stream holds its marker. */
  lemma ClosedKeeps(s: System, t: System, st: Stream)
    requires Ordered(s) && StreamInv(s, st) && Enabled(s, CloseDone) && t == Next(s, CloseDone)
    ensures StreamInv(t, st)
  {
    forall x | st.phase != Subscribed && x in st.watch && x in t.db ensures Owed(t, st, x) {}
  }

  lemma {:induction false} RunKeepsInv(s: System, actions: seq<Action>)
    requires Inv(s) && Runs(s, actions)
    ensures Inv(Run(s, actions))
    decreases |actions|
  {
    if actions != [] {
      StepKeepsInv(s, actions[0]);
      RunKeepsInv(Next(s, actions[0]), actions[1..]);
    }
  }

  // -------------------------------------------------------------------------
  // What follows for every run.
  // -------------------------------------------------------------------------

  lemma ReachableKeepsInv(s: System, actions: seq<Action>)
    requires Started(s) && Runs(s, actions)
    ensures Inv(Run(s, actions))
  {
    StartedKeepsInv(s);
    RunKeepsInv(s, actions);
  }

  /** Nothing is on its way to the stream, and it is waiting for its next event. */
  ghost predicate Quiet(s: System, st: Stream) {
    && s.up && s.cursor == |s.log| && s.notes == [] && s.control == Looping
    && st.phase == Idle && st.queue == []
  }

  /**
    A quiet stream shows exactly what the database holds for every watched row, except for a row
    whose last message since the subscription was dropped by a dispatch that timed out.
   */
  lemma QuietStreamIsCurrent(s: System, actions: seq<Action>, id: nat)
    requires Started(s) && Runs(s, actions) && id in Run(s, actions).streams
    requires Quiet(Run(s, actions), Run(s, actions).streams[id])
    ensures var t := Run(s, actions);
      var st := t.streams[id];
      forall k :: k in st.watch && k in t.db ==>
        k in st.seen && (st.seen[k] == t.db[k].job || Missed(t, st.born, k))
  {
    ReachableKeepsInv(s, actions);
    var t := Run(s, actions);
    assert StreamInv(t, t.streams[id]);
  }

  /** Nothing is dropped but by dispatches that time out. */
  lemma {:induction false} DropsAreTimeouts(s: System, actions: seq<Action>)
    requires Runs(s, actions) && DispatchTimesOut !in actions
    ensures Run(s, actions).dropped == s.dropped
    decreases |actions|
  {
    if actions != [] {
      assert actions[0] in actions && DispatchTimesOut !in actions[1..];
      DropsAreTimeouts(Next(s, actions[0]), actions[1..]);
    }
  }

  lemma Prepended(s: System, a: Action, rest: seq<Action>)
    requires Enabled(s, a) && Runs(Next(s, a), rest)
    ensures Runs(s, [a] + rest) && Run(s, [a] + rest) == Run(Next(s, a), rest)
  {
    assert ([a] + rest)[1..] == rest;
  }

  /** The stream is quiet, holds no marker, and shows something else than the database holds. */
  ghost predicate QuietAndStale(t: System, id: nat, k: Key) {
    && id in t.streams && Quiet(t, t.streams[id])
    && k in t.db && k in t.streams[id].seen && t.streams[id].seen[k] != t.db[k].job
  }

  /**
    Such a row is possible wherever a row can change: its dispatch times out, the liveness query
    answers, and the stream keeps showing the old state.
   */
  lemma TimedOutDispatchGoesUnnoticed(s: System, id: nat, k: Key, row: Row) returns (actions: seq<Action>)
    requires Started(s) && k in s.db && row.job != s.db[k].job
    ensures Runs(s, actions) && QuietAndStale(Run(s, actions), id, k)
  {
    var subscribed := Next(Next(s, Subscribe(id, {k})), Step(id, Snapshot));
    var taken := Next(Next(Next(subscribed, Write(k, row)), Deliver), Take);
    LookedAt(s, id, k);
    WriteIsTaken(subscribed, id, k, row);
    var last := TimesOut(taken);
    Prepended(Next(Next(subscribed, Write(k, row)), Deliver), Take, last);
    Prepended(Next(subscribed, Write(k, row)), Deliver, [Take] + last);
    Prepended(subscribed, Write(k, row), [Deliver] + ([Take] + last));
    Prepended(Next(s, Subscribe(id, {k})), Step(id, Snapshot), [Write(k, row)] + ([Deliver] + ([Take] + last)));
    actions := [Step(id, Snapshot)] + ([Write(k, row)] + ([Deliver] + ([Take] + last)));
    Prepended(s, Subscribe(id, {k}), actions);
    actions := [Subscribe(id, {k})] + actions;
  }

  /** A stream of one row is up to date, and nothing is on its way. */
  ghost predicate Watching(s: System, id: nat, k: Key) {
    && s.up && s.cursor == |s.log| && s.notes == [] && s.control == Looping
    && id in s.streams && s.streams[id].phase == Idle && s.streams[id].queue == []
    && k in s.db && k in s.streams[id].seen && s.streams[id].seen[k] == s.db[k].job
  }

  lemma LookedAt(s: System, id: nat, k: Key)
    requires Started(s) && k in s.db
    ensures Runs(s, [Subscribe(id, {k})]) && Enabled(Next(s, Subscribe(id, {k})), Step(id, Snapshot))
    ensures Watching(Next(Next(s, Subscribe(id, {k})), Step(id, Snapshot)), id, k)
  {
    assert [Subscribe(id, {k})][1..] == [];
  }

  lemma WriteIsTaken(s: System, id: nat, k: Key, row: Row)
    requires Watching(s, id, k) && row.job != s.db[k].job
    ensures var w := Next(s, Write(k, row));
      && Enabled(w, Deliver) && Enabled(Next(w, Deliver), Take)
      && Next(Next(w, Deliver), Take) == w.(cursor := |w.log|, control := Dispatching(|s.log|))
  {}

  lemma TimesOut(s: System) returns (actions: seq<Action>)
    requires s.control.Dispatching?
    ensures Runs(s, actions) && Run(s, actions) == s.(control := Looping, dropped := s.dropped + {s.control.id})
  {
    var t := Next(s, DispatchTimesOut);
    Prepended(t, Probed(true), []);
    Prepended(s, DispatchTimesOut, [Probed(true)] + []);
    actions := [DispatchTimesOut] + ([Probed(true)] + []);
  }

  /**
    Of a stream that holds no marker, while the end of the connection is not noticed: a due message
    that has left the channel and the broker is missing exactly when its dispatch timed out.
   */
  lemma MissingExactlyWhenDropped(s: System, actions: seq<Action>, id: nat, i: nat)
    requires Started(s) && Runs(s, actions) && id in Run(s, actions).streams
    requires var t := Run(s, actions);
      && Due(t.log, t.streams[id], i) && i < t.cursor && !InBroker(t.control, t.notes, i)
      && !EndNoticed(t.notes) && !t.streams[id].Marked()
    ensures i !in Run(s, actions).streams[id].offered <==> i in Run(s, actions).dropped
  {
    ReachableKeepsInv(s, actions);
    assert StreamInv(Run(s, actions), Run(s, actions).streams[id]);
  }

  /**
    What a stream has taken from its queue so far: accepted messages, in commit order. Of the due
    messages before the last of them exactly those are left out whose dispatch timed out.
   */
  lemma ConsumedEventsHaveNoGap(s: System, actions: seq<Action>, id: nat)
    requires Started(s) && Runs(s, actions) && id in Run(s, actions).streams
    ensures var t := Run(s, actions);
      var st := t.streams[id];
      && st.taken <= |st.offered|
      && (forall j :: 0 <= j < st.taken ==> st.offered[j] < |t.log| && t.log[st.offered[j]] in st.watch)
      && (forall j, k :: 0 <= j < k < st.taken ==> st.offered[j] < st.offered[k])
      && forall i: nat, j :: 0 <= j < st.taken && Due(t.log, st, i) && i < st.offered[j] ==>
           (i in st.offered[..st.taken] <==> i !in t.dropped)
  {
    ReachableKeepsInv(s, actions);
    var t := Run(s, actions);
    assert StreamInv(t, t.streams[id]);
    TakenHasNoGap(t, t.streams[id]);
  }

  lemma TakenHasNoGap(t: System, st: Stream)
    requires History(t.log, st) && GapFree(t, st) && NoneDropped(t, st)
    ensures forall i: nat, j :: 0 <= j < st.taken && Due(t.log, st, i) && i < st.offered[j] ==>
      (i in st.offered[..st.taken] <==> i !in t.dropped)
  {
    forall i: nat, j | 0 <= j < st.taken && Due(t.log, st, i) && i < st.offered[j]
      ensures i in st.offered[..st.taken] <==> i !in t.dropped
    {
      if i !in t.dropped {
        var m :| 0 <= m < |st.offered| && st.offered[m] == i;
        assert m < j;
        assert st.offered[..st.taken][m] == i;
      }
    }
  }

  /** What comes out of a queue next: the reset marker, or the next message in the stream's history. */
  lemma NextTakenIsNextOffered(s: System, actions: seq<Action>, id: nat)
    requires Started(s) && Runs(s, actions) && Enabled(Run(s, actions), Step(id, Pop))
    ensures var t := Run(s, actions);
      var st := t.streams[id];
      && |st.queue| <= QUEUE_SIZE
      && (st.Marked() ==> st.queue[0] == None && id !in Next(t, Step(id, Pop)).streams)
      && (!st.Marked() ==>
            && st.taken < |st.offered| && st.offered[st.taken] < |t.log|
            && id in Next(t, Step(id, Pop)).streams
            && Next(t, Step(id, Pop)).streams[id].phase == Reading(t.log[st.offered[st.taken]]))
  {
    ReachableKeepsInv(s, actions);
    assert StreamInv(Run(s, actions), Run(s, actions).streams[id]);
  }

  /**
    A due message that is neither taken or queued nor still coming has left a reset marker in front,
    or its dispatch timed out.
   */
  lemma LossIsMarked(s: System, actions: seq<Action>, id: nat, i: nat)
    requires Started(s) && Runs(s, actions) && id in Run(s, actions).streams
    requires var t := Run(s, actions);
      && Due(t.log, t.streams[id], i) && i !in t.streams[id].offered && i < t.cursor
      && !InBroker(t.control, t.notes, i) && !EndNoticed(t.notes)
    ensures var st := Run(s, actions).streams[id];
      i in Run(s, actions).dropped || (st.queue != [] && st.queue[0] == None)
  {
    ReachableKeepsInv(s, actions);
    assert StreamInv(Run(s, actions), Run(s, actions).streams[id]);
  }

  /** While the connection is not known to work, every stream holds a marker, and no stream is added. */
  lemma UnhealthyIsMarked(s: System, actions: seq<Action>, id: nat)
    requires Started(s) && Runs(s, actions) && id in Run(s, actions).streams && !Run(s, actions).healthy
    ensures Run(s, actions).streams[id].Marked()
  {
    ReachableKeepsInv(s, actions);
    assert StreamInv(Run(s, actions), Run(s, actions).streams[id]);
  }

  /** A marker is never lost: it stays in the queue, in front, until the stream ends. */
  lemma MarkerStays(s: System, actions: seq<Action>, a: Action, id: nat)
    requires Started(s) && Runs(s, actions) && Enabled(Run(s, actions), a)
    requires id in Run(s, actions).streams && Run(s, actions).streams[id].Marked()
    ensures id in Next(Run(s, actions), a).streams ==>
      Next(Run(s, actions), a).streams[id].Marked() && Next(Run(s, actions), a).streams[id].queue[0] == None
  {
    ReachableKeepsInv(s, actions);
    var t := Run(s, actions);
    assert StreamInv(t, t.streams[id]);
    if id in Next(t, a).streams {
      FrontMarkerStays(t, a, id);
    }
  }

  lemma FrontMarkerStays(t: System, a: Action, id: nat)
    requires Enabled(t, a) && id in t.streams && id in Next(t, a).streams
    requires t.streams[id].queue != [] && t.streams[id].queue[0] == None
    ensures Next(t, a).streams[id].queue != [] && Next(t, a).streams[id].queue[0] == None
  {}
}
