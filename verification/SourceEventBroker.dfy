/**
  The listener's fan-out (`source_event_broker.py`): bounded queues, resets and dispatch, as the
  callbacks and the loop change them.
 */
module SourceEventBroker {
  import opened Options

  const QUEUE_SIZE := 64
  const NOTIFICATION_QUEUE_SIZE := 2048

  datatype Key = Key(owner: nat, workspace: nat, source: nat)

  /** A stream's queue; `None` is the reset marker that ends the stream. */
  type Queue = seq<Option<Key>>

  /** What the notification queue holds: a message id, text that is no id, or the end of the connection. */
  datatype Note = Message(id: nat) | Malformed | Disconnected

  const RESET: Queue := [None]

  /** `put_nowait`, or a reset when the queue is full. */
  function Offered(queue: Queue, k: Key): Queue {
    if |queue| < QUEUE_SIZE then queue + [Some(k)] else RESET
  }

  predicate Overflows(notes: seq<Note>) {
    |notes| >= NOTIFICATION_QUEUE_SIZE
  }

  /** The notification queue after one notification; an overflow empties it. */
  function Notified(notes: seq<Note>, note: Note): seq<Note> {
    if Overflows(notes) then [] else notes + [note]
  }

  class SourceSubscription {
    const owner: nat
    const workspace: nat
    const sourceIds: set<nat>
    var queue: Queue

    constructor (owner: nat, workspace: nat, sourceIds: set<nat>)
      ensures this.owner == owner && this.workspace == workspace && this.sourceIds == sourceIds && queue == []
    {
      this.owner, this.workspace, this.sourceIds, queue := owner, workspace, sourceIds, [];
    }

    predicate Accepts(k: Key) {
      owner == k.owner && workspace == k.workspace && k.source in sourceIds
    }

    method Reset()
      modifies this
      ensures queue == RESET
    {
      while queue != []
        decreases |queue|
      {
        queue := queue[1..];
      }
      queue := queue + [None];
    }

    method Offer(k: Key)
      modifies this
      ensures queue == if Accepts(k) then Offered(old(queue), k) else old(queue)
    {
      if Accepts(k) {
        if |queue| < QUEUE_SIZE {
          queue := queue + [Some(k)];
        } else {
          Reset();
        }
      }
    }
  }

  class SourceEventBroker {
    var subscribers: set<SourceSubscription>
    var notifications: seq<Note>
    var healthy: bool

    constructor ()
      ensures subscribers == {} && notifications == [] && !healthy
    {
      subscribers, notifications, healthy := {}, [], false;
    }

    /** Refused (`RuntimeError`) while the listener is not healthy. */
    method Subscribe(owner: nat, workspace: nat, sourceIds: set<nat>) returns (subscription: Option<SourceSubscription>)
      modifies this`subscribers
      ensures subscription.Some? <==> healthy
      ensures subscription.Some? ==>
        && fresh(subscription.value) && subscription.value.queue == []
        && (forall k :: subscription.value.Accepts(k) <==>
              owner == k.owner && workspace == k.workspace && k.source in sourceIds)
      ensures subscribers == old(subscribers) + (if subscription.Some? then {subscription.value} else {})
    {
      subscription := None;
      if healthy {
        var s := new SourceSubscription(owner, workspace, sourceIds);
        subscribers := subscribers + {s};
        subscription := Some(s);
      }
    }

    method ResetSubscribers()
      modifies subscribers
      ensures forall s :: s in subscribers ==> s.queue == RESET
    {
      var rest := subscribers;
      while rest != {}
        invariant rest <= subscribers
        invariant forall s :: s in subscribers - rest ==> s.queue == RESET
      {
        var s :| s in rest;
        s.Reset();
        rest := rest - {s};
      }
    }

    method DrainNotifications()
      modifies this`notifications
      ensures notifications == []
    {
      while notifications != []
        decreases |notifications|
      {
        notifications := notifications[1..];
      }
    }

    /** The connection's callback for one notification. */
    method Notify(note: Note)
      modifies this`notifications, subscribers
      ensures notifications == Notified(old(notifications), note)
      ensures forall s :: s in subscribers ==> s.queue == if Overflows(old(notifications)) then RESET else old(s.queue)
    {
      if |notifications| < NOTIFICATION_QUEUE_SIZE {
        notifications := notifications + [note];
      } else {
        ResetSubscribers();
        DrainNotifications();
      }
    }

    /** The connection's callback for its own end; the loop uses it when a liveness query fails. */
    method Terminated()
      modifies this`notifications
      ensures notifications == [Disconnected]
    {
      DrainNotifications();
      notifications := notifications + [Disconnected];
    }

    /** The end of `_dispatch`: `event` is what the queue table held, `None` if it was pruned. */
    method Dispatch(event: Option<Key>)
      modifies subscribers
      ensures forall s :: s in subscribers ==>
        s.queue == if event.None? then RESET
          else if s.Accepts(event.value) then Offered(old(s.queue), event.value) else old(s.queue)
    {
      if event.None? {
        ResetSubscribers();
        return;
      }
      var rest := subscribers;
      while rest != {}
        invariant rest <= subscribers
        invariant forall s :: s in rest ==> s.queue == old(s.queue)
        invariant forall s :: s in subscribers - rest ==>
          s.queue == if s.Accepts(event.value) then Offered(old(s.queue), event.value) else old(s.queue)
      {
        var s :| s in rest;
        s.Offer(event.value);
        rest := rest - {s};
      }
    }

    /** What the loop does first when the listener is interrupted. */
    method Interrupted()
      modifies this, subscribers
      ensures subscribers == old(subscribers) && notifications == [] && !healthy
      ensures forall s :: s in subscribers ==> s.queue == RESET
    {
      healthy := false;
      ResetSubscribers();
      DrainNotifications();
    }

    /** A new connection is listening: every stream must take a fresh snapshot. */
    method Reconnected()
      modifies this, subscribers
      ensures subscribers == old(subscribers) && notifications == old(notifications) && healthy
      ensures forall s :: s in subscribers ==> s.queue == RESET
    {
      healthy := true;
      ResetSubscribers();
    }
  }
}
