/**
  Delivery of source events as one system: the sources table with its trigger, the notification
  channel, the broker's loop and the streams (`source_event_broker.py`, `source_events.py`, the
  trigger in `202609260003_source_event_queue.py`). A step is what runs between two awaits.
 */
module SourceEvents {
  import opened Options
  import opened SourceEventBroker

  /** The seven columns `_load_jobs` reads, which are the seven the update trigger compares. */
  datatype Job = Job(
    kind: string,
    transcriptSource: Option<string>,
    status: string,
    analysisMode: string,
    progress: int,
    stage: string,
    error: Option<string>)

  /** A source row: what the stream shows, and every other column. */
  datatype Row = Row(job: Job, other: string)

  datatype Phase =
    | Subscribed                  // before its snapshot
    | Idle
    | Reading(k: Key)             // took an event, has not read the row yet
    | Got(k: Key, job: Job)       // read the row, has not compared and sent it yet

  /**
    `offered` and `taken` are the stream's history: the ids of the messages put into its queue from
    its subscription until its first reset, and how many of them it has taken out.
   */
  datatype Stream = Stream(
    watch: set<Key>,
    queue: Queue,
    phase: Phase,
    seen: map<Key, Job>,
    born: nat,
    offered: seq<nat>,
    taken: nat)
  {
    predicate Marked() {
      None in queue
    }

    /** What the stream shows, or is about to show. */
    function View(): map<Key, Job> {
      if phase.Got? then seen[phase.k := phase.job] else seen
    }
  }

  /** Where the broker's loop is. */
  datatype Control =
    | Looping
    | Dispatching(id: nat)
    | Probing                     // awaits the liveness query after a timeout
    | Closing
    | Reconnecting
    | Stopped

  /**
    `log` lists the keys of all messages ever committed, in commit order; a message's id is its
    position. While the connection is up the channel holds the messages from `cursor` on. `dropped` is
    the broker's history: the ids of the messages whose dispatch timed out.
   */
  datatype System = System(
    db: map<Key, Row>,
    log: seq<Key>,
    pruned: set<nat>,
    up: bool,
    cursor: nat,
    notes: seq<Note>,
    control: Control,
    healthy: bool,
    streams: map<nat, Stream>,
    dropped: set<nat>)

  datatype Action =
    | Write(k: Key, row: Row)       // a committed insert or update with its trigger
    | Delete(k: Key)
    | Prune(ids: set<nat>)
    | Deliver                       // the next channel message reaches `_notify`
    | DeliverMalformed
    | Die                           // the connection is lost; nobody knows yet
    | Terminate                     // `_terminated`, called by the connection
    | Take                          // the loop takes the next notification
    | FinishDispatch(found: bool)
    | FailDispatch                  // any failure but a timeout
    | DispatchTimesOut
    | WaitTimesOut
    | Probed(alive: bool)           // the liveness query has answered or failed
    | CloseDone
    | Reconnect
    | Stop
    | Subscribe(id: nat, watch: set<Key>)
    | Step(id: nat, move: Move)

  /** What one stream does by itself. */
  datatype Move =
    | Snapshot
    | Pop
    | Read
    | Send
    | End                           // disconnect, time limit, failed read

  predicate CanMove(st: Stream, move: Move) {
    match move
    case Snapshot => st.phase == Subscribed
    case Pop => st.phase == Idle && st.queue != []
    case Read => st.phase.Reading?
    case Send => st.phase.Got?
    case End => true
  }

  /** The stream after its move, `None` when the move ends it. */
  function Advance(db: map<Key, Row>, st: Stream, move: Move): Option<Stream>
    requires CanMove(st, move)
  {
    match move
    case Snapshot =>
      if st.watch <= db.Keys then Some(st.(phase := Idle, seen := map k | k in st.watch && k in db :: db[k].job))
      else None
    case Pop =>
      (match st.queue[0]
       case None => None
       case Some(k) => Some(st.(queue := st.queue[1..], phase := Reading(k), taken := st.taken + 1)))
    case Read =>
      if st.phase.k in db then Some(st.(phase := Got(st.phase.k, db[st.phase.k].job))) else None
    case Send => Some(st.(phase := Idle, seen := st.seen[st.phase.k := st.phase.job]))
    case End => None
  }

  predicate Enabled(s: System, a: Action) {
    match a
    case Write(_, _) => true
    case Delete(_) => true
    case Prune(ids) => forall i :: i in ids ==> i < |s.log|
    case Deliver => s.up && s.cursor < |s.log|
    case DeliverMalformed => s.up
    case Die => true
    case Terminate => s.control != Stopped
    case Take => s.control == Looping && s.notes != []
    case FinishDispatch(found) => s.control.Dispatching? && (found || s.control.id in s.pruned)
    case FailDispatch => s.control.Dispatching?
    case DispatchTimesOut => s.control.Dispatching?
    case WaitTimesOut => s.control == Looping
    case Probed(_) => s.control == Probing
    case CloseDone => s.control == Closing
    case Reconnect => s.control == Reconnecting
    case Stop => s.control != Stopped
    case Subscribe(id, _) => s.healthy && id !in s.streams
    case Step(id, move) => id in s.streams && CanMove(s.streams[id], move)
  }

  function ResetAll(streams: map<nat, Stream>): map<nat, Stream> {
    map i | i in streams :: streams[i].(queue := RESET)
  }

  /** One stream's part of a fan-out. */
  function Fed(st: Stream, k: Key, id: nat): Stream {
    if k !in st.watch then st
    else if |st.queue| < QUEUE_SIZE && !st.Marked() then
      st.(queue := Offered(st.queue, k), offered := st.offered + [id])
    else st.(queue := Offered(st.queue, k))
  }

  function FanOut(streams: map<nat, Stream>, k: Key, id: nat): map<nat, Stream> {
    map i | i in streams :: Fed(streams[i], k, id)
  }

  function Interrupt(s: System): System {
    s.(healthy := false, streams := ResetAll(s.streams), notes := [], control := Closing)
  }

  function Receive(s: System, note: Note): System {
    s.(notes := Notified(s.notes, note), streams := if Overflows(s.notes) then ResetAll(s.streams) else s.streams)
  }

  function Next(s: System, a: Action): System
    requires Enabled(s, a)
  {
    match a
    case Write(k, row) =>
      s.(db := s.db[k := row], log := if k in s.db && s.db[k].job == row.job then s.log else s.log + [k])
    case Delete(k) => s.(db := s.db - {k})
    case Prune(ids) => s.(pruned := s.pruned + ids)
    case Deliver => Receive(s, Message(s.cursor)).(cursor := s.cursor + 1)
    case DeliverMalformed => Receive(s, Malformed)
    case Die => s.(up := false)
    case Terminate => s.(notes := [Disconnected])
    case Take =>
      (match s.notes[0]
       case Message(id) => s.(notes := s.notes[1..], control := Dispatching(id))
       case Malformed => s.(notes := s.notes[1..])
       case Disconnected => Interrupt(s))
    case FinishDispatch(found) =>
      var id := s.control.id;
      s.(control := Looping,
         streams := if found && id < |s.log| then FanOut(s.streams, s.log[id], id) else ResetAll(s.streams))
    case FailDispatch => Interrupt(s)
    case DispatchTimesOut => s.(control := Probing, dropped := s.dropped + {s.control.id})
    case WaitTimesOut => s.(control := Probing)
    case Probed(alive) => s.(control := Looping, notes := if alive then s.notes else [Disconnected])
    case CloseDone => s.(up := false, notes := [], control := Reconnecting)
    case Reconnect =>
      s.(up := true, cursor := |s.log|, healthy := true, control := Looping, streams := ResetAll(s.streams))
    case Stop => s.(control := Stopped, healthy := false, up := false, streams := ResetAll(s.streams))
    case Subscribe(id, watch) =>
      s.(streams := s.streams[id := Stream(watch, [], Subscribed, map[], |s.log|, [], 0)])
    case Step(id, move) =>
      (match Advance(s.db, s.streams[id], move)
       case Some(after) => s.(streams := s.streams[id := after])
       case None => s.(streams := s.streams - {id}))
  }

  /** The broker has started on a database: listening, healthy, nobody subscribed. */
  predicate Started(s: System) {
    && s.up && s.healthy && s.control == Looping && s.notes == [] && s.streams == map[]
    && s.cursor == |s.log| && s.dropped == {} && forall i :: i in s.pruned ==> i < |s.log|
  }

  predicate Runs(s: System, actions: seq<Action>)
    decreases |actions|
  {
    actions == [] || (Enabled(s, actions[0]) && Runs(Next(s, actions[0]), actions[1..]))
  }

  function Run(s: System, actions: seq<Action>): System
    requires Runs(s, actions)
    decreases |actions|
  {
    if actions == [] then s else Run(Next(s, actions[0]), actions[1..])
  }
}
