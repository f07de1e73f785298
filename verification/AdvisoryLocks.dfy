/**
  The database locks of `locks.py`: every session locks its source's key, then its workspace's key,
  and gives both up together. Sessions may be in any process.
 */
module AdvisoryLocks {
  const TWO_63 := 0x8000_0000_0000_0000

  type Byte = b: int | 0 <= b < 256

  function BigEndian(bytes: seq<Byte>): nat {
    if bytes == [] then 0 else 256 * BigEndian(bytes[..|bytes| - 1]) + bytes[|bytes| - 1]
  }

  /** The low 63 bits of an identifier's first eight bytes. */
  function Key(identifier: seq<Byte>): (k: nat)
    requires |identifier| == 16
    ensures k < TWO_63
  {
    BigEndian(identifier[..8]) % TWO_63
  }

  function SourceKey(source: seq<Byte>): int
    requires |source| == 16
  {
    Key(source)
  }

  function WorkspaceKey(workspace: seq<Byte>): int
    requires |workspace| == 16
  {
    Key(workspace) - TWO_63
  }

  /** Both kinds of key fit the server's signed 64-bit key, and no source key is a workspace key. */
  lemma KeysNeverMeet(source: seq<Byte>, workspace: seq<Byte>)
    requires |source| == 16 && |workspace| == 16
    ensures -TWO_63 <= WorkspaceKey(workspace) < 0 <= SourceKey(source) < TWO_63
  {}

  // -------------------------------------------------------------------------
  // Sessions.
  // -------------------------------------------------------------------------

  datatype Phase = WantsSource | WantsWorkspace | HasBoth

  datatype Session = Session(source: int, workspace: int, phase: Phase)

  /** The lock table, and the sessions that are waiting for or holding locks. */
  datatype State = State(holders: map<int, nat>, sessions: map<nat, Session>)

  datatype Step =
    | Begin(session: nat, source: seq<Byte>, workspace: seq<Byte>)
    | Lock(session: nat)
    | End(session: nat)           // rollback, or the session is lost

  /** The key a session is asking for. */
  function Wanted(me: Session): int
    requires me.phase != HasBoth
  {
    if me.phase == WantsSource then me.source else me.workspace
  }

  predicate Enabled(s: State, a: Step) {
    match a
    case Begin(i, source, workspace) => i !in s.sessions && |source| == 16 && |workspace| == 16
    case Lock(i) => i in s.sessions && s.sessions[i].phase != HasBoth && Wanted(s.sessions[i]) !in s.holders
    case End(i) => i in s.sessions
  }

  function Next(s: State, a: Step): State
    requires Enabled(s, a)
  {
    match a
    case Begin(i, source, workspace) =>
      s.(sessions := s.sessions[i := Session(SourceKey(source), WorkspaceKey(workspace), WantsSource)])
    case Lock(i) =>
      var me := s.sessions[i];
      State(
        s.holders[Wanted(me) := i],
        s.sessions[i := me.(phase := if me.phase == WantsSource then WantsWorkspace else HasBoth)])
    case End(i) => State(map k | k in s.holders && s.holders[k] != i :: s.holders[k], s.sessions - {i})
  }

  const EMPTY := State(map[], map[])

  predicate Runs(s: State, steps: seq<Step>)
    decreases |steps|
  {
    steps == [] || (Enabled(s, steps[0]) && Runs(Next(s, steps[0]), steps[1..]))
  }

  function Run(s: State, steps: seq<Step>): State
    requires Runs(s, steps)
    decreases |steps|
  {
    if steps == [] then s else Run(Next(s, steps[0]), steps[1..])
  }

  /** A session holds its source key once it is past the first lock, and its workspace key past the second. */
  predicate Holds(me: Session, k: int) {
    (k == me.source && me.phase != WantsSource) || (k == me.workspace && me.phase == HasBoth)
  }

  ghost predicate Inv(s: State) {
    && (forall i :: i in s.sessions ==> s.sessions[i].workspace < 0 <= s.sessions[i].source)
    && (forall k :: k in s.holders ==> s.holders[k] in s.sessions && Holds(s.sessions[s.holders[k]], k))
    && forall i, k :: i in s.sessions && Holds(s.sessions[i], k) ==> k in s.holders && s.holders[k] == i
  }

  lemma StepKeepsInv(s: State, a: Step)
    requires Inv(s) && Enabled(s, a)
    ensures Inv(Next(s, a))
  {
    var t := Next(s, a);
    forall i, k | i in t.sessions && Holds(t.sessions[i], k) ensures k in t.holders && t.holders[k] == i {
      if i in s.sessions && Holds(s.sessions[i], k) {
        assert k in s.holders && s.holders[k] == i;
      }
    }
  }

  lemma {:induction false} RunKeepsInv(s: State, steps: seq<Step>)
    requires Inv(s) && Runs(s, steps)
    ensures Inv(Run(s, steps))
    decreases |steps|
  {
    if steps != [] {
      StepKeepsInv(s, steps[0]);
      RunKeepsInv(Next(s, steps[0]), steps[1..]);
    }
  }

  /** Two sessions never hold both locks for one workspace, or for one source. */
  lemma LocksExclude(steps: seq<Step>, i: nat, j: nat)
    requires Runs(EMPTY, steps) && i in Run(EMPTY, steps).sessions && j in Run(EMPTY, steps).sessions && i != j
    requires Run(EMPTY, steps).sessions[i].phase == HasBoth && Run(EMPTY, steps).sessions[j].phase == HasBoth
    ensures var s := Run(EMPTY, steps).sessions;
      s[i].source != s[j].source && s[i].workspace != s[j].workspace
  {
    RunKeepsInv(EMPTY, steps);
    var s := Run(EMPTY, steps);
    HolderOf(s, i, s.sessions[i].source);
    HolderOf(s, i, s.sessions[i].workspace);
    HolderOf(s, j, s.sessions[j].source);
    HolderOf(s, j, s.sessions[j].workspace);
  }

  lemma HolderOf(s: State, i: nat, k: int)
    requires Inv(s) && i in s.sessions && Holds(s.sessions[i], k)
    ensures k in s.holders && s.holders[k] == i
  {}

  /** Session `i` waits for a lock that session `j` holds. */
  predicate WaitsFor(s: State, i: nat, j: nat) {
    && i in s.sessions && s.sessions[i].phase != HasBoth
    && Wanted(s.sessions[i]) in s.holders && s.holders[Wanted(s.sessions[i])] == j
  }

  predicate Waits(s: State, path: seq<nat>) {
    forall n :: 0 <= n < |path| - 1 ==> WaitsFor(s, path[n], path[n + 1])
  }

  function Rank(me: Session): nat {
    match me.phase
    case WantsSource => 0
    case WantsWorkspace => 1
    case HasBoth => 2
  }

  lemma WaitingClimbs(s: State, i: nat, j: nat)
    requires Inv(s) && WaitsFor(s, i, j)
    ensures j in s.sessions && Rank(s.sessions[i]) < Rank(s.sessions[j])
  {
    assert Holds(s.sessions[j], Wanted(s.sessions[i]));
  }

  lemma {:induction false} PathClimbs(s: State, path: seq<nat>)
    requires Inv(s) && |path| >= 2 && Waits(s, path)
    ensures path[0] in s.sessions && path[|path| - 1] in s.sessions
    ensures Rank(s.sessions[path[0]]) + |path| - 1 <= Rank(s.sessions[path[|path| - 1]])
    decreases |path|
  {
    var n := |path| - 2;
    assert WaitsFor(s, path[n], path[n + 1]);
    WaitingClimbs(s, path[n], path[n + 1]);
    if |path| > 2 {
      var front := path[..n + 1];
      forall m | 0 <= m < |front| - 1 ensures WaitsFor(s, front[m], front[m + 1]) {
        assert WaitsFor(s, path[m], path[m + 1]);
      }
      PathClimbs(s, front);
    }
  }

  /** No deadlock: sessions never wait for each other in a circle, and chains of waiting have at most three. */
  lemma NoCircleOfWaiting(steps: seq<Step>, path: seq<nat>)
    requires Runs(EMPTY, steps) && |path| >= 2 && Waits(Run(EMPTY, steps), path)
    ensures path[0] != path[|path| - 1] && |path| <= 3
  {
    RunKeepsInv(EMPTY, steps);
    PathClimbs(Run(EMPTY, steps), path);
  }

  predicate CanGoOn(s: State, j: nat) {
    j in s.sessions && (s.sessions[j].phase == HasBoth || Enabled(s, Lock(j)))
  }

  /** While sessions exist, one of them holds both locks or can take its next one. */
  lemma SomeSessionCanGoOn(steps: seq<Step>, i: nat)
    requires Runs(EMPTY, steps) && i in Run(EMPTY, steps).sessions
    ensures exists j :: CanGoOn(Run(EMPTY, steps), j)
  {
    RunKeepsInv(EMPTY, steps);
    var j := EndOfWaiting(Run(EMPTY, steps), i);
    assert CanGoOn(Run(EMPTY, steps), j);
  }

  lemma EndOfWaiting(s: State, i: nat) returns (j: nat)
    requires Inv(s) && i in s.sessions
    ensures CanGoOn(s, j)
    decreases 2 - Rank(s.sessions[i])
  {
    j := i;
    if s.sessions[i].phase != HasBoth && Wanted(s.sessions[i]) in s.holders {
      var h := s.holders[Wanted(s.sessions[i])];
      WaitingClimbs(s, i, h);
      j := EndOfWaiting(s, h);
    }
  }
}
