/**
  The in-process slots of `locks.py`: one gate per workspace, four tasks at a time, gates that exist
  only while somebody uses them. A step is what a task does between two awaits.
 */
module AnalysisSlots {
  import opened Options

  const CAPACITY := 4

  /** `_WorkspaceGate`: who holds its lock, and how many tasks entered through it. */
  datatype Gate = Gate(holder: Option<nat>, users: nat)

  /** `_LocalGates`: the free permits of its semaphore, its gates by workspace, and its users. */
  datatype Local = Local(free: nat, workspaces: map<nat, nat>, users: nat)

  datatype Phase = AtGate | AtCapacity | Inside

  /** A task between entry and exit; it keeps the objects it found when it entered. */
  datatype Task = Task(workspace: nat, local: nat, gate: nat, phase: Phase)

  /** `loop` is the event loop's entry in `_local_gates`; objects are known by their address. */
  datatype State = State(loop: Option<nat>, locals: map<nat, Local>, gates: map<nat, Gate>, tasks: map<nat, Task>)

  datatype Step =
    | Enter(task: nat, workspace: nat, newLocal: nat, newGate: nat)
    | TakeGate(task: nat)
    | TakeCapacity(task: nat)
    | Leave(task: nat)            // the end of the body, an exception, or a cancellation anywhere

  predicate Enabled(s: State, a: Step) {
    match a
    case Enter(t, _, l, g) => t !in s.tasks && l !in s.locals && g !in s.gates
    case TakeGate(t) =>
      && t in s.tasks && s.tasks[t].phase == AtGate
      && s.tasks[t].gate in s.gates && s.gates[s.tasks[t].gate].holder == None
    case TakeCapacity(t) =>
      && t in s.tasks && s.tasks[t].phase == AtCapacity
      && s.tasks[t].local in s.locals && s.locals[s.tasks[t].local].free > 0
    case Leave(t) =>
      && t in s.tasks && s.tasks[t].gate in s.gates && s.tasks[t].local in s.locals
      && s.gates[s.tasks[t].gate].users > 0 && s.locals[s.tasks[t].local].users > 0
  }

  /** Two `setdefault` calls, each followed by a count. */
  function Entered(s: State, t: nat, w: nat, newLocal: nat, newGate: nat): State {
    var l := if s.loop.Some? then s.loop.value else newLocal;
    var local := if l in s.locals then s.locals[l] else Local(CAPACITY, map[], 0);
    var g := if w in local.workspaces then local.workspaces[w] else newGate;
    var gate := if g in s.gates then s.gates[g] else Gate(None, 0);
    State(
      Some(l),
      s.locals[l := local.(workspaces := local.workspaces[w := g], users := local.users + 1)],
      s.gates[g := gate.(users := gate.users + 1)],
      s.tasks[t := Task(w, l, g, AtGate)])
  }

  /** The locks are released in reverse order, then the counts go down and empty entries are popped. */
  function Left(s: State, t: nat): State
    requires Enabled(s, Leave(t))
  {
    var me := s.tasks[t];
    var gate, local := s.gates[me.gate], s.locals[me.local];
    var free := if me.phase == Inside then local.free + 1 else local.free;
    var holder := if me.phase == AtGate then gate.holder else None;
    var workspaces := if gate.users == 1 then local.workspaces - {me.workspace} else local.workspaces;
    State(
      if local.users == 1 then None else s.loop,
      s.locals[me.local := Local(free, workspaces, local.users - 1)],
      s.gates[me.gate := Gate(holder, gate.users - 1)],
      s.tasks - {t})
  }

  function Next(s: State, a: Step): State
    requires Enabled(s, a)
  {
    match a
    case Enter(t, w, l, g) => Entered(s, t, w, l, g)
    case TakeGate(t) =>
      var me := s.tasks[t];
      s.(gates := s.gates[me.gate := s.gates[me.gate].(holder := Some(t))],
        tasks := s.tasks[t := me.(phase := AtCapacity)])
    case TakeCapacity(t) =>
      var me := s.tasks[t];
      var local := s.locals[me.local];
      s.(locals := s.locals[me.local := local.(free := local.free - 1)], tasks := s.tasks[t := me.(phase := Inside)])
    case Leave(t) => Left(s, t)
  }

  const EMPTY := State(None, map[], map[], map[])

  predicate Runs(s: State, steps: seq<Step>)
    decreases |steps|
  {
    steps == [] || (Enabled(s, steps[0]) && Runs(Next(s, steps[0]), steps[1..]))
  }

  function Run(s: State, steps: seq<Step>): State
    requires Runs(s, steps)
    decreases |steps|
  {
    if steps == [] then s else Run(Next(s, steps[0]), steps[1..])
  }

  // -------------------------------------------------------------------------
  // The invariant.
  // -------------------------------------------------------------------------

  function Of(tasks: map<nat, Task>, w: nat): set<nat> {
    set t | t in tasks && tasks[t].workspace == w
  }

  function InsideOf(tasks: map<nat, Task>): set<nat> {
    set t | t in tasks && tasks[t].phase == Inside
  }

  /** The task uses the objects that the tables hold now. */
  predicate TaskOk(l: nat, workspaces: map<nat, nat>, me: Task) {
    me.local == l && me.workspace in workspaces && workspaces[me.workspace] == me.gate
  }

  predicate TasksOk(l: nat, workspaces: map<nat, nat>, tasks: map<nat, Task>) {
    forall t :: t in tasks ==> TaskOk(l, workspaces, tasks[t])
  }

  /** A gate counts its workspace's tasks, and its holder is the one of them that is past it. */
  predicate GateOk(gate: Gate, tasks: map<nat, Task>, w: nat) {
    && gate.users == |Of(tasks, w)| && gate.users > 0
    && (forall t :: t in Of(tasks, w) ==> (tasks[t].phase != AtGate <==> gate.holder == Some(t)))
    && (gate.holder.Some? ==> gate.holder.value in Of(tasks, w))
  }

  predicate GatesOk(workspaces: map<nat, nat>, gates: map<nat, Gate>, tasks: map<nat, Task>) {
    forall w :: w in workspaces ==> workspaces[w] in gates && GateOk(gates[workspaces[w]], tasks, w)
  }

  predicate Distinct(workspaces: map<nat, nat>) {
    forall v, w :: v in workspaces && w in workspaces && v != w ==> workspaces[v] != workspaces[w]
  }

  /** Permits are held by the tasks inside and by nobody else. */
  predicate CountsOk(local: Local, tasks: map<nat, Task>) {
    local.users == |tasks.Keys| && local.users > 0 && local.free + |InsideOf(tasks)| == CAPACITY
  }

  predicate Inv(s: State) {
    if s.loop.None? then s.tasks == map[]
    else
      s.loop.value in s.locals && LoopInv(s.loop.value, s.locals[s.loop.value], s.gates, s.tasks)
  }

  predicate LoopInv(l: nat, local: Local, gates: map<nat, Gate>, tasks: map<nat, Task>) {
    && CountsOk(local, tasks)
    && Distinct(local.workspaces)
    && TasksOk(l, local.workspaces, tasks)
    && GatesOk(local.workspaces, gates, tasks)
  }

  // -------------------------------------------------------------------------
  // Every step keeps it.
  // -------------------------------------------------------------------------

  /** A gate nobody's step touches stays in order while another workspace's task comes, moves or goes. */
  lemma OtherGateKeeps(gate: Gate, before: map<nat, Task>, after: map<nat, Task>, t: nat, w: nat)
    requires GateOk(gate, before, w)
    requires before - {t} == after - {t}
    requires (t in before ==> before[t].workspace != w) && (t in after ==> after[t].workspace != w)
    ensures GateOk(gate, after, w)
  {
    SameElsewhere(before, after, t);
    assert Of(after, w) == Of(before, w);
  }

  lemma SameElsewhere(before: map<nat, Task>, after: map<nat, Task>, t: nat)
    requires before - {t} == after - {t}
    ensures forall u :: u != t ==> (u in before <==> u in after)
    ensures forall u :: u != t && u in before ==> before[u] == after[u]
  {
    forall u | u != t ensures (u in before <==> u in after) && (u in before ==> before[u] == after[u]) {
      assert u in before - {t} <==> u in before;
      assert u in after - {t} <==> u in after;
      if u in before {
        assert (before - {t})[u] == before[u] && (after - {t})[u] == after[u];
      }
    }
  }

  lemma GateGains(gate: Gate, tasks: map<nat, Task>, t: nat, me: Task, w: nat)
    requires t !in tasks && me.workspace == w && me.phase == AtGate
    requires GateOk(gate, tasks, w) || (gate == Gate(None, 0) && Of(tasks, w) == {})
    ensures GateOk(gate.(users := gate.users + 1), tasks[t := me], w)
  {
    assert Of(tasks[t := me], w) == Of(tasks, w) + {t} && t !in Of(tasks, w);
  }

  lemma GateMoves(gate: Gate, tasks: map<nat, Task>, t: nat, me: Task, w: nat)
    requires t in tasks && tasks[t].workspace == me.workspace == w && GateOk(gate, tasks, w)
    requires me.phase != AtGate && (gate.holder == None || tasks[t].phase != AtGate)
    ensures GateOk(gate.(holder := Some(t)), tasks[t := me], w)
  {
    assert Of(tasks[t := me], w) == Of(tasks, w) && t in Of(tasks, w);
  }

  lemma GateLoses(gate: Gate, tasks: map<nat, Task>, t: nat, w: nat)
    requires t in tasks && tasks[t].workspace == w && GateOk(gate, tasks, w) && gate.users > 1
    ensures GateOk(Gate(if tasks[t].phase == AtGate then gate.holder else None, gate.users - 1), tasks - {t}, w)
  {
    assert Of(tasks - {t}, w) == Of(tasks, w) - {t} && t in Of(tasks, w);
  }

  lemma CountsGain(local: Local, tasks: map<nat, Task>, t: nat, me: Task)
    requires t !in tasks && me.phase == AtGate
    requires CountsOk(local, tasks) || (local == Local(CAPACITY, map[], 0) && tasks == map[])
    ensures CountsOk(local.(users := local.users + 1), tasks[t := me])
  {
    assert tasks[t := me].Keys == tasks.Keys + {t};
    assert InsideOf(tasks[t := me]) == InsideOf(tasks);
  }

  lemma GatesGain(workspaces: map<nat, nat>, gates: map<nat, Gate>, tasks: map<nat, Task>, t: nat, me: Task)
    requires GatesOk(workspaces, gates, tasks) && Distinct(workspaces)
    requires t !in tasks && me.phase == AtGate
    requires if me.workspace in workspaces then workspaces[me.workspace] == me.gate
             else me.gate !in gates && Of(tasks, me.workspace) == {}
    ensures var gate := if me.gate in gates then gates[me.gate] else Gate(None, 0);
      GatesOk(workspaces[me.workspace := me.gate], gates[me.gate := gate.(users := gate.users + 1)], tasks[t := me])
    ensures Distinct(workspaces[me.workspace := me.gate])
  {
    var w := me.workspace;
    GateGains(if me.gate in gates then gates[me.gate] else Gate(None, 0), tasks, t, me, w);
    assert tasks[t := me] - {t} == tasks - {t};
    forall v | v in workspaces && v != w
      ensures workspaces[v] != me.gate && GateOk(gates[workspaces[v]], tasks[t := me], v)
    {
      OtherGateKeeps(gates[workspaces[v]], tasks, tasks[t := me], t, v);
    }
  }

  /** Nobody has entered through these tables yet. */
  predicate Unused(local: Local, tasks: map<nat, Task>) {
    local == Local(CAPACITY, map[], 0) && tasks == map[]
  }

  lemma SlotEntered(l: nat, local: Local, gates: map<nat, Gate>, tasks: map<nat, Task>, t: nat, me: Task)
    requires LoopInv(l, local, gates, tasks) || Unused(local, tasks)
    requires t !in tasks && me.phase == AtGate && me.local == l
    requires if me.workspace in local.workspaces then local.workspaces[me.workspace] == me.gate else me.gate !in gates
    ensures var gate := if me.gate in gates then gates[me.gate] else Gate(None, 0);
      var more := local.(workspaces := local.workspaces[me.workspace := me.gate], users := local.users + 1);
      LoopInv(l, more, gates[me.gate := gate.(users := gate.users + 1)], tasks[t := me])
  {
    if me.workspace !in local.workspaces {
      NobodyYet(l, local.workspaces, tasks, me.workspace);
    }
    CountsGain(local, tasks, t, me);
    GatesGain(local.workspaces, gates, tasks, t, me);
    TasksGain(l, local.workspaces, tasks, t, me);
  }

  lemma EnterKeeps(s: State, t: nat, w: nat, newLocal: nat, newGate: nat)
    requires Inv(s) && Enabled(s, Enter(t, w, newLocal, newGate))
    ensures Inv(Entered(s, t, w, newLocal, newGate))
  {
    var l := if s.loop.Some? then s.loop.value else newLocal;
    var local := if s.loop.Some? then s.locals[l] else Local(CAPACITY, map[], 0);
    var me := Task(w, l, if w in local.workspaces then local.workspaces[w] else newGate, AtGate);
    SlotEntered(l, local, s.gates, s.tasks, t, me);
  }

  lemma TasksGain(l: nat, workspaces: map<nat, nat>, tasks: map<nat, Task>, t: nat, me: Task)
    requires TasksOk(l, workspaces, tasks)
    requires me.local == l && (me.workspace in workspaces ==> workspaces[me.workspace] == me.gate)
    ensures TasksOk(l, workspaces[me.workspace := me.gate], tasks[t := me])
  {}

  lemma NobodyYet(l: nat, workspaces: map<nat, nat>, tasks: map<nat, Task>, w: nat)
    requires TasksOk(l, workspaces, tasks) && w !in workspaces
    ensures Of(tasks, w) == {}
  {
    forall u | u in tasks ensures tasks[u].workspace != w {
      assert TaskOk(l, workspaces, tasks[u]);
    }
  }

  /** A task's move within its slot. */
  lemma GatesMove(workspaces: map<nat, nat>, gates: map<nat, Gate>, tasks: map<nat, Task>, t: nat, me: Task)
    requires GatesOk(workspaces, gates, tasks) && Distinct(workspaces)
    requires t in tasks && me == tasks[t].(phase := me.phase) && me.phase != AtGate
    requires me.workspace in workspaces && workspaces[me.workspace] == me.gate && me.gate in gates
    requires gates[me.gate].holder == None || tasks[t].phase != AtGate
    ensures GatesOk(workspaces, gates[me.gate := gates[me.gate].(holder := Some(t))], tasks[t := me])
  {
    assert tasks[t := me] - {t} == tasks - {t};
    GateMoves(gates[me.gate], tasks, t, me, me.workspace);
    forall v | v in workspaces && v != me.workspace
      ensures GateOk(gates[workspaces[v]], tasks[t := me], v) && workspaces[v] != me.gate
    {
      OtherGateKeeps(gates[workspaces[v]], tasks, tasks[t := me], t, v);
    }
  }

  lemma TasksMove(l: nat, workspaces: map<nat, nat>, tasks: map<nat, Task>, t: nat, me: Task)
    requires TasksOk(l, workspaces, tasks)
    requires t in tasks && me == tasks[t].(phase := me.phase)
    ensures TasksOk(l, workspaces, tasks[t := me])
  {
    assert TaskOk(l, workspaces, tasks[t]);
  }

  lemma CountsStay(local: Local, tasks: map<nat, Task>, t: nat, me: Task)
    requires CountsOk(local, tasks) && t in tasks && tasks[t].phase != Inside && me.phase != Inside
    ensures CountsOk(local, tasks[t := me])
  {
    assert tasks[t := me].Keys == tasks.Keys;
    assert InsideOf(tasks[t := me]) == InsideOf(tasks);
  }

  lemma GateTaken(l: nat, local: Local, gates: map<nat, Gate>, tasks: map<nat, Task>, t: nat)
    requires LoopInv(l, local, gates, tasks) && t in tasks && tasks[t].phase == AtGate
    requires tasks[t].gate in gates && gates[tasks[t].gate].holder == None
    ensures LoopInv(l, local, gates[tasks[t].gate := gates[tasks[t].gate].(holder := Some(t))],
      tasks[t := tasks[t].(phase := AtCapacity)])
  {
    var me := tasks[t].(phase := AtCapacity);
    assert TaskOk(l, local.workspaces, tasks[t]);
    GatesMove(local.workspaces, gates, tasks, t, me);
    TasksMove(l, local.workspaces, tasks, t, me);
    CountsStay(local, tasks, t, me);
  }

  lemma TakeGateKeeps(s: State, t: nat)
    requires Inv(s) && Enabled(s, TakeGate(t))
    ensures Inv(Next(s, TakeGate(t)))
  {
    GateTaken(s.loop.value, s.locals[s.loop.value], s.gates, s.tasks, t);
  }

  lemma CountsMoveInside(local: Local, tasks: map<nat, Task>, t: nat, me: Task)
    requires CountsOk(local, tasks) && t in tasks && tasks[t].phase != Inside && me.phase == Inside && local.free > 0
    ensures CountsOk(local.(free := local.free - 1), tasks[t := me])
  {
    assert tasks[t := me].Keys == tasks.Keys;
    assert InsideOf(tasks[t := me]) == InsideOf(tasks) + {t} && t !in InsideOf(tasks);
  }

  lemma HolderOfPassed(l: nat, local: Local, gates: map<nat, Gate>, tasks: map<nat, Task>, t: nat)
    requires LoopInv(l, local, gates, tasks) && t in tasks && tasks[t].phase != AtGate
    ensures tasks[t].gate in gates && gates[tasks[t].gate].holder == Some(t)
  {
    var me := tasks[t];
    assert TaskOk(l, local.workspaces, me);
    assert GateOk(gates[me.gate], tasks, me.workspace) && t in Of(tasks, me.workspace);
  }

  lemma CapacityTaken(l: nat, local: Local, gates: map<nat, Gate>, tasks: map<nat, Task>, t: nat)
    requires LoopInv(l, local, gates, tasks) && t in tasks && tasks[t].phase == AtCapacity && local.free > 0
    ensures LoopInv(l, local.(free := local.free - 1), gates, tasks[t := tasks[t].(phase := Inside)])
  {
    var me := tasks[t].(phase := Inside);
    assert TaskOk(l, local.workspaces, tasks[t]);
    HolderOfPassed(l, local, gates, tasks, t);
    GatesMove(local.workspaces, gates, tasks, t, me);
    assert gates[me.gate := gates[me.gate].(holder := Some(t))] == gates;
    TasksMove(l, local.workspaces, tasks, t, me);
    CountsMoveInside(local, tasks, t, me);
  }

  lemma TakeCapacityKeeps(s: State, t: nat)
    requires Inv(s) && Enabled(s, TakeCapacity(t))
    ensures Inv(Next(s, TakeCapacity(t)))
  {
    assert TaskOk(s.loop.value, s.locals[s.loop.value].workspaces, s.tasks[t]);
    CapacityTaken(s.loop.value, s.locals[s.loop.value], s.gates, s.tasks, t);
  }

  /** The last of several tasks is not the only one. */
  lemma TwoIsMore(a: set<nat>, t: nat, u: nat)
    requires t in a && u in a && t != u
    ensures |a| > 1
  {
    assert |a - {t}| == |a| - 1 && u in a - {t};
  }

  lemma LeaveKeeps(s: State, t: nat)
    requires Inv(s) && Enabled(s, Leave(t))
    ensures Inv(Left(s, t))
  {
    assert TaskOk(s.loop.value, s.locals[s.loop.value].workspaces, s.tasks[t]);
    if s.locals[s.loop.value].users == 1 {
      forall u | u in s.tasks && u != t ensures false {
        TwoIsMore(s.tasks.Keys, t, u);
      }
      assert Left(s, t).tasks == map[];
    } else {
      LeaveKeepsCounts(s, t, s.loop.value);
      LeaveKeepsTasks(s, t);
      LeaveKeepsGates(s, t);
    }
  }

  lemma CountsWithout(local: Local, workspaces: map<nat, nat>, tasks: map<nat, Task>, t: nat)
    requires CountsOk(local, tasks) && t in tasks && local.users > 1
    ensures CountsOk(
      Local(if tasks[t].phase == Inside then local.free + 1 else local.free, workspaces, local.users - 1), tasks - {t})
  {
    assert (tasks - {t}).Keys == tasks.Keys - {t};
    assert InsideOf(tasks - {t}) == InsideOf(tasks) - {t};
    assert t in InsideOf(tasks) <==> tasks[t].phase == Inside;
  }

  lemma LeaveKeepsCounts(s: State, t: nat, l: nat)
    requires Enabled(s, Leave(t)) && s.tasks[t].local == l && s.locals[l].users > 1
    requires CountsOk(s.locals[l], s.tasks) && Distinct(s.locals[l].workspaces)
    ensures CountsOk(Left(s, t).locals[l], Left(s, t).tasks) && Distinct(Left(s, t).locals[l].workspaces)
  {
    CountsWithout(s.locals[l], Left(s, t).locals[l].workspaces, s.tasks, t);
  }

  lemma LeaveKeepsTasks(s: State, t: nat)
    requires Inv(s) && Enabled(s, Leave(t))
    ensures var n := Left(s, t);
      s.loop.value in n.locals && TasksOk(s.loop.value, n.locals[s.loop.value].workspaces, n.tasks)
  {
    var n, me, l := Left(s, t), s.tasks[t], s.loop.value;
    assert TaskOk(l, s.locals[l].workspaces, me);
    forall u | u in n.tasks ensures TaskOk(l, n.locals[l].workspaces, n.tasks[u]) {
      assert TaskOk(l, s.locals[l].workspaces, s.tasks[u]);
      if s.tasks[u].workspace == me.workspace {
        TwoIsMore(Of(s.tasks, me.workspace), t, u);
        assert GateOk(s.gates[me.gate], s.tasks, me.workspace);
      }
    }
  }

  lemma LeaveKeepsGates(s: State, t: nat)
    requires Inv(s) && Enabled(s, Leave(t))
    ensures var n := Left(s, t);
      s.loop.value in n.locals && GatesOk(n.locals[s.loop.value].workspaces, n.gates, n.tasks)
  {
    var n, me, l := Left(s, t), s.tasks[t], s.loop.value;
    var before, after := s.locals[l].workspaces, n.locals[l].workspaces;
    assert TaskOk(l, before, me);
    assert n.tasks - {t} == s.tasks - {t};
    forall v | v in after ensures after[v] in n.gates && GateOk(n.gates[after[v]], n.tasks, v) {
      assert GateOk(s.gates[before[v]], s.tasks, v);
      if v == me.workspace {
        GateLoses(s.gates[me.gate], s.tasks, t, v);
      } else {
        assert before[v] != before[me.workspace];
        OtherGateKeeps(s.gates[before[v]], s.tasks, n.tasks, t, v);
      }
    }
  }

  lemma StepKeepsInv(s: State, a: Step)
    requires Inv(s) && Enabled(s, a)
    ensures Inv(Next(s, a))
  {
    match a
    case Enter(t, w, l, g) => EnterKeeps(s, t, w, l, g);
    case TakeGate(t) => TakeGateKeeps(s, t);
    case TakeCapacity(t) => TakeCapacityKeeps(s, t);
    case Leave(t) => LeaveKeeps(s, t);
  }

  lemma {:induction false} RunKeepsInv(s: State, steps: seq<Step>)
    requires Inv(s) && Runs(s, steps)
    ensures Inv(Run(s, steps))
    decreases |steps|
  {
    if steps != [] {
      StepKeepsInv(s, steps[0]);
      RunKeepsInv(Next(s, steps[0]), steps[1..]);
    }
  }

  lemma ReachableInv(steps: seq<Step>)
    requires Runs(EMPTY, steps)
    ensures Inv(Run(EMPTY, steps))
  {
    RunKeepsInv(EMPTY, steps);
  }

  // -------------------------------------------------------------------------
  // What follows for every interleaving.
  // -------------------------------------------------------------------------

  /**
    Tasks of one workspace meet at one gate, all tasks share one semaphore, and one task per workspace is
    past its gate.
   */
  lemma OneGatePerWorkspace(steps: seq<Step>, t: nat, u: nat)
    requires Runs(EMPTY, steps) && t in Run(EMPTY, steps).tasks && u in Run(EMPTY, steps).tasks && t != u
    ensures var a, b := Run(EMPTY, steps).tasks[t], Run(EMPTY, steps).tasks[u];
      && a.local == b.local
      && (a.gate == b.gate <==> a.workspace == b.workspace)
      && (a.workspace == b.workspace ==> a.phase == AtGate || b.phase == AtGate)
  {
    ReachableInv(steps);
    var s := Run(EMPTY, steps);
    var l := s.loop.value;
    var a, b := s.tasks[t], s.tasks[u];
    assert TaskOk(l, s.locals[l].workspaces, a) && TaskOk(l, s.locals[l].workspaces, b);
    if a.workspace == b.workspace && a.phase != AtGate && b.phase != AtGate {
      HolderOfPassed(l, s.locals[l], s.gates, s.tasks, t);
      HolderOfPassed(l, s.locals[l], s.gates, s.tasks, u);
    }
  }

  /** At most four tasks are inside, and those waiting hold no permit. */
  lemma CapacityIsForThoseInside(steps: seq<Step>)
    requires Runs(EMPTY, steps)
    ensures var s := Run(EMPTY, steps);
      |InsideOf(s.tasks)| <= CAPACITY
      && (s.loop.Some? ==> s.loop.value in s.locals && s.locals[s.loop.value].free == CAPACITY - |InsideOf(s.tasks)|)
  {
    ReachableInv(steps);
    var s := Run(EMPTY, steps);
    if s.loop.None? {
      assert InsideOf(s.tasks) == {};
    }
  }

  /** The tables hold exactly what is in use: nothing stays behind after a failure or a cancellation. */
  lemma TablesHoldWhatIsUsed(steps: seq<Step>)
    requires Runs(EMPTY, steps)
    ensures var s := Run(EMPTY, steps);
      && (s.loop.None? <==> s.tasks == map[])
      && (s.loop.Some? ==>
            s.loop.value in s.locals
            && s.locals[s.loop.value].workspaces.Keys == set t | t in s.tasks :: s.tasks[t].workspace)
  {
    ReachableInv(steps);
    var s := Run(EMPTY, steps);
    if s.loop.Some? {
      var workspaces := s.locals[s.loop.value].workspaces;
      forall w | w in workspaces ensures exists t :: t in s.tasks && s.tasks[t].workspace == w {
        assert GateOk(s.gates[workspaces[w]], s.tasks, w);
        var t :| t in Of(s.tasks, w);
      }
      forall t | t in s.tasks ensures s.tasks[t].workspace in workspaces {
        assert TaskOk(s.loop.value, workspaces, s.tasks[t]);
      }
    }
  }

  /** A task can always leave; and if none is inside, some waiting task can go on. */
  lemma NobodyIsStuck(steps: seq<Step>, t: nat)
    requires Runs(EMPTY, steps) && t in Run(EMPTY, steps).tasks
    ensures Enabled(Run(EMPTY, steps), Leave(t))
    ensures InsideOf(Run(EMPTY, steps).tasks) == {} ==>
      exists u :: Enabled(Run(EMPTY, steps), TakeGate(u)) || Enabled(Run(EMPTY, steps), TakeCapacity(u))
  {
    ReachableInv(steps);
    var s := Run(EMPTY, steps);
    var l, me := s.loop.value, s.tasks[t];
    assert TaskOk(l, s.locals[l].workspaces, me);
    assert GateOk(s.gates[me.gate], s.tasks, me.workspace);
    if InsideOf(s.tasks) == {} {
      var holder := s.gates[me.gate].holder;
      if holder == None {
        assert t in Of(s.tasks, me.workspace);
        assert Enabled(s, TakeGate(t));
      } else {
        var h := holder.value;
        assert h in Of(s.tasks, me.workspace);
        assert TaskOk(l, s.locals[l].workspaces, s.tasks[h]);
        assert h !in InsideOf(s.tasks);
        assert Enabled(s, TakeCapacity(h));
      }
    }
  }
}
