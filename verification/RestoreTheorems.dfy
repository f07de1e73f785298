/** What concurrent restores keep in every reachable state, whatever their commits do. */
module RestoreTheorems {
  import opened Restore

  // -------------------------------------------------------------------------
  // The invariant, one restorer at a time.
  // -------------------------------------------------------------------------

  predicate ByMe(row: Row, r: nat) {
    row == Held(r) || row == Reserved(r) || row == Committed(r)
  }

  /** The paths so far, in the order of the sources. */
  predicate OwnPaths(me: Restorer, r: nat) {
    forall j :: 0 <= j < |me.paths| ==> me.paths[j] == Path(r, j)
  }

  /** Every object of the restorer that exists is listed. */
  predicate Listed(objects: set<Path>, r: nat, listed: seq<Path>) {
    forall p :: p in objects && p.attempt == r ==> p in listed
  }

  predicate Stored(objects: set<Path>, listed: seq<Path>) {
    forall p :: p in listed ==> p in objects
  }

  /** Everything the snapshot holds outside SQL exists under the target, and nothing else in the graph. */
  predicate Whole(graph: set<nat>, objects: set<Path>, sources: nat, r: nat) {
    graph == {r} && forall i: nat :: i < sources ==> Path(r, i) in objects
  }

  predicate Unstarted(me: Restorer) {
    me.paths == [] && !me.graphCreated && !me.attempted && !me.deleted
  }

  predicate Writing(row: Row, graph: set<nat>, objects: set<Path>, sources: nat, r: nat, me: Restorer) {
    && row == Held(r) && graph == {} && !me.graphCreated && !me.attempted && !me.deleted
    && |me.paths| <= sources && Stored(objects, me.paths)
  }

  /** The rows are written or the commit was attempted, and nothing was given up. */
  predicate Intact(graph: set<nat>, objects: set<Path>, sources: nat, r: nat, me: Restorer) {
    && graph == {r} && me.graphCreated && !me.deleted
    && |me.paths| == sources && Stored(objects, me.paths)
  }

  predicate CleaningInv(row: Row, graph: set<nat>, objects: set<Path>, r: nat, me: Restorer)
    requires me.phase.Cleaning?
  {
    var c := me.phase;
    && row != Committed(r)
    && (c.reserved ==> row == Reserved(r) && !c.released)
    && (!c.reserved ==> row != Reserved(r))
    && (c.released ==> row != Held(r))
    && (me.attempted <==> c.reserved)
    && (forall p :: p in c.pathsLeft ==> p.attempt == r)
    && (c.errors || Listed(objects, r, c.pathsLeft))
    && (r in graph ==> c.graphLeft || c.errors)
    && (c.graphLeft || c.pathsLeft != [] ==> c.reserved || c.released || row == Held(r))
    && (c.graphLeft ==> graph <= {r} && (c.reserved || c.released ==> r in graph))
  }

  predicate RestorerInv(row: Row, graph: set<nat>, objects: set<Path>, sources: nat, r: nat, me: Restorer) {
    && OwnPaths(me, r)
    && (r in graph ==> graph == {r} && (row.Committed? ==> row == Committed(r)))
    && match me.phase
       case Begin => Unstarted(me) && !ByMe(row, r) && r !in graph && Listed(objects, r, [])
       case Inserting => Unstarted(me) && !ByMe(row, r) && r !in graph && Listed(objects, r, [])
       case CheckingGraph => Unstarted(me) && row == Held(r) && r !in graph && Listed(objects, r, [])
       case Uploading => Writing(row, graph, objects, sources, r, me) && Listed(objects, r, me.paths)
       case CreatingGraph => Writing(row, graph, objects, sources, r, me) && |me.paths| == sources
         && Listed(objects, r, me.paths)
       case FlushingRows => Intact(graph, objects, sources, r, me) && row == Held(r) && !me.attempted
         && Listed(objects, r, me.paths)
       case Committing => Intact(graph, objects, sources, r, me) && me.attempted && row != Reserved(r)
         && Listed(objects, r, me.paths)
       case RollingBack => Intact(graph, objects, sources, r, me) && me.attempted && row != Reserved(r)
         && Listed(objects, r, me.paths)
       case Verifying => Intact(graph, objects, sources, r, me) && me.attempted && row != Reserved(r)
         && Listed(objects, r, me.paths)
       case Reserving => Intact(graph, objects, sources, r, me) && me.attempted && row != Reserved(r)
         && Listed(objects, r, me.paths)
       case Reverifying => Intact(graph, objects, sources, r, me) && me.attempted
       case Cleaning(_, _, _, _, _) => CleaningInv(row, graph, objects, r, me)
       case Finishing(end) => GaveUp(row, graph, objects, r, me, end) && (me.attempted ==> row != Held(r))
       case Done(end) =>
         if end in {Undone, Residual} then GaveUp(row, graph, objects, r, me, end) && !ByMe(row, r)
         else
           && Intact(graph, objects, sources, r, me) && me.attempted
           && (end != Uncertain ==> row == Committed(r))
  }

  predicate GaveUp(row: Row, graph: set<nat>, objects: set<Path>, r: nat, me: Restorer, end: Outcome) {
    && end in {Undone, Residual} && row != Committed(r)
    && (end == Undone ==> r !in graph && Listed(objects, r, []))
  }

  predicate Inv(s: System) {
    && (s.row.Held? || s.row.Reserved? ==> s.row.owner in s.restorers)
    && forall r :: r in s.restorers ==> RestorerInv(s.row, s.graph, s.objects, s.sources, r, s.restorers[r])
  }

  lemma StartedIsInv(s: System)
    requires Started(s)
    ensures Inv(s)
  {}

  // -------------------------------------------------------------------------
  // A step keeps it for the restorer that takes it.
  // -------------------------------------------------------------------------

  lemma OwnStepKeeps(s: System, r: nat, a: Step)
    requires Enabled(s, r, a) && RestorerInv(s.row, s.graph, s.objects, s.sources, r, s.restorers[r])
    ensures var t := Next(s, r, a); RestorerInv(t.row, t.graph, t.objects, t.sources, r, t.restorers[r])
  {
    if a.Upload? || a.UploadLost? {
      UploadKeeps(s, r, a);
    } else if IsOpening(a) {
      OpeningKeeps(s, r, a);
    } else if IsWriting(a) {
      WritingKeeps(s, r, a);
    } else if IsCommitting(a) {
      CommittingKeeps(s, r, a);
    } else if IsSettling(a) {
      SettlingKeeps(s, r, a);
    } else if a.CleanObject? {
      CleanObjectKeeps(s, r, a);
    } else if IsEnding(a) {
      EndingKeeps(s, r, a);
    } else {
      ServerKeeps(s, r, a);
    }
  }

  predicate IsEnding(a: Step) {
    a.CleanGraph? || a.Cleaned? || a.Release?
  }

  predicate IsOpening(a: Step) {
    a.Look? || a.Insert? || a.InsertFails? || a.CheckGraph?
  }

  predicate IsWriting(a: Step) {
    a.Fail? || a.Uploaded? || a.CreateGraph? || a.CreateGraphFails? || a.FlushFails? || a.AttemptCommit?
  }

  predicate IsCommitting(a: Step) {
    a.CommitReturns? || a.CommitFails? || a.RollbackReturns? || a.RollbackFails?
  }

  predicate IsSettling(a: Step) {
    a.Verify? || a.VerifyFails? || a.ReserveTarget? || a.ReserveFails?
  }

  lemma OpeningKeeps(s: System, r: nat, a: Step)
    requires IsOpening(a) && Enabled(s, r, a) && RestorerInv(s.row, s.graph, s.objects, s.sources, r, s.restorers[r])
    ensures var t := Next(s, r, a); RestorerInv(t.row, t.graph, t.objects, t.sources, r, t.restorers[r])
  {}

  lemma WritingKeeps(s: System, r: nat, a: Step)
    requires IsWriting(a) && Enabled(s, r, a) && RestorerInv(s.row, s.graph, s.objects, s.sources, r, s.restorers[r])
    ensures var t := Next(s, r, a); RestorerInv(t.row, t.graph, t.objects, t.sources, r, t.restorers[r])
  {}

  lemma CommittingKeeps(s: System, r: nat, a: Step)
    requires IsCommitting(a) && Enabled(s, r, a) && RestorerInv(s.row, s.graph, s.objects, s.sources, r, s.restorers[r])
    ensures var t := Next(s, r, a); RestorerInv(t.row, t.graph, t.objects, t.sources, r, t.restorers[r])
  {}

  lemma SettlingKeeps(s: System, r: nat, a: Step)
    requires IsSettling(a) && Enabled(s, r, a) && RestorerInv(s.row, s.graph, s.objects, s.sources, r, s.restorers[r])
    ensures var t := Next(s, r, a); RestorerInv(t.row, t.graph, t.objects, t.sources, r, t.restorers[r])
  {}

  lemma EndingKeeps(s: System, r: nat, a: Step)
    requires IsEnding(a) && Enabled(s, r, a) && RestorerInv(s.row, s.graph, s.objects, s.sources, r, s.restorers[r])
    ensures var t := Next(s, r, a); RestorerInv(t.row, t.graph, t.objects, t.sources, r, t.restorers[r])
  {}

  lemma ServerKeeps(s: System, r: nat, a: Step)
    requires a.ServerCommits? || a.ServerAborts? || a.ServerReleases?
    requires Enabled(s, r, a) && RestorerInv(s.row, s.graph, s.objects, s.sources, r, s.restorers[r])
    ensures var t := Next(s, r, a); RestorerInv(t.row, t.graph, t.objects, t.sources, r, t.restorers[r])
  {}

  lemma UploadKeeps(s: System, r: nat, a: Step)
    requires a.Upload? || a.UploadLost?
    requires Enabled(s, r, a) && RestorerInv(s.row, s.graph, s.objects, s.sources, r, s.restorers[r])
    ensures var t := Next(s, r, a); RestorerInv(t.row, t.graph, t.objects, t.sources, r, t.restorers[r])
  {
    var me, path := s.restorers[r], Path(r, |s.restorers[r].paths|);
    var paths := me.paths + [path];
    assert paths[|me.paths|] == path;
    forall p | p in me.paths ensures p in paths {}
  }

  lemma CleanObjectKeeps(s: System, r: nat, a: Step)
    requires a.CleanObject?
    requires Enabled(s, r, a) && RestorerInv(s.row, s.graph, s.objects, s.sources, r, s.restorers[r])
    ensures var t := Next(s, r, a); RestorerInv(t.row, t.graph, t.objects, t.sources, r, t.restorers[r])
  {
    var left := s.restorers[r].phase.pathsLeft;
    assert left == [left[0]] + left[1..];
  }

  // -------------------------------------------------------------------------
  // A step keeps it for every other restorer.
  // -------------------------------------------------------------------------

  /** A step adds and removes only objects of the restorer that takes it. */
  ghost predicate ObjectsApart(before: set<Path>, after: set<Path>, r: nat) {
    forall p: Path :: p.attempt != r ==> (p in after <==> p in before)
  }

  /** A step adds nodes only to an empty graph, and removes only nodes of the restorer that takes it. */
  predicate GraphApart(s: System, t: System, r: nat) {
    t.graph == s.graph || (s.graph == {} && s.row == Held(r) && t.graph == {r}) || (s.graph <= {r} && t.graph == {})
  }

  /** A step takes a free row, gives its own row up, or commits it with its own graph in place. */
  predicate RowApart(s: System, t: System, r: nat) {
    || t.row == s.row
    || (s.row == Absent && (t.row == Held(r) || t.row == Reserved(r)))
    || ((s.row == Held(r) || s.row == Reserved(r)) && t.row == Absent)
    || (s.row == Held(r) && t.row == Committed(r) && s.graph == {r} && t.graph == {r})
  }

  lemma StepIsApart(s: System, r: nat, a: Step)
    requires Enabled(s, r, a) && RestorerInv(s.row, s.graph, s.objects, s.sources, r, s.restorers[r])
    ensures var t := Next(s, r, a);
      ObjectsApart(s.objects, t.objects, r) && GraphApart(s, t, r) && RowApart(s, t, r)
  {
    StepKeepsObjectsApart(s, r, a);
    StepKeepsGraphApart(s, r, a);
    StepKeepsRowApart(s, r, a);
  }

  lemma StepKeepsObjectsApart(s: System, r: nat, a: Step)
    requires Enabled(s, r, a) && RestorerInv(s.row, s.graph, s.objects, s.sources, r, s.restorers[r])
    ensures ObjectsApart(s.objects, Next(s, r, a).objects, r)
  {}

  lemma StepKeepsGraphApart(s: System, r: nat, a: Step)
    requires Enabled(s, r, a) && RestorerInv(s.row, s.graph, s.objects, s.sources, r, s.restorers[r])
    ensures GraphApart(s, Next(s, r, a), r)
  {}

  lemma StepKeepsRowApart(s: System, r: nat, a: Step)
    requires Enabled(s, r, a) && RestorerInv(s.row, s.graph, s.objects, s.sources, r, s.restorers[r])
    ensures RowApart(s, Next(s, r, a), r)
  {}

  /** Such a step does not concern the others. */
  lemma ApartKeeps(s: System, t: System, r: nat, q: nat, me: Restorer)
    requires q != r && ObjectsApart(s.objects, t.objects, r) && GraphApart(s, t, r) && RowApart(s, t, r)
    requires RestorerInv(s.row, s.graph, s.objects, s.sources, q, me)
    ensures RestorerInv(t.row, t.graph, t.objects, s.sources, q, me)
  {}

  lemma OtherStepKeeps(s: System, r: nat, a: Step, q: nat)
    requires Enabled(s, r, a) && q in s.restorers && q != r
    requires RestorerInv(s.row, s.graph, s.objects, s.sources, r, s.restorers[r])
    requires RestorerInv(s.row, s.graph, s.objects, s.sources, q, s.restorers[q])
    ensures var t := Next(s, r, a); RestorerInv(t.row, t.graph, t.objects, t.sources, q, t.restorers[q])
  {
    StepIsApart(s, r, a);
    ApartKeeps(s, Next(s, r, a), r, q, s.restorers[q]);
  }

  lemma StepKeepsInv(s: System, r: nat, a: Step)
    requires Inv(s) && Enabled(s, r, a)
    ensures Inv(Next(s, r, a))
  {
    var t := Next(s, r, a);
    OwnStepKeeps(s, r, a);
    forall q | q in t.restorers && q != r
      ensures RestorerInv(t.row, t.graph, t.objects, t.sources, q, t.restorers[q])
    {
      OtherStepKeeps(s, r, a, q);
    }
  }

  lemma {:induction false} RunKeepsInv(s: System, run: seq<Event>)
    requires Inv(s) && Runs(s, run)
    ensures Inv(Run(s, run)) && Run(s, run).sources == s.sources
    decreases |run|
  {
    if run != [] {
      StepKeepsInv(s, run[0].who, run[0].step);
      RunKeepsInv(Next(s, run[0].who, run[0].step), run[1..]);
    }
  }

  lemma ReachableInv(s: System, run: seq<Event>, r: nat)
    requires Started(s) && Runs(s, run) && r in Run(s, run).restorers
    ensures var t := Run(s, run);
      Inv(t) && RestorerInv(t.row, t.graph, t.objects, t.sources, r, t.restorers[r]) && t.sources == s.sources
  {
    StartedIsInv(s);
    RunKeepsInv(s, run);
  }

  // -------------------------------------------------------------------------
  // What follows for every run.
  // -------------------------------------------------------------------------

  predicate Succeeded(end: Outcome) {
    end in {Restored, RestoredVerified, RestoredLate}
  }

  /**
    A restorer that returned normally, or reported only that it was late, committed the row itself;
    its graph and all its objects exist, and it never asked for a deletion.
   */
  lemma SuccessMeansRestored(s: System, run: seq<Event>, r: nat)
    requires Started(s) && Runs(s, run) && r in Run(s, run).restorers
    requires Run(s, run).restorers[r].phase.Done? && Succeeded(Run(s, run).restorers[r].phase.end)
    ensures var t := Run(s, run);
      t.row == Committed(r) && Whole(t.graph, t.objects, s.sources, r) && !t.restorers[r].deleted
  {
    ReachableInv(s, run, r);
    var t := Run(s, run);
    IntactIsWhole(t.graph, t.objects, t.sources, r, t.restorers[r]);
  }

  lemma IntactIsWhole(graph: set<nat>, objects: set<Path>, sources: nat, r: nat, me: Restorer)
    requires Intact(graph, objects, sources, r, me) && OwnPaths(me, r)
    ensures Whole(graph, objects, sources, r)
  {
    forall i: nat | i < sources ensures Path(r, i) in objects {
      assert me.paths[i] == Path(r, i) && me.paths[i] in me.paths;
    }
  }

  lemma OnlyOneSucceeds(s: System, run: seq<Event>, q: nat, r: nat)
    requires Started(s) && Runs(s, run) && q in Run(s, run).restorers && r in Run(s, run).restorers
    requires Run(s, run).restorers[q].phase.Done? && Succeeded(Run(s, run).restorers[q].phase.end)
    requires Run(s, run).restorers[r].phase.Done? && Succeeded(Run(s, run).restorers[r].phase.end)
    ensures q == r
  {
    SuccessMeansRestored(s, run, q);
    SuccessMeansRestored(s, run, r);
  }

  /**
    A restorer that reported an uncertain outcome, or that still has its commit to settle, deleted
    nothing, and everything it wrote outside SQL is there, in every later state too.
   */
  lemma UncertainMeansPreserved(s: System, run: seq<Event>, r: nat)
    requires Started(s) && Runs(s, run) && r in Run(s, run).restorers
    requires var me := Run(s, run).restorers[r];
      me.phase == Done(Uncertain) || me.phase in {Committing, RollingBack, Verifying, Reserving, Reverifying}
    ensures var t := Run(s, run);
      Whole(t.graph, t.objects, s.sources, r) && !t.restorers[r].deleted
  {
    ReachableInv(s, run, r);
    var t := Run(s, run);
    IntactIsWhole(t.graph, t.objects, t.sources, r, t.restorers[r]);
  }

  /** The converse for the row: whoever committed it has everything else in place. */
  lemma CommittedRowIsWhole(s: System, run: seq<Event>, r: nat)
    requires Started(s) && Runs(s, run) && r in Run(s, run).restorers && Run(s, run).row == Committed(r)
    ensures var t := Run(s, run);
      Whole(t.graph, t.objects, s.sources, r) && !t.restorers[r].deleted
  {
    ReachableInv(s, run, r);
    var t := Run(s, run);
    IntactIsWhole(t.graph, t.objects, t.sources, r, t.restorers[r]);
  }

  /** A restorer that ends with its own error and no residue leaves no row, no node and no object of its own. */
  lemma UndoneMeansGone(s: System, run: seq<Event>, r: nat)
    requires Started(s) && Runs(s, run) && r in Run(s, run).restorers && Run(s, run).restorers[r].phase == Done(Undone)
    ensures var t := Run(s, run);
      && t.row != Held(r) && t.row != Reserved(r) && t.row != Committed(r)
      && r !in t.graph && forall p :: p in t.objects ==> p.attempt != r
  {
    ReachableInv(s, run, r);
  }

  /** A restorer only ever removes what it wrote itself, and never once its own row is committed. */
  lemma DeletesOnlyItsOwn(s: System, run: seq<Event>, r: nat, a: Step)
    requires Started(s) && Runs(s, run) && Enabled(Run(s, run), r, a)
    ensures var t := Run(s, run);
      && t.graph - Next(t, r, a).graph <= {r}
      && (forall p :: p in t.objects - Next(t, r, a).objects ==> p.attempt == r)
      && (a.CleanGraph? || a.CleanObject? ==> t.row != Committed(r))
  {
    ReachableInv(s, run, r);
    StepIsApart(Run(s, run), r, a);
  }

  /**
    The graph is deleted only while nobody's row is committed. Objects are too, unless the restorer's
    rows failed to flush, which ends its transaction before the cleanup.
   */
  lemma DeletesBeforeAnyCommit(s: System, run: seq<Event>, r: nat, a: Step)
    requires Started(s) && Runs(s, run) && Enabled(Run(s, run), r, a)
    requires a.CleanGraph? || (a.CleanObject? && !Run(s, run).restorers[r].phase.released)
    ensures !Run(s, run).row.Committed?
  {
    ReachableInv(s, run, r);
  }

  // -------------------------------------------------------------------------
  // When a cleanup can meet a commit.
  // -------------------------------------------------------------------------

  const UNSTARTED := Restorer(Begin, [], false, false, false)

  /** Only `r` and what everybody shares changed. */
  predicate OnlyMoved(s: System, t: System, r: nat) {
    && t.sources == s.sources && t.restorers.Keys == s.restorers.Keys && r in s.restorers
    && forall q :: q in s.restorers && q != r ==> t.restorers[q] == s.restorers[q]
  }

  /** Nothing is in the way of `q`: the target is free or held by it, and the graph was empty when it looked. */
  predicate OnTrack(s: System, q: nat) {
    q in s.restorers &&
    var me := s.restorers[q];
    match me.phase
    case Begin => me.paths == [] && s.row == Absent && s.graph == {}
    case Inserting => me.paths == [] && s.row == Absent && s.graph == {}
    case CheckingGraph => me.paths == [] && s.row == Held(q) && s.graph == {}
    case Uploading => |me.paths| <= s.sources && s.row == Held(q)
    case CreatingGraph => |me.paths| == s.sources && s.row == Held(q)
    case _ => false
  }

  function Forward(s: System, q: nat): Step
    requires OnTrack(s, q)
  {
    match s.restorers[q].phase
    case Begin => Look
    case Inserting => Insert
    case CheckingGraph => CheckGraph
    case Uploading => if |s.restorers[q].paths| < s.sources then Upload else Uploaded
    case CreatingGraph => CreateGraph
  }

  function Distance(s: System, q: nat): nat
    requires OnTrack(s, q)
  {
    match s.restorers[q].phase
    case Begin => s.sources + 5
    case Inserting => s.sources + 4
    case CheckingGraph => s.sources + 3
    case Uploading => s.sources - |s.restorers[q].paths| + 2
    case CreatingGraph => 1
  }

  /** The rows are about to be flushed, and everything else is written. */
  predicate Written(s: System, q: nat) {
    && q in s.restorers && s.row == Held(q)
    && s.restorers[q].phase == FlushingRows && s.restorers[q].graphCreated && |s.restorers[q].paths| == s.sources
  }

  lemma ForwardStep(s: System, q: nat)
    requires OnTrack(s, q)
    ensures Enabled(s, q, Forward(s, q))
    ensures var t := Next(s, q, Forward(s, q));
      OnlyMoved(s, t, q) && if OnTrack(s, q) && Forward(s, q).CreateGraph? then Written(t, q)
        else OnTrack(t, q) && Distance(t, q) < Distance(s, q)
  {}

  lemma Prepended(s: System, r: nat, a: Step, rest: seq<Event>)
    requires Enabled(s, r, a) && Runs(Next(s, r, a), rest)
    ensures Runs(s, [Event(r, a)] + rest) && Run(s, [Event(r, a)] + rest) == Run(Next(s, r, a), rest)
  {
    var run := [Event(r, a)] + rest;
    assert run[0] == Event(r, a) && run[1..] == rest;
  }

  /** A restorer alone on its way, whatever the number of sources, to the point where its rows are flushed. */
  lemma {:induction false} Writes(s: System, q: nat) returns (run: seq<Event>)
    requires OnTrack(s, q)
    ensures Runs(s, run) && OnlyMoved(s, Run(s, run), q) && Written(Run(s, run), q)
    decreases Distance(s, q)
  {
    ForwardStep(s, q);
    var t := Next(s, q, Forward(s, q));
    if OnTrack(t, q) {
      var rest := Writes(t, q);
      Prepended(s, q, Forward(s, q), rest);
      run := [Event(q, Forward(s, q))] + rest;
    } else {
      Prepended(s, q, Forward(s, q), []);
      run := [Event(q, Forward(s, q))] + [];
    }
  }

  /** From there the commit is attempted and the server grants it. */
  lemma Commits(s: System, q: nat) returns (run: seq<Event>)
    requires Written(s, q)
    ensures Runs(s, run) && OnlyMoved(s, Run(s, run), q) && Run(s, run).row == Committed(q)
  {
    var t := Next(s, q, AttemptCommit);
    assert Enabled(t, q, ServerCommits);
    Prepended(t, q, ServerCommits, []);
    Prepended(s, q, AttemptCommit, [Event(q, ServerCommits)] + []);
    run := [Event(q, AttemptCommit)] + ([Event(q, ServerCommits)] + []);
  }

  lemma {:induction false} RunsOn(s: System, first: seq<Event>, second: seq<Event>)
    requires Runs(s, first) && Runs(Run(s, first), second)
    ensures Runs(s, first + second) && Run(s, first + second) == Run(Run(s, first), second)
    decreases |first|
  {
    if first == [] {
      assert first + second == second;
    } else {
      RunsOn(Next(s, first[0].who, first[0].step), first[1..], second);
      assert (first + second)[0] == first[0] && (first + second)[1..] == first[1..] + second;
    }
  }

  /** A restorer still has objects of its own to delete, and nothing else. */
  predicate DeletingObjects(s: System, r: nat) {
    && r in s.restorers && s.restorers[r].phase.Cleaning?
    && !s.restorers[r].phase.graphLeft && s.restorers[r].phase.pathsLeft != []
  }

  /** The run ends with somebody's row committed and `r` about to delete an object. */
  predicate DeletesAfterCommit(s: System, run: seq<Event>, r: nat) {
    Runs(s, run) && Run(s, run).row.Committed? && DeletingObjects(Run(s, run), r)
  }

  /** Whether a cleanup started without its transaction never changes. */
  predicate CleansLike(s: System, r: nat, released: bool) {
    && r in s.restorers
    && (s.restorers[r].phase.Cleaning? ==> s.restorers[r].phase.released == released)
    && (s.restorers[r].phase.Cleaning? || s.restorers[r].phase.Finishing? || s.restorers[r].phase.Done?)
  }

  lemma {:induction false} ReleasedStays(s: System, run: seq<Event>, r: nat, released: bool)
    requires CleansLike(s, r, released) && Runs(s, run)
    ensures CleansLike(Run(s, run), r, released)
    decreases |run|
  {
    if run != [] {
      assert CleansLike(Next(s, run[0].who, run[0].step), r, released);
      ReleasedStays(Next(s, run[0].who, run[0].step), run[1..], r, released);
    }
  }

  /** In every reachable state: while a reservation is held, no continuation deletes an object after a commit. */
  lemma ReservedCleanupMeetsNoCommit(s: System, run: seq<Event>, r: nat, more: seq<Event>)
    requires Started(s) && Runs(s, run) && DeletingObjects(Run(s, run), r)
    requires DeletesAfterCommit(Run(s, run), more, r)
    ensures Run(s, run).restorers[r].phase.released
  {
    var t := Run(s, run);
    ReachableInv(s, run, r);
    RunKeepsInv(t, more);
    ReleasedStays(t, more, r, t.restorers[r].phase.released);
    var u := Run(t, more);
    assert RestorerInv(u.row, u.graph, u.objects, u.sources, r, u.restorers[r]);
  }

  /** With a released one and another restorer that can start, some continuation does. */
  lemma ReleasedCleanupMeetsCommit(t: System, r: nat, q: nat) returns (more: seq<Event>)
    requires DeletingObjects(t, r) && q != r && OnTrack(t, q)
    ensures DeletesAfterCommit(t, more, r) && Run(t, more).row == Committed(q)
  {
    var first := Writes(t, q);
    var second := Commits(Run(t, first), q);
    RunsOn(t, first, second);
    more := first + second;
    assert Run(t, more).restorers[r] == t.restorers[r];
  }

  /**
    The reservation makes the difference. Of a restorer that is deleting its objects, while nothing
    keeps another one from starting if the reservation is gone: somebody can commit before the last
    object is deleted exactly when its transaction was rolled back before the cleanup.
   */
  lemma CleanupMeetsCommitExactlyWhenReleased(s: System, run: seq<Event>, r: nat, q: nat)
    requires Started(s) && Runs(s, run) && DeletingObjects(Run(s, run), r) && q != r
    requires Run(s, run).restorers[r].phase.released ==> OnTrack(Run(s, run), q)
    ensures (exists more :: DeletesAfterCommit(Run(s, run), more, r)) <==> Run(s, run).restorers[r].phase.released
  {
    if Run(s, run).restorers[r].phase.released {
      var more := ReleasedCleanupMeetsCommit(Run(s, run), r, q);
    }
    forall more | DeletesAfterCommit(Run(s, run), more, r) ensures Run(s, run).restorers[r].phase.released {
      ReservedCleanupMeetsNoCommit(s, run, r, more);
    }
  }

  lemma FlushFailsAndGraphGoes(s: System, r: nat) returns (run: seq<Event>)
    requires Written(s, r) && s.sources > 0
    ensures Runs(s, run) && OnlyMoved(s, Run(s, run), r)
    ensures DeletingObjects(Run(s, run), r) && Run(s, run).restorers[r].phase.released
    ensures Run(s, run).row == Absent && Run(s, run).graph == {}
  {
    var t := Next(s, r, FlushFails(true));
    assert Enabled(t, r, CleanGraph(true, true));
    Prepended(t, r, CleanGraph(true, true), []);
    Prepended(s, r, FlushFails(true), [Event(r, CleanGraph(true, true))] + []);
    run := [Event(r, FlushFails(true))] + ([Event(r, CleanGraph(true, true))] + []);
  }

  /** Such states are reached from every free target by two restorers, whatever the number of sources. */
  lemma ReleasedCleanupIsReached(s: System, r: nat, q: nat) returns (run: seq<Event>)
    requires Started(s) && s.row == Absent && s.graph == {} && s.sources > 0
    requires r in s.restorers && q in s.restorers && q != r
    ensures Runs(s, run) && DeletingObjects(Run(s, run), r) && Run(s, run).restorers[r].phase.released
      && OnTrack(Run(s, run), q)
  {
    var first := Writes(s, r);
    var second := FlushFailsAndGraphGoes(Run(s, first), r);
    RunsOn(s, first, second);
    run := first + second;
    assert Run(s, run).restorers[q] == UNSTARTED;
  }
}
