/**
  Restoring a snapshot (`demo_snapshot.py`): any number of restorers of one target workspace. The
  workspace row reserves the target, graph and objects are written outside its transaction, and the
  commit may succeed, fail or stay in flight. Each step is one call to the outside world.
 */
module Restore {
  /** A fresh attempt id makes every object path the restorer's own. */
  datatype Path = Path(attempt: nat, source: nat)

  /**
    The target's row under its primary key: absent, inserted by a restore's transaction, inserted by
    a reservation, or committed. An insert waits while another transaction holds the key.
   */
  datatype Row =
    | Absent
    | Held(owner: nat)
    | Reserved(owner: nat)
    | Committed(owner: nat)

  datatype Outcome =
    | Restored                 // a normal return
    | RestoredVerified         // a normal return although the commit call failed
    | RestoredLate             // the error that says the limit passed after the commit
    | Uncertain                // the error that says everything was preserved
    | Undone                   // the original error, after a complete cleanup
    | Residual                 // the error that lists what could not be cleaned up

  /** Where a restorer is. `released`: its transaction was already rolled back by a failed flush. */
  datatype Phase =
    | Begin
    | Inserting
    | CheckingGraph
    | Uploading
    | CreatingGraph
    | FlushingRows
    | Committing
    | RollingBack
    | Verifying
    | Reserving
    | Reverifying
    | Cleaning(reserved: bool, released: bool, graphLeft: bool, pathsLeft: seq<Path>, errors: bool)
    | Finishing(outcome: Outcome)
    | Done(end: Outcome)

  /** `paths`, `graph_created` and `commit_attempted`; `deleted` records whether it ever asked for a deletion. */
  datatype Restorer = Restorer(phase: Phase, paths: seq<Path>, graphCreated: bool, attempted: bool, deleted: bool)

  /** `graph` lists who has nodes under the target; `sources` is the number of objects to restore. */
  datatype System = System(row: Row, graph: set<nat>, objects: set<Path>, restorers: map<nat, Restorer>, sources: nat)

  datatype Step =
    | Look                        // is the target there?
    | Insert                      // the insert goes through
    | InsertFails
    | CheckGraph                  // count the target's nodes
    | Fail                        // any error before the rows are flushed, or the deadline
    | Upload                      // one object is stored
    | UploadLost(stored: bool)    // the transport failed; the object may be stored
    | Uploaded                    // the loop over the sources ends
    | CreateGraph
    | CreateGraphFails(stored: bool)
    | FlushFails(released: bool)
    | AttemptCommit
    | CommitReturns(late: bool)
    | CommitFails
    | RollbackReturns
    | RollbackFails
    | Verify(answer: bool)
    | VerifyFails
    | ReserveTarget
    | ReserveFails(held: bool)    // the insert may have gone through before the time limit
    | CleanGraph(ok: bool, gone: bool)
    | CleanObject(ok: bool, gone: bool)
    | Cleaned
    | Release                     // the last rollback
    | ServerCommits               // the server decides about the commit it was sent
    | ServerAborts
    | ServerReleases              // an abandoned reservation ends

  predicate Enabled(s: System, r: nat, a: Step)
  {
    r in s.restorers &&
    var me := s.restorers[r];
    match a
    case Look => me.phase == Begin
    case Insert => me.phase == Inserting && s.row == Absent
    case InsertFails => me.phase == Inserting
    case CheckGraph => me.phase == CheckingGraph
    case Fail => me.phase in {CheckingGraph, Uploading, CreatingGraph, FlushingRows}
    case Upload => me.phase == Uploading && |me.paths| < s.sources
    case UploadLost(_) => me.phase == Uploading && |me.paths| < s.sources
    case Uploaded => me.phase == Uploading && |me.paths| == s.sources
    case CreateGraph => me.phase == CreatingGraph
    case CreateGraphFails(_) => me.phase == CreatingGraph
    case FlushFails(_) => me.phase == FlushingRows
    case AttemptCommit => me.phase == FlushingRows
    case CommitReturns(_) => me.phase == Committing && s.row == Committed(r)
    case CommitFails => me.phase == Committing
    case RollbackReturns => me.phase == RollingBack
    case RollbackFails => me.phase == RollingBack
    case Verify(answer) => me.phase in {Verifying, Reverifying} && answer == s.row.Committed?
    case VerifyFails => me.phase in {Verifying, Reverifying}
    case ReserveTarget => me.phase == Reserving && s.row == Absent
    case ReserveFails(held) => me.phase == Reserving && (held ==> s.row == Absent)
    case CleanGraph(ok, gone) => me.phase.Cleaning? && me.phase.graphLeft && (ok ==> gone)
    case CleanObject(ok, gone) =>
      me.phase.Cleaning? && !me.phase.graphLeft && me.phase.pathsLeft != [] && (ok ==> gone)
    case Cleaned => me.phase.Cleaning? && !me.phase.graphLeft && me.phase.pathsLeft == []
    case Release => me.phase.Finishing?
    case ServerCommits => me.attempted && s.row == Held(r)
    case ServerAborts => me.attempted && s.row == Held(r)
    case ServerReleases => !me.phase.Cleaning? && !me.phase.Finishing? && s.row == Reserved(r)
  }

  /** The handler of an error before the commit was attempted. */
  function Failing(me: Restorer, released: bool): Restorer {
    me.(phase := Cleaning(false, released, me.graphCreated, me.paths, false))
  }

  function Next(s: System, r: nat, a: Step): System
    requires Enabled(s, r, a)
  {
    var me := s.restorers[r];
    match a
    case Look => With(s, r, if s.row.Committed? then Failing(me, false) else me.(phase := Inserting))
    case Insert => With(s, r, me.(phase := CheckingGraph)).(row := Held(r))
    case InsertFails => With(s, r, Failing(me, false))
    case CheckGraph => With(s, r, if s.graph == {} then me.(phase := Uploading) else Failing(me, false))
    case Fail => With(s, r, Failing(me, false))
    case Upload =>
      var path := Path(r, |me.paths|);
      With(s, r, me.(paths := me.paths + [path])).(objects := s.objects + {path})
    case UploadLost(stored) =>
      var path := Path(r, |me.paths|);
      With(s, r, Failing(me.(paths := me.paths + [path]), false))
        .(objects := if stored then s.objects + {path} else s.objects)
    case Uploaded => With(s, r, me.(phase := CreatingGraph))
    case CreateGraph => With(s, r, me.(phase := FlushingRows, graphCreated := true)).(graph := s.graph + {r})
    case CreateGraphFails(stored) =>
      With(s, r, Failing(me.(graphCreated := true), false)).(graph := if stored then s.graph + {r} else s.graph)
    case FlushFails(released) =>
      With(s, r, Failing(me, released)).(row := if released && s.row == Held(r) then Absent else s.row)
    case AttemptCommit => With(s, r, me.(phase := Committing, attempted := true))
    case CommitReturns(late) => With(s, r, me.(phase := Done(if late then RestoredLate else Restored)))
    case CommitFails => With(s, r, me.(phase := RollingBack))
    case RollbackReturns => With(s, r, me.(phase := Verifying))
    case RollbackFails => With(s, r, me.(phase := Done(Uncertain)))
    case Verify(answer) =>
      With(s, r, me.(phase := if answer then Done(RestoredVerified)
                              else if me.phase == Verifying then Reserving else Done(Uncertain)))
    case VerifyFails => With(s, r, me.(phase := Done(Uncertain)))
    case ReserveTarget =>
      With(s, r, me.(phase := Cleaning(true, false, me.graphCreated, me.paths, false))).(row := Reserved(r))
    case ReserveFails(held) => With(s, r, me.(phase := Reverifying)).(row := if held then Reserved(r) else s.row)
    case CleanGraph(ok, gone) =>
      With(s, r, me.(phase := me.phase.(graphLeft := false, errors := me.phase.errors || !ok), deleted := true))
        .(graph := if gone then {} else s.graph)
    case CleanObject(ok, gone) =>
      var path := me.phase.pathsLeft[0];
      With(s, r,
        me.(phase := me.phase.(pathsLeft := me.phase.pathsLeft[1..], errors := me.phase.errors || !ok),
          deleted := true))
        .(objects := if gone then s.objects - {path} else s.objects)
    case Cleaned => With(s, r, me.(phase := Finishing(if me.phase.errors then Residual else Undone)))
    case Release =>
      With(s, r, me.(phase := Done(me.phase.outcome)))
        .(row := if s.row == Held(r) || s.row == Reserved(r) then Absent else s.row)
    case ServerCommits => s.(row := Committed(r))
    case ServerAborts => s.(row := Absent)
    case ServerReleases => s.(row := Absent)
  }

  function With(s: System, r: nat, me: Restorer): System {
    s.(restorers := s.restorers[r := me])
  }

  /**
    Nobody has started. The row may already be committed and the graph may already have nodes, of
    somebody who is not among the restorers.
   */
  predicate Started(s: System) {
    && (s.row == Absent || (s.row.Committed? && s.row.owner !in s.restorers))
    && s.graph !! s.restorers.Keys
    && (forall p :: p in s.objects ==> p.attempt !in s.restorers)
    && forall r :: r in s.restorers ==> s.restorers[r] == Restorer(Begin, [], false, false, false)
  }

  datatype Event = Event(who: nat, step: Step)

  predicate Runs(s: System, run: seq<Event>)
    decreases |run|
  {
    run == [] || (Enabled(s, run[0].who, run[0].step) && Runs(Next(s, run[0].who, run[0].step), run[1..]))
  }

  function Run(s: System, run: seq<Event>): System
    requires Runs(s, run)
    decreases |run|
  {
    if run == [] then s else Run(Next(s, run[0].who, run[0].step), run[1..])
  }
}
