/** The cleanup loop of a failed restore, and the protocol steps it takes. */
module RestoreCleanup {
  import opened Restore

  /** How a deletion call ends: it works, it fails before it has an effect, or only its answer is lost. */
  datatype Call = Works | Fails | AnswerLost

  class Stores {
    var graph: set<nat>
    var objects: set<Path>

    constructor (graph: set<nat>, objects: set<Path>)
      ensures this.graph == graph && this.objects == objects
    {
      this.graph, this.objects := graph, objects;
    }
  }

  predicate Hits(paths: seq<Path>, calls: seq<Call>, p: Path)
    requires |calls| == |paths|
  {
    exists i :: 0 <= i < |paths| && paths[i] == p && !calls[i].Fails?
  }

  function Failures(calls: seq<Call>): seq<string> {
    if calls == [] then []
    else
      var before := Failures(calls[..|calls| - 1]);
      if calls[|calls| - 1].Works? then before else before + ["object"]
  }

  /** Deletes the graph if it may exist, then every path, whatever fails on the way. */
  method CleanupCreatedState(stores: Stores, graphCreated: bool, paths: seq<Path>, graphCall: Call, calls: seq<Call>)
    returns (errors: seq<string>)
    requires |calls| == |paths|
    modifies stores
    ensures stores.graph == if graphCreated && !graphCall.Fails? then {} else old(stores.graph)
    ensures forall p :: p in stores.objects <==> p in old(stores.objects) && !Hits(paths, calls, p)
    ensures errors == (if graphCreated && !graphCall.Works? then ["graph"] else []) + Failures(calls)
    ensures errors == [] ==>
      && (graphCreated ==> stores.graph == {})
      && forall p :: p in paths ==> p !in stores.objects
  {
    errors := [];
    if graphCreated {
      if !graphCall.Fails? {
        stores.graph := {};
      }
      if !graphCall.Works? {
        errors := errors + ["graph"];
      }
    }
    ghost var first := errors;
    var i := 0;
    while i < |paths|
      invariant 0 <= i <= |paths|
      invariant stores.graph == if graphCreated && !graphCall.Fails? then {} else old(stores.graph)
      invariant forall p :: p in stores.objects <==> p in old(stores.objects) && !Hits(paths[..i], calls[..i], p)
      invariant errors == first + Failures(calls[..i])
    {
      HitsSnoc(paths, calls, i);
      assert calls[..i + 1][..i] == calls[..i];
      if !calls[i].Fails? {
        stores.objects := stores.objects - {paths[i]};
      }
      if !calls[i].Works? {
        errors := errors + ["object"];
      }
      i := i + 1;
    }
    assert paths[..i] == paths && calls[..i] == calls;
    if errors == [] {
      NoFailures(calls);
    }
  }

  lemma HitsSnoc(paths: seq<Path>, calls: seq<Call>, i: nat)
    requires |calls| == |paths| && i < |paths|
    ensures forall p :: Hits(paths[..i + 1], calls[..i + 1], p) <==>
      Hits(paths[..i], calls[..i], p) || (p == paths[i] && !calls[i].Fails?)
  {
    forall p ensures Hits(paths[..i + 1], calls[..i + 1], p) <==>
      Hits(paths[..i], calls[..i], p) || (p == paths[i] && !calls[i].Fails?)
    {
      if j :| 0 <= j < i && paths[..i][j] == p && !calls[..i][j].Fails? {
        assert paths[..i + 1][j] == p && !calls[..i + 1][j].Fails?;
      }
      if p == paths[i] && !calls[i].Fails? {
        assert paths[..i + 1][i] == p;
      }
      if Hits(paths[..i + 1], calls[..i + 1], p) {
        var longer := paths[..i + 1];
        var j :| 0 <= j < |longer| && longer[j] == p && !calls[..i + 1][j].Fails?;
        if j < i {
          assert paths[..i][j] == p;
        }
      }
    }
  }

  lemma {:induction false} NoFailures(calls: seq<Call>)
    requires Failures(calls) == []
    ensures forall i :: 0 <= i < |calls| ==> calls[i].Works?
  {
    if calls != [] {
      NoFailures(calls[..|calls| - 1]);
    }
  }

  // -------------------------------------------------------------------------
  // The loop takes the protocol's cleaning steps.
  // -------------------------------------------------------------------------

  function ObjectStep(call: Call): Step {
    CleanObject(call.Works?, !call.Fails?)
  }

  function ObjectSteps(r: nat, calls: seq<Call>): seq<Event> {
    seq(|calls|, i requires 0 <= i < |calls| => Event(r, ObjectStep(calls[i])))
  }

  /** From the first object on: the steps are possible, and they leave what the loop leaves. */
  lemma {:induction false} LoopTakesTheSteps(s: System, r: nat, calls: seq<Call>)
    requires r in s.restorers && s.restorers[r].phase.Cleaning? && !s.restorers[r].phase.graphLeft
    requires |calls| == |s.restorers[r].phase.pathsLeft|
    ensures Runs(s, ObjectSteps(r, calls))
    ensures var t := Run(s, ObjectSteps(r, calls));
      var c := s.restorers[r].phase;
      && t.graph == s.graph && t.row == s.row && r in t.restorers
      && (forall p :: p in t.objects <==> p in s.objects && !Hits(c.pathsLeft, calls, p))
      && t.restorers[r].phase == c.(pathsLeft := [], errors := c.errors || Failures(calls) != [])
    decreases |calls|
  {
    var c := s.restorers[r].phase;
    if calls == [] {
      assert ObjectSteps(r, calls) == [];
    } else {
      var t := Next(s, r, ObjectStep(calls[0]));
      assert ObjectSteps(r, calls)[1..] == ObjectSteps(r, calls[1..]);
      LoopTakesTheSteps(t, r, calls[1..]);
      HitsCons(c.pathsLeft, calls);
      FailuresCons(calls);
    }
  }

  lemma HitsCons(paths: seq<Path>, calls: seq<Call>)
    requires |calls| == |paths| && paths != []
    ensures forall p :: Hits(paths, calls, p) <==>
      Hits(paths[1..], calls[1..], p) || (p == paths[0] && !calls[0].Fails?)
  {
    forall p ensures Hits(paths, calls, p) <==> Hits(paths[1..], calls[1..], p) || (p == paths[0] && !calls[0].Fails?) {
      if j :| 0 <= j < |paths| && paths[j] == p && !calls[j].Fails? {
        if j > 0 {
          assert paths[1..][j - 1] == p && !calls[1..][j - 1].Fails?;
        }
      }
    }
  }

  lemma {:induction false} FailuresCons(calls: seq<Call>)
    requires calls != []
    ensures Failures(calls) != [] <==> !calls[0].Works? || Failures(calls[1..]) != []
    decreases |calls|
  {
    var n := |calls| - 1;
    if n > 0 {
      FailuresCons(calls[..n]);
      assert calls[..n][1..] == calls[1..][..n - 1];
    }
  }
}
