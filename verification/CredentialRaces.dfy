/**
  Removing a credential and storing model selections as the two steps they are: a check, and later a
  commit, under the account and workspace locks each of them takes (`credentials.py`, `ai/models.py`).
 */
module CredentialRaces {
  import opened Options
  import opened Credentials
  import T = CredentialTheorems

  /** An operation with its caller; `Removal` of an account credential has no workspace. */
  datatype Op =
    | Removal(user: nat, workspace: Option<nat>, id: nat)
    | Selecting(user: nat, into: nat, offers: map<nat, Offers>, choices: map<string, Selection>, locked: bool,
                legacy: Option<Selection>)

  datatype Lock = AccountLock(user: nat) | WorkspaceLock(workspace: nat)

  /** The caller's account, and the workspace row where there is one. */
  function Locks(op: Op): set<Lock> {
    match op
    case Removal(user, None, _) => {AccountLock(user)}
    case Removal(user, Some(w), _) => {AccountLock(user), WorkspaceLock(w)}
    case Selecting(user, w, _, _, _, _) => {AccountLock(user), WorkspaceLock(w)}
  }

  /** `checked`: the operation has read what it needs and is about to commit. */
  datatype Running = Running(op: Op, checked: bool)

  datatype System = System(db: State, running: map<nat, Running>)

  datatype Step =
    | Start(who: nat, op: Op)     // its locks are free
    | Check(who: nat)
    | Commit(who: nat)

  /** The answer an operation would get from what is committed now. */
  function Answered(db: State, op: Op): (Answer, State) {
    match op
    case Removal(user, workspace, id) => Remove(db, user, workspace, true, id)
    case Selecting(_, w, offers, choices, locked, legacy) => SetModels(db, w, true, offers, choices, locked, legacy)
  }

  predicate Enabled(s: System, a: Step) {
    match a
    case Start(i, op) => i !in s.running && forall j :: j in s.running ==> Locks(s.running[j].op) !! Locks(op)
    case Check(i) => i in s.running && !s.running[i].checked
    case Commit(i) => i in s.running && s.running[i].checked
  }

  /** What a commit writes; the check may be out of date by then. */
  function Committed(db: State, op: Op): State {
    match op
    case Removal(_, _, id) => db.(rows := db.rows - {id})
    case Selecting(_, w, _, choices, _, _) =>
      if w in db.workspaces then
        db.(workspaces := db.workspaces[w := db.workspaces[w].(settings := db.workspaces[w].settings + choices)])
      else db
  }

  function Next(s: System, a: Step): System
    requires Enabled(s, a)
  {
    match a
    case Start(i, op) => s.(running := s.running[i := Running(op, false)])
    case Check(i) =>
      if Answered(s.db, s.running[i].op).0.Done? then s.(running := s.running[i := s.running[i].(checked := true)])
      else s.(running := s.running - {i})
    case Commit(i) => System(Committed(s.db, s.running[i].op), s.running - {i})
  }

  /** A run that starts operations of a given set only. */
  predicate Runs(s: System, ops: set<Op>, steps: seq<Step>)
    decreases |steps|
  {
    steps == [] ||
    (Enabled(s, steps[0]) && (steps[0].Start? ==> steps[0].op in ops) && Runs(Next(s, steps[0]), ops, steps[1..]))
  }

  function Run(s: System, ops: set<Op>, steps: seq<Step>): System
    requires Runs(s, ops, steps)
    decreases |steps|
  {
    if steps == [] then s else Run(Next(s, steps[0]), ops, steps[1..])
  }

  /** Nothing runs, and no selection names a credential that is gone. */
  predicate Quiet(s: System) {
    s.running == map[] && T.SoundSelections(s.db)
  }

  // -------------------------------------------------------------------------
  // Who gets in each other's way.
  // -------------------------------------------------------------------------

  /**
    An owner removes a credential of the account while somebody else stores selections for a workspace of the
    owner.
   */
  predicate Foreign(db: State, r: Op, s: Op) {
    && r.Removal? && r.workspace.None? && s.Selecting?
    && s.into in db.workspaces && db.workspaces[s.into].owner == r.user && s.user != r.user
  }

  predicate NoForeign(db: State, ops: set<Op>) {
    forall r, s :: r in ops && s in ops ==> !Foreign(db, r, s)
  }

  predicate Chooses(op: Op, id: nat) {
    op.Selecting? && exists role :: role in op.choices && op.choices[role].credentialId == Some(id)
  }

  /** What a check saw still holds when nobody interfered. */
  predicate StillTrue(db: State, op: Op) {
    match op
    case Removal(user, workspace, id) =>
      && id in db.rows && db.rows[id].scope == ScopeOf(user, workspace)
      && forall w :: w in db.workspaces ==> !Names(db.workspaces[w].settings, id)
    case Selecting(_, w, _, choices, _, _) =>
      && w in db.workspaces
      && T.SoundSettings(db.rows, w, Workspace(db.workspaces[w].owner, choices))
  }

  ghost predicate Inv(s: System, ops: set<Op>) {
    && T.SoundSelections(s.db) && NoForeign(s.db, ops)
    && (forall i :: i in s.running ==>
          s.running[i].op in ops && (s.running[i].checked ==> StillTrue(s.db, s.running[i].op)))
    && forall i, j :: i in s.running && j in s.running && i != j ==> Locks(s.running[i].op) !! Locks(s.running[j].op)
  }

  lemma CheckedIsTrue(db: State, op: Op)
    requires T.SoundSelections(db) && Answered(db, op).0.Done?
    ensures StillTrue(db, op)
  {
    match op
    case Removal(user, workspace, id) =>
      forall w | w in db.workspaces ensures !Names(db.workspaces[w].settings, id) {
        assert T.SoundSettings(db.rows, w, db.workspaces[w]);
        assert db.rows[id].scope in {Shared(w), Account(db.workspaces[w].owner)} ==> w in Watched(db, user, workspace);
        assert w in Watched(db, user, workspace) ==> !Names(db.workspaces[w].settings, id);
      }
    case Selecting(_, w, offers, choices, _, _) =>
      forall role | role in choices ensures ValidChoice(db, w, offers, role, choices[role]) {}
  }

  /** A removal and a selection of the same credential share a lock, unless they are foreign to each other. */
  lemma LockedApart(db: State, r: Op, s: Op)
    requires r.Removal? && StillTrue(db, r) && s.Selecting? && StillTrue(db, s) && Chooses(s, r.id)
    requires !Foreign(db, r, s)
    ensures !(Locks(r) !! Locks(s))
  {
    var role :| role in s.choices && s.choices[role].credentialId == Some(r.id);
    assert db.rows[r.id].scope in {Shared(s.into), Account(db.workspaces[s.into].owner)};
    if r.workspace.Some? {
      assert WorkspaceLock(s.into) in Locks(r) && WorkspaceLock(s.into) in Locks(s);
    } else {
      assert AccountLock(r.user) in Locks(r) && AccountLock(r.user) in Locks(s);
    }
  }

  lemma RemovalsApart(db: State, r: Op, s: Op)
    requires r.Removal? && s.Removal? && StillTrue(db, r) && StillTrue(db, s) && r.id == s.id
    ensures !(Locks(r) !! Locks(s))
  {
    if r.workspace.None? {
      assert AccountLock(r.user) in Locks(r) && AccountLock(r.user) in Locks(s);
    } else {
      assert WorkspaceLock(r.workspace.value) in Locks(r) && WorkspaceLock(r.workspace.value) in Locks(s);
    }
  }

  lemma RemovalKeepsSelections(db: State, r: Op)
    requires T.SoundSelections(db) && r.Removal? && StillTrue(db, r)
    ensures T.SoundSelections(Committed(db, r))
  {
    forall w | w in db.workspaces ensures T.SoundSettings(db.rows - {r.id}, w, db.workspaces[w]) {
      assert T.SoundSettings(db.rows, w, db.workspaces[w]) && !Names(db.workspaces[w].settings, r.id);
    }
  }

  lemma SelectingKeepsSelections(db: State, s: Op)
    requires T.SoundSelections(db) && s.Selecting? && StillTrue(db, s)
    ensures T.SoundSelections(Committed(db, s))
  {
    var after := Committed(db, s);
    forall w | w in after.workspaces ensures T.SoundSettings(after.rows, w, after.workspaces[w]) {
      assert T.SoundSettings(db.rows, w, db.workspaces[w]);
    }
  }

  /** What another operation's commit leaves of a check. */
  lemma CommitKeepsCheck(db: State, op: Op, other: Op)
    requires StillTrue(db, op) && StillTrue(db, other) && Locks(op) !! Locks(other)
    requires !Foreign(db, op, other) && !Foreign(db, other, op)
    ensures StillTrue(Committed(db, op), other)
  {
    var after := Committed(db, op);
    if op.Removal? && other.Removal? {
      if op.id == other.id {
        RemovalsApart(db, op, other);
      }
    } else if op.Removal? {
      if Chooses(other, op.id) {
        LockedApart(db, op, other);
      }
    } else if other.Removal? {
      if Chooses(op, other.id) {
        LockedApart(db, other, op);
      }
      forall w | w in after.workspaces ensures !Names(after.workspaces[w].settings, other.id) {
        assert !Names(db.workspaces[w].settings, other.id);
      }
    }
  }

  lemma CommitKeepsInv(s: System, ops: set<Op>, i: nat)
    requires Inv(s, ops) && Enabled(s, Commit(i))
    ensures Inv(Next(s, Commit(i)), ops)
  {
    var op, t := s.running[i].op, Next(s, Commit(i));
    assert StillTrue(s.db, op);
    if op.Removal? {
      RemovalKeepsSelections(s.db, op);
    } else {
      SelectingKeepsSelections(s.db, op);
    }
    OwnersStay(s.db, op, ops);
    forall j | j in t.running && t.running[j].checked ensures StillTrue(t.db, t.running[j].op) {
      CommitKeepsCheck(s.db, op, s.running[j].op);
    }
  }

  lemma OwnersStay(db: State, op: Op, ops: set<Op>)
    requires NoForeign(db, ops)
    ensures NoForeign(Committed(db, op), ops)
  {
    forall r, s | r in ops && s in ops ensures !Foreign(Committed(db, op), r, s) {
      assert !Foreign(db, r, s);
    }
  }

  lemma StepKeepsInv(s: System, ops: set<Op>, a: Step)
    requires Inv(s, ops) && Enabled(s, a) && (a.Start? ==> a.op in ops)
    ensures Inv(Next(s, a), ops)
  {
    match a
    case Start(_, _) =>
    case Check(i) =>
      if Answered(s.db, s.running[i].op).0.Done? {
        CheckedIsTrue(s.db, s.running[i].op);
      }
    case Commit(i) => CommitKeepsInv(s, ops, i);
  }

  lemma {:induction false} RunKeepsInv(s: System, ops: set<Op>, steps: seq<Step>)
    requires Inv(s, ops) && Runs(s, ops, steps)
    ensures Inv(Run(s, ops, steps), ops)
    decreases |steps|
  {
    if steps != [] {
      StepKeepsInv(s, ops, steps[0]);
      RunKeepsInv(Next(s, steps[0]), ops, steps[1..]);
    }
  }

  // -------------------------------------------------------------------------
  // When selections stay sound.
  // -------------------------------------------------------------------------

  /**
    Any number of removals and selections, in any interleaving: no stored selection ever names a
    credential that is gone, if nobody but the owner stores selections for a workspace while the owner
    removes account credentials.
   */
  lemma SelectionsStaySound(s: System, ops: set<Op>, steps: seq<Step>)
    requires Quiet(s) && NoForeign(s.db, ops) && Runs(s, ops, steps)
    ensures T.SoundSelections(Run(s, ops, steps).db)
  {
    RunKeepsInv(s, ops, steps);
  }

  predicate Breaks(s: System, ops: set<Op>, steps: seq<Step>) {
    Runs(s, ops, steps) && !T.SoundSelections(Run(s, ops, steps).db)
  }

  lemma RunsStep(s: System, ops: set<Op>, a: Step, rest: seq<Step>)
    requires Enabled(s, a) && (a.Start? ==> a.op in ops) && Runs(Next(s, a), ops, rest)
    ensures Runs(s, ops, [a] + rest) && Run(s, ops, [a] + rest) == Run(Next(s, a), ops, rest)
  {
    assert ([a] + rest)[1..] == rest;
  }

  /** After both checks: the selection commits, and the removal does. */
  lemma BothCommit(s: System, ops: set<Op>, r: Op, o: Op)
    requires s.running == map[0 := Running(r, true), 1 := Running(o, true)]
    requires r.Removal? && Chooses(o, r.id) && o.into in s.db.workspaces
    ensures Breaks(s, ops, [Commit(1)] + ([Commit(0)] + []))
  {
    var one := Next(s, Commit(1));
    var two := Next(one, Commit(0));
    RunsStep(one, ops, Commit(0), []);
    RunsStep(s, ops, Commit(1), [Commit(0)] + []);
    var role :| role in o.choices && o.choices[role].credentialId == Some(r.id);
    assert two.db.workspaces[o.into].settings[role].credentialId == Some(r.id) && r.id !in two.db.rows;
    assert !T.SoundSettings(two.db.rows, o.into, two.db.workspaces[o.into]);
  }

  lemma ForeignRaceBreaks(s: System, r: Op, o: Op) returns (steps: seq<Step>)
    requires Quiet(s) && r.Removal? && r.workspace.None? && o.Selecting? && o.user != r.user
    requires Answered(s.db, r).0.Done? && Answered(s.db, o).0.Done? && Chooses(o, r.id)
    ensures Breaks(s, {r, o}, steps)
  {
    var a := Next(s, Start(0, r));
    var b := Next(a, Check(0));
    var c := Next(b, Start(1, o));
    var d := Next(c, Check(1));
    assert d.running == map[0 := Running(r, true), 1 := Running(o, true)];
    BothCommit(d, {r, o}, r, o);
    var tail := [Commit(1)] + ([Commit(0)] + []);
    RunsStep(c, {r, o}, Check(1), tail);
    RunsStep(b, {r, o}, Start(1, o), [Check(1)] + tail);
    RunsStep(a, {r, o}, Check(0), [Start(1, o)] + ([Check(1)] + tail));
    RunsStep(s, {r, o}, Start(0, r), [Check(0)] + ([Start(1, o)] + ([Check(1)] + tail)));
    steps := [Start(0, r)] + ([Check(0)] + ([Start(1, o)] + ([Check(1)] + tail)));
  }

  /** An account with one credential, and a workspace of its owner without selections. */
  function OneCredential(owner: nat, w: nat, id: nat, provider: string, key: string): State {
    State(
      map[id := Credential(Account(owner), owner, provider, "", key, None, true, true)],
      map[w := Workspace(owner, map[])])
  }

  /**
    Wherever an administrator other than the owner shares a workspace: the owner removes the only
    credential while the administrator selects it, and the selection is left without it.
   */
  lemma AdministratorCanLoseASelection(owner: nat, admin: nat, w: nat, id: nat, provider: string, key: string,
                                       model: string)
      returns (steps: seq<Step>)
    requires admin != owner
    ensures var s := System(OneCredential(owner, w, id, provider, key), map[]);
      var o := Selecting(admin, w, map[id := {("answer", model)}],
        map["answer" := Selection(provider, model, Some(id))], false, None);
      Quiet(s) && Breaks(s, {Removal(owner, None, id), o}, steps)
  {
    var db := OneCredential(owner, w, id, provider, key);
    var choice := Selection(provider, model, Some(id));
    var o := Selecting(admin, w, map[id := {("answer", model)}], map["answer" := choice], false, None);
    assert InScope(db.rows, Account(owner)) == {id};
    assert ValidChoice(db, w, o.offers, "answer", choice);
    assert Answered(db, o).0.Done?;
    assert o.choices["answer"].credentialId == Some(id) && Chooses(o, id);
    steps := ForeignRaceBreaks(System(db, map[]), Removal(owner, None, id), o);
  }

  /**
    A removal and a selection of the same credential, both of which would be granted alone: some
    interleaving leaves a selection of a deleted credential exactly when an owner removes a credential
    of the account and somebody else stores the selection. The workspace lock covers shared
    credentials, and the account lock an owner's own selections.
   */
  lemma RaceBreaksExactlyWhenForeign(s: System, r: Op, o: Op)
    requires Quiet(s) && r.Removal? && o.Selecting?
    requires Answered(s.db, r).0.Done? && Answered(s.db, o).0.Done? && Chooses(o, r.id)
    ensures (exists steps :: Breaks(s, {r, o}, steps)) <==> r.workspace.None? && o.user != r.user
  {
    if r.workspace.None? && o.user != r.user {
      var steps := ForeignRaceBreaks(s, r, o);
    } else {
      forall steps | Runs(s, {r, o}, steps) ensures !Breaks(s, {r, o}, steps) {
        SelectionsStaySound(s, {r, o}, steps);
      }
    }
  }
}
