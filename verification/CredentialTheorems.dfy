/** What every sequence of credential, workspace and model operations keeps. */
module CredentialTheorems {
  import opened Options
  import opened Credentials

  // -------------------------------------------------------------------------
  // Runs.
  // -------------------------------------------------------------------------

  datatype Step =
    | Adds(user: nat, workspace: Option<nat>, admin: bool, input: Input, id: nat)
    | Rotates(user: nat, workspace: Option<nat>, admin: bool, id: nat, apiKey: Field, baseUrl: Option<string>,
              valid: bool, recent: bool)
    | Chooses(user: nat, workspace: Option<nat>, admin: bool, id: nat)
    | Removes(user: nat, workspace: Option<nat>, admin: bool, id: nat)
    | Upserts(user: nat, into: nat, admin: bool, input: Input, id: nat)
    | SetsModels(into: nat, admin: bool, offers: map<nat, Offers>, choices: map<string, Selection>, locked: bool,
                 legacy: Option<Selection>)
    | Creates(user: nat, request: Request, into: nat, id: nat)

  /** New rows get fresh identifiers. */
  predicate Enabled(s: State, a: Step) {
    match a
    case Adds(_, _, _, _, id) => id !in s.rows
    case Upserts(_, _, _, _, id) => id !in s.rows
    case Creates(_, _, w, id) => w !in s.workspaces && id !in s.rows
    case _ => true
  }

  ghost function Next(normalize: string -> Option<string>, s: State, a: Step): State
    requires Enabled(s, a)
  {
    match a
    case Adds(user, workspace, admin, input, id) => Add(normalize, s, user, workspace, admin, input, id).1
    case Rotates(user, workspace, admin, id, apiKey, baseUrl, valid, recent) =>
      Rotate(normalize, s, user, workspace, admin, id, apiKey, baseUrl, valid, recent).1
    case Chooses(user, workspace, admin, id) => Choose(s, user, workspace, admin, id).1
    case Removes(user, workspace, admin, id) => Remove(s, user, workspace, admin, id).1
    case Upserts(user, w, admin, input, id) => Upsert(normalize, s, user, w, admin, input, id).1
    case SetsModels(w, admin, offers, choices, locked, legacy) =>
      SetModels(s, w, admin, offers, choices, locked, legacy).1
    case Creates(user, request, w, id) => Create(normalize, s, user, request, w, id).1
  }

  const EMPTY := State(map[], map[])

  ghost predicate Runs(normalize: string -> Option<string>, s: State, steps: seq<Step>)
    decreases |steps|
  {
    steps == [] || (Enabled(s, steps[0]) && Runs(normalize, Next(normalize, s, steps[0]), steps[1..]))
  }

  ghost function Run(normalize: string -> Option<string>, s: State, steps: seq<Step>): State
    requires Runs(normalize, s, steps)
    decreases |steps|
  {
    if steps == [] then s else Run(normalize, Next(normalize, s, steps[0]), steps[1..])
  }

  // -------------------------------------------------------------------------
  // The invariant.
  // -------------------------------------------------------------------------

  /** Two rows of one scope. */
  predicate Mates(rows: Rows, i: nat, j: nat) {
    i in rows && j in rows && i != j && rows[i].scope == rows[j].scope
  }

  ghost predicate OneDefault(rows: Rows) {
    && (forall i, j :: Mates(rows, i, j) ==> !(rows[i].isDefault && rows[j].isDefault))
    && (forall i :: i in rows ==> HasDefault(rows, rows[i].scope))
  }

  ghost predicate UniqueNames(rows: Rows) {
    forall i, j :: Mates(rows, i, j) ==> rows[i].provider != rows[j].provider || rows[i].name != rows[j].name
  }

  /** A selection with a credential names an existing one, of the workspace or of its owner's account. */
  predicate SoundSettings(rows: Rows, w: nat, workspace: Workspace) {
    forall role :: role in workspace.settings && workspace.settings[role].credentialId.Some? ==>
      var id := workspace.settings[role].credentialId.value;
      id in rows && rows[id].scope in {Shared(w), Account(workspace.owner)}
  }

  predicate SoundSelections(s: State) {
    forall w :: w in s.workspaces ==> SoundSettings(s.rows, w, s.workspaces[w])
  }

  ghost predicate Inv(s: State) {
    OneDefault(s.rows) && UniqueNames(s.rows) && SoundSelections(s)
  }

  // -------------------------------------------------------------------------
  // Rows.
  // -------------------------------------------------------------------------

  /** Rows that keep their scope keep every selection sound. */
  predicate KeepsScopes(before: Rows, after: Rows) {
    forall id :: id in before ==> id in after && after[id].scope == before[id].scope
  }

  lemma ScopesKeepSelections(before: Rows, after: Rows, workspaces: map<nat, Workspace>)
    requires SoundSelections(State(before, workspaces)) && KeepsScopes(before, after)
    ensures SoundSelections(State(after, workspaces))
  {
    forall w | w in workspaces ensures SoundSettings(after, w, workspaces[w]) {
      assert SoundSettings(before, w, workspaces[w]);
    }
  }

  lemma AddedRow(rows: Rows, id: nat, row: Credential)
    requires OneDefault(rows) && UniqueNames(rows) && id !in rows
    requires !Taken(rows, row.scope, row.provider, row.name) && row.isDefault == !HasDefault(rows, row.scope)
    ensures OneDefault(rows[id := row]) && UniqueNames(rows[id := row]) && KeepsScopes(rows, rows[id := row])
  {
    var after := rows[id := row];
    forall i | i in after ensures HasDefault(after, after[i].scope) {
      if HasDefault(rows, after[i].scope) {
        var d :| d in rows && rows[d].scope == after[i].scope && rows[d].isDefault;
        assert after[d].isDefault;
      } else {
        assert after[id].isDefault;
      }
    }
    forall i, j | Mates(after, i, j)
      ensures !(after[i].isDefault && after[j].isDefault)
        && (after[i].provider != after[j].provider || after[i].name != after[j].name)
    {
      if i != id && j != id {
        assert Mates(rows, i, j);
      }
    }
  }

  /** Another key, endpoint or status changes nothing the invariant is about. */
  lemma TouchedRow(rows: Rows, id: nat, row: Credential)
    requires OneDefault(rows) && UniqueNames(rows) && id in rows
    requires row.scope == rows[id].scope && row.provider == rows[id].provider && row.name == rows[id].name
    requires row.isDefault == rows[id].isDefault
    ensures OneDefault(rows[id := row]) && UniqueNames(rows[id := row]) && KeepsScopes(rows, rows[id := row])
  {
    var after := rows[id := row];
    forall i | i in after ensures HasDefault(after, after[i].scope) {
      var d :| d in rows && rows[d].scope == rows[i].scope && rows[d].isDefault;
      assert after[d].isDefault;
    }
    forall i, j | Mates(after, i, j)
      ensures !(after[i].isDefault && after[j].isDefault)
        && (after[i].provider != after[j].provider || after[i].name != after[j].name)
    {
      assert Mates(rows, i, j);
    }
  }

  /** Clearing a scope and then setting one row of it leaves exactly that default. */
  lemma DefaultMoved(rows: Rows, id: nat)
    requires OneDefault(rows) && UniqueNames(rows) && id in rows
    ensures OneDefault(WithDefault(rows, id)) && UniqueNames(WithDefault(rows, id))
      && KeepsScopes(rows, WithDefault(rows, id))
  {
    MovedKeepsDefaults(rows, id);
    MovedKeepsNames(rows, id);
  }

  lemma MovedKeepsDefaults(rows: Rows, id: nat)
    requires OneDefault(rows) && id in rows
    ensures OneDefault(WithDefault(rows, id))
  {
    var after := WithDefault(rows, id);
    forall i | i in after ensures HasDefault(after, after[i].scope) {
      if after[i].scope == rows[id].scope {
        assert after[id].isDefault;
      } else {
        var d :| d in rows && rows[d].scope == rows[i].scope && rows[d].isDefault;
        assert after[d].isDefault;
      }
    }
    forall i, j | Mates(after, i, j) ensures !(after[i].isDefault && after[j].isDefault) {
      assert Mates(rows, i, j);
    }
  }

  lemma MovedKeepsNames(rows: Rows, id: nat)
    requires UniqueNames(rows) && id in rows
    ensures UniqueNames(WithDefault(rows, id)) && KeepsScopes(rows, WithDefault(rows, id))
  {
    var after := WithDefault(rows, id);
    forall i, j | Mates(after, i, j) ensures after[i].provider != after[j].provider || after[i].name != after[j].name {
      assert Mates(rows, i, j);
    }
  }

  lemma ReplacedDefault(rows: Rows, id: nat, row: Credential)
    requires OneDefault(rows) && UniqueNames(rows) && id !in rows && row.isDefault
    requires !Taken(rows, row.scope, row.provider, row.name)
    ensures var after := Cleared(rows, row.scope)[id := row];
      OneDefault(after) && UniqueNames(after) && KeepsScopes(rows, after)
  {
    ReplacedKeepsDefaults(rows, id, row);
    ReplacedKeepsNames(rows, id, row);
  }

  lemma ReplacedKeepsDefaults(rows: Rows, id: nat, row: Credential)
    requires OneDefault(rows) && id !in rows && row.isDefault
    ensures OneDefault(Cleared(rows, row.scope)[id := row])
  {
    var after := Cleared(rows, row.scope)[id := row];
    forall i | i in after ensures HasDefault(after, after[i].scope) {
      if after[i].scope == row.scope {
        assert after[id].isDefault;
      } else {
        var d :| d in rows && rows[d].scope == rows[i].scope && rows[d].isDefault;
        assert after[d].isDefault;
      }
    }
    forall i, j | Mates(after, i, j) ensures !(after[i].isDefault && after[j].isDefault) {
      if i != id && j != id {
        assert Mates(rows, i, j);
      }
    }
  }

  lemma ReplacedKeepsNames(rows: Rows, id: nat, row: Credential)
    requires UniqueNames(rows) && id !in rows && !Taken(rows, row.scope, row.provider, row.name)
    ensures var after := Cleared(rows, row.scope)[id := row];
      UniqueNames(after) && KeepsScopes(rows, after)
  {
    var after := Cleared(rows, row.scope)[id := row];
    forall i, j | Mates(after, i, j) ensures after[i].provider != after[j].provider || after[i].name != after[j].name {
      if i != id && j != id {
        assert Mates(rows, i, j);
      }
    }
  }

  lemma TwoInScope(rows: Rows, i: nat, j: nat)
    requires Mates(rows, i, j)
    ensures |InScope(rows, rows[i].scope)| > 1
  {
    var scope := InScope(rows, rows[i].scope);
    assert |scope - {i}| == |scope| - 1 && j in scope - {i};
  }

  /** A default is removed only as the last row of its scope. */
  lemma RemovedRow(rows: Rows, id: nat)
    requires OneDefault(rows) && UniqueNames(rows) && id in rows
    requires rows[id].isDefault ==> |InScope(rows, rows[id].scope)| <= 1
    ensures OneDefault(rows - {id}) && UniqueNames(rows - {id})
  {
    var after := rows - {id};
    forall i | i in after ensures HasDefault(after, after[i].scope) {
      var d :| d in rows && rows[d].scope == rows[i].scope && rows[d].isDefault;
      if d == id {
        TwoInScope(rows, id, i);
      } else {
        assert after[d].isDefault;
      }
    }
    forall i, j | Mates(after, i, j)
      ensures !(after[i].isDefault && after[j].isDefault)
        && (after[i].provider != after[j].provider || after[i].name != after[j].name)
    {
      assert Mates(rows, i, j);
    }
  }

  // -------------------------------------------------------------------------
  // Operations.
  // -------------------------------------------------------------------------

  lemma UpsertKeeps(normalize: string -> Option<string>, s: State, user: nat, w: nat, admin: bool, input: Input,
                    id: nat)
    requires Inv(s) && id !in s.rows
    ensures Inv(Upsert(normalize, s, user, w, admin, input, id).1)
  {
    var (answer, t) := Upsert(normalize, s, user, w, admin, input, id);
    if answer.Done? {
      if exists found :: IsNamed(s.rows, found, Shared(w), input.provider, input.name) {
        var found := answer.id;
        var row := t.rows[found].(isDefault := s.rows[found].isDefault);
        TouchedRow(s.rows, found, row);
        DefaultMoved(s.rows[found := row], found);
      } else {
        NotTaken(s.rows, Shared(w), input.provider, input.name);
        ReplacedDefault(s.rows, id, t.rows[id]);
      }
      ScopesKeepSelections(s.rows, t.rows, s.workspaces);
    }
  }

  lemma NotTaken(rows: Rows, scope: Scope, provider: string, name: string)
    requires !exists found :: IsNamed(rows, found, scope, provider, name)
    ensures !Taken(rows, scope, provider, name)
  {
    forall i | i in rows ensures !(rows[i].scope == scope && rows[i].provider == provider && rows[i].name == name) {
      assert !IsNamed(rows, i, scope, provider, name);
    }
  }

  lemma RemoveKeeps(s: State, user: nat, workspace: Option<nat>, admin: bool, id: nat)
    requires Inv(s)
    ensures Inv(Remove(s, user, workspace, admin, id).1)
  {
    var (answer, t) := Remove(s, user, workspace, admin, id);
    if answer.Done? {
      RemovedRow(s.rows, id);
      forall w | w in s.workspaces ensures SoundSettings(t.rows, w, s.workspaces[w]) {
        assert SoundSettings(s.rows, w, s.workspaces[w]);
        assert s.rows[id].scope in {Shared(w), Account(s.workspaces[w].owner)} ==> w in Watched(s, user, workspace);
        assert w in Watched(s, user, workspace) ==> !Names(s.workspaces[w].settings, id);
      }
    }
  }

  lemma SetModelsKeeps(s: State, w: nat, admin: bool, offers: map<nat, Offers>, choices: map<string, Selection>,
                       locked: bool, legacy: Option<Selection>)
    requires Inv(s)
    ensures Inv(SetModels(s, w, admin, offers, choices, locked, legacy).1)
  {
    var (answer, t) := SetModels(s, w, admin, offers, choices, locked, legacy);
    if answer.Done? {
      forall v | v in t.workspaces ensures SoundSettings(t.rows, v, t.workspaces[v]) {
        assert SoundSettings(s.rows, v, s.workspaces[v]);
        if v == w {
          forall role | role in choices ensures ValidChoice(s, w, offers, role, choices[role]) {}
        }
      }
    }
  }

  lemma CreateKeeps(normalize: string -> Option<string>, s: State, user: nat, request: Request, w: nat, id: nat)
    requires Inv(s) && w !in s.workspaces && id !in s.rows
    ensures Inv(Create(normalize, s, user, request, w, id).1)
  {
    var (answer, t) := Create(normalize, s, user, request, w, id);
    if answer.Done? {
      if t.rows != s.rows {
        var row := t.rows[id];
        FreeNameIsNotTaken(s.rows, user, row.provider, row.name);
        AddedRow(s.rows, id, row);
      }
      ScopesKeepSelections(s.rows, t.rows, s.workspaces);
      assert SoundSettings(t.rows, w, t.workspaces[w]);
      forall v | v in t.workspaces ensures SoundSettings(t.rows, v, t.workspaces[v]) {
        if v != w {
          assert SoundSelections(State(t.rows, s.workspaces));
        }
      }
    }
  }

  lemma FreeNameIsNotTaken(rows: Rows, user: nat, provider: string, name: string)
    requires name !in AccountNames(rows, user, provider)
    ensures !Taken(rows, Account(user), provider, name)
  {
    forall i | i in rows && rows[i].scope == Account(user) && rows[i].provider == provider
      ensures rows[i].name != name
    {
      assert rows[i].name in AccountNames(rows, user, provider);
    }
  }

  lemma StepKeepsInv(normalize: string -> Option<string>, s: State, a: Step)
    requires Inv(s) && Enabled(s, a)
    ensures Inv(Next(normalize, s, a))
  {
    var t := Next(normalize, s, a);
    match a
    case Adds(user, workspace, admin, input, id) =>
      if t.rows != s.rows {
        AddedRow(s.rows, id, t.rows[id]);
        ScopesKeepSelections(s.rows, t.rows, s.workspaces);
      }
    case Rotates(user, workspace, admin, id, apiKey, baseUrl, valid, recent) =>
      if t.rows != s.rows {
        TouchedRow(s.rows, id, t.rows[id]);
        ScopesKeepSelections(s.rows, t.rows, s.workspaces);
      }
    case Chooses(user, workspace, admin, id) =>
      if t.rows != s.rows {
        DefaultMoved(s.rows, id);
        ScopesKeepSelections(s.rows, t.rows, s.workspaces);
      }
    case Removes(user, workspace, admin, id) => RemoveKeeps(s, user, workspace, admin, id);
    case Upserts(user, w, admin, input, id) => UpsertKeeps(normalize, s, user, w, admin, input, id);
    case SetsModels(w, admin, offers, choices, locked, legacy) =>
      SetModelsKeeps(s, w, admin, offers, choices, locked, legacy);
    case Creates(user, request, w, id) => CreateKeeps(normalize, s, user, request, w, id);
  }

  lemma {:induction false} RunKeepsInv(normalize: string -> Option<string>, s: State, steps: seq<Step>)
    requires Inv(s) && Runs(normalize, s, steps)
    ensures Inv(Run(normalize, s, steps))
    decreases |steps|
  {
    if steps != [] {
      StepKeepsInv(normalize, s, steps[0]);
      RunKeepsInv(normalize, Next(normalize, s, steps[0]), steps[1..]);
    }
  }

  // -------------------------------------------------------------------------
  // What follows for every run.
  // -------------------------------------------------------------------------

  function Defaults(rows: Rows, scope: Scope): set<nat> {
    set id | id in rows && rows[id].scope == scope && rows[id].isDefault
  }

  /** A scope has exactly one default if it has any credential, and none otherwise. */
  lemma ExactlyOneDefault(normalize: string -> Option<string>, steps: seq<Step>, scope: Scope)
    requires Runs(normalize, EMPTY, steps)
    ensures var rows := Run(normalize, EMPTY, steps).rows;
      |Defaults(rows, scope)| == if InScope(rows, scope) == {} then 0 else 1
  {
    RunKeepsInv(normalize, EMPTY, steps);
    var rows := Run(normalize, EMPTY, steps).rows;
    if InScope(rows, scope) == {} {
      assert Defaults(rows, scope) <= InScope(rows, scope);
    } else {
      var i :| i in InScope(rows, scope);
      assert HasDefault(rows, rows[i].scope);
      var d :| d in rows && rows[d].scope == scope && rows[d].isDefault;
      forall e | e in Defaults(rows, scope) ensures e == d {
        assert Mates(rows, d, e) || e == d;
      }
      assert Defaults(rows, scope) == {d};
    }
  }

  /** In a scope, provider and name identify a credential. */
  lemma NamesIdentify(normalize: string -> Option<string>, steps: seq<Step>, i: nat, j: nat)
    requires Runs(normalize, EMPTY, steps)
    requires var rows := Run(normalize, EMPTY, steps).rows;
      && i in rows && j in rows
      && rows[i].scope == rows[j].scope && rows[i].provider == rows[j].provider && rows[i].name == rows[j].name
    ensures i == j
  {
    RunKeepsInv(normalize, EMPTY, steps);
    var rows := Run(normalize, EMPTY, steps).rows;
    assert Mates(rows, i, j) || i == j;
  }

  /** No stored selection names a credential that is gone, or one its workspace could not use. */
  lemma SelectionsNameCredentials(normalize: string -> Option<string>, steps: seq<Step>, w: nat, role: string)
    requires Runs(normalize, EMPTY, steps) && w in Run(normalize, EMPTY, steps).workspaces
    requires role in Run(normalize, EMPTY, steps).workspaces[w].settings
    ensures var s := Run(normalize, EMPTY, steps);
      var id := s.workspaces[w].settings[role].credentialId;
      id.Some? ==> id.value in s.rows && s.rows[id.value].scope in {Shared(w), Account(s.workspaces[w].owner)}
  {
    RunKeepsInv(normalize, EMPTY, steps);
    assert SoundSettings(Run(normalize, EMPTY, steps).rows, w, Run(normalize, EMPTY, steps).workspaces[w]);
  }

  // -------------------------------------------------------------------------
  // Keys and endpoints.
  // -------------------------------------------------------------------------

  /** The key a step brings along, if it does, and whether its caller signed in recently. */
  function Brought(a: Step): Option<string> {
    match a
    case Rotates(_, _, _, _, apiKey, _, _, _) => if apiKey.Missing? then None else apiKey.value
    case Upserts(_, _, _, input, _) => input.apiKey
    case _ => None
  }

  predicate Recent(a: Step) {
    match a
    case Rotates(_, _, _, _, _, _, _, recent) => recent
    case Upserts(_, _, _, input, _) => input.recent
    case _ => false
  }

  /** A stored key never moves to another endpoint: a step that changes one brings a new key and a recent sign-in. */
  lemma EndpointMovesOnlyWithItsKey(normalize: string -> Option<string>, s: State, a: Step, id: nat)
    requires Enabled(s, a) && id in s.rows && id in Next(normalize, s, a).rows
    requires s.rows[id].provider == OLLAMA && Next(normalize, s, a).rows[id].baseUrl != s.rows[id].baseUrl
    ensures Recent(a) && Brought(a).Some? && Brought(a).value != ""
      && Next(normalize, s, a).rows[id].key == Brought(a).value
  {
    if a.Upserts? {
      UpsertedRow(normalize, s, a.user, a.into, a.admin, a.input, a.id, id);
    }
  }

  lemma UpsertedRow(normalize: string -> Option<string>, s: State, user: nat, w: nat, admin: bool, input: Input,
                    newId: nat, id: nat)
    requires newId !in s.rows && id in s.rows && s.rows[id].provider == OLLAMA
    requires Upsert(normalize, s, user, w, admin, input, newId).1.rows[id].baseUrl != s.rows[id].baseUrl
    ensures input.recent && input.apiKey.Some? && input.apiKey.value != ""
    ensures Upsert(normalize, s, user, w, admin, input, newId).1.rows[id].key == input.apiKey.value
  {}

  /** The row is its workspace's only default, active, and has the key that came with the request, if one came. */
  predicate IsNewDefault(t: State, w: nat, input: Input, id: nat) {
    && IsNamed(t.rows, id, Shared(w), input.provider, input.name)
    && Defaults(t.rows, Shared(w)) == {id} && t.rows[id].active
    && (input.apiKey.Some? && input.apiKey.value != "" ==> t.rows[id].key == input.apiKey.value)
  }

  /** Other rows keep their keys and endpoints, and workspaces their selections. */
  predicate OthersKept(s: State, t: State, id: nat) {
    && t.workspaces == s.workspaces
    && forall i :: i in s.rows && i != id ==> i in t.rows && t.rows[i] == s.rows[i].(isDefault := t.rows[i].isDefault)
  }

  lemma ReplacedIsDefault(normalize: string -> Option<string>, s: State, w: nat, input: Input, found: nat)
    requires IsNamed(s.rows, found, Shared(w), input.provider, input.name)
      && Replace(normalize, s, input, found).0.Done?
    ensures IsNewDefault(Replace(normalize, s, input, found).1, w, input, found)
    ensures OthersKept(s, Replace(normalize, s, input, found).1, found)
  {
    var t := Replace(normalize, s, input, found).1;
    assert Defaults(t.rows, Shared(w)) == {found};
  }

  lemma InsertedIsDefault(normalize: string -> Option<string>, s: State, user: nat, w: nat, input: Input, id: nat)
    requires id !in s.rows && Insert(normalize, s, user, w, input, id).0.Done?
    ensures IsNewDefault(Insert(normalize, s, user, w, input, id).1, w, input, id)
    ensures OthersKept(s, Insert(normalize, s, user, w, input, id).1, id)
  {
    var t := Insert(normalize, s, user, w, input, id).1;
    assert Defaults(t.rows, Shared(w)) == {id};
  }

  /**
    After an upsert the named credential is the workspace's default, with the new key, and no other row
    changed its key.
   */
  lemma UpsertedIsDefault(normalize: string -> Option<string>, s: State, user: nat, w: nat, admin: bool, input: Input,
                          id: nat)
    requires id !in s.rows && Upsert(normalize, s, user, w, admin, input, id).0.Done?
    ensures var (answer, t) := Upsert(normalize, s, user, w, admin, input, id);
      IsNewDefault(t, w, input, answer.id) && OthersKept(s, t, answer.id)
  {
    var (answer, t) := Upsert(normalize, s, user, w, admin, input, id);
    if exists found :: IsNamed(s.rows, found, Shared(w), input.provider, input.name) {
      ReplacedIsDefault(normalize, s, w, input, answer.id);
    } else {
      InsertedIsDefault(normalize, s, user, w, input, id);
    }
  }

  /** A choice moves the default within one scope and changes nothing else. */
  lemma ChosenIsDefault(s: State, user: nat, workspace: Option<nat>, admin: bool, id: nat, scope: Scope)
    requires Choose(s, user, workspace, admin, id).0 == Done(id)
    ensures var t := Choose(s, user, workspace, admin, id).1;
      && Defaults(t.rows, scope) == (if scope == ScopeOf(user, workspace) then {id} else Defaults(s.rows, scope))
      && t.rows.Keys == s.rows.Keys && t.workspaces == s.workspaces
      && forall i :: i in s.rows ==> t.rows[i] == s.rows[i].(isDefault := t.rows[i].isDefault)
  {}

  // -------------------------------------------------------------------------
  // Adding and removing.
  // -------------------------------------------------------------------------

  /** One row more in its scope, active and with the caller's name, and every other row as it was. */
  predicate OneMore(before: Rows, after: Rows, id: nat, scope: Scope, provider: string, name: string) {
    && id !in before && after - {id} == before
    && IsNamed(after, id, scope, provider, name) && after[id].active
  }

  /**
    An addition gives a scope one row more and takes no default away: the new row is a default exactly
    if its scope had none. A refusal changes nothing.
   */
  lemma AddedTakesNoDefault(normalize: string -> Option<string>, s: State, user: nat, workspace: Option<nat>,
                            admin: bool, input: Input, id: nat, scope: Scope)
    requires id !in s.rows
    ensures var (answer, t) := Add(normalize, s, user, workspace, admin, input, id);
      if answer.Done? then
        && answer.id == id && t.workspaces == s.workspaces
        && OneMore(s.rows, t.rows, id, ScopeOf(user, workspace), input.provider, input.name)
        && Defaults(t.rows, scope) ==
             if scope == ScopeOf(user, workspace) && Defaults(s.rows, scope) == {} then {id}
             else Defaults(s.rows, scope)
      else t == s
  {
    var (answer, t) := Add(normalize, s, user, workspace, admin, input, id);
    if answer.Done? {
      assert t.rows - {id} == s.rows;
      NoDefaults(s.rows, ScopeOf(user, workspace));
      DefaultsWithRow(s.rows, id, t.rows[id], scope);
    }
  }

  lemma NoDefaults(rows: Rows, scope: Scope)
    ensures HasDefault(rows, scope) <==> Defaults(rows, scope) != {}
  {
    if HasDefault(rows, scope) {
      var d :| d in rows && rows[d].scope == scope && rows[d].isDefault;
      assert d in Defaults(rows, scope);
    }
  }

  lemma DefaultsWithRow(rows: Rows, id: nat, row: Credential, scope: Scope)
    requires id !in rows
    ensures Defaults(rows[id := row], scope)
      == Defaults(rows, scope) + if row.scope == scope && row.isDefault then {id} else {}
  {}

  /** The caller's scope has an active credential of the provider. */
  predicate HasActive(rows: Rows, scope: Scope, provider: string) {
    exists id :: id in rows && rows[id].scope == scope && rows[id].provider == provider && rows[id].active
  }

  /** Some workspace whose selections the caller's scope serves uses the provider. */
  predicate InUse(s: State, user: nat, workspace: Option<nat>, provider: string) {
    exists w :: w in Watched(s, user, workspace) && NamesProvider(s.workspaces[w].settings, provider)
  }

  /** A provider in use has an active credential in the scope. */
  predicate Served(s: State, user: nat, workspace: Option<nat>, provider: string) {
    InUse(s, user, workspace, provider) ==> HasActive(s.rows, ScopeOf(user, workspace), provider)
  }

  lemma ReplaceableIsActive(rows: Rows, id: nat)
    requires id in rows
    ensures Replaceable(rows, id) <==> HasActive(rows - {id}, rows[id].scope, rows[id].provider)
  {
    var after := rows - {id};
    if Replaceable(rows, id) {
      var other :| other in rows && other != id && rows[other].scope == rows[id].scope
        && rows[other].provider == rows[id].provider && rows[other].active;
      assert other in after;
    }
    if HasActive(after, rows[id].scope, rows[id].provider) {
      var other :| other in after && after[other].scope == rows[id].scope
        && after[other].provider == rows[id].provider && after[other].active;
      assert other in rows && other != id;
    }
  }

  /** A default can go exactly as the last row of its scope. */
  lemma DefaultStaysExactlyWhen(rows: Rows, id: nat)
    requires OneDefault(rows) && UniqueNames(rows) && id in rows
    ensures OneDefault(rows - {id}) <==> !(rows[id].isDefault && |InScope(rows, rows[id].scope)| > 1)
  {
    var after := rows - {id};
    if rows[id].isDefault && |InScope(rows, rows[id].scope)| > 1 {
      var other := AnotherInScope(rows, id);
      assert other in after;
      forall d | d in after && after[d].scope == after[other].scope ensures !after[d].isDefault {
        assert Mates(rows, id, d);
      }
      assert !HasDefault(after, after[other].scope);
    } else {
      RemovedRow(rows, id);
    }
  }

  lemma AnotherInScope(rows: Rows, id: nat) returns (other: nat)
    requires id in rows && |InScope(rows, rows[id].scope)| > 1
    ensures other in rows && other != id && rows[other].scope == rows[id].scope
  {
    var rest := InScope(rows, rows[id].scope) - {id};
    assert |rest| > 0;
    other :| other in rest;
  }

  /** Selections stay sound exactly if none of those the removal looks at names the row. */
  lemma SelectionsStayExactlyWhen(s: State, user: nat, workspace: Option<nat>, id: nat)
    requires SoundSelections(s) && id in s.rows && s.rows[id].scope == ScopeOf(user, workspace)
    ensures SoundSelections(s.(rows := s.rows - {id}))
      <==> !exists w :: w in Watched(s, user, workspace) && Names(s.workspaces[w].settings, id)
  {
    var t := s.(rows := s.rows - {id});
    if w :| w in Watched(s, user, workspace) && Names(s.workspaces[w].settings, id) {
      assert !SoundSettings(t.rows, w, t.workspaces[w]);
    } else {
      forall w | w in s.workspaces ensures SoundSettings(t.rows, w, t.workspaces[w]) {
        assert SoundSettings(s.rows, w, s.workspaces[w]);
        assert s.rows[id].scope in {Shared(w), Account(s.workspaces[w].owner)} ==> w in Watched(s, user, workspace);
        assert w in Watched(s, user, workspace) ==> !Names(s.workspaces[w].settings, id);
      }
    }
  }

  /**
    A caller who may remove a credential is refused exactly when the scope would be left without its
    default, a stored selection would name a credential that is gone, or a provider in use would lose
    its last active credential of the scope. Otherwise that row goes and nothing else changes.
   */
  lemma RemovedExactlyWhenNothingBreaks(s: State, user: nat, workspace: Option<nat>, admin: bool, id: nat)
    requires Inv(s) && Permitted(s, workspace, admin) && id in s.rows && s.rows[id].scope == ScopeOf(user, workspace)
    ensures var (answer, after) := Remove(s, user, workspace, admin, id);
      var without := s.(rows := s.rows - {id});
      && (answer.Done? <==> Inv(without) && Served(without, user, workspace, s.rows[id].provider))
      && after == if answer.Done? then without else s
  {
    var without := s.(rows := s.rows - {id});
    DefaultStaysExactlyWhen(s.rows, id);
    SelectionsStayExactlyWhen(s, user, workspace, id);
    ReplaceableIsActive(s.rows, id);
    assert Watched(without, user, workspace) == Watched(s, user, workspace);
    UniqueNamesWithout(s.rows, id);
  }

  lemma UniqueNamesWithout(rows: Rows, id: nat)
    requires UniqueNames(rows)
    ensures UniqueNames(rows - {id})
  {
    var after := rows - {id};
    forall i, j | Mates(after, i, j) ensures after[i].provider != after[j].provider || after[i].name != after[j].name {
      assert Mates(rows, i, j);
    }
  }

  /**
    Removing a credential right after adding it gives the old state back, unless it is the only active
    one of the scope for a provider already in use; then it has to stay.
   */
  lemma RemovalUndoesAddition(normalize: string -> Option<string>, s: State, user: nat, workspace: Option<nat>,
                              admin: bool, input: Input, id: nat)
    requires Inv(s) && id !in s.rows && Add(normalize, s, user, workspace, admin, input, id).0.Done?
    ensures var t := Add(normalize, s, user, workspace, admin, input, id).1;
      var (answer, after) := Remove(t, user, workspace, admin, id);
      && (answer.Done? <==> Served(s, user, workspace, input.provider))
      && after == if answer.Done? then s else t
  {
    var t := Add(normalize, s, user, workspace, admin, input, id).1;
    StepKeepsInv(normalize, s, Adds(user, workspace, admin, input, id));
    RemovedExactlyWhenNothingBreaks(t, user, workspace, admin, id);
    assert t.rows - {id} == s.rows;
  }
}
