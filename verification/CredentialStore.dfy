/** The endpoints of `credentials.py` that change rows one after the other. */
module CredentialStore {
  import opened Options
  import opened Credentials
  import opened CredentialTheorems

  /** Clearing first and writing the new key afterwards comes to the same. */
  lemma ClearedThenSet(rows: Rows, id: nat, key: string, url: Option<string>)
    requires id in rows
    ensures Cleared(rows, rows[id].scope)[
        id := rows[id].(key := key, baseUrl := url, active := true, isDefault := true)]
      == WithDefault(rows[id := rows[id].(key := key, baseUrl := url, active := true)], id)
  {}

  class Store {
    var rows: Rows
    var workspaces: map<nat, Workspace>

    constructor ()
      ensures Contents() == State(map[], map[])
    {
      rows, workspaces := map[], map[];
    }

    function Contents(): State
      reads this
    {
      State(rows, workspaces)
    }

    /** The loops that take the default away. */
    method ClearDefaults(items: set<nat>)
      requires items <= rows.Keys
      modifies this`rows
      ensures rows == map id | id in old(rows) ::
        if id in items then old(rows)[id].(isDefault := false) else old(rows)[id]
    {
      var rest := items;
      while rest != {}
        invariant rest <= items && rows.Keys == old(rows).Keys
        invariant forall id :: id in rows ==>
          rows[id] == if id in items - rest then old(rows)[id].(isDefault := false) else old(rows)[id]
      {
        var id :| id in rest;
        rows := rows[id := rows[id].(isDefault := false)];
        rest := rest - {id};
      }
    }

    method AddCredential(normalize: string -> Option<string>, user: nat, workspace: Option<nat>, admin: bool,
                         input: Input, id: nat)
      returns (answer: Answer)
      requires id !in rows
      modifies this
      ensures (answer, Contents()) == Add(normalize, old(Contents()), user, workspace, admin, input, id)
      ensures workspaces == old(workspaces)
      ensures answer.Done? ==> OneMore(old(rows), rows, id, ScopeOf(user, workspace), input.provider, input.name)
      ensures answer.Refused? ==> rows == old(rows)
    {
      if workspace.Some? && (workspace.value !in workspaces || !admin) {
        return Refused(404);
      }
      var key := CredentialKey(input.provider, input.apiKey);
      var url := BaseUrl(normalize, input.provider, input.baseUrl, None);
      if key.None? || url.BadUrl? || !input.valid {
        return Refused(422);
      }
      var credentials := InScope(rows, ScopeOf(user, workspace));
      if exists item :: item in credentials && rows[item].provider == input.provider && rows[item].name == input.name {
        return Refused(409);
      }
      assert !Taken(rows, ScopeOf(user, workspace), input.provider, input.name) by {
        forall i | i in rows && rows[i].scope == ScopeOf(user, workspace)
          ensures !(rows[i].provider == input.provider && rows[i].name == input.name)
        {
          assert i in credentials;
        }
      }
      var isDefault := !exists item :: item in credentials && rows[item].isDefault;
      assert isDefault == !HasDefault(rows, ScopeOf(user, workspace)) by {
        forall i | i in rows && rows[i].scope == ScopeOf(user, workspace) ensures i in credentials {}
      }
      rows := rows[id :=
        Credential(ScopeOf(user, workspace), user, input.provider, input.name, key.value, url.value, true, isDefault)];
      assert rows - {id} == old(rows);
      answer := Done(id);
    }

    /** The other defaults are cleared first; the table's index permits only one. */
    method ChooseDefaultCredential(user: nat, workspace: Option<nat>, admin: bool, id: nat) returns (answer: Answer)
      modifies this
      ensures (answer, Contents()) == Choose(old(Contents()), user, workspace, admin, id)
    {
      if workspace.Some? && (workspace.value !in workspaces || !admin) {
        return Refused(404);
      }
      if id !in rows || rows[id].scope != ScopeOf(user, workspace) {
        return Refused(404);
      }
      if !rows[id].active {
        return Refused(409);
      }
      var others := set item | item in InScope(rows, ScopeOf(user, workspace)) && item != id && rows[item].isDefault;
      ClearDefaults(others);
      rows := rows[id := rows[id].(isDefault := true)];
      assert rows == WithDefault(old(rows), id);
      answer := Done(id);
    }

    method RemoveCredential(user: nat, workspace: Option<nat>, admin: bool, id: nat) returns (answer: Answer)
      modifies this
      ensures (answer, Contents()) == Remove(old(Contents()), user, workspace, admin, id)
      ensures workspaces == old(workspaces) && rows == if answer.Done? then old(rows) - {id} else old(rows)
      ensures answer.Done? && Inv(old(Contents())) ==>
        Inv(Contents()) && Served(Contents(), user, workspace, old(rows)[id].provider)
    {
      if workspace.Some? && (workspace.value !in workspaces || !admin) {
        return Refused(404);
      }
      if id !in rows || rows[id].scope != ScopeOf(user, workspace) {
        return Refused(404);
      }
      var credentials := InScope(rows, ScopeOf(user, workspace));
      if rows[id].isDefault && |credentials| > 1 {
        return Refused(409);
      }
      var watched := Watched(Contents(), user, workspace);
      if exists w :: w in watched && Names(workspaces[w].settings, id) {
        return Refused(409);
      }
      if exists w :: w in watched && NamesProvider(workspaces[w].settings, rows[id].provider) {
        if !Replaceable(rows, id) {
          return Refused(409);
        }
      }
      rows := rows - {id};
      answer := Done(id);
      if Inv(old(Contents())) {
        RemovedExactlyWhenNothingBreaks(old(Contents()), user, workspace, admin, id);
      }
    }

    method ReplaceDefault(normalize: string -> Option<string>, workspace: nat, input: Input, found: nat)
        returns (answer: Answer)
      requires IsNamed(rows, found, Shared(workspace), input.provider, input.name)
      modifies this
      ensures (answer, Contents()) == Replace(normalize, old(Contents()), input, found)
    {
      var row := rows[found];
      var url := if input.baseUrl.Some? || input.provider != OLLAMA
        then BaseUrl(normalize, input.provider, input.baseUrl, row.baseUrl) else Url(row.baseUrl);
      if url.BadUrl? {
        return Refused(422);
      }
      if row.provider == OLLAMA && url.value != row.baseUrl {
        if !input.recent {
          return Refused(403);
        }
        if input.apiKey.None? || input.apiKey.value == "" {
          return Refused(422);
        }
      }
      var key := if input.provider == OLLAMA && input.apiKey.None? then Some(row.key)
        else CredentialKey(input.provider, input.apiKey);
      if key.None? || !input.valid {
        return Refused(422);
      }
      ClearDefaults(InScope(rows, Shared(workspace)));
      assert rows == Cleared(old(rows), Shared(workspace));
      rows := rows[found := rows[found].(key := key.value, baseUrl := url.value, active := true, isDefault := true)];
      ClearedThenSet(old(rows), found, key.value, url.value);
      answer := Done(found);
    }

    method InsertDefault(normalize: string -> Option<string>, user: nat, workspace: nat, input: Input, id: nat)
        returns (answer: Answer)
      requires id !in rows
      modifies this
      ensures (answer, Contents()) == Insert(normalize, old(Contents()), user, workspace, input, id)
    {
      var key := CredentialKey(input.provider, input.apiKey);
      var url := BaseUrl(normalize, input.provider, input.baseUrl, None);
      if key.None? || url.BadUrl? || !input.valid {
        return Refused(422);
      }
      ClearDefaults(InScope(rows, Shared(workspace)));
      assert rows == Cleared(old(rows), Shared(workspace));
      rows := rows[id :=
        Credential(Shared(workspace), user, input.provider, input.name, key.value, url.value, true, true)];
      answer := Done(id);
    }

    /** Replaces the workspace's key under a name, or adds it, and makes it the default. */
    method UpsertDefaultCredential(normalize: string -> Option<string>, user: nat, workspace: nat, admin: bool,
                                   input: Input, id: nat)
      returns (answer: Answer)
      requires id !in rows
      requires forall i, j :: (IsNamed(rows, i, Shared(workspace), input.provider, input.name)
        && IsNamed(rows, j, Shared(workspace), input.provider, input.name)) ==> i == j
      modifies this
      ensures (answer, Contents()) == Upsert(normalize, old(Contents()), user, workspace, admin, input, id)
    {
      if workspace !in workspaces || !admin {
        return Refused(404);
      }
      var matches := set item | item in rows && IsNamed(rows, item, Shared(workspace), input.provider, input.name);
      assert forall i :: IsNamed(rows, i, Shared(workspace), input.provider, input.name) <==> i in matches;
      if matches == {} {
        answer := InsertDefault(normalize, user, workspace, input, id);
      } else {
        var found :| found in matches;
        answer := ReplaceDefault(normalize, workspace, input, found);
      }
    }
  }
}
