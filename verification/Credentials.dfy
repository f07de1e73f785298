/**
  Provider credentials and the model selections that name them (`credentials.py`, workspace creation
  in `workspaces/router.py`, model updates in `ai/models.py`), one whole operation at a time.
 */
module Credentials {
  import opened Options

  /** A credential belongs to an account or is shared in a workspace. */
  datatype Scope = Account(user: nat) | Shared(workspace: nat)

  const OLLAMA := "ollama"

  /** `name` is the label a caller gives it. */
  datatype Credential = Credential(
    scope: Scope,
    owner: nat,
    provider: string,
    name: string,
    key: string,
    baseUrl: Option<string>,
    active: bool,
    isDefault: bool)

  datatype Selection = Selection(provider: string, model: string, credentialId: Option<nat>)

  datatype Workspace = Workspace(owner: nat, settings: map<string, Selection>)

  type Rows = map<nat, Credential>

  datatype State = State(rows: Rows, workspaces: map<nat, Workspace>)

  datatype Answer = Done(id: nat) | Refused(status: nat)

  // -------------------------------------------------------------------------
  // Request fields.
  // -------------------------------------------------------------------------

  /** A JSON field: missing, or given, possibly as null. */
  datatype Field = Missing | Given(value: Option<string>)

  /** Keys and endpoints after their checks; `None` is answered with 422. */
  function CredentialKey(provider: string, value: Option<string>): Option<string> {
    if provider == OLLAMA then Some(if value.Some? then value.value else "")
    else if value.None? || value.value == "" then None
    else value
  }

  datatype Url = BadUrl | Url(value: Option<string>)

  function BaseUrl(normalize: string -> Option<string>, provider: string, value: Option<string>,
                   existing: Option<string>): Url {
    if provider != OLLAMA then (if value.Some? then BadUrl else Url(None))
    else if value.None? then (if existing.None? then BadUrl else Url(existing))
    else
      var n := normalize(value.value);
      if n.None? then BadUrl else Url(n)
  }

  /** What a caller sends, with the facts the outside world adds. */
  datatype Input = Input(
    provider: string,
    name: string,
    apiKey: Option<string>,
    baseUrl: Option<string>,
    valid: bool,                  // the provider accepts the key
    recent: bool)                 // the caller signed in recently

  // -------------------------------------------------------------------------
  // Scopes.
  // -------------------------------------------------------------------------

  function ScopeOf(user: nat, workspace: Option<nat>): Scope {
    if workspace.None? then Account(user) else Shared(workspace.value)
  }

  function InScope(rows: Rows, scope: Scope): set<nat> {
    set id | id in rows && rows[id].scope == scope
  }

  predicate HasDefault(rows: Rows, scope: Scope) {
    exists id :: id in rows && rows[id].scope == scope && rows[id].isDefault
  }

  predicate Taken(rows: Rows, scope: Scope, provider: string, name: string) {
    exists id :: id in rows && rows[id].scope == scope && rows[id].provider == provider && rows[id].name == name
  }

  /** The rows of a scope without a default. */
  function Cleared(rows: Rows, scope: Scope): Rows {
    map id | id in rows :: if rows[id].scope == scope then rows[id].(isDefault := false) else rows[id]
  }

  /** `id` becomes the only default of its scope. */
  function WithDefault(rows: Rows, id: nat): Rows
    requires id in rows
  {
    Cleared(rows, rows[id].scope)[id := rows[id].(isDefault := true)]
  }

  // -------------------------------------------------------------------------
  // The operations on one scope.
  // -------------------------------------------------------------------------

  /** Shared credentials need an existing workspace and an administrator; otherwise the workspace is "not found". */
  predicate Permitted(s: State, workspace: Option<nat>, admin: bool) {
    workspace.Some? ==> workspace.value in s.workspaces && admin
  }

  function Add(normalize: string -> Option<string>, s: State, user: nat, workspace: Option<nat>, admin: bool,
               input: Input, id: nat)
    : (Answer, State)
  {
    var scope := ScopeOf(user, workspace);
    var key, url := CredentialKey(input.provider, input.apiKey),
      BaseUrl(normalize, input.provider, input.baseUrl, None);
    if !Permitted(s, workspace, admin) then (Refused(404), s)
    else if key.None? || url.BadUrl? || !input.valid then (Refused(422), s)
    else if Taken(s.rows, scope, input.provider, input.name) then (Refused(409), s)
    else
      var row := Credential(scope, user, input.provider, input.name, key.value, url.value, true,
        !HasDefault(s.rows, scope));
      (Done(id), s.(rows := s.rows[id := row]))
  }

  function Rotate(normalize: string -> Option<string>, s: State, user: nat, workspace: Option<nat>, admin: bool,
                  id: nat, apiKey: Field, baseUrl: Option<string>, valid: bool, recent: bool): (Answer, State)
  {
    if !Permitted(s, workspace, admin) then (Refused(404), s)
    else if id !in s.rows || s.rows[id].scope != ScopeOf(user, workspace) then (Refused(404), s)
    else
      var row := s.rows[id];
      var url := if baseUrl.Some? then BaseUrl(normalize, row.provider, baseUrl, row.baseUrl) else Url(row.baseUrl);
      if url.BadUrl? then (Refused(422), s)
      else
        var moved := row.provider == OLLAMA && url.value != row.baseUrl;
        var keep := row.provider == OLLAMA && apiKey.Missing?;
        var sent := if apiKey.Missing? then None else apiKey.value;
        var key := if keep then Some(row.key) else CredentialKey(row.provider, sent);
        if moved && !recent then (Refused(403), s)
        else if moved && (sent.None? || sent.value == "") then (Refused(422), s)
        else if key.None? || !valid then (Refused(422), s)
        else (Done(id), s.(rows := s.rows[id := row.(key := key.value, baseUrl := url.value, active := true)]))
  }

  function Choose(s: State, user: nat, workspace: Option<nat>, admin: bool, id: nat): (Answer, State) {
    if !Permitted(s, workspace, admin) then (Refused(404), s)
    else if id !in s.rows || s.rows[id].scope != ScopeOf(user, workspace) then (Refused(404), s)
    else if !s.rows[id].active then (Refused(409), s)
    else (Done(id), s.(rows := WithDefault(s.rows, id)))
  }

  /** The workspaces whose selections a removal looks at. */
  function Watched(s: State, user: nat, workspace: Option<nat>): set<nat> {
    set w | w in s.workspaces && if workspace.None? then s.workspaces[w].owner == user else w == workspace.value
  }

  predicate Names(settings: map<string, Selection>, id: nat) {
    exists role :: role in settings && settings[role].credentialId == Some(id)
  }

  predicate NamesProvider(settings: map<string, Selection>, provider: string) {
    exists role :: role in settings && settings[role].provider == provider
  }

  predicate Replaceable(rows: Rows, id: nat)
    requires id in rows
  {
    exists other :: other in rows && other != id && rows[other].scope == rows[id].scope
      && rows[other].provider == rows[id].provider && rows[other].active
  }

  function Remove(s: State, user: nat, workspace: Option<nat>, admin: bool, id: nat): (Answer, State) {
    var scope := ScopeOf(user, workspace);
    if !Permitted(s, workspace, admin) then (Refused(404), s)
    else if id !in s.rows || s.rows[id].scope != scope then (Refused(404), s)
    else if s.rows[id].isDefault && |InScope(s.rows, scope)| > 1 then (Refused(409), s)
    else if exists w :: w in Watched(s, user, workspace) && Names(s.workspaces[w].settings, id) then (Refused(409), s)
    else if
      (exists w :: w in Watched(s, user, workspace) && NamesProvider(s.workspaces[w].settings, s.rows[id].provider))
      && !Replaceable(s.rows, id) then (Refused(409), s)
    else (Done(id), s.(rows := s.rows - {id}))
  }

  predicate IsNamed(rows: Rows, id: nat, scope: Scope, provider: string, name: string) {
    id in rows && rows[id].scope == scope && rows[id].provider == provider && rows[id].name == name
  }

  /** The row of that name gets the new key and becomes the default. */
  function Replace(normalize: string -> Option<string>, s: State, input: Input, found: nat): (Answer, State)
    requires found in s.rows
  {
    var row := s.rows[found];
    var url :=
      if input.baseUrl.Some? || input.provider != OLLAMA
        then BaseUrl(normalize, input.provider, input.baseUrl, row.baseUrl)
      else Url(row.baseUrl);
    if url.BadUrl? then (Refused(422), s)
    else
      var moved := row.provider == OLLAMA && url.value != row.baseUrl;
      var keep := input.provider == OLLAMA && input.apiKey.None?;
      var key := if keep then Some(row.key) else CredentialKey(input.provider, input.apiKey);
      if moved && !input.recent then (Refused(403), s)
      else if moved && (input.apiKey.None? || input.apiKey.value == "") then (Refused(422), s)
      else if key.None? || !input.valid then (Refused(422), s)
      else
        var rows := s.rows[found := row.(key := key.value, baseUrl := url.value, active := true)];
        (Done(found), s.(rows := WithDefault(rows, found)))
  }

  /** A new row takes the default over. */
  function Insert(normalize: string -> Option<string>, s: State, user: nat, workspace: nat, input: Input, id: nat)
    : (Answer, State)
  {
    var scope := Shared(workspace);
    var key, url := CredentialKey(input.provider, input.apiKey),
      BaseUrl(normalize, input.provider, input.baseUrl, None);
    if key.None? || url.BadUrl? || !input.valid then (Refused(422), s)
    else
      var row := Credential(scope, user, input.provider, input.name, key.value, url.value, true, true);
      (Done(id), s.(rows := Cleared(s.rows, scope)[id := row]))
  }

  /** The key of a workspace: `id` names the new row if no row has this provider and name. */
  ghost function Upsert(normalize: string -> Option<string>, s: State, user: nat, workspace: nat, admin: bool,
                        input: Input, id: nat)
    : (Answer, State)
  {
    var scope := Shared(workspace);
    if !Permitted(s, Some(workspace), admin) then (Refused(404), s)
    else if exists found :: IsNamed(s.rows, found, scope, input.provider, input.name) then
      var found :| IsNamed(s.rows, found, scope, input.provider, input.name);
      Replace(normalize, s, input, found)
    else Insert(normalize, s, user, workspace, input, id)
  }

  // -------------------------------------------------------------------------
  // Model selections.
  // -------------------------------------------------------------------------

  const ROLES := {"answer", "extraction", "embedding", "transcription"}

  /** What a key can do, as its provider lists it: models by role. */
  type Offers = set<(string, string)>

  /** Credentials whose models a workspace may use: its own, and its owner's. */
  predicate Eligible(s: State, w: nat, id: nat)
    requires w in s.workspaces
  {
    id in s.rows && s.rows[id].active && s.rows[id].scope in {Shared(w), Account(s.workspaces[w].owner)}
  }

  predicate Offered(s: State, w: nat, offers: map<nat, Offers>, role: string, choice: Selection, id: nat)
    requires w in s.workspaces
  {
    Eligible(s, w, id) && s.rows[id].provider == choice.provider && id in offers && (role, choice.model) in offers[id]
  }

  predicate ValidChoice(s: State, w: nat, offers: map<nat, Offers>, role: string, choice: Selection)
    requires w in s.workspaces
  {
    role in ROLES
    && if choice.credentialId.Some? then Offered(s, w, offers, role, choice, choice.credentialId.value)
       else exists id :: id in s.rows && Offered(s, w, offers, role, choice, id)
  }

  /** `legacy` is what the vectors of a workspace without an embedding selection were made with. */
  function SetModels(s: State, w: nat, admin: bool, offers: map<nat, Offers>, choices: map<string, Selection>,
                     locked: bool, legacy: Option<Selection>): (Answer, State)
  {
    if w !in s.workspaces || !admin then (Refused(404), s)
    else if exists role :: role in choices && !ValidChoice(s, w, offers, role, choices[role]) then (Refused(422), s)
    else
      var settings := s.workspaces[w].settings;
      var current := if "embedding" in settings then Some(settings["embedding"]) else legacy;
      if "embedding" in choices && locked && current != Some(choices["embedding"]) then (Refused(409), s)
      else (Done(w), s.(workspaces := s.workspaces[w := s.workspaces[w].(settings := settings + choices)]))
  }

  // -------------------------------------------------------------------------
  // A new workspace.
  // -------------------------------------------------------------------------

  function Decimal(n: nat): (s: string)
    ensures s != ""
  {
    var digit := [(n % 10 + '0' as int) as char];
    if n < 10 then digit else Decimal(n / 10) + digit
  }

  const FIRST_NAME := "기본"

  /** The names the loop tries, in order: the bare name, then 2, 3 and so on. */
  function NameAt(n: nat): string {
    if n == 0 then FIRST_NAME else FIRST_NAME + " " + Decimal(n + 1)
  }

  function Untried(existing: set<string>, n: nat): set<string> {
    set l | l in existing && forall k: nat :: k < n ==> l != NameAt(k)
  }

  /** The first name that is free, from the n-th on. */
  function FirstFree(existing: set<string>, n: nat): (k: nat)
    ensures k >= n && NameAt(k) !in existing
    ensures forall j :: n <= j < k ==> NameAt(j) in existing
    decreases |Untried(existing, n)|
  {
    if NameAt(n) !in existing then n
    else
      OneNameLess(existing, n);
      FirstFree(existing, n + 1)
  }

  /** Each name that is taken leaves one existing name fewer to run into. */
  lemma OneNameLess(existing: set<string>, n: nat)
    requires NameAt(n) in existing
    ensures |Untried(existing, n + 1)| < |Untried(existing, n)|
  {
    forall k: nat | k < n ensures NameAt(n) != NameAt(k) {
      NamesDiffer(n, k);
    }
    assert NameAt(n) in Untried(existing, n) && NameAt(n) !in Untried(existing, n + 1);
    assert Untried(existing, n + 1) <= Untried(existing, n);
    SmallerSet(Untried(existing, n + 1), Untried(existing, n), NameAt(n));
  }

  lemma SmallerSet(a: set<string>, b: set<string>, x: string)
    requires a <= b && x in b && x !in a
    ensures |a| < |b|
  {
    var rest := b - a;
    assert b == a + rest && x in rest;
  }

  lemma {:induction false} DecimalDigits(n: nat)
    ensures |Decimal(n)| >= 1 && Decimal(n)[|Decimal(n)| - 1] == (n % 10 + '0' as int) as char
    ensures n < 10 ==> |Decimal(n)| == 1
    ensures n >= 10 ==> Decimal(n)[..|Decimal(n)| - 1] == Decimal(n / 10) && |Decimal(n)| >= 2
  {
    if n >= 10 {
      DecimalDigits(n / 10);
    }
  }

  lemma {:induction false} DecimalsDiffer(m: nat, n: nat)
    requires Decimal(m) == Decimal(n)
    ensures m == n
  {
    DecimalDigits(m);
    DecimalDigits(n);
    if m >= 10 {
      DecimalsDiffer(m / 10, n / 10);
    }
  }

  lemma NamesDiffer(m: nat, n: nat)
    requires m != n
    ensures NameAt(m) != NameAt(n)
  {
    var prefix := FIRST_NAME + " ";
    if m > 0 && n > 0 {
      assert NameAt(m)[|prefix|..] == Decimal(m + 1) && NameAt(n)[|prefix|..] == Decimal(n + 1);
      if Decimal(m + 1) == Decimal(n + 1) {
        DecimalsDiffer(m + 1, n + 1);
      }
    }
  }

  /** The loop over names; it ends because the existing names run out. */
  method FreshName(existing: set<string>) returns (name: string)
    ensures name !in existing && name == NameAt(FirstFree(existing, 0))
  {
    name := FIRST_NAME;
    var suffix := 2;
    while name in existing
      invariant suffix >= 2 && name == NameAt(suffix - 2)
      invariant FirstFree(existing, suffix - 2) == FirstFree(existing, 0)
      decreases |Untried(existing, suffix - 2)|
    {
      OneNameLess(existing, suffix - 2);
      name := FIRST_NAME + " " + Decimal(suffix);
      suffix := suffix + 1;
    }
  }

  function AccountNames(rows: Rows, user: nat, provider: string): set<string> {
    set id | id in rows && rows[id].scope == Account(user) && rows[id].provider == provider :: rows[id].name
  }

  /** A request for a workspace: a saved credential, or the parts of a new one, or neither. */
  datatype Request = Request(
    credentialId: Option<nat>,
    provider: Option<string>,
    apiKey: Option<string>,
    baseUrl: Option<string>,
    models: map<string, Selection>,
    valid: bool,
    offers: Offers,
    recommended: map<string, string>)

  predicate ValidForKey(request: Request, provider: string, credential: Option<nat>) {
    forall role :: role in request.models ==>
      var choice := request.models[role];
      && role in ROLES && choice.provider == provider && (role, choice.model) in request.offers
      && (choice.credentialId.None? || choice.credentialId == credential)
  }

  /** Every choice names the credential it was previewed with. */
  function NewSettings(request: Request, provider: string, id: nat): map<string, Selection> {
    map role | role in request.recommended.Keys + request.models.Keys ::
      Selection(
        provider,
        if role in request.models then request.models[role].model else request.recommended[role],
        Some(id))
  }

  function Create(normalize: string -> Option<string>, s: State, user: nat, request: Request, w: nat, id: nat)
    : (Answer, State)
  {
    if request.credentialId.None? && request.provider.None? then
      if request.apiKey.Some? || request.baseUrl.Some? || request.models != map[] then (Refused(422), s)
      else (Done(w), s.(workspaces := s.workspaces[w := Workspace(user, map[])]))
    else if request.credentialId.Some? then
      var saved := request.credentialId.value;
      if saved !in s.rows || s.rows[saved].scope != Account(user) || !s.rows[saved].active then (Refused(404), s)
      else
        var provider := s.rows[saved].provider;
        if request.provider.Some? && request.provider.value != provider then (Refused(422), s)
        else if request.apiKey.Some? || request.baseUrl.Some? then (Refused(422), s)
        else if !request.valid || !ValidForKey(request, provider, Some(saved)) then (Refused(422), s)
        else (Done(w), s.(workspaces := s.workspaces[w := Workspace(user, NewSettings(request, provider, saved))]))
    else
      var provider := request.provider.value;
      var key, url := CredentialKey(provider, request.apiKey), BaseUrl(normalize, provider, request.baseUrl, None);
      if key.None? || url.BadUrl? || !request.valid || !ValidForKey(request, provider, None) then (Refused(422), s)
      else
        var name := NameAt(FirstFree(AccountNames(s.rows, user, provider), 0));
        var row := Credential(Account(user), user, provider, name, key.value, url.value, true,
          !HasDefault(s.rows, Account(user)));
        (Done(w), State(s.rows[id := row], s.workspaces[w := Workspace(user, NewSettings(request, provider, id))]))
  }
}
