/**
  The life of MCP tokens (`auth/mcp.py`, revocation in `api/mcp_tokens.py`) under one clock. In SQL
  `now()` is the time a transaction started; it may have waited for a row or a lock since.
 */
module Tokens {
  import opened Options
  import opened Text

  const MAX_TOKEN_LIFETIME_DAYS := 365
  const MAX_ACTIVE_TOKENS := 20
  const DAY := 86_400_000_000

  /** Times are microseconds; `expiresAt` is `None` for a token that never expires. */
  datatype Token = Token(
    owner: nat,
    name: string,
    hash: string,
    hint: string,
    createdAt: nat,
    expiresAt: Option<nat>,
    lastUsedAt: Option<nat>,
    revokedAt: Option<nat>)

  type Table = map<nat, Token>

  datatype Answer =
    | Issued(id: nat)
    | Extended(item: Token)
    | Revoked
    | Accepted(owner: nat)
    | Refused(status: nat)

  predicate Unexpired(expiresAt: Option<nat>, now: nat) {
    expiresAt.None? || expiresAt.value > now
  }

  predicate Active(token: Token, now: nat) {
    token.revokedAt.None? && Unexpired(token.expiresAt, now)
  }

  /** The count under the owner's lock. */
  function ActiveOf(tokens: Table, owner: nat, now: nat): set<nat> {
    set id | id in tokens && tokens[id].owner == owner && Active(tokens[id], now)
  }

  /** One row is new, it is active, and nothing else is different. */
  predicate OneMoreActive(before: Table, after: Table, id: nat, owner: nat, now: nat) {
    && id !in before && id in after && after - {id} == before
    && ActiveOf(after, owner, now) == ActiveOf(before, owner, now) + {id}
    && |ActiveOf(after, owner, now)| == |ActiveOf(before, owner, now)| + 1
  }

  predicate ValidLabel(name: string) {
    name != "" && |name| <= 80 && forall c :: c in name ==> c as int >= 32
  }

  predicate ValidLifetime(days: Option<int>) {
    days.Some? ==> 1 <= days.value <= MAX_TOKEN_LIFETIME_DAYS
  }

  function Expiry(days: Option<int>, now: nat): Option<nat>
    requires ValidLifetime(days)
  {
    if days.None? then None else Some(now + days.value * DAY)
  }

  predicate IsUrlSafe(c: char) {
    'A' <= c <= 'Z' || 'a' <= c <= 'z' || '0' <= c <= '9' || c == '_' || c == '-'
  }

  const PREFIX := "mgmcp_"

  /** `TOKEN_PATTERN` */
  predicate WellFormed(token: string) {
    PREFIX <= token && |token| == 49 && forall c :: c in token[6..] ==> IsUrlSafe(c)
  }

  /** No expiry is later than every expiry. */
  predicate StrictlyLater(before: Option<nat>, after: Option<nat>) {
    before.Some? && (after.None? || before.value < after.value)
  }

  /** Rows an update may touch: live tokens with an expiry before the new one. */
  predicate CanExtend(token: Token, owner: nat, expiry: Option<nat>, now: nat) {
    && token.owner == owner && token.revokedAt.None?
    && token.expiresAt.Some? && token.expiresAt.value > now
    && (expiry.Some? ==> token.expiresAt.value < expiry.value)
  }

  predicate Accepts(token: Token, hash: string, now: nat) {
    token.hash == hash && Active(token, now)
  }

  class McpTokens {
    var tokens: Table

    constructor ()
      ensures tokens == map[]
    {
      tokens := map[];
    }

    /** `id` and `secret` are fresh; the table's unique hash refuses a repeated secret. */
    method IssueToken(digest: string -> string, started: nat, now: nat, owner: nat, name: string, days: Option<int>,
                      id: nat, secret: string)
      returns (answer: Answer)
      requires started <= now && WellFormed(secret) && id !in tokens
      modifies this
      ensures (answer, tokens) == Issue(digest, old(tokens), started, now, owner, name, days, id, secret)
      ensures answer.Issued? ==>
        OneMoreActive(old(tokens), tokens, id, owner, now) && |ActiveOf(old(tokens), owner, now)| < MAX_ACTIVE_TOKENS
      ensures !answer.Issued? ==> tokens == old(tokens)
    {
      var stripped := Strip(name);
      if stripped == "" || |stripped| > 80 || exists c :: c in stripped && c as int < 32 {
        return Refused(422);
      }
      if days.Some? && !(1 <= days.value <= MAX_TOKEN_LIFETIME_DAYS) {
        return Refused(422);
      }
      if |ActiveOf(tokens, owner, started)| >= MAX_ACTIVE_TOKENS {
        return Refused(409);
      }
      if exists i :: i in tokens && tokens[i].hash == digest(secret) {
        return Refused(500);
      }
      IssueAddsOneActive(digest, tokens, started, now, owner, name, days, id, secret);
      var expiresAt := if days.Some? then Some(now + days.value * DAY) else None;
      tokens := tokens[id :=
        Token(owner, stripped, digest(secret), secret[|secret| - 6..], now, expiresAt, None, None)];
      answer := Issued(id);
    }

    method ExtendToken(now: nat, owner: nat, id: nat, days: Option<int>) returns (answer: Answer)
      modifies this
      ensures (answer, tokens) == Extend(old(tokens), now, owner, id, days)
      ensures tokens.Keys == old(tokens).Keys && tokens - {id} == old(tokens) - {id}
      ensures answer.Extended? ==> StrictlyLater(old(tokens)[id].expiresAt, tokens[id].expiresAt)
      ensures !answer.Extended? ==> tokens == old(tokens)
    {
      if !ValidLifetime(days) {
        return Refused(422);
      }
      var newExpiry := Expiry(days, now);
      if id in tokens && CanExtend(tokens[id], owner, newExpiry, now) {
        tokens := tokens[id := tokens[id].(expiresAt := newExpiry)];
        return Extended(tokens[id]);
      }
      answer := if id in tokens && tokens[id].owner == owner && Active(tokens[id], now) then Refused(409)
        else Refused(404);
    }

    method RevokeToken(now: nat, user: nat, id: nat) returns (answer: Answer)
      modifies this
      ensures (answer, tokens) == Revoke(old(tokens), now, user, id)
      ensures tokens.Keys == old(tokens).Keys && tokens - {id} == old(tokens) - {id}
      ensures answer == Revoked <==> id in tokens && tokens[id].owner == user
      ensures answer == Revoked ==> forall later :: !Active(tokens[id], later)
    {
      if id !in tokens || tokens[id].owner != user {
        return Refused(404);
      }
      if tokens[id].revokedAt.None? {
        tokens := tokens[id := tokens[id].(revokedAt := Some(now))];
      }
      answer := Revoked;
    }

    /** The conditional update records the use of the row it accepts. */
    method AuthenticateMcpToken(digest: string -> string, now: nat, token: string) returns (answer: Answer)
      requires UniqueHashes(tokens)
      modifies this
      ensures (answer, tokens) == Authenticate(digest, old(tokens), now, token)
    {
      if !WellFormed(token) {
        return Refused(401);
      }
      var rows := set id | id in tokens && Accepts(tokens[id], digest(token), now);
      assert forall id :: id in tokens && Accepts(tokens[id], digest(token), now) ==> id in rows;
      if rows == {} {
        return Refused(401);
      }
      var id :| id in rows;
      tokens := tokens[id := tokens[id].(lastUsedAt := Some(now))];
      answer := Accepted(tokens[id].owner);
    }
  }

  // -------------------------------------------------------------------------
  // What the operations do to the table.
  // -------------------------------------------------------------------------

  predicate UniqueHashes(tokens: Table) {
    forall i, j :: i in tokens && j in tokens && i != j ==> tokens[i].hash != tokens[j].hash
  }

  /** The count is as of the start, the expiry as of the insert. */
  ghost function Issue(digest: string -> string, tokens: Table, started: nat, now: nat, owner: nat, name: string,
                       days: Option<int>, id: nat, secret: string): (Answer, Table)
    requires WellFormed(secret)
  {
    var stripped := Strip(name);
    if !ValidLabel(stripped) || !ValidLifetime(days) then (Refused(422), tokens)
    else if |ActiveOf(tokens, owner, started)| >= MAX_ACTIVE_TOKENS then (Refused(409), tokens)
    else if exists i :: i in tokens && tokens[i].hash == digest(secret) then (Refused(500), tokens)
    else (Issued(id), tokens[id := NewToken(digest, now, owner, stripped, days, secret)])
  }

  function NewToken(digest: string -> string, now: nat, owner: nat, name: string, days: Option<int>,
                    secret: string): Token
    requires WellFormed(secret) && ValidLifetime(days)
  {
    Token(owner, name, digest(secret), secret[|secret| - 6..], now, Expiry(days, now), None, None)
  }

  function Extend(tokens: Table, now: nat, owner: nat, id: nat, days: Option<int>): (Answer, Table) {
    if !ValidLifetime(days) then (Refused(422), tokens)
    else if id in tokens && CanExtend(tokens[id], owner, Expiry(days, now), now) then
      var item := tokens[id].(expiresAt := Expiry(days, now));
      (Extended(item), tokens[id := item])
    else if id in tokens && tokens[id].owner == owner && Active(tokens[id], now) then (Refused(409), tokens)
    else (Refused(404), tokens)
  }

  function Revoke(tokens: Table, now: nat, user: nat, id: nat): (Answer, Table) {
    if id !in tokens || tokens[id].owner != user then (Refused(404), tokens)
    else if tokens[id].revokedAt.None? then (Revoked, tokens[id := tokens[id].(revokedAt := Some(now))])
    else (Revoked, tokens)
  }

  ghost function Authenticate(digest: string -> string, tokens: Table, now: nat, token: string): (Answer, Table) {
    if WellFormed(token) && exists id :: id in tokens && Accepts(tokens[id], digest(token), now) then
      var id :| id in tokens && Accepts(tokens[id], digest(token), now);
      (Accepted(tokens[id].owner), tokens[id := tokens[id].(lastUsedAt := Some(now))])
    else (Refused(401), tokens)
  }

  // -------------------------------------------------------------------------
  // Runs.
  // -------------------------------------------------------------------------

  datatype Step =
    | Issues(owner: nat, name: string, days: Option<int>, id: nat, secret: string)
    | Extends(owner: nat, id: nat, days: Option<int>)
    | Revokes(user: nat, id: nat)
    | Authenticates(token: string)

  /** An operation, the time its transaction started, and the time it takes effect. */
  datatype Event = Event(started: nat, now: nat, step: Step)

  datatype State = State(now: nat, tokens: Table)

  predicate Enabled(s: State, e: Event) {
    e.started <= e.now && e.now >= s.now && (e.step.Issues? ==> WellFormed(e.step.secret) && e.step.id !in s.tokens)
  }

  ghost function Next(digest: string -> string, s: State, e: Event): (r: (Answer, State))
    requires Enabled(s, e)
    ensures r.1.now == e.now
  {
    var (answer, tokens) := match e.step
      case Issues(owner, name, days, id, secret) =>
        Issue(digest, s.tokens, e.started, e.now, owner, name, days, id, secret)
      case Extends(owner, id, days) => Extend(s.tokens, e.started, owner, id, days)
      case Revokes(user, id) => Revoke(s.tokens, e.started, user, id)
      case Authenticates(token) => Authenticate(digest, s.tokens, e.started, token);
    (answer, State(e.now, tokens))
  }

  ghost predicate Runs(digest: string -> string, s: State, run: seq<Event>)
    decreases |run|
  {
    run == [] || (Enabled(s, run[0]) && Runs(digest, Next(digest, s, run[0]).1, run[1..]))
  }

  ghost function Run(digest: string -> string, s: State, run: seq<Event>): State
    requires Runs(digest, s, run)
    decreases |run|
  {
    if run == [] then s else Run(digest, Next(digest, s, run[0]).1, run[1..])
  }

  const EMPTY := State(0, map[])

  /** A token that expires does so within the longest lifetime from now. */
  predicate Bounded(tokens: Table, now: nat) {
    forall id :: id in tokens && tokens[id].expiresAt.Some? ==>
      tokens[id].expiresAt.value <= now + MAX_TOKEN_LIFETIME_DAYS * DAY
  }

  ghost predicate Inv(s: State) {
    UniqueHashes(s.tokens) && Bounded(s.tokens, s.now)
  }

  /** The token expired after its extension had started and before it took effect. */
  predicate Late(s: State, e: Event, id: nat) {
    && e.step.Extends? && e.step.id == id && id in s.tokens
    && Active(s.tokens[id], e.started) && !Active(s.tokens[id], e.now)
  }

  /** Time alone makes no token active. */
  lemma ActiveShrinks(tokens: Table, owner: nat, before: nat, after: nat)
    requires before <= after
    ensures ActiveOf(tokens, owner, after) <= ActiveOf(tokens, owner, before)
    ensures |ActiveOf(tokens, owner, after)| <= |ActiveOf(tokens, owner, before)|
  {
    SubsetIsSmaller(ActiveOf(tokens, owner, after), ActiveOf(tokens, owner, before));
  }

  lemma SubsetIsSmaller(a: set<nat>, b: set<nat>)
    requires a <= b
    ensures |a| <= |b|
  {
    assert b == a + (b - a);
  }

  /** An operation other than an issue changes no owner and makes no token active. */
  lemma ActiveOfChanged(tokens: Table, id: nat, token: Token, owner: nat, now: nat)
    requires id in tokens && token.owner == tokens[id].owner && (Active(token, now) ==> Active(tokens[id], now))
    ensures |ActiveOf(tokens[id := token], owner, now)| <= |ActiveOf(tokens, owner, now)|
  {
    SubsetIsSmaller(ActiveOf(tokens[id := token], owner, now), ActiveOf(tokens, owner, now));
  }

  lemma IssueCounts(digest: string -> string, tokens: Table, started: nat, now: nat, step: Step, owner: nat)
    requires started <= now && step.Issues? && WellFormed(step.secret) && step.id !in tokens
    ensures var after := Issue(digest, tokens, started, now, step.owner, step.name, step.days, step.id, step.secret).1;
      || |ActiveOf(after, owner, now)| <= |ActiveOf(tokens, owner, now)|
      || |ActiveOf(after, owner, now)| <= MAX_ACTIVE_TOKENS
  {
    if step.owner == owner {
      IssueAddsOneActive(digest, tokens, started, now, step.owner, step.name, step.days, step.id, step.secret);
    } else if ValidLifetime(step.days) {
      OtherOwnersRow(tokens, step.id, NewToken(digest, now, step.owner, Strip(step.name), step.days, step.secret),
        owner, now);
    }
  }

  lemma OtherOwnersRow(tokens: Table, id: nat, item: Token, owner: nat, now: nat)
    requires id !in tokens && item.owner != owner
    ensures ActiveOf(tokens[id := item], owner, now) == ActiveOf(tokens, owner, now)
  {}

  /** An extension adds a token to the active ones only if it is late, and then that one. */
  lemma ExtensionCounts(s: State, e: Event, owner: nat)
    requires e.step.Extends? && e.step.id in s.tokens
    ensures |ActiveOf(Extend(s.tokens, e.started, e.step.owner, e.step.id, e.step.days).1, owner, e.now)|
      <= |ActiveOf(s.tokens, owner, e.now)| + if Late(s, e, e.step.id) then 1 else 0
  {
    var id := e.step.id;
    var after := Extend(s.tokens, e.started, e.step.owner, id, e.step.days).1;
    if Late(s, e, id) {
      SubsetIsSmaller(ActiveOf(after, owner, e.now), ActiveOf(s.tokens, owner, e.now) + {id});
    } else {
      SubsetIsSmaller(ActiveOf(after, owner, e.now), ActiveOf(s.tokens, owner, e.now));
    }
  }

  /** A step other than an issue brings at most a token back that a late extension is for. */
  lemma StepKeepsCounts(digest: string -> string, s: State, e: Event, owner: nat)
    requires Enabled(s, e)
    ensures var n := |ActiveOf(Next(digest, s, e).1.tokens, owner, e.now)|;
      || n <= |ActiveOf(s.tokens, owner, s.now)| + (if IsLate(s, e) then 1 else 0)
      || n <= MAX_ACTIVE_TOKENS
  {
    var t := Next(digest, s, e).1;
    ActiveShrinks(s.tokens, owner, s.now, e.now);
    match e.step
    case Issues(_, _, _, _, _) => IssueCounts(digest, s.tokens, e.started, e.now, e.step, owner);
    case Extends(_, id, _) => if id in s.tokens { ExtensionCounts(s, e, owner); }
    case Revokes(_, id) => if id in s.tokens { ActiveOfChanged(s.tokens, id, t.tokens[id], owner, e.now); }
    case Authenticates(token) =>
      if t.tokens != s.tokens {
        var id :| id in s.tokens && t.tokens == s.tokens[id := s.tokens[id].(lastUsedAt := Some(e.started))];
        ActiveOfChanged(s.tokens, id, t.tokens[id], owner, e.now);
      }
  }

  predicate IsLate(s: State, e: Event) {
    e.step.Extends? && Late(s, e, e.step.id)
  }

  /** How many extensions of a run are late. */
  ghost function LateCount(digest: string -> string, s: State, run: seq<Event>): nat
    requires Runs(digest, s, run)
    decreases |run|
  {
    if run == [] then 0
    else (if IsLate(s, run[0]) then 1 else 0) + LateCount(digest, Next(digest, s, run[0]).1, run[1..])
  }

  lemma StepKeepsHashes(digest: string -> string, s: State, e: Event)
    requires UniqueHashes(s.tokens) && Enabled(s, e)
    ensures UniqueHashes(Next(digest, s, e).1.tokens)
  {}

  lemma StepKeepsBounds(digest: string -> string, s: State, e: Event)
    requires Bounded(s.tokens, s.now) && Enabled(s, e)
    ensures Bounded(Next(digest, s, e).1.tokens, e.now)
  {}

  lemma StepKeepsInv(digest: string -> string, s: State, e: Event)
    requires Inv(s) && Enabled(s, e)
    ensures Inv(Next(digest, s, e).1)
  {
    StepKeepsHashes(digest, s, e);
    StepKeepsBounds(digest, s, e);
  }

  lemma {:induction false} RunKeepsInv(digest: string -> string, s: State, run: seq<Event>)
    requires Inv(s) && Runs(digest, s, run)
    ensures Inv(Run(digest, s, run))
    decreases |run|
  {
    if run != [] {
      StepKeepsInv(digest, s, run[0]);
      RunKeepsInv(digest, Next(digest, s, run[0]).1, run[1..]);
    }
  }

  // -------------------------------------------------------------------------
  // What follows for every run.
  // -------------------------------------------------------------------------

  /** No expiry is ever further away than the longest lifetime. */
  lemma LifetimesAreBounded(digest: string -> string, run: seq<Event>)
    requires Runs(digest, EMPTY, run)
    ensures var t := Run(digest, EMPTY, run); Bounded(t.tokens, t.now)
  {
    RunKeepsInv(digest, EMPTY, run);
  }

  /** An issue adds one row, active at once, and never one too many; a refusal changes nothing. */
  lemma IssueAddsOneActive(digest: string -> string, tokens: Table, started: nat, now: nat, owner: nat, name: string,
                           days: Option<int>, id: nat, secret: string)
    requires started <= now && id !in tokens && WellFormed(secret)
    ensures var (answer, after) := Issue(digest, tokens, started, now, owner, name, days, id, secret);
      && (answer.Issued? ==>
            OneMoreActive(tokens, after, id, owner, now) && |ActiveOf(tokens, owner, now)| < MAX_ACTIVE_TOKENS)
      && (!answer.Issued? ==> after == tokens)
  {
    ActiveShrinks(tokens, owner, started, now);
    if ValidLifetime(days) {
      ActiveRowAdded(tokens, id, NewToken(digest, now, owner, Strip(name), days, secret), now);
    }
  }

  lemma ActiveRowAdded(tokens: Table, id: nat, item: Token, now: nat)
    requires id !in tokens && Active(item, now)
    ensures OneMoreActive(tokens, tokens[id := item], id, item.owner, now)
  {
    var after := tokens[id := item];
    assert after - {id} == tokens;
    assert ActiveOf(after, item.owner, now) == ActiveOf(tokens, item.owner, now) + {id};
    assert id !in ActiveOf(tokens, item.owner, now);
  }

  /** What a request with another secret gets does not depend on this row. */
  lemma OthersAnswerAlike(digest: string -> string, tokens: Table, id: nat, item: Token, now: nat, token: string)
    requires UniqueHashes(tokens) && id in tokens && item.hash == tokens[id].hash && item.owner == tokens[id].owner
    requires digest(token) != item.hash
    ensures Authenticate(digest, tokens[id := item], now, token).0 == Authenticate(digest, tokens, now, token).0
  {
    var after := tokens[id := item];
    forall i
      ensures i in after && Accepts(after[i], digest(token), now) <==>
        i in tokens && Accepts(tokens[i], digest(token), now)
    {}
  }

  /** The only row of a hash decides. */
  lemma RowAnswers(digest: string -> string, tokens: Table, id: nat, now: nat, token: string)
    requires UniqueHashes(tokens) && id in tokens && tokens[id].hash == digest(token) && WellFormed(token)
    ensures Authenticate(digest, tokens, now, token).0
      == if Active(tokens[id], now) then Accepted(tokens[id].owner) else Refused(401)
  {
    assert forall i :: i in tokens && Accepts(tokens[i], digest(token), now) ==> i == id;
  }

  /**
    An extension is granted exactly for an active token of the owner whose expiry it moves later. Its
    secret is then accepted exactly until the new expiry, and all other secrets are answered as before.
   */
  lemma ExtendedSecretIsAccepted(digest: string -> string, tokens: Table, now: nat, owner: nat, id: nat,
                                 days: Option<int>, token: string, later: nat)
    requires UniqueHashes(tokens)
    ensures var (answer, after) := Extend(tokens, now, owner, id, days);
      && (answer.Extended? <==>
            ValidLifetime(days) && id in tokens && tokens[id].owner == owner && Active(tokens[id], now)
            && StrictlyLater(tokens[id].expiresAt, Expiry(days, now)))
      && (answer.Extended? && WellFormed(token) && digest(token) == tokens[id].hash ==>
            Authenticate(digest, after, later, token).0
            == if days.None? || later < now + days.value * DAY then Accepted(owner) else Refused(401))
      && (!answer.Extended? || digest(token) != tokens[id].hash ==>
            Authenticate(digest, after, later, token).0 == Authenticate(digest, tokens, later, token).0)
  {
    var (answer, after) := Extend(tokens, now, owner, id, days);
    if answer.Extended? {
      if digest(token) != tokens[id].hash {
        OthersAnswerAlike(digest, tokens, id, after[id], later, token);
      } else if WellFormed(token) {
        assert UniqueHashes(after);
        RowAnswers(digest, after, id, later, token);
      }
    }
  }

  /** From its owner's revocation on a secret is refused at all times, and all other secrets are answered as before. */
  lemma RevokedSecretIsRefused(digest: string -> string, tokens: Table, now: nat, user: nat, id: nat, token: string,
                               later: nat)
    requires UniqueHashes(tokens)
    ensures var (answer, after) := Revoke(tokens, now, user, id);
      && (answer == Revoked <==> id in tokens && tokens[id].owner == user)
      && (answer == Revoked && digest(token) == tokens[id].hash ==>
            Authenticate(digest, after, later, token).0 == Refused(401))
      && (answer != Revoked || digest(token) != tokens[id].hash ==>
            Authenticate(digest, after, later, token).0 == Authenticate(digest, tokens, later, token).0)
  {
    var (answer, after) := Revoke(tokens, now, user, id);
    if answer == Revoked {
      if digest(token) != tokens[id].hash {
        OthersAnswerAlike(digest, tokens, id, after[id], later, token);
      } else if WellFormed(token) {
        assert UniqueHashes(after);
        RowAnswers(digest, after, id, later, token);
      }
    }
  }

  /** The round trip: an issued secret is accepted for its owner exactly until the lifetime it was issued with ends. */
  lemma IssuedSecretIsAccepted(digest: string -> string, tokens: Table, started: nat, now: nat, owner: nat,
                               name: string, days: Option<int>, id: nat, secret: string, later: nat)
    requires UniqueHashes(tokens) && id !in tokens && WellFormed(secret)
    requires Issue(digest, tokens, started, now, owner, name, days, id, secret).0.Issued?
    ensures var after := Issue(digest, tokens, started, now, owner, name, days, id, secret).1;
      Authenticate(digest, after, later, secret).0 ==
        if days.None? || later < now + days.value * DAY then Accepted(owner) else Refused(401)
  {
    var after := Issue(digest, tokens, started, now, owner, name, days, id, secret).1;
    assert UniqueHashes(after);
    assert Accepts(after[id], digest(secret), later) <==> days.None? || later < now + days.value * DAY;
    assert forall i :: i in after && i != id ==> !Accepts(after[i], digest(secret), later);
  }

  lemma {:induction false} CountsFollow(digest: string -> string, s: State, run: seq<Event>, owner: nat, n: nat)
    requires Runs(digest, s, run) && |ActiveOf(s.tokens, owner, s.now)| <= MAX_ACTIVE_TOKENS + n
    ensures var t := Run(digest, s, run);
      |ActiveOf(t.tokens, owner, t.now)| <= MAX_ACTIVE_TOKENS + n + LateCount(digest, s, run)
    decreases |run|
  {
    if run != [] {
      var u := Next(digest, s, run[0]).1;
      StepKeepsCounts(digest, s, run[0], owner);
      CountsFollow(digest, u, run[1..], owner, n + if IsLate(s, run[0]) then 1 else 0);
    }
  }

  /** In every run an owner has at most twenty active tokens, and one more for each late extension. */
  lemma AtMostTwentyActive(digest: string -> string, run: seq<Event>, owner: nat)
    requires Runs(digest, EMPTY, run)
    ensures var t := Run(digest, EMPTY, run);
      |ActiveOf(t.tokens, owner, t.now)| <= MAX_ACTIVE_TOKENS + LateCount(digest, EMPTY, run)
  {
    assert ActiveOf(EMPTY.tokens, owner, EMPTY.now) == {};
    CountsFollow(digest, EMPTY, run, owner, 0);
  }

  /**
    A step brings a dead token back exactly when it is its owner's extension of it, started before the
    token expired, taking effect afterwards, and not itself over by then.
   */
  lemma RevivedExactlyWhenLate(digest: string -> string, s: State, e: Event, id: nat)
    requires Enabled(s, e) && id in s.tokens && !Active(s.tokens[id], e.now)
    ensures var t := Next(digest, s, e).1;
      id in t.tokens && (Active(t.tokens[id], e.now) <==>
        && Late(s, e, id) && e.step.owner == s.tokens[id].owner && ValidLifetime(e.step.days)
        && Unexpired(Expiry(e.step.days, e.started), e.now))
  {}

  /** The limit breaks wherever it is reached: an owner with twenty active tokens gets an expired one back. */
  lemma LateExtensionExceedsLimit(digest: string -> string, s: State, id: nat) returns (e: Event)
    requires id in s.tokens && s.tokens[id].revokedAt.None? && !Active(s.tokens[id], s.now)
      && s.tokens[id].expiresAt.value > 0
    requires |ActiveOf(s.tokens, s.tokens[id].owner, s.now)| == MAX_ACTIVE_TOKENS
    ensures Enabled(s, e) && IsLate(s, e) && Next(digest, s, e).0.Extended?
    ensures |ActiveOf(Next(digest, s, e).1.tokens, s.tokens[id].owner, e.now)| == MAX_ACTIVE_TOKENS + 1
  {
    var owner := s.tokens[id].owner;
    e := Event(s.tokens[id].expiresAt.value - 1, s.now, Extends(owner, id, None));
    var t := Next(digest, s, e).1;
    assert t.tokens == s.tokens[id := s.tokens[id].(expiresAt := None)];
    assert ActiveOf(t.tokens, owner, e.now) == ActiveOf(s.tokens, owner, s.now) + {id};
    assert id !in ActiveOf(s.tokens, owner, s.now);
  }

  lemma Prepended(digest: string -> string, s: State, e: Event, rest: seq<Event>)
    requires Enabled(s, e) && Runs(digest, Next(digest, s, e).1, rest)
    ensures Runs(digest, s, [e] + rest) && Run(digest, s, [e] + rest) == Run(digest, Next(digest, s, e).1, rest)
  {
    assert ([e] + rest)[1..] == rest;
  }

  /** Secrets that can be issued one after the other, with identifiers from `first` on. */
  predicate Issuable(digest: string -> string, tokens: Table, secrets: seq<string>, first: nat) {
    && (forall i :: i in tokens ==> i < first)
    && (forall k :: 0 <= k < |secrets| ==> WellFormed(secrets[k]))
    && (forall k, i :: 0 <= k < |secrets| && i in tokens ==> tokens[i].hash != digest(secrets[k]))
    && forall j, k :: 0 <= j < k < |secrets| ==> digest(secrets[j]) != digest(secrets[k])
  }

  const NAME := "a"

  lemma IssuesOne(digest: string -> string, s: State, owner: nat, days: Option<int>, secrets: seq<string>, first: nat,
                  now: nat)
    requires Issuable(digest, s.tokens, secrets, first) && secrets != [] && ValidLifetime(days) && now >= s.now
    requires |ActiveOf(s.tokens, owner, now)| < MAX_ACTIVE_TOKENS
    ensures var e := Event(now, now, Issues(owner, NAME, days, first, secrets[0]));
      && Enabled(s, e)
      && Next(digest, s, e).1.tokens == s.tokens[first := NewToken(digest, now, owner, NAME, days, secrets[0])]
      && |ActiveOf(Next(digest, s, e).1.tokens, owner, now)| == |ActiveOf(s.tokens, owner, now)| + 1
      && Issuable(digest, Next(digest, s, e).1.tokens, secrets[1..], first + 1)
  {
    assert Strip(NAME) == NAME;
    assert !exists i :: i in s.tokens && s.tokens[i].hash == digest(secrets[0]);
    IssueAddsOneActive(digest, s.tokens, now, now, owner, NAME, days, first, secrets[0]);
  }

  /** Issuing for ever: as many active tokens as secrets, up to the limit, and no other row touched. */
  lemma {:induction false} IssuesMany(digest: string -> string, s: State, owner: nat, secrets: seq<string>, first: nat)
      returns (run: seq<Event>)
    requires Issuable(digest, s.tokens, secrets, first)
    requires |ActiveOf(s.tokens, owner, s.now)| + |secrets| <= MAX_ACTIVE_TOKENS
    ensures Runs(digest, s, run) && Run(digest, s, run).now == s.now
    ensures |ActiveOf(Run(digest, s, run).tokens, owner, s.now)| == |ActiveOf(s.tokens, owner, s.now)| + |secrets|
    ensures forall i :: i in s.tokens ==>
      i in Run(digest, s, run).tokens && Run(digest, s, run).tokens[i] == s.tokens[i]
    decreases |secrets|
  {
    if secrets == [] {
      run := [];
    } else {
      IssuesOne(digest, s, owner, None, secrets, first, s.now);
      var e := Event(s.now, s.now, Issues(owner, NAME, None, first, secrets[0]));
      var rest := IssuesMany(digest, Next(digest, s, e).1, owner, secrets[1..], first + 1);
      Prepended(digest, s, e, rest);
      run := [e] + rest;
    }
  }

  lemma RunAppended(digest: string -> string, s: State, run: seq<Event>, e: Event)
    requires Runs(digest, s, run) && Enabled(Run(digest, s, run), e)
    ensures Runs(digest, s, run + [e]) && Run(digest, s, run + [e]) == Next(digest, Run(digest, s, run), e).1
    decreases |run|
  {
    if run == [] {
      assert [] + [e] == [e] && [e][1..] == [];
    } else {
      RunAppended(digest, Next(digest, s, run[0]).1, run[1..], e);
      assert (run + [e])[1..] == run[1..] + [e];
    }
  }

  /**
    Some run does exceed the limit: one token for a day, twenty after it has expired, and a late extension of
    the first.
   */
  lemma LimitCanBeExceeded(digest: string -> string, owner: nat, secrets: seq<string>) returns (run: seq<Event>)
    requires |secrets| == MAX_ACTIVE_TOKENS + 1 && Issuable(digest, EMPTY.tokens, secrets, 0)
    ensures Runs(digest, EMPTY, run)
    ensures var t := Run(digest, EMPTY, run); |ActiveOf(t.tokens, owner, t.now)| == MAX_ACTIVE_TOKENS + 1
  {
    assert ActiveOf(EMPTY.tokens, owner, 0) == {};
    IssuesOne(digest, EMPTY, owner, Some(1), secrets, 0, 0);
    var e := Event(0, 0, Issues(owner, NAME, Some(1), 0, secrets[0]));
    var s := Next(digest, EMPTY, e).1;
    var late := RunsFull(digest, s, owner, secrets[1..]);
    Prepended(digest, EMPTY, e, late);
    run := [e] + late;
  }

  /** From a token that lasts a day to one active token too many. */
  lemma RunsFull(digest: string -> string, s: State, owner: nat, secrets: seq<string>) returns (run: seq<Event>)
    requires |secrets| == MAX_ACTIVE_TOKENS && Issuable(digest, s.tokens, secrets, 1) && s.now == 0
    requires s.tokens.Keys == {0} && s.tokens[0].owner == owner && s.tokens[0].revokedAt.None?
      && s.tokens[0].expiresAt == Some(DAY)
    ensures Runs(digest, s, run)
    ensures var t := Run(digest, s, run); |ActiveOf(t.tokens, owner, t.now)| == MAX_ACTIVE_TOKENS + 1
  {
    assert ActiveOf(s.tokens, owner, DAY) == {};
    var e := Event(DAY, DAY, Issues(owner, NAME, None, 1, secrets[0]));
    IssuesOne(digest, s, owner, None, secrets, 1, DAY);
    var u := Next(digest, s, e).1;
    var more := IssuesMany(digest, u, owner, secrets[1..], 2);
    var full := Run(digest, u, more);
    var late := LateExtensionExceedsLimit(digest, full, 0);
    RunAppended(digest, u, more, late);
    Prepended(digest, s, e, more + [late]);
    run := [e] + (more + [late]);
  }

  /** No expiry is later than every expiry. */
  predicate NotEarlier(before: Option<nat>, after: Option<nat>) {
    after.None? || (before.Some? && before.value <= after.value)
  }

  /** What never changes about a token and what only moves forward. */
  predicate Follows(s: State, t: State, id: nat) {
    && id in s.tokens && id in t.tokens && s.now <= t.now
    && t.tokens[id].owner == s.tokens[id].owner && t.tokens[id].hash == s.tokens[id].hash
    && NotEarlier(s.tokens[id].expiresAt, t.tokens[id].expiresAt)
    && (s.tokens[id].revokedAt.Some? ==> t.tokens[id].revokedAt == s.tokens[id].revokedAt)
  }

  lemma {:induction false} TokensFollow(digest: string -> string, s: State, run: seq<Event>, id: nat)
    requires Runs(digest, s, run) && id in s.tokens
    ensures Follows(s, Run(digest, s, run), id)
    decreases |run|
  {
    if run != [] {
      var u := Next(digest, s, run[0]).1;
      assert Follows(s, u, id);
      TokensFollow(digest, u, run[1..], id);
    }
  }

  /** A request is accepted exactly when it carries the secret of an active token, for that token's owner. */
  lemma AcceptedExactlyWhenActive(digest: string -> string, tokens: Table, now: nat, token: string, owner: nat)
    requires UniqueHashes(tokens)
    ensures Authenticate(digest, tokens, now, token).0 == Accepted(owner) <==>
      WellFormed(token) && exists id ::
        id in tokens && tokens[id].owner == owner && Accepts(tokens[id], digest(token), now)
  {}

  /** Some extension of the token in the run is late. */
  ghost predicate LateFor(digest: string -> string, s: State, run: seq<Event>, id: nat)
    requires Runs(digest, s, run)
    decreases |run|
  {
    run != [] && (Late(s, run[0], id) || LateFor(digest, Next(digest, s, run[0]).1, run[1..], id))
  }

  lemma {:induction false} DeadUnlessLate(digest: string -> string, s: State, run: seq<Event>, id: nat)
    requires Runs(digest, s, run) && id in s.tokens && !Active(s.tokens[id], s.now) && !LateFor(digest, s, run, id)
    ensures var t := Run(digest, s, run); id in t.tokens && !Active(t.tokens[id], t.now)
    decreases |run|
  {
    if run != [] {
      RevivedExactlyWhenLate(digest, s, run[0], id);
      DeadUnlessLate(digest, Next(digest, s, run[0]).1, run[1..], id);
    }
  }

  /**
    Once revoked or expired, a token is never active again and its secret is never accepted again,
    unless an extension of it that had started before it expired takes effect afterwards.
   */
  lemma DeadTokensStayDead(digest: string -> string, before: seq<Event>, after: seq<Event>, id: nat, now: nat,
                           token: string)
    requires Runs(digest, EMPTY, before) && id in Run(digest, EMPTY, before).tokens
    requires var s := Run(digest, EMPTY, before); !Active(s.tokens[id], s.now) && Runs(digest, s, after)
    requires var t := Run(digest, Run(digest, EMPTY, before), after); now >= t.now
    requires digest(token) == Run(digest, EMPTY, before).tokens[id].hash
    ensures var s := Run(digest, EMPTY, before);
      var t := Run(digest, s, after);
      || LateFor(digest, s, after, id)
      || (id in t.tokens && !Active(t.tokens[id], now) && Authenticate(digest, t.tokens, now, token).0 == Refused(401))
  {
    var s := Run(digest, EMPTY, before);
    RunKeepsInv(digest, EMPTY, before);
    RunKeepsInv(digest, s, after);
    TokensFollow(digest, s, after, id);
    if !LateFor(digest, s, after, id) {
      DeadUnlessLate(digest, s, after, id);
      RefusedWhenDead(digest, Run(digest, s, after).tokens, id, now, token);
    }
  }

  lemma RefusedWhenDead(digest: string -> string, tokens: Table, id: nat, now: nat, token: string)
    requires UniqueHashes(tokens) && id in tokens && !Active(tokens[id], now) && digest(token) == tokens[id].hash
    ensures Authenticate(digest, tokens, now, token).0 == Refused(401)
  {
    assert forall i :: i in tokens && Accepts(tokens[i], digest(token), now) ==> i == id;
  }

  /** A revoked token has no way back at all. */
  lemma {:induction false} RevokedIsNeverLate(digest: string -> string, s: State, run: seq<Event>, id: nat)
    requires Runs(digest, s, run) && id in s.tokens && s.tokens[id].revokedAt.Some?
    ensures !LateFor(digest, s, run, id)
    decreases |run|
  {
    if run != [] {
      var u := Next(digest, s, run[0]).1;
      assert Follows(s, u, id);
      RevokedIsNeverLate(digest, u, run[1..], id);
    }
  }

  // -------------------------------------------------------------------------
  // Where an accepted secret comes from.
  // -------------------------------------------------------------------------

  /** The run's k-th event issued a token with this hash to the owner. */
  predicate IssuedAt(digest: string -> string, run: seq<Event>, k: nat, owner: nat, hash: string) {
    k < |run| && run[k].step.Issues? && run[k].step.owner == owner && digest(run[k].step.secret) == hash
  }

  /** No event from the k-th on has the owner revoke the token. */
  predicate NotRevokedFrom(run: seq<Event>, k: nat, owner: nat, id: nat) {
    forall j :: k <= j < |run| ==> run[j].step != Revokes(owner, id)
  }

  lemma StepIsNoRevocation(digest: string -> string, s: State, e: Event, id: nat)
    requires Enabled(s, e) && id in s.tokens
    ensures id in Next(digest, s, e).1.tokens && Next(digest, s, e).1.tokens[id].owner == s.tokens[id].owner
    ensures Next(digest, s, e).1.tokens[id].revokedAt.None? ==> e.step != Revokes(s.tokens[id].owner, id)
  {}

  lemma {:induction false} UnrevokedWasNotRevoked(digest: string -> string, s: State, run: seq<Event>, id: nat)
    requires Runs(digest, s, run) && id in s.tokens
    requires id in Run(digest, s, run).tokens && Run(digest, s, run).tokens[id].revokedAt.None?
    ensures NotRevokedFrom(run, 0, s.tokens[id].owner, id)
    decreases |run|
  {
    if run != [] {
      var u := Next(digest, s, run[0]).1;
      StepIsNoRevocation(digest, s, run[0], id);
      if u.tokens[id].revokedAt.Some? {
        TokensFollow(digest, u, run[1..], id);
        assert false;
      }
      UnrevokedWasNotRevoked(digest, u, run[1..], id);
      assert forall j :: 1 <= j < |run| ==> run[j] == run[1..][j - 1];
    }
  }

  lemma {:induction false} TokenWasIssued(digest: string -> string, s: State, run: seq<Event>, id: nat) returns (k: nat)
    requires Runs(digest, s, run) && id !in s.tokens && id in Run(digest, s, run).tokens
    ensures var token := Run(digest, s, run).tokens[id];
      && IssuedAt(digest, run, k, token.owner, token.hash) && run[k].step.id == id
      && (token.revokedAt.None? ==> NotRevokedFrom(run, k + 1, token.owner, id))
    decreases |run|
  {
    var u := Next(digest, s, run[0]).1;
    assert forall j :: 1 <= j < |run| ==> run[j] == run[1..][j - 1];
    if id in u.tokens {
      k := 0;
      TokensFollow(digest, u, run[1..], id);
      if Run(digest, s, run).tokens[id].revokedAt.None? {
        UnrevokedWasNotRevoked(digest, u, run[1..], id);
      }
    } else {
      var j := TokenWasIssued(digest, u, run[1..], id);
      k := j + 1;
    }
  }

  /**
    In every run, a secret is accepted for an owner only if the run issued a token with its hash to
    that owner, and the owner has not revoked that token since.
   */
  lemma AcceptedWasIssued(digest: string -> string, run: seq<Event>, now: nat, token: string, owner: nat)
      returns (k: nat)
    requires Runs(digest, EMPTY, run)
    requires Authenticate(digest, Run(digest, EMPTY, run).tokens, now, token).0 == Accepted(owner)
    ensures IssuedAt(digest, run, k, owner, digest(token)) && NotRevokedFrom(run, k + 1, owner, run[k].step.id)
  {
    RunKeepsInv(digest, EMPTY, run);
    var t := Run(digest, EMPTY, run);
    AcceptedExactlyWhenActive(digest, t.tokens, now, token, owner);
    var id :| id in t.tokens && t.tokens[id].owner == owner && Accepts(t.tokens[id], digest(token), now);
    k := TokenWasIssued(digest, EMPTY, run, id);
  }
}
