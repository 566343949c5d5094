/** Password reset: single-use tokens, and what a committed reset revokes. */
module PasswordReset {
  import opened Rows

  datatype Token = Token(user: Id, expires: Time, used: bool)

  /** `owners` and `issued` remember whose every token ever minted was, and every session ever
      issued; they are bookkeeping, not tables. */
  datatype State = State(tokens: map<string, Token>, credentials: map<Id, string>, sessions: map<string, Id>,
                         owners: map<string, Id>, issued: map<string, Id>)

  predicate Usable(s: State, token: string, now: Time) {
    token in s.tokens && !s.tokens[token].used && s.tokens[token].expires > now
  }

  function AfterReset(s: State, token: string, hash: string): State
    requires token in s.tokens
  {
    var user := s.tokens[token].user;
    s.(tokens := map t | t in s.tokens && s.tokens[t].user != user :: s.tokens[t],
       credentials := s.credentials[user := hash],
       sessions := map x | x in s.sessions && s.sessions[x] != user :: s.sessions[x])
  }

  datatype Op =
    | Mint(token: string, user: Id, expires: Time)
    | Reset(token: string, hash: string)
    | OpenSession(session: string, user: Id)
    | CloseSession(session: string)
    | Sweep

  /** One committed statement or transaction. */
  function Step(s: State, op: Op, now: Time): State {
    match op
    case Mint(token, user, expires) =>
      s.(tokens := s.tokens[token := Token(user, expires, false)], owners := s.owners[token := user])
    case Reset(token, hash) => if Usable(s, token, now) then AfterReset(s, token, hash) else s
    case OpenSession(session, user) => s.(sessions := s.sessions[session := user], issued := s.issued[session := user])
    case CloseSession(session) => s.(sessions := s.sessions - {session})
    case Sweep => s.(tokens := map t | t in s.tokens && s.tokens[t].expires > now :: s.tokens[t])
  }

  datatype Tick = Tick(op: Op, now: Time)

  function Run(s: State, ticks: seq<Tick>): State
    decreases |ticks|
  {
    if ticks == [] then s else Run(Step(s, ticks[0].op, ticks[0].now), ticks[1..])
  }

  /** Tokens and session ids are never drawn twice. */
  predicate Fresh(s: State, op: Op) {
    (op.Mint? ==> op.token !in s.owners) && (op.OpenSession? ==> op.session !in s.issued)
  }

  predicate Legal(s: State, ticks: seq<Tick>)
    decreases |ticks|
  {
    ticks != [] ==> Fresh(s, ticks[0].op) && Legal(Step(s, ticks[0].op, ticks[0].now), ticks[1..])
  }

  ghost predicate Inv(s: State) {
    && (forall t :: t in s.tokens ==> t in s.owners && s.owners[t] == s.tokens[t].user && !s.tokens[t].used)
    && (forall x :: x in s.sessions ==> x in s.issued && s.issued[x] == s.sessions[x])
  }

  /** A token once gone from the table, and a session once closed, never come back. */
  ghost predicate StaysGone(s: State, next: State) {
    && (forall t :: t in s.owners ==>
      t in next.owners && next.owners[t] == s.owners[t] && (t !in s.tokens ==> t !in next.tokens))
    && (forall x :: x in s.issued ==>
      x in next.issued && next.issued[x] == s.issued[x] && (x !in s.sessions ==> x !in next.sessions))
  }

  lemma StepKeeps(s: State, op: Op, now: Time)
    requires Inv(s) && Fresh(s, op)
    ensures Inv(Step(s, op, now)) && StaysGone(s, Step(s, op, now))
  {
  }

  lemma {:induction false} RunKeeps(s: State, ticks: seq<Tick>)
    requires Inv(s) && Legal(s, ticks)
    ensures Inv(Run(s, ticks)) && StaysGone(s, Run(s, ticks))
    decreases |ticks|
  {
    if ticks == [] {
    } else {
      hide Inv, Step;
      StepKeeps(s, ticks[0].op, ticks[0].now);
      RunKeeps(Step(s, ticks[0].op, ticks[0].now), ticks[1..]);
    }
  }

  /** After a committed reset: the new password is in place, no token minted for that member
      before it is ever usable again, and no session they had before it is ever live again. */
  lemma ResetRevokes(s: State, token: string, hash: string, now: Time, ticks: seq<Tick>)
    requires Inv(s) && Usable(s, token, now)
    requires Legal(Step(s, Reset(token, hash), now), ticks)
    ensures var user, next := s.tokens[token].user, Step(s, Reset(token, hash), now);
            var end := Run(next, ticks);
            && user in next.credentials && next.credentials[user] == hash
            && (forall t, later :: t in s.owners && s.owners[t] == user ==> !Usable(end, t, later))
            && (forall x :: x in s.issued && s.issued[x] == user ==> x !in end.sessions)
            && (forall t :: t in s.tokens && s.owners[t] != user ==> t in next.tokens && next.tokens[t] == s.tokens[t])
            && (forall x :: x in s.sessions && s.issued[x] != user ==> x in next.sessions)
  {
    var next := Step(s, Reset(token, hash), now);
    RunKeeps(next, ticks);
  }

  /** How often a token has replaced a password during a run. */
  function Successes(s: State, ticks: seq<Tick>, token: string): nat
    decreases |ticks|
  {
    if ticks == [] then 0
    else
      (if ticks[0].op.Reset? && ticks[0].op.token == token && Usable(s, token, ticks[0].now) then 1 else 0)
      + Successes(Step(s, ticks[0].op, ticks[0].now), ticks[1..], token)
  }

  lemma {:induction false} GoneIsSpent(s: State, ticks: seq<Tick>, token: string)
    requires Inv(s) && Legal(s, ticks) && token in s.owners && token !in s.tokens
    ensures Successes(s, ticks, token) == 0
    decreases |ticks|
  {
    if ticks == [] {
    } else {
      StepKeeps(s, ticks[0].op, ticks[0].now);
      GoneIsSpent(Step(s, ticks[0].op, ticks[0].now), ticks[1..], token);
    }
  }

  /** Over any interleaving of submits, requests, logins and sweeps, a token works at most once. */
  lemma {:induction false} WorksOnce(s: State, ticks: seq<Tick>, token: string)
    requires Inv(s) && Legal(s, ticks)
    ensures Successes(s, ticks, token) <= 1
    decreases |ticks|
  {
    if ticks == [] {
    } else {
      var next := Step(s, ticks[0].op, ticks[0].now);
      StepKeeps(s, ticks[0].op, ticks[0].now);
      if ticks[0].op.Reset? && ticks[0].op.token == token && Usable(s, token, ticks[0].now) {
        GoneIsSpent(next, ticks[1..], token);
      } else {
        WorksOnce(next, ticks[1..], token);
      }
    }
  }

  const EMPTY := State(map[], map[], map[], map[], map[])

  /** Of two submits racing with two tokens of one member, whichever commits first, the other
      finds its link no longer valid. */
  lemma SiblingLoses(start: seq<Tick>, a: string, b: string, hash: string, now: Time, between: seq<Tick>, later: Time)
    requires Legal(EMPTY, start)
    requires var s := Run(EMPTY, start);
             && Usable(s, a, now) && b in s.tokens && s.tokens[a].user == s.tokens[b].user
             && Legal(Step(s, Reset(a, hash), now), between)
    ensures !Usable(Run(Step(Run(EMPTY, start), Reset(a, hash), now), between), b, later)
  {
    RunKeeps(EMPTY, start);
    ResetRevokes(Run(EMPTY, start), a, hash, now, between);
  }

  lemma ResetMeans(s: State, token: string, hash: string)
    requires token in s.tokens
    ensures var user, after := s.tokens[token].user, AfterReset(s, token, hash);
            && after.credentials == s.credentials[user := hash]
            && (forall t :: t in after.tokens <==> t in s.tokens && s.tokens[t].user != user)
            && (forall x :: x in after.sessions <==> x in s.sessions && s.sessions[x] != user)
  {
  }

  /** A token sent out works until it expires and not from then on, as long as no other reset, and
      no other token of its name, came in between. */
  lemma TokenWorks(s: State, token: string, user: Id, expires: Time, minted: Time, hash: string, now: Time)
    ensures var mailed := Step(s, Mint(token, user, expires), minted);
            var after := Step(mailed, Reset(token, hash), now);
            if now < expires then
              && after.credentials == s.credentials[user := hash]
              && (forall t :: t in after.tokens <==> t != token && t in s.tokens && s.tokens[t].user != user)
              && (forall x :: x in after.sessions <==> x in s.sessions && s.sessions[x] != user)
            else after == mailed
  {
  }

  /** Used tokens, tokens never sent out and expired ones do nothing. */
  lemma DeadTokenDoesNothing(s: State, token: string, hash: string, now: Time)
    requires token !in s.tokens || s.tokens[token].used || s.tokens[token].expires <= now
    ensures Step(s, Reset(token, hash), now) == s
  {
  }

  /** The sweep drops only what no submit could use any more. */
  lemma SweepShowsNothing(s: State, token: string, now: Time, later: Time)
    requires now <= later
    ensures var swept := Step(s, Sweep, now);
            && (Usable(swept, token, later) <==> Usable(s, token, later))
            && (Usable(s, token, later) ==> swept.tokens[token] == s.tokens[token])
            && swept.sessions == s.sessions && swept.credentials == s.credentials
            && (token in swept.tokens ==> swept.tokens[token].expires > now)
  {
  }

  /** Opening a session touches nothing else, and closing one only that one. */
  lemma SessionsOpenAndClose(s: State, x: string, user: Id, now: Time)
    ensures Step(s, OpenSession(x, user), now).sessions == s.sessions[x := user]
    ensures Step(s, CloseSession(x), now).sessions == s.sessions - {x}
    ensures Step(s, OpenSession(x, user), now).tokens == s.tokens == Step(s, CloseSession(x), now).tokens
  {
  }

  // ----- The reset as a transaction -----------------------------------------------------

  /** The statement the database fails, if any. */
  datatype Fault = NoFault | AtBegin | AtConsume | AtCredential | AtSessions | AtTokens | AtCommit

  datatype Outcome = Done(user: Id) | TokenInvalid | Failed

  class Resets {
    var tokens: map<string, Token>
    var credentials: map<Id, string>
    var sessions: map<string, Id>
    ghost var owners: map<string, Id>
    ghost var issued: map<string, Id>

    ghost function Contents(): State
      reads this
    {
      State(tokens, credentials, sessions, owners, issued)
    }

    constructor ()
      ensures Contents() == EMPTY
    {
      tokens, credentials, sessions, owners, issued := map[], map[], map[], map[], map[];
    }

    method Consume(token: string, now: Time) returns (row: Option<Token>)
      modifies this`tokens
      ensures row.Some? <==> token in old(tokens) && !old(tokens)[token].used && now < old(tokens)[token].expires
      ensures row.None? ==> tokens == old(tokens)
      ensures row.Some? ==> row.value == old(tokens)[token] && tokens == old(tokens)[token := row.value.(used := true)]
    {
      if token !in tokens || tokens[token].used || tokens[token].expires <= now { return None; }
      row := Some(tokens[token]);
      tokens := tokens[token := tokens[token].(used := true)];
    }

    method DeleteTokensForUser(user: Id)
      modifies this`tokens
      ensures tokens == map t | t in old(tokens) && old(tokens)[t].user != user :: old(tokens)[t]
    {
      tokens := map t | t in tokens && tokens[t].user != user :: tokens[t];
    }

    /** All or nothing: the reset happens exactly when the token is usable and no statement
        fails, and otherwise token, password and sessions are as they were. */
    method CommitPasswordReset(token: string, hash: string, now: Time, fault: Fault) returns (r: Outcome)
      modifies this
      ensures r.Done? <==> Usable(old(Contents()), token, now) && fault == NoFault
      ensures r.Done? ==> token in old(tokens) && !old(tokens)[token].used && now < old(tokens)[token].expires
      ensures r == TokenInvalid <==> !Usable(old(Contents()), token, now) && fault != AtBegin && fault != AtConsume
      ensures r.Done? ==> r.user == old(tokens)[token].user && credentials == old(credentials)[r.user := hash]
      ensures r.Done? ==> forall t :: t in tokens <==> t in old(tokens) && old(tokens)[t].user != r.user
      ensures r.Done? ==> forall x :: x in sessions <==> x in old(sessions) && old(sessions)[x] != r.user
      ensures Contents() == if r.Done? then Step(old(Contents()), Reset(token, hash), now) else old(Contents())
    {
      var tokens0, credentials0, sessions0 := tokens, credentials, sessions;
      if fault == AtBegin || fault == AtConsume { return Failed; }
      var row := Consume(token, now);
      if row.None? { return TokenInvalid; }
      var user := row.value.user;
      if fault != AtCredential {
        credentials := credentials[user := hash];
        if fault != AtSessions {
          sessions := map x | x in sessions && sessions[x] != user :: sessions[x];
          if fault != AtTokens {
            DeleteTokensForUser(user);
            if fault != AtCommit {
              assert tokens == AfterReset(old(Contents()), token, hash).tokens;
              ResetMeans(old(Contents()), token, hash);
              return Done(user);
            }
          }
        }
      }
      tokens, credentials, sessions := tokens0, credentials0, sessions0;
      return Failed;
    }
  }
}
