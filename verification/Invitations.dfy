/** Invitations: the one-transaction local accept and the three-statement Google join, in any
    interleaving. */
module Invitations {
  import opened Rows

  datatype Invitation = Invitation(household: Id, email: string, expires: Time, used: bool)

  /** `via` is the invitation the account came through; it is bookkeeping, not a column. */
  datatype Account = Account(household: Id, email: string, googleSub: Option<string>, live: bool, via: Option<Id>)

  /** How far a join request has got: its invitation re-validated, or its user created. */
  datatype Join = Validated(invitation: Id, email: string, googleSub: string) | Created(invitation: Id)

  datatype State = State(invitations: map<Id, Invitation>, accounts: map<Id, Account>, credentials: map<Id, string>,
          joins: map<Id, Join>)

  predicate Pending(s: State, inv: Id, now: Time) {
    inv in s.invitations && !s.invitations[inv].used && s.invitations[inv].expires > now
  }

  /** The partial unique indexes on live users. */
  predicate Clashes(a: Account, b: Account) {
    a.live && b.live && (a.email == b.email || (a.googleSub.Some? && a.googleSub == b.googleSub))
  }

  predicate CanCreate(s: State, a: Account) {
    forall u :: u in s.accounts ==> !Clashes(s.accounts[u], a)
  }

  function Used(s: State, inv: Id): map<Id, Invitation>
    requires inv in s.invitations
  {
    s.invitations[inv := s.invitations[inv].(used := true)]
  }

  function LocalAccount(s: State, inv: Id): Account
    requires inv in s.invitations
  {
    Account(s.invitations[inv].household, s.invitations[inv].email, None, true, Some(inv))
  }

  function JoinedAccount(s: State, j: Join): Account
    requires j.Validated? && j.invitation in s.invitations
  {
    Account(s.invitations[j.invitation].household, j.email, Some(j.googleSub), true, Some(j.invitation))
  }

  datatype Op =
    | Invite(id: Id, household: Id, email: string, expires: Time)
    | AcceptLocal(inv: Id, user: Id, hash: string)
    | Validate(request: Id, inv: Id, email: string, subject: string)
    | CreateJoined(request: Id, user: Id)
    | MarkUsed(request: Id)
    | Abandon(request: Id)
    | Found(user: Id, household: Id, email: string, googleSub: Option<string>)
    | Remove(user: Id)

  /** One committed statement or transaction; what cannot happen changes nothing. */
  function Step(s: State, op: Op, now: Time): State {
    match op
    case Invite(id, household, email, expires) =>
      if id in s.invitations then s
      else s.(invitations := s.invitations[id := Invitation(household, email, expires, false)])
    case AcceptLocal(inv, user, hash) =>
      if Pending(s, inv, now) && CanCreate(s, LocalAccount(s, inv)) then
        s.(invitations := Used(s, inv), accounts := s.accounts[user := LocalAccount(s, inv)],
          credentials := s.credentials[user := hash])
      else s
    case Validate(request, inv, email, subject) =>
      if Pending(s, inv, now) && s.invitations[inv].email == email then
        s.(joins := s.joins[request := Validated(inv, email, subject)])
      else s
    case CreateJoined(request, user) =>
      if request in s.joins && s.joins[request].Validated? && s.joins[request].invitation in s.invitations then
        var j := s.joins[request];
        if CanCreate(s, JoinedAccount(s, j)) then
          s.(accounts := s.accounts[user := JoinedAccount(s, j)], joins := s.joins[request := Created(j.invitation)])
        else s.(joins := s.joins - {request})
      else s
    case MarkUsed(request) =>
      if request in s.joins && s.joins[request].Created? && s.joins[request].invitation in s.invitations then
        s.(invitations := Used(s, s.joins[request].invitation), joins := s.joins - {request})
      else s
    case Abandon(request) => s.(joins := s.joins - {request})
    case Found(user, household, email, googleSub) =>
      var a := Account(household, email, googleSub, true, None);
      if CanCreate(s, a) then s.(accounts := s.accounts[user := a]) else s
    case Remove(user) =>
      if user in s.accounts then s.(accounts := s.accounts[user := s.accounts[user].(live := false)]) else s
  }

  datatype Tick = Tick(op: Op, now: Time)

  function Run(s: State, ticks: seq<Tick>): State
    decreases |ticks|
  {
    if ticks == [] then s else Run(Step(s, ticks[0].op, ticks[0].now), ticks[1..])
  }

  /** New users get new ids. */
  predicate FreshUser(s: State, op: Op) {
    match op
    case AcceptLocal(_, user, _) => user !in s.accounts
    case CreateJoined(_, user) => user !in s.accounts
    case Found(user, _, _, _) => user !in s.accounts
    case _ => true
  }

  predicate Legal(s: State, ticks: seq<Tick>)
    decreases |ticks|
  {
    ticks != [] ==> FreshUser(s, ticks[0].op) && Legal(Step(s, ticks[0].op, ticks[0].now), ticks[1..])
  }

  ghost predicate UniqueUsers(s: State) {
    forall u, v :: u in s.accounts && v in s.accounts && u != v ==> !Clashes(s.accounts[u], s.accounts[v])
  }

  predicate CameThrough(s: State, u: Id, inv: Id) {
    u in s.accounts && s.accounts[u].via == Some(inv)
  }

  ghost predicate HasAccount(s: State, inv: Id) {
    exists u :: CameThrough(s, u, inv)
  }

  ghost predicate AccountsBound(s: State) {
    forall u, i :: CameThrough(s, u, i) ==>
      i in s.invitations && s.accounts[u].email == s.invitations[i].email
        && s.accounts[u].household == s.invitations[i].household
  }

  ghost predicate UsedHasAccount(s: State) {
    forall i :: i in s.invitations && s.invitations[i].used ==> HasAccount(s, i)
  }

  ghost predicate JoinsBound(s: State) {
    forall p :: p in s.joins ==>
      var j := s.joins[p];
      && j.invitation in s.invitations
      && (if j.Validated? then j.email == s.invitations[j.invitation].email else HasAccount(s, j.invitation))
  }

  ghost predicate Inv(s: State) {
    UniqueUsers(s) && AccountsBound(s) && UsedHasAccount(s) && JoinsBound(s)
  }

  lemma AccountsStay(s: State, op: Op, now: Time)
    requires FreshUser(s, op)
    ensures forall i :: HasAccount(s, i) ==> HasAccount(Step(s, op, now), i)
  {
    forall i | HasAccount(s, i) ensures HasAccount(Step(s, op, now), i) {
      var u :| CameThrough(s, u, i);
      assert CameThrough(Step(s, op, now), u, i);
    }
  }

  lemma StepUnique(s: State, op: Op, now: Time)
    requires UniqueUsers(s) && FreshUser(s, op)
    ensures UniqueUsers(Step(s, op, now))
  {
  }

  lemma StepBinds(s: State, op: Op, now: Time)
    requires Inv(s) && FreshUser(s, op)
    ensures AccountsBound(Step(s, op, now))
  {
  }

  /** The account a step creates is there to be found. */
  lemma StepHasAccount(s: State, op: Op, now: Time)
    requires Inv(s) && FreshUser(s, op)
    ensures var next := Step(s, op, now); UsedHasAccount(next) && JoinsBound(next)
  {
    hide Clashes, CanCreate, UniqueUsers, AccountsBound;
    var next := Step(s, op, now);
    AccountsStay(s, op, now);
    match op
    case AcceptLocal(inv, user, _) => assert next != s ==> CameThrough(next, user, inv);
    case CreateJoined(request, user) =>
      assert next.accounts != s.accounts ==> CameThrough(next, user, s.joins[request].invitation);
    case _ =>
  }

  lemma StepKeeps(s: State, op: Op, now: Time)
    requires Inv(s) && FreshUser(s, op)
    ensures Inv(Step(s, op, now))
  {
    StepUnique(s, op, now);
    StepBinds(s, op, now);
    StepHasAccount(s, op, now);
  }

  lemma {:induction false} RunKeeps(s: State, ticks: seq<Tick>)
    requires Inv(s) && Legal(s, ticks)
    ensures Inv(Run(s, ticks))
    decreases |ticks|
  {
    if ticks == [] {
    } else {
      StepKeeps(s, ticks[0].op, ticks[0].now);
      RunKeeps(Step(s, ticks[0].op, ticks[0].now), ticks[1..]);
    }
  }

  const EMPTY := State(map[], map[], map[], map[])

  /** Over every interleaving of local accepts and Google joins, interrupted ones included: an
      invitation has at most one live account, bound to its address and household, and a used
      invitation has an account to show for it. */
  lemma AtMostOneAccount(ticks: seq<Tick>, inv: Id, u: Id, v: Id)
    requires Legal(EMPTY, ticks)
    ensures var s := Run(EMPTY, ticks);
            && (CameThrough(s, u, inv) && CameThrough(s, v, inv) && s.accounts[u].live && s.accounts[v].live ==> u == v)
            && (CameThrough(s, u, inv) ==> inv in s.invitations && s.accounts[u].email == s.invitations[inv].email
                                           && s.accounts[u].household == s.invitations[inv].household)
            && (inv in s.invitations && s.invitations[inv].used ==> HasAccount(s, inv))
  {
    RunKeeps(EMPTY, ticks);
  }

  /** A join interrupted before it marked its invitation leaves it pending, but nothing can come
      through it while that account lives. */
  lemma PendingButSpent(s: State, u: Id, inv: Id, op: Op, now: Time, v: Id)
    requires Inv(s) && FreshUser(s, op) && CameThrough(s, u, inv) && s.accounts[u].live
    ensures CameThrough(Step(s, op, now), v, inv) ==> CameThrough(s, v, inv)
  {
  }

  lemma {:induction false} SpentForGood(s: State, u: Id, inv: Id, ticks: seq<Tick>, v: Id)
    requires Inv(s) && Legal(s, ticks) && CameThrough(s, u, inv) && s.accounts[u].live
    requires forall i :: 0 <= i < |ticks| ==> ticks[i].op != Remove(u)
    ensures CameThrough(Run(s, ticks), v, inv) ==> CameThrough(s, v, inv)
    decreases |ticks|
  {
    if ticks == [] {
    } else {
      var op, now := ticks[0].op, ticks[0].now;
      StepKeeps(s, op, now);
      PendingButSpent(s, u, inv, op, now, v);
      assert CameThrough(Step(s, op, now), u, inv) && Step(s, op, now).accounts[u].live;
      SpentForGood(Step(s, op, now), u, inv, ticks[1..], v);
    }
  }

  // ----- What the requests are for -----------------------------------------------------

  /** No live account has this address. */
  predicate AddressFree(s: State, email: string) {
    forall u :: u in s.accounts && s.accounts[u].live ==> s.accounts[u].email != email
  }

  predicate SubjectFree(s: State, subject: string) {
    forall u :: u in s.accounts && s.accounts[u].live ==> s.accounts[u].googleSub != Some(subject)
  }

  /** A local accept makes the invited account, with its password, exactly if the invitation is
      there, unused and unexpired and no live account has its address; the invitation is then used,
      so that no second accept does anything. */
  lemma AcceptMeans(s: State, inv: Id, user: Id, hash: string, now: Time)
    ensures var next := Step(s, AcceptLocal(inv, user, hash), now);
            if inv in s.invitations && !s.invitations[inv].used && now < s.invitations[inv].expires
               && AddressFree(s, s.invitations[inv].email) then
              var i := s.invitations[inv];
              && next.accounts == s.accounts[user := Account(i.household, i.email, None, true, Some(inv))]
              && next.credentials == s.credentials[user := hash]
              && next.invitations == s.invitations[inv := Invitation(i.household, i.email, i.expires, true)]
            else next == s
  {
    var next := Step(s, AcceptLocal(inv, user, hash), now);
    if inv in s.invitations {
      assert CanCreate(s, LocalAccount(s, inv)) <==> AddressFree(s, s.invitations[inv].email);
    }
  }

  lemma SecondAcceptDoesNothing(s: State, inv: Id, user: Id, hash: string, now: Time, other: Id, later: Time)
    ensures var next := Step(s, AcceptLocal(inv, user, hash), now);
            next != s ==> Step(next, AcceptLocal(inv, other, hash), later) == next
  {
  }

  /** A Google join validated in time makes the invited account under the caller's subject,
      exactly if no live account has that address or that subject. */
  lemma JoinMeans(s: State, request: Id, inv: Id, subject: string, t1: Time, user: Id, t2: Time, t3: Time)
    requires inv in s.invitations && !s.invitations[inv].used && t1 < s.invitations[inv].expires
    ensures var i := s.invitations[inv];
            var validated := Step(s, Validate(request, inv, i.email, subject), t1);
            var created := Step(validated, CreateJoined(request, user), t2);
            var marked := Step(created, MarkUsed(request), t3);
            if AddressFree(s, i.email) && SubjectFree(s, subject) then
              && marked.accounts == s.accounts[user := Account(i.household, i.email, Some(subject), true, Some(inv))]
              && marked.invitations == s.invitations[inv := Invitation(i.household, i.email, i.expires, true)]
            else marked.accounts == s.accounts && marked.invitations == s.invitations
  {
    var i := s.invitations[inv];
    var validated := Step(s, Validate(request, inv, i.email, subject), t1);
    assert CanCreate(validated, JoinedAccount(validated, validated.joins[request]))
        <==> AddressFree(s, i.email) && SubjectFree(s, subject);
  }

  /** An expired, used or unknown invitation, and one for another address, is not validated. */
  lemma JoinRefused(s: State, request: Id, inv: Id, email: string, subject: string, now: Time)
    requires inv !in s.invitations || s.invitations[inv].used || s.invitations[inv].expires <= now
             || s.invitations[inv].email != email
    ensures Step(s, Validate(request, inv, email, subject), now) == s
  {
  }

  /** Founding a household makes its first account unless a live one has that address or subject;
      abandoning a join forgets that join and nothing else. */
  lemma FoundMeans(s: State, user: Id, household: Id, email: string, googleSub: Option<string>, now: Time)
    ensures var next := Step(s, Found(user, household, email, googleSub), now);
            if AddressFree(s, email) && (googleSub.Some? ==> SubjectFree(s, googleSub.value)) then
              next == s.(accounts := s.accounts[user := Account(household, email, googleSub, true, None)])
            else next == s
  {
    assert CanCreate(s, Account(household, email, googleSub, true, None))
        <==> AddressFree(s, email) && (googleSub.Some? ==> SubjectFree(s, googleSub.value));
  }

  lemma AbandonMeans(s: State, request: Id, now: Time)
    ensures var next := Step(s, Abandon(request), now);
            && request !in next.joins && (forall p :: p in s.joins && p != request ==>
              p in next.joins && next.joins[p] == s.joins[p])
            && next.accounts == s.accounts && next.invitations == s.invitations
  {
  }

  /** A new invitation waits for the one address it names, and a removed member's address is free
      to be invited again. */
  lemma InviteMeans(s: State, id: Id, household: Id, email: string, expires: Time, now: Time)
    requires id !in s.invitations
    ensures var next := Step(s, Invite(id, household, email, expires), now);
            next == s.(invitations := s.invitations[id := Invitation(household, email, expires, false)])
  {
  }

  lemma RemoveFreesAddress(s: State, user: Id, now: Time)
    requires UniqueUsers(s) && user in s.accounts && s.accounts[user].live
    ensures AddressFree(Step(s, Remove(user), now), s.accounts[user].email)
    ensures forall u :: u in s.accounts && u != user ==>
              u in Step(s, Remove(user), now).accounts && Step(s, Remove(user), now).accounts[u] == s.accounts[u]
  {
    var next := Step(s, Remove(user), now);
    forall u | u in next.accounts && next.accounts[u].live ensures next.accounts[u].email != s.accounts[user].email {
      assert u != user && !Clashes(s.accounts[u], s.accounts[user]);
    }
  }

  // ----- The local accept as a transaction ----------------------------------------------

  datatype Outcome = Accepted | NotAcceptable | EmailTaken | Failed

  /** The statement of the transaction that the database fails, if any. */
  datatype Fault = NoFault | AtBegin | AtConsume | AtCreateUser | AtCredential | AtCommit

  class Accounts {
    var state: State

    constructor ()
      ensures state == EMPTY
    {
      state := EMPTY;
    }

    method ConsumeInvitation(inv: Id, now: Time) returns (row: Option<Invitation>)
      modifies this
      ensures row.Some? <==>
                && inv in old(state).invitations && !old(state).invitations[inv].used
                && now < old(state).invitations[inv].expires
      ensures state == if row.Some? then old(state).(invitations := Used(old(state), inv)) else old(state)
      ensures row.Some? ==> row.value == state.invitations[inv]
    {
      if inv !in state.invitations || state.invitations[inv].used || state.invitations[inv].expires <= now {
        return None;
      }
      state := state.(invitations := state.invitations[inv := state.invitations[inv].(used := true)]);
      return Some(state.invitations[inv]);
    }

    method CreateUser(user: Id, a: Account) returns (ok: bool)
      modifies this
      ensures ok <==> CanCreate(old(state), a)
      ensures state == if ok then old(state).(accounts := old(state).accounts[user := a]) else old(state)
    {
      ok := CanCreate(state, a);
      if ok { state := state.(accounts := state.accounts[user := a]); }
    }

    /** Accepted leaves the invitation used with its account and its credential in place;
        anything else leaves everything, the invitation included, as it was. */
    method CommitLocalInvite(inv: Id, user: Id, hash: string, now: Time, fault: Fault) returns (r: Outcome)
      requires user !in state.accounts
      modifies this
      ensures r == Accepted <==>
                Pending(old(state), inv, now) && CanCreate(old(state), LocalAccount(old(state), inv))
                  && fault == NoFault
      ensures r == Accepted ==>
                && state == Step(old(state), AcceptLocal(inv, user, hash), now)
                && state.invitations[inv].used && CameThrough(state, user, inv)
                && user in state.credentials && state.credentials[user] == hash
                && now < state.invitations[inv].expires
                && state.accounts[user]
                   == Account(state.invitations[inv].household, state.invitations[inv].email, None, true, Some(inv))
      ensures r != Accepted ==> state == old(state)
      ensures r == NotAcceptable <==> !Pending(old(state), inv, now) && fault != AtBegin && fault != AtConsume
      ensures r == EmailTaken <==>
                && Pending(old(state), inv, now) && !CanCreate(old(state), LocalAccount(old(state), inv))
                && (fault == NoFault || fault == AtCredential || fault == AtCommit)
    {
      var saved := state;
      if fault == AtBegin || fault == AtConsume { return Failed; }
      var row := ConsumeInvitation(inv, now);
      if row.None? { return NotAcceptable; }
      if fault == AtCreateUser { state := saved; return Failed; }
      var a := Account(row.value.household, row.value.email, None, true, Some(inv));
      assert CanCreate(state, a) <==> CanCreate(saved, a);
      var created := CreateUser(user, a);
      if !created { state := saved; return EmailTaken; }
      if fault == AtCredential { state := saved; return Failed; }
      state := state.(credentials := state.credentials[user := hash]);
      if fault == AtCommit { state := saved; return Failed; }
      return Accepted;
    }

    // The join's statements, each committed on its own.

    method ValidateInvitation(request: Id, inv: Id, email: string, googleSub: string, now: Time) returns (ok: bool)
      modifies this
      ensures ok <==> Pending(old(state), inv, now) && old(state).invitations[inv].email == email
      ensures state == Step(old(state), Validate(request, inv, email, googleSub), now)
    {
      ok := inv in state.invitations && state.invitations[inv].email == email && !state.invitations[inv].used
        && state.invitations[inv].expires > now;
      if ok { state := state.(joins := state.joins[request := Validated(inv, email, googleSub)]); }
    }

    method CreateJoinedUser(request: Id, user: Id, now: Time) returns (ok: bool)
      requires Inv(state) && request in state.joins && state.joins[request].Validated? && user !in state.accounts
      modifies this
      ensures ok <==> CanCreate(old(state), JoinedAccount(old(state), old(state).joins[request]))
      ensures state == Step(old(state), CreateJoined(request, user), now) && Inv(state)
    {
      ghost var before := state;
      var j := state.joins[request];
      var household := state.invitations[j.invitation].household;
      ok := CreateUser(user, Account(household, j.email, Some(j.googleSub), true, Some(j.invitation)));
      state := state.(joins := if ok then state.joins[request := Created(j.invitation)] else state.joins - {request});
      StepKeeps(before, CreateJoined(request, user), now);
    }

    method MarkInvitationUsed(request: Id, now: Time)
      requires Inv(state) && request in state.joins && state.joins[request].Created?
      modifies this
      ensures state == Step(old(state), MarkUsed(request), now) && Inv(state)
    {
      ghost var before := state;
      var inv := state.joins[request].invitation;
      state := state.(invitations := state.invitations[inv := state.invitations[inv].(used := true)],
        joins := state.joins - {request});
      StepKeeps(before, MarkUsed(request), now);
    }
  }
}
