/** The restore transaction as a whole. */
module Commit {
  import opened Rows
  import opened Backup
  import opened Restore
  import opened Load

  /** The password hash of a caller who signs in without Google, if there is one to carry. */
  function Stashed(db: Tables, caller: Caller): Option<string> {
    var k := Key(LocalCredentials, caller.userId);
    if caller.googleSub.None? && k in db then Some(db[k].code) else None
  }

  function WithCredential(db: Tables, user: Id, hash: Option<string>): Tables {
    var k := Key(LocalCredentials, user);
    if hash.None? then db
    else if k in db then db[k := db[k].(code := hash.value)]
    else db[k := BlankRow(user).(parent := Some(user), code := hash.value)]
  }

  lemma CredentialsHoldNoSlot(r: Row)
    ensures Slots(LocalCredentials, r) == {}
  {
  }

  lemma CredentialKeepsUnique(db: Tables, user: Id, hash: Option<string>)
    requires UniqueOk(db)
    ensures UniqueOk(WithCredential(db, user, hash))
  {
    hide Slots;
    var next := WithCredential(db, user, hash);
    forall k, l | k in next && l in next && k.table == l.table && k != l
      ensures Slots(k.table, next[k]) !! Slots(l.table, next[l])
    {
      if k.table.LocalCredentials? {
        CredentialsHoldNoSlot(next[k]);
      } else {
        assert k in db && l in db && next[k] == db[k] && next[l] == db[l];
      }
    }
  }

  lemma CredentialKeepsConsistent(db: Tables, user: Id, hash: Option<string>)
    requires Consistent(db) && Key(Users, user) in db
    ensures Consistent(WithCredential(db, user, hash))
  {
    hide UniqueOk;
    CredentialKeepsUnique(db, user, hash);
    var next := WithCredential(db, user, hash);
    forall k, c | k in next ensures Resolves(next, k, c) {
      if k in db { assert Resolves(db, k, c); }
    }
  }

  lemma CallerIsLoaded(db: Tables, d: HouseholdData, caller: Caller)
    requires FirstCaller(d.Section(Users), caller).Some?
    ensures Key(Users, FirstCaller(d.Section(Users), caller).value) in Restored(db, d)
  {
  }

  /** What a caller must bring for the restore to commit. */
  ghost predicate Committable(db: Tables, d: HouseholdData, caller: Caller) {
    && Isolated(db, caller.householdId)
    && Loadable(Survivors(db, caller.householdId), d)
    && FirstCaller(d.Section(Users), caller).Some?
  }

  /** The tables a restore that commits leaves behind. */
  ghost function Committed(db: Tables, d: HouseholdData, caller: Caller): Tables
    requires FirstCaller(d.Section(Users), caller).Some?
  {
    WithCredential(Restored(Survivors(db, caller.householdId), d), FirstCaller(d.Section(Users), caller).value,
      Stashed(db, caller))
  }

  lemma SurvivorsConsistent(db: Tables, hid: Id)
    requires Consistent(db) && Isolated(db, hid)
    ensures Consistent(Survivors(db, hid))
  {
    WipeStaysConsistent(db, hid, WIPE_STATEMENTS);
    EverythingWiped(db, hid);
  }

  /** A user the payload brings has no credential of their own yet. */
  lemma NoCredentialYet(db: Tables, d: HouseholdData, caller: Caller)
    requires Consistent(db) && Committable(db, d, caller)
    ensures var k := Key(LocalCredentials, FirstCaller(d.Section(Users), caller).value);
            k !in Survivors(db, caller.householdId) && k !in Restored(Survivors(db, caller.householdId), d)
  {
    hide Consistent, Survivors, Isolated, FirstCaller, Restored, HouseholdData.Section;
    var db1, user := Survivors(db, caller.householdId), FirstCaller(d.Section(Users), caller).value;
    SurvivorsConsistent(db, caller.householdId);
    CallerInPayload(d, caller);
    RestoredKeys(db1, d, Key(LocalCredentials, user));
    assert Key(Users, user) !in db1;
    if Key(LocalCredentials, user) in db1 { CredentialHasUser(db1, user); }
  }

  lemma RestoredKeys(db: Tables, d: HouseholdData, k: Key)
    ensures k in Restored(db, d) <==> k in db || InPayload(d, k)
  {
  }

  lemma CallerInPayload(d: HouseholdData, caller: Caller)
    requires FirstCaller(d.Section(Users), caller).Some?
    ensures InPayload(d, Key(Users, FirstCaller(d.Section(Users), caller).value))
  {
  }

  lemma CredentialHasUser(db: Tables, user: Id)
    requires Consistent(db) && Key(LocalCredentials, user) in db
    ensures Key(Users, user) in db
  {
    hide UniqueOk;
    assert Resolves(db, Key(LocalCredentials, user), Parent);
  }

  /** A caller without Google keeps their password, under the user they were matched to; a caller
      with Google, or one who had no password, ends without a credential. */
  lemma PasswordCarried(db: Tables, d: HouseholdData, caller: Caller)
    requires Consistent(db) && Committable(db, d, caller)
    ensures var mine := Key(LocalCredentials, caller.userId);
            var restored, after := Key(LocalCredentials, FirstCaller(d.Section(Users), caller).value),
              Committed(db, d, caller);
            if caller.googleSub.None? && mine in db then
              restored in after && after[restored].code == db[mine].code && after[restored].parent == Some(restored.id)
            else restored !in after
  {
    hide Consistent, Survivors, Restored, Committable, FirstCaller;
    NoCredentialYet(db, d, caller);
  }

  /** Besides that credential a restore leaves the surviving rows as they were and the payload's
      rows as the file has them, and nothing else. */
  lemma CommittedMeans(db: Tables, d: HouseholdData, caller: Caller, k: Key)
    requires Consistent(db) && Committable(db, d, caller)
    ensures var after, hid := Committed(db, d, caller), caller.householdId;
            && (k in Survivors(db, hid) ==> k in after && after[k] == db[k])
            && (k == Key(Households, d.household.id) ==> k in after && after[k] == d.household)
            && (forall i :: 0 <= i < |d.Section(k.table)| && d.Section(k.table)[i].id == k.id ==>
                  k in after && after[k] == d.Section(k.table)[i])
            && (k in after && k.table != LocalCredentials && k !in Survivors(db, hid) ==>
                  k == Key(Households, d.household.id)
                  || exists i :: 0 <= i < |d.Section(k.table)| && d.Section(k.table)[i].id == k.id)
  {
    hide Consistent, Survivors, Isolated, FirstCaller, InPayload, PayloadRow;
    NoCredentialYet(db, d, caller);
    SurvivorIs(db, caller.householdId, k);
    PayloadMeans(d, k);
  }

  lemma SurvivorIs(db: Tables, hid: Id, k: Key)
    ensures k in Survivors(db, hid) ==> k in db && Survivors(db, hid)[k] == db[k]
  {
  }

  lemma PayloadMeans(d: HouseholdData, k: Key)
    requires DistinctIds(d.Section(k.table))
    ensures k == Key(Households, d.household.id) ==> InPayload(d, k) && PayloadRow(d, k) == d.household
    ensures forall i :: 0 <= i < |d.Section(k.table)| && d.Section(k.table)[i].id == k.id ==>
            InPayload(d, k) && PayloadRow(d, k) == d.Section(k.table)[i]
    ensures InPayload(d, k) ==>
              k.table != LocalCredentials
              && (k == Key(Households, d.household.id)
                  || exists i :: 0 <= i < |d.Section(k.table)| && d.Section(k.table)[i].id == k.id)
  {
    forall i | 0 <= i < |d.Section(k.table)| && d.Section(k.table)[i].id == k.id
      ensures InPayload(d, k) && PayloadRow(d, k) == d.Section(k.table)[i]
    {
      assert k.id in Ids(d.Section(k.table)) && DistinctIds(d.Section(k.table));
    }
  }

  class Database {
    var tables: Tables

    constructor ()
      ensures tables == map[]
    {
      tables := map[];
    }

    method Execute(s: Statement, hid: Id) returns (ok: bool)
      modifies this
      ensures ok <==> Exec(old(tables), s, hid).Some?
      ensures tables == if ok then Exec(old(tables), s, hid).value else old(tables)
    {
      var next := Exec(tables, s, hid);
      ok := next.Some?;
      if ok { tables := next.value; }
    }

    method WipeHousehold(hid: Id) returns (ok: bool)
      modifies this
      ensures ok <==> RunWipe(old(tables), hid, WIPE_STATEMENTS).Some?
      ensures ok ==> tables == RunWipe(old(tables), hid, WIPE_STATEMENTS).value
    {
      hide Exec, WipeStatement;
      ghost var db := tables;
      var n := 0;
      while n < WIPE_STATEMENTS
        invariant n <= WIPE_STATEMENTS && RunWipe(db, hid, n) == Some(tables)
      {
        ok := Execute(WipeStatement(n), hid);
        if !ok {
          StaysFailed(db, hid, n + 1, WIPE_STATEMENTS);
          return;
        }
        n := n + 1;
      }
      ok := true;
    }

    method LoadHousehold(d: HouseholdData) returns (ok: bool)
      modifies this
      ensures ok <==> RunLoad(old(tables), d, LOAD_STATEMENTS).Some?
      ensures ok ==> tables == RunLoad(old(tables), d, LOAD_STATEMENTS).value
    {
      hide Exec, LoadStatement;
      ghost var db := tables;
      var n := 0;
      while n < LOAD_STATEMENTS
        invariant n <= LOAD_STATEMENTS && RunLoad(db, d, n) == Some(tables)
      {
        ok := Execute(LoadStatement(d, n), 0);
        if !ok {
          LoadStaysFailed(db, d, n + 1, LOAD_STATEMENTS);
          return;
        }
        n := n + 1;
      }
      ok := true;
    }

    method UpsertLocalCredential(user: Id, hash: string)
      modifies this
      ensures tables == WithCredential(old(tables), user, Some(hash))
    {
      var k := Key(LocalCredentials, user);
      if k in tables {
        tables := tables[k := tables[k].(code := hash)];
      } else {
        tables := tables[k := BlankRow(user).(parent := Some(user), code := hash)];
      }
    }

    /** All or nothing: the restore commits if and only if nothing outside the household points
        into it, the payload fits beside everyone else's rows, and the caller is one of its
        users; any failure leaves the tables as they were. */
    method CommitRestore(d: HouseholdData, caller: Caller) returns (restored: Option<Id>)
      requires Consistent(tables)
      modifies this
      ensures restored.Some? <==> Committable(old(tables), d, caller)
      ensures restored.None? ==> tables == old(tables)
      ensures restored.Some? ==> restored == FirstCaller(d.Section(Users), caller)
                                 && tables == Committed(old(tables), d, caller) && Consistent(tables)
      ensures restored.Some? && caller.googleSub.None? && Key(LocalCredentials, caller.userId) in old(tables) ==>
                Key(LocalCredentials, restored.value) in tables
                && tables[Key(LocalCredentials, restored.value)].code
                   == old(tables)[Key(LocalCredentials, caller.userId)].code
      ensures restored.Some? && (caller.googleSub.Some? || Key(LocalCredentials, caller.userId) !in old(tables)) ==>
                Key(LocalCredentials, restored.value) !in tables
    {
      var saved := tables;
      var stashed := Stashed(tables, caller);
      WipeOutcome(saved, caller.householdId);
      var wiped := WipeHousehold(caller.householdId);
      if !wiped {
        tables := saved;
        return None;
      }
      SurvivorsConsistent(saved, caller.householdId);
      LoadOutcome(tables, d);
      var loaded := LoadHousehold(d);
      if !loaded {
        tables := saved;
        return None;
      }
      restored := MatchCaller(d.Section(Users), caller);
      if restored.None? {
        tables := saved;
        return None;
      }
      CallerIsLoaded(Survivors(saved, caller.householdId), d, caller);
      CredentialKeepsConsistent(tables, restored.value, stashed);
      PasswordCarried(saved, d, caller);
      if stashed.Some? {
        UpsertLocalCredential(restored.value, stashed.value);
      }
    }

    /** Erasure is the wipe with nothing loaded after it. */
    method EraseHousehold(hid: Id) returns (ok: bool)
      requires Consistent(tables)
      modifies this
      ensures ok <==> Isolated(old(tables), hid)
      ensures tables == if ok then Survivors(old(tables), hid) else old(tables)
    {
      var saved := tables;
      WipeOutcome(saved, hid);
      ok := WipeHousehold(hid);
      if !ok { tables := saved; }
    }
  }

  lemma {:induction false} StaysFailed(db: Tables, hid: Id, at: nat, n: nat)
    requires at <= n && RunWipe(db, hid, at).None?
    ensures RunWipe(db, hid, n).None?
  {
    hide Exec, WipeStatement;
    if at == n {
    } else {
      StaysFailed(db, hid, at, n - 1);
    }
  }

  lemma {:induction false} LoadStaysFailed(db: Tables, d: HouseholdData, at: nat, n: nat)
    requires at <= n && RunLoad(db, d, at).None?
    ensures RunLoad(db, d, n).None?
  {
    hide Exec, LoadStatement;
    if at == n {
    } else {
      LoadStaysFailed(db, d, at, n - 1);
    }
  }
}
