/** The destructive restore: wipe the caller's household and load the backup, statement by
    statement, in one transaction. */
module Restore {
  import opened Rows
  import opened Backup

  datatype Key = Key(table: Table, id: Id)

  type Tables = map<Key, Row>

  // ----- Constraints the database checks at the end of each statement ------------

  predicate Resolves(db: Tables, k: Key, c: Column)
    requires k in db
  {
    References(k.table, c).Some? && db[k].Ref(c).Some? ==> Key(References(k.table, c).value, db[k].Ref(c).value) in db
  }

  predicate FkOk(db: Tables) {
    forall k, c :: k in db ==> Resolves(db, k, c)
  }

  /** An entry of a unique index. */
  datatype Slot = MonthSlot(owner: Option<Id>, month: int, text: string) | TextSlot(owner: Option<Id>, text: string)
                | EmailSlot(text: string) | SubSlot(text: string)

  /** The unique-index entries a row occupies; soft-deleted rows leave the partial indexes. */
  function Slots(t: Table, r: Row): set<Slot> {
    if t.MonthlyReports? then {MonthSlot(r.household, r.month, "")}
    else if t.HouseholdInvitations? then {TextSlot(None, r.code)}
    else if r.deleted.Some? then {}
    else if IsSnapshot(t) then {MonthSlot(r.parent, r.month, "")}
    else if t.FxRates? then {MonthSlot(r.household, r.month, r.code)}
    else if t.InflationRates? then {MonthSlot(r.household, r.month, "")}
    else if t.Tags? then {TextSlot(r.household, r.code)}
    else if t.Users? then {EmailSlot(r.email)} + (if r.googleSub.Some? then {SubSlot(r.googleSub.value)} else {})
    else {}
  }

  predicate UniqueOk(db: Tables) {
    forall k, l :: k in db && l in db && k.table == l.table && k != l ==> Slots(k.table, db[k]) !! Slots(l.table, db[l])
  }

  /** Two rows of the table have the same entry in one of its unique indexes. */
  predicate SameEntry(t: Table, r: Row, q: Row) {
    match t
    case MonthlyReports => r.household == q.household && r.month == q.month
    case HouseholdInvitations => r.code == q.code
    case _ =>
      && r.deleted.None? && q.deleted.None?
      && (match t
          case AssetSnapshots | LiabilitySnapshots | ReceivableSnapshots | InvestmentSnapshots =>
            r.parent == q.parent && r.month == q.month
          case FxRates => r.household == q.household && r.month == q.month && r.code == q.code
          case InflationRates => r.household == q.household && r.month == q.month
          case Tags => r.household == q.household && r.code == q.code
          case Users => r.email == q.email || (r.googleSub.Some? && r.googleSub == q.googleSub)
          case _ => false)
  }

  lemma SlotsAreEntries(t: Table, r: Row, q: Row)
    ensures Slots(t, r) !! Slots(t, q) <==> !SameEntry(t, r, q)
  {
    if t.Users? && r.deleted.None? && q.deleted.None? {
      assert EmailSlot(r.email) in Slots(t, r) && EmailSlot(q.email) in Slots(t, q);
      if r.googleSub.Some? { assert SubSlot(r.googleSub.value) in Slots(t, r); }
      if q.googleSub.Some? { assert SubSlot(q.googleSub.value) in Slots(t, q); }
    } else if !SameEntry(t, r, q) {
      assert Slots(t, r) * Slots(t, q) == {};
    } else {
      assert Slots(t, r) == Slots(t, q) && exists x :: x in Slots(t, r);
    }
  }

  /** The unique indexes: no two rows of a table have the same entry. */
  lemma UniqueIndexes(db: Tables)
    ensures UniqueOk(db)
            <==> forall k, l :: k in db && l in db && k.table == l.table && k != l ==> !SameEntry(k.table, db[k], db[l])
  {
    hide Slots, SameEntry;
    forall k, l | k in db && l in db && k.table == l.table
      ensures Slots(k.table, db[k]) !! Slots(l.table, db[l]) <==> !SameEntry(k.table, db[k], db[l])
    {
      SlotsAreEntries(k.table, db[k], db[l]);
    }
  }

  /** Primary keys (a credential's is its user, a detail row's its position) and the NOT NULL
      scoping columns. */
  predicate NotNullOk(db: Tables) {
    forall k :: k in db ==>
      && db[k].id == k.id
      && (HouseholdScoped(k.table) ==> db[k].household.Some?)
      && (ParentTable(k.table).Some? ==> db[k].parent.Some?)
      && (k.table.LocalCredentials? || IsDetail(k.table) ==> db[k].parent == Some(k.id))
  }

  /** The columns that are never NULL. */
  lemma RequiredColumns(db: Tables, k: Key)
    requires NotNullOk(db) && k in db
    ensures k.table in OURS + {InflationRates, MonthlyReports, HouseholdInvitations} ==> db[k].household.Some?
    ensures k.table in OF_ASSETS + OF_INVESTMENTS + {LiabilitySnapshots, ReceivableSnapshots} ==> db[k].parent.Some?
    ensures k.table in {Sessions, LocalCredentials, PasswordResetTokens} ==> db[k].parent.Some?
    ensures IsDetail(k.table) || k.table.LocalCredentials? ==> db[k].parent == Some(k.id)
    ensures db[k].id == k.id
  {
  }

  predicate Consistent(db: Tables) {
    FkOk(db) && UniqueOk(db) && NotNullOk(db)
  }

  /** The scope of the wipe and export statements: the household itself, its household_id rows,
      and rows whose parent is one of those. */
  predicate OwnedBy(db: Tables, k: Key, hid: Id)
    requires k in db
  {
    if k.table.Households? then k.id == hid
    else if HouseholdScoped(k.table) then db[k].household == Some(hid)
    else
      && ParentTable(k.table).Some? && db[k].parent.Some?
      && var p := Key(ParentTable(k.table).value, db[k].parent.value); p in db && db[p].household == Some(hid)
  }

  // ----- Statements -------------------------------------------------------------

  datatype Statement =
    | Delete(table: Table)
    | ClearHouseholdAudit
    | InsertHousehold(row: Row)
    | InsertSection(table: Table, rows: seq<Row>)
    | BackfillHouseholdAudit(row: Row)

  /** local_credentials and password_reset_tokens go with their user (ON DELETE CASCADE). */
  predicate DeletedWith(t: Table, u: Table) {
    u == t || (t.Users? && (u.LocalCredentials? || u.PasswordResetTokens?))
  }

  predicate DistinctIds(rows: seq<Row>) {
    forall i, j :: 0 <= i < |rows| && 0 <= j < |rows| && rows[i].id == rows[j].id ==> i == j
  }

  function SectionKeys(t: Table, rows: seq<Row>): set<Key> {
    set i | 0 <= i < |rows| :: Key(t, rows[i].id)
  }

  function Find(rows: seq<Row>, id: Id): (r: Row)
    requires id in Ids(rows)
    ensures exists i :: 0 <= i < |rows| && rows[i] == r && r.id == id
  {
    if rows[0].id == id then rows[0]
    else
      assert id in Ids(rows[1..]) by {
        var i :| 0 <= i < |rows| && rows[i].id == id;
        assert rows[1..][i - 1] == rows[i];
      }
      Find(rows[1..], id)
  }

  function WithoutAudit(r: Row): Row {
    r.(createdBy := None, updatedBy := None)
  }

  function Inserted(db: Tables, t: Table, rows: seq<Row>): Tables {
    map k | k in db.Keys + SectionKeys(t, rows) :: if k in db then db[k] else Find(rows, k.id)
  }

  /** The tables after the statement, None on a primary-key violation. */
  function Effect(db: Tables, s: Statement, hid: Id): Option<Tables> {
    match s
    case Delete(t) => Some(map k | k in db && !(DeletedWith(t, k.table) && OwnedBy(db, k, hid)) :: db[k])
    case ClearHouseholdAudit =>
      var h := Key(Households, hid);
      Some(if h in db then db[h := WithoutAudit(db[h])] else db)
    case InsertHousehold(row) =>
      var h := Key(Households, row.id);
      if h in db then None else Some(db[h := WithoutAudit(row)])
    case InsertSection(t, rows) =>
      if !DistinctIds(rows) || SectionKeys(t, rows) * db.Keys != {} then None
      else Some(Inserted(db, t, rows))
    case BackfillHouseholdAudit(row) =>
      var h := Key(Households, row.id);
      Some(if h in db then db[h := db[h].(createdBy := row.createdBy, updatedBy := row.updatedBy)] else db)
  }

  /** None is an error, which rolls the transaction back. */
  function Exec(db: Tables, s: Statement, hid: Id): Option<Tables> {
    match Effect(db, s, hid)
    case None => None
    case Some(next) => if Consistent(next) then Some(next) else None
  }

  /** A statement after one that failed is not run. */
  function ExecNext(cur: Option<Tables>, s: Statement, hid: Id): Option<Tables> {
    if cur.None? then None else Exec(cur.value, s, hid)
  }

  // ----- Any list of statements -------------------------------------------------

  ghost predicate AllOk(ok: nat -> bool, n: nat) {
    forall m: nat :: m < n ==> ok(m)
  }

  ghost predicate FollowsStep<T(!new)>(run: nat -> Option<T>, plan: nat -> T, ok: nat -> bool, n: nat) {
    && (run(n).None? ==> run(n + 1).None?)
    && (run(n) == Some(plan(n)) && AllOk(ok, n) ==> run(n + 1) == if ok(n) then Some(plan(n + 1)) else None)
  }

  /** `run(n)` is the outcome of the first n statements; while every check has passed, statement n
      takes the planned state n to the planned state n + 1, and passes its checks iff ok(n). */
  ghost predicate FollowsPlan<T(!new)>(run: nat -> Option<T>, plan: nat -> T, ok: nat -> bool, len: nat) {
    run(0) == Some(plan(0)) && forall n: nat :: n < len ==> FollowsStep(run, plan, ok, n)
  }

  /** A transaction ends in its planned state if every check passes, and otherwise fails. */
  lemma {:induction false} TransactionOutcome<T(!new)>(run: nat -> Option<T>, plan: nat -> T, ok: nat -> bool, len: nat,
          n: nat)
    requires FollowsPlan(run, plan, ok, len) && n <= len
    ensures run(n) == if AllOk(ok, n) then Some(plan(n)) else None
  {
    if n == 0 {
    } else {
      TransactionOutcome(run, plan, ok, len, n - 1);
      assert FollowsStep(run, plan, ok, n - 1);
      assert AllOk(ok, n) <==> AllOk(ok, n - 1) && ok(n - 1);
    }
  }

  // ----- The wipe ---------------------------------------------------------------

  const WIPE_STATEMENTS := 27

  function WipeStatement(i: nat): Statement {
    match i
    case 0 => Delete(AssetSnapshots) case 1 => Delete(LiabilitySnapshots)
    case 2 => Delete(ReceivableSnapshots) case 3 => Delete(InvestmentSnapshots)
    case 4 => Delete(InvestmentTransactions)
    case 5 => Delete(BankAccountDetails) case 6 => Delete(PropertyDetails) case 7 => Delete(VehicleDetails)
    case 8 => Delete(StockDetails) case 9 => Delete(MutualFundDetails) case 10 => Delete(BondDetails)
    case 11 => Delete(GoldDetails) case 12 => Delete(TimeDepositDetails)
    case 13 => Delete(MonthlyReports) case 14 => Delete(HouseholdInvitations)
    case 15 => Delete(Income) case 16 => Delete(FxRates) case 17 => Delete(InflationRates)
    case 18 => Delete(Assets) case 19 => Delete(Investments)
    case 20 => Delete(Liabilities) case 21 => Delete(Receivables)
    case 22 => Delete(Tags)
    case 23 => ClearHouseholdAudit
    case 24 => Delete(Sessions) case 25 => Delete(Users)
    case _ => Delete(Households)
  }

  const AUDIT_STEP := 23

  /** The statement that deletes the table's rows. */
  function WipeRank(t: Table): nat {
    match t
    case AssetSnapshots => 0 case LiabilitySnapshots => 1 case ReceivableSnapshots => 2 case InvestmentSnapshots => 3
    case InvestmentTransactions => 4
    case BankAccountDetails => 5 case PropertyDetails => 6 case VehicleDetails => 7 case StockDetails => 8
    case MutualFundDetails => 9 case BondDetails => 10 case GoldDetails => 11 case TimeDepositDetails => 12
    case MonthlyReports => 13 case HouseholdInvitations => 14
    case Income => 15 case FxRates => 16 case InflationRates => 17
    case Assets => 18 case Investments => 19 case Liabilities => 20 case Receivables => 21
    case Tags => 22
    case Sessions => 24
    case Users | LocalCredentials | PasswordResetTokens => 25
    case Households => 26
  }

  lemma WipeRankIsStatement(t: Table, i: nat)
    requires i < WIPE_STATEMENTS
    ensures WipeRank(t) < WIPE_STATEMENTS && WipeRank(t) != AUDIT_STEP
    ensures (WipeStatement(i).Delete? && DeletedWith(WipeStatement(i).table, t)) <==> WipeRank(t) == i
    ensures WipeStatement(i).ClearHouseholdAudit? <==> i == AUDIT_STEP
    ensures WipeStatement(i).Delete? || WipeStatement(i).ClearHouseholdAudit?
  {
  }

  /** Every child is deleted no later than the table it references, strictly before its parent;
      the one exception is the household's audit columns, cleared before users go. */
  lemma ChildrenFirst(t: Table, c: Column)
    requires References(t, c).Some?
    ensures WipeRank(t) <= WipeRank(References(t, c).value)
            || (t.Households? && (c.CreatedBy? || c.UpdatedBy?) && AUDIT_STEP < WipeRank(References(t, c).value))
    ensures c.Parent? && !DeletedWith(References(t, c).value, t) ==> WipeRank(t) < WipeRank(References(t, c).value)
  {
  }

  function RunWipe(db: Tables, hid: Id, n: nat): Option<Tables> {
    if n == 0 then Some(db) else ExecNext(RunWipe(db, hid, n - 1), WipeStatement(n - 1), hid)
  }

  /** No row outside the household references a row inside it. */
  ghost predicate Isolated(db: Tables, hid: Id) {
    forall k, c :: k in db && RefersInto(db, k, c, hid) ==> OwnedBy(db, k, hid)
  }

  predicate RefersInto(db: Tables, k: Key, c: Column, hid: Id)
    requires k in db
  {
    && References(k.table, c).Some? && db[k].Ref(c).Some?
    && var t := Key(References(k.table, c).value, db[k].Ref(c).value); t in db && OwnedBy(db, t, hid)
  }

  /** The tables after the first n wipe statements, when none of them fails. */
  ghost function AfterWipe(db: Tables, hid: Id, n: nat): Tables {
    map k | k in db && !(OwnedBy(db, k, hid) && WipeRank(k.table) < n) ::
      if k == Key(Households, hid) && AUDIT_STEP < n then WithoutAudit(db[k]) else db[k]
  }

  ghost function Survivors(db: Tables, hid: Id): Tables {
    map k | k in db && !OwnedBy(db, k, hid) :: db[k]
  }

  /** Which rows survive the wipe: other households, the rows that carry another household's id,
      and the rows whose position or user does. */
  lemma SurvivorsMean(db: Tables, hid: Id, k: Key)
    requires Consistent(db) && k in db
    ensures k in Survivors(db, hid) ==> Survivors(db, hid)[k] == db[k]
    ensures k.table.Households? ==> (k in Survivors(db, hid) <==> k.id != hid)
    ensures k.table in {Users, Tags, Assets, Investments, Liabilities, Receivables, Income, FxRates, InflationRates,
                        MonthlyReports, HouseholdInvitations} ==>
              (k in Survivors(db, hid) <==> db[k].household != Some(hid))
    ensures k.table in OF_ASSETS ==> SurvivesWith(db, hid, k, Assets)
    ensures k.table in OF_INVESTMENTS ==> SurvivesWith(db, hid, k, Investments)
    ensures k.table.LiabilitySnapshots? ==> SurvivesWith(db, hid, k, Liabilities)
    ensures k.table.ReceivableSnapshots? ==> SurvivesWith(db, hid, k, Receivables)
    ensures k.table in {Sessions, LocalCredentials, PasswordResetTokens} ==> SurvivesWith(db, hid, k, Users)
  {
    hide UniqueOk, Slots;
    if ParentTable(k.table).Some? { ParentOf(db, k); }
  }

  lemma ParentOf(db: Tables, k: Key)
    requires Consistent(db) && k in db && ParentTable(k.table).Some?
    ensures db[k].parent.Some? && Key(ParentTable(k.table).value, db[k].parent.value) in db
  {
    hide UniqueOk;
    assert Resolves(db, k, Parent);
  }

  /** The row survives exactly if the row its parent column names carries another household's id. */
  ghost predicate SurvivesWith(db: Tables, hid: Id, k: Key, parents: Table)
    requires k in db
  {
    && db[k].parent.Some? && Key(parents, db[k].parent.value) in db
    && (k in Survivors(db, hid) <==> db[Key(parents, db[k].parent.value)].household != Some(hid))
  }

  lemma OwnershipDuringWipe(db: Tables, hid: Id, n: nat, k: Key)
    requires Consistent(db) && n < WIPE_STATEMENTS && k in db && WipeRank(k.table) == n
    ensures k in AfterWipe(db, hid, n) && (OwnedBy(AfterWipe(db, hid, n), k, hid) <==> OwnedBy(db, k, hid))
  {
    if ParentTable(k.table).Some? {
      ChildrenFirst(k.table, Parent);
      assert Resolves(db, k, Parent);
    }
  }

  lemma WipeEffect(db: Tables, hid: Id, n: nat)
    requires Consistent(db) && n < WIPE_STATEMENTS
    ensures Effect(AfterWipe(db, hid, n), WipeStatement(n), hid) == Some(AfterWipe(db, hid, n + 1))
  {
    hide Consistent, OwnedBy, WipeRank, WipeStatement;
    var cur, next := AfterWipe(db, hid, n), AfterWipe(db, hid, n + 1);
    WipeRankIsStatement(Households, n);
    var result := Effect(cur, WipeStatement(n), hid).value;
    forall k ensures k in result <==> k in next
             ensures k in next ==> result[k] == next[k]
    {
      WipeRankIsStatement(k.table, n);
      if k in db && WipeRank(k.table) == n { OwnershipDuringWipe(db, hid, n, k); }
    }
    assert result == next;
  }

  lemma AuditHoldsNoSlot(t: Table, r: Row)
    ensures Slots(t, WithoutAudit(r)) == Slots(t, r)
  {
  }

  /** Dropping rows and NULLing audit columns cannot break a unique index. */
  lemma FewerRowsUnique(db: Tables, cur: Tables)
    requires UniqueOk(db) && NotNullOk(db)
    requires forall k :: k in cur ==> k in db && (cur[k] == db[k] || cur[k] == WithoutAudit(db[k]))
    ensures UniqueOk(cur) && NotNullOk(cur)
  {
    forall k, l | k in cur && l in cur && k.table == l.table && k != l
      ensures Slots(k.table, cur[k]) !! Slots(l.table, cur[l])
    {
      AuditHoldsNoSlot(k.table, db[k]);
      AuditHoldsNoSlot(l.table, db[l]);
      assert Slots(k.table, db[k]) !! Slots(l.table, db[l]);
    }
  }

  lemma ResolvesDuringWipe(db: Tables, hid: Id, n: nat, k: Key, c: Column)
    requires FkOk(db) && Isolated(db, hid) && k in AfterWipe(db, hid, n)
    ensures Resolves(AfterWipe(db, hid, n), k, c)
  {
    var cur := AfterWipe(db, hid, n);
    if References(k.table, c).Some? && cur[k].Ref(c).Some? {
      ChildrenFirst(k.table, c);
      assert Resolves(db, k, c);
      assert RefersInto(db, k, c, hid) ==> OwnedBy(db, k, hid);
    }
  }

  lemma WipeStaysConsistent(db: Tables, hid: Id, n: nat)
    requires Consistent(db) && Isolated(db, hid)
    ensures Consistent(AfterWipe(db, hid, n))
  {
    forall k, c | k in AfterWipe(db, hid, n) ensures Resolves(AfterWipe(db, hid, n), k, c) {
      ResolvesDuringWipe(db, hid, n, k, c);
    }
    FewerRowsUnique(db, AfterWipe(db, hid, n));
  }

  lemma StrangerBlocksWipe(db: Tables, hid: Id, k: Key, c: Column)
    requires Consistent(db) && k in db && RefersInto(db, k, c, hid) && !OwnedBy(db, k, hid)
    ensures var n := WipeRank(References(k.table, c).value) + 1;
            n <= WIPE_STATEMENTS && !Consistent(AfterWipe(db, hid, n))
  {
    WipeRankIsStatement(References(k.table, c).value, 0);
    var n := WipeRank(References(k.table, c).value) + 1;
    assert k in AfterWipe(db, hid, n) && !Resolves(AfterWipe(db, hid, n), k, c);
  }

  lemma WipeStep(db: Tables, hid: Id, n: nat)
    requires Consistent(db) && n < WIPE_STATEMENTS
    ensures RunWipe(db, hid, n).None? ==> RunWipe(db, hid, n + 1).None?
    ensures RunWipe(db, hid, n) == Some(AfterWipe(db, hid, n)) ==>
              RunWipe(db, hid, n + 1)
              == if Consistent(AfterWipe(db, hid, n + 1)) then Some(AfterWipe(db, hid, n + 1)) else None
  {
    WipeEffect(db, hid, n);
  }

  lemma NothingWiped(db: Tables, hid: Id)
    ensures AfterWipe(db, hid, 0) == db
  {
  }

  lemma EverythingWiped(db: Tables, hid: Id)
    ensures AfterWipe(db, hid, WIPE_STATEMENTS) == Survivors(db, hid)
  {
    forall k | k in db ensures WipeRank(k.table) < WIPE_STATEMENTS { WipeRankIsStatement(k.table, 0); }
  }

  ghost function WipeRuns(db: Tables, hid: Id): nat -> Option<Tables> { (n: nat) => RunWipe(db, hid, n) }

  ghost function WipePlan(db: Tables, hid: Id): nat -> Tables { (n: nat) => AfterWipe(db, hid, n) }

  ghost function WipeChecks(db: Tables, hid: Id): nat -> bool { (n: nat) => Consistent(AfterWipe(db, hid, n + 1)) }

  lemma WipeFollowsStep(db: Tables, hid: Id, n: nat)
    requires Consistent(db) && n < WIPE_STATEMENTS
    ensures FollowsStep(WipeRuns(db, hid), WipePlan(db, hid), WipeChecks(db, hid), n)
  {
    hide Consistent, RunWipe, AfterWipe;
    WipeStep(db, hid, n);
  }

  lemma WipeFollowsPlan(db: Tables, hid: Id)
    requires Consistent(db)
    ensures FollowsPlan(WipeRuns(db, hid), WipePlan(db, hid), WipeChecks(db, hid), WIPE_STATEMENTS)
  {
    hide Consistent, AfterWipe;
    NothingWiped(db, hid);
    forall n: nat | n < WIPE_STATEMENTS
      ensures FollowsStep(WipeRuns(db, hid), WipePlan(db, hid), WipeChecks(db, hid), n)
    {
      WipeFollowsStep(db, hid, n);
    }
  }

  lemma WipeChecksOk(db: Tables, hid: Id)
    requires Consistent(db)
    ensures AllOk(WipeChecks(db, hid), WIPE_STATEMENTS) <==> Isolated(db, hid)
  {
    hide Consistent, AfterWipe;
    if Isolated(db, hid) {
      forall m: nat | m < WIPE_STATEMENTS ensures WipeChecks(db, hid)(m) { WipeStaysConsistent(db, hid, m + 1); }
    } else {
      var k, c :| k in db && RefersInto(db, k, c, hid) && !OwnedBy(db, k, hid);
      StrangerBlocksWipe(db, hid, k, c);
      assert !WipeChecks(db, hid)(WipeRank(References(k.table, c).value));
    }
  }

  /** The 27 statements all succeed if and only if no outside row references the household, and
      then leave exactly the rows the household does not own, unchanged. */
  lemma WipeOutcome(db: Tables, hid: Id)
    requires Consistent(db)
    ensures RunWipe(db, hid, WIPE_STATEMENTS) == if Isolated(db, hid) then Some(Survivors(db, hid)) else None
  {
    WipeFollowsPlan(db, hid);
    TransactionOutcome(WipeRuns(db, hid), WipePlan(db, hid), WipeChecks(db, hid), WIPE_STATEMENTS, WIPE_STATEMENTS);
    WipeChecksOk(db, hid);
    EverythingWiped(db, hid);
    assert WipeRuns(db, hid)(WIPE_STATEMENTS) == RunWipe(db, hid, WIPE_STATEMENTS);
  }
}
