/** The load half of a restore: 24 statements, parents before children. */
module Load {
  import opened Rows
  import opened Backup
  import opened Restore

  const LOAD_STATEMENTS := 24

  function LoadTable(i: nat): Table {
    match i
    case 3 => Tags case 4 => Assets case 5 => Investments case 6 => Liabilities case 7 => Receivables
    case 8 => BankAccountDetails case 9 => PropertyDetails case 10 => VehicleDetails case 11 => StockDetails
    case 12 => MutualFundDetails case 13 => BondDetails case 14 => GoldDetails case 15 => TimeDepositDetails
    case 16 => AssetSnapshots case 17 => LiabilitySnapshots
    case 18 => ReceivableSnapshots case 19 => InvestmentSnapshots
    case 20 => InvestmentTransactions case 21 => Income case 22 => FxRates
    case _ => InflationRates
  }

  const BACKFILL_STEP := 2

  function LoadStatement(d: HouseholdData, i: nat): Statement {
    if i == 0 then InsertHousehold(d.household)
    else if i == 1 then InsertSection(Users, d.Section(Users))
    else if i == BACKFILL_STEP then BackfillHouseholdAudit(d.household)
    else InsertSection(LoadTable(i), d.Section(LoadTable(i)))
  }

  /** The statement that inserts the table's rows. */
  function LoadRank(t: Table): nat {
    match t
    case Households => 0 case Users => 1
    case Tags => 3 case Assets => 4 case Investments => 5 case Liabilities => 6 case Receivables => 7
    case BankAccountDetails => 8 case PropertyDetails => 9 case VehicleDetails => 10 case StockDetails => 11
    case MutualFundDetails => 12 case BondDetails => 13 case GoldDetails => 14 case TimeDepositDetails => 15
    case AssetSnapshots => 16 case LiabilitySnapshots => 17
    case ReceivableSnapshots => 18 case InvestmentSnapshots => 19
    case InvestmentTransactions => 20 case Income => 21 case FxRates => 22 case InflationRates => 23
    case _ => LOAD_STATEMENTS
  }

  lemma LoadRankInverts(t: Table)
    ensures BackedUp(t) && !t.Users? <==> 3 <= LoadRank(t) < LOAD_STATEMENTS
    ensures BackedUp(t) && !t.Users? ==> LoadTable(LoadRank(t)) == t
  {
  }

  /** Every reference is to a table loaded no later, except the household's audit columns, which
      are filled in right after the users. */
  lemma ParentsFirst(t: Table, c: Column)
    requires References(t, c).Some? && (BackedUp(t) || t.Households?)
    ensures BackedUp(References(t, c).value) || References(t, c).value.Households?
    ensures LoadRank(References(t, c).value) <= LoadRank(t)
            || (t.Households? && (c.CreatedBy? || c.UpdatedBy?) && LoadRank(References(t, c).value) < BACKFILL_STEP)
  {
  }

  // ----- The payload as tables --------------------------------------------------

  predicate InPayload(d: HouseholdData, k: Key) {
    (k.table.Households? && k.id == d.household.id) || (BackedUp(k.table) && k.id in Ids(d.Section(k.table)))
  }

  function PayloadRow(d: HouseholdData, k: Key): Row
    requires InPayload(d, k)
  {
    if k.table.Households? then d.household else Find(d.Section(k.table), k.id)
  }

  ghost function PayloadKeys(d: HouseholdData): (s: set<Key>)
    ensures forall k :: k in s <==> InPayload(d, k)
  {
    var all := {Key(Households, d.household.id)}
               + set t: Table, i | 0 <= i < |d.Section(t)| :: Key(t, d.Section(t)[i].id);
    set k | k in all && InPayload(d, k)
  }

  /** The tables once the payload of the tables in `done` is in, with the household's audit
      columns filled in or still NULL. */
  ghost function Loaded(db: Tables, d: HouseholdData, done: set<Table>, audited: bool): Tables {
    map k | k in db.Keys + PayloadKeys(d) && (k in db || k.table in done) ::
      if k in db then db[k]
      else if k.table.Households? && !audited then WithoutAudit(PayloadRow(d, k))
      else PayloadRow(d, k)
  }

  ghost function Done(n: nat): set<Table> {
    set t: Table | LoadRank(t) < n
  }

  /** The tables after the first n load statements, when none of them fails. */
  ghost function AfterLoad(db: Tables, d: HouseholdData, n: nat): Tables {
    Loaded(db, d, Done(n), BACKFILL_STEP < n)
  }

  /** The intended result: the remaining tables and the whole payload. */
  ghost function Restored(db: Tables, d: HouseholdData): Tables {
    map k | k in db.Keys + PayloadKeys(d) :: if k in db then db[k] else PayloadRow(d, k)
  }

  /** No primary key of the payload repeats, in its section or in the tables. */
  ghost predicate FreshPayload(db: Tables, d: HouseholdData) {
    && (forall t :: DistinctIds(d.Section(t)))
    && (forall k :: InPayload(d, k) ==> k !in db)
  }

  ghost predicate Loadable(db: Tables, d: HouseholdData) {
    FreshPayload(db, d) && Consistent(Restored(db, d))
  }

  function RunLoad(db: Tables, d: HouseholdData, n: nat): Option<Tables> {
    if n == 0 then Some(db)
    else ExecNext(RunLoad(db, d, n - 1), LoadStatement(d, n - 1), 0)
  }

  // ----- One statement ----------------------------------------------------------

  /** The section's primary keys are new. */
  ghost predicate FreshSection(db: Tables, d: HouseholdData, t: Table) {
    DistinctIds(d.Section(t)) && forall id :: id in Ids(d.Section(t)) ==> Key(t, id) !in db
  }

  ghost predicate FreshAt(db: Tables, d: HouseholdData, n: nat) {
    if n == 0 then Key(Households, d.household.id) !in db
    else if n == 1 then FreshSection(db, d, Users)
    else if n == BACKFILL_STEP then true
    else FreshSection(db, d, LoadTable(n))
  }

  lemma SectionCell(db: Tables, d: HouseholdData, t: Table, done: set<Table>, audited: bool, k: Key)
    requires BackedUp(t) && t !in done && FreshSection(db, d, t)
    ensures var cur, next, added := Loaded(db, d, done, audited), Loaded(db, d, done + {t}, audited),
            SectionKeys(t, d.Section(t));
            && (k in next <==> k in cur || k in added)
            && (k in cur ==> k !in added && next[k] == cur[k])
            && (k in added ==> k.id in Ids(d.Section(t)) && next[k] == Find(d.Section(t), k.id))
  {
    assert k in SectionKeys(t, d.Section(t)) <==> k.table == t && k.id in Ids(d.Section(t));
    assert InPayload(d, k) && k.table == t <==> k in SectionKeys(t, d.Section(t));
  }

  lemma SectionInserted(db: Tables, d: HouseholdData, t: Table, done: set<Table>, audited: bool)
    requires BackedUp(t) && t !in done && FreshSection(db, d, t)
    ensures SectionKeys(t, d.Section(t)) * Loaded(db, d, done, audited).Keys == {}
    ensures Inserted(Loaded(db, d, done, audited), t, d.Section(t)) == Loaded(db, d, done + {t}, audited)
  {
    hide Loaded, Find, SectionKeys, FreshSection, HouseholdData.Section;
    var cur, next, rows := Loaded(db, d, done, audited), Loaded(db, d, done + {t}, audited), d.Section(t);
    var result := Inserted(cur, t, rows);
    forall k ensures k in next <==> k in result
             ensures k in SectionKeys(t, rows) ==> k !in cur
             ensures k in next ==> next[k] == result[k]
    {
      SectionCell(db, d, t, done, audited, k);
    }
    assert result == next;
  }

  lemma SectionEffect(db: Tables, d: HouseholdData, t: Table, done: set<Table>, audited: bool)
    requires BackedUp(t) && t !in done
    ensures Effect(Loaded(db, d, done, audited), InsertSection(t, d.Section(t)), 0)
            == if FreshSection(db, d, t) then Some(Loaded(db, d, done + {t}, audited)) else None
  {
    if FreshSection(db, d, t) {
      SectionInserted(db, d, t, done, audited);
    } else if DistinctIds(d.Section(t)) {
      var id :| id in Ids(d.Section(t)) && Key(t, id) in db;
      assert Key(t, id) in SectionKeys(t, d.Section(t)) * Loaded(db, d, done, audited).Keys;
    }
  }

  lemma BackfillCell(db: Tables, d: HouseholdData, done: set<Table>, k: Key)
    requires k != Key(Households, d.household.id)
    ensures var cur, next := Loaded(db, d, done, false), Loaded(db, d, done, true);
            (k in next <==> k in cur) && (k in cur ==> next[k] == cur[k])
  {
    hide Find, Ids, HouseholdData.Section;
  }

  lemma BackfilledHousehold(db: Tables, d: HouseholdData, done: set<Table>)
    requires Key(Households, d.household.id) !in db && Households in done
    ensures var h, cur, next := Key(Households, d.household.id), Loaded(db, d, done, false), Loaded(db, d, done, true);
            h in cur && cur[h] == WithoutAudit(d.household) && h in next && next[h] == d.household
  {
  }

  lemma BackfillEffect(db: Tables, d: HouseholdData, done: set<Table>)
    requires Key(Households, d.household.id) !in db && Households in done
    ensures Effect(Loaded(db, d, done, false), BackfillHouseholdAudit(d.household), 0)
            == Some(Loaded(db, d, done, true))
  {
    var h, cur, next := Key(Households, d.household.id), Loaded(db, d, done, false), Loaded(db, d, done, true);
    BackfilledHousehold(db, d, done);
    AuditFilledIn(d.household);
    assert next == cur[h := d.household] by {
      forall k | k != h ensures (k in next <==> k in cur) && (k in cur ==> next[k] == cur[k]) {
        BackfillCell(db, d, done, k);
      }
    }
  }

  lemma AuditFilledIn(r: Row)
    ensures WithoutAudit(r).(createdBy := r.createdBy, updatedBy := r.updatedBy) == r
  {
  }

  lemma HouseholdEffect(db: Tables, d: HouseholdData)
    ensures Effect(db, InsertHousehold(d.household), 0)
            == if Key(Households, d.household.id) in db then None else Some(Loaded(db, d, {Households}, false))
  {
    var h := Key(Households, d.household.id);
    assert InPayload(d, h);
    if h !in db { assert Loaded(db, d, {Households}, false) == db[h := WithoutAudit(d.household)]; }
  }

  lemma DoneStep(n: nat)
    requires n < LOAD_STATEMENTS
    ensures Done(0) == {} && Done(1) == {Households} && Done(BACKFILL_STEP) == Done(BACKFILL_STEP + 1)
    ensures n == 1 ==> Done(n + 1) == Done(n) + {Users} && Users !in Done(n)
    ensures n > BACKFILL_STEP ==>
            BackedUp(LoadTable(n)) && Done(n + 1) == Done(n) + {LoadTable(n)} && LoadTable(n) !in Done(n)
  {
  }

  lemma NothingLoaded(db: Tables, d: HouseholdData)
    ensures AfterLoad(db, d, 0) == db
  {
  }

  lemma LoadEffect(db: Tables, d: HouseholdData, n: nat)
    requires n < LOAD_STATEMENTS && (n > 0 ==> Key(Households, d.household.id) !in db)
    ensures Effect(AfterLoad(db, d, n), LoadStatement(d, n), 0)
            == if FreshAt(db, d, n) then Some(AfterLoad(db, d, n + 1)) else None
  {
    DoneStep(n);
    if n == 0 {
      NothingLoaded(db, d);
      HouseholdEffect(db, d);
    } else if n == BACKFILL_STEP {
      BackfillEffect(db, d, Done(n));
    } else if n == 1 {
      SectionEffect(db, d, Users, Done(n), false);
    } else {
      SectionEffect(db, d, LoadTable(n), Done(n), true);
    }
  }

  lemma LoadStep(db: Tables, d: HouseholdData, n: nat)
    requires n < LOAD_STATEMENTS && (n > 0 ==> Key(Households, d.household.id) !in db)
    ensures RunLoad(db, d, n) == Some(AfterLoad(db, d, n)) ==>
              RunLoad(db, d, n + 1)
              == if FreshAt(db, d, n) && Consistent(AfterLoad(db, d, n + 1)) then Some(AfterLoad(db, d, n + 1))
                 else None
  {
    LoadEffect(db, d, n);
  }

  // ----- The whole load ---------------------------------------------------------

  lemma FreshEachStep(db: Tables, d: HouseholdData, n: nat)
    requires FreshPayload(db, d) && n < LOAD_STATEMENTS
    ensures FreshAt(db, d, n)
  {
  }

  lemma ResolvesDuringLoad(db: Tables, d: HouseholdData, n: nat, k: Key, c: Column)
    requires FkOk(db) && FkOk(Restored(db, d)) && FreshPayload(db, d) && k in AfterLoad(db, d, n)
    ensures Resolves(AfterLoad(db, d, n), k, c)
  {
    var cur, all := AfterLoad(db, d, n), Restored(db, d);
    if References(k.table, c).Some? && cur[k].Ref(c).Some? {
      if k in db {
        assert Resolves(db, k, c);
      } else {
        assert Resolves(all, k, c);
        ParentsFirst(k.table, c);
      }
    }
  }

  lemma LoadStaysConsistent(db: Tables, d: HouseholdData, n: nat)
    requires Consistent(db) && Loadable(db, d)
    ensures Consistent(AfterLoad(db, d, n))
  {
    forall k, c | k in AfterLoad(db, d, n) ensures Resolves(AfterLoad(db, d, n), k, c) {
      ResolvesDuringLoad(db, d, n, k, c);
    }
    FewerRowsUnique(Restored(db, d), AfterLoad(db, d, n));
  }

  lemma AllLoaded(db: Tables, d: HouseholdData)
    ensures AfterLoad(db, d, LOAD_STATEMENTS) == Restored(db, d)
  {
    forall k | InPayload(d, k) ensures LoadRank(k.table) < LOAD_STATEMENTS { LoadRankInverts(k.table); }
  }

  lemma StepsMeanFresh(db: Tables, d: HouseholdData)
    requires forall n: nat :: n < LOAD_STATEMENTS ==> FreshAt(db, d, n)
    ensures FreshPayload(db, d)
  {
    assert FreshAt(db, d, 0) && FreshAt(db, d, 1);
    forall t ensures FreshSection(db, d, t) && DistinctIds(d.Section(t)) {
      LoadRankInverts(t);
      if BackedUp(t) && !t.Users? { assert FreshAt(db, d, LoadRank(t)); }
    }
    forall k | InPayload(d, k) ensures k !in db {
      assert FreshSection(db, d, k.table) && Key(k.table, k.id) == k;
    }
  }

  ghost function LoadRuns(db: Tables, d: HouseholdData): nat -> Option<Tables> { (n: nat) => RunLoad(db, d, n) }

  ghost function LoadPlan(db: Tables, d: HouseholdData): nat -> Tables { (n: nat) => AfterLoad(db, d, n) }

  ghost function LoadChecks(db: Tables, d: HouseholdData): nat -> bool {
    (n: nat) => FreshAt(db, d, n) && Consistent(AfterLoad(db, d, n + 1))
  }

  lemma LoadFailsOn(db: Tables, d: HouseholdData, n: nat)
    ensures RunLoad(db, d, n).None? ==> RunLoad(db, d, n + 1).None?
  {
  }

  lemma LoadFollowsStep(db: Tables, d: HouseholdData, n: nat)
    requires n < LOAD_STATEMENTS
    ensures FollowsStep(LoadRuns(db, d), LoadPlan(db, d), LoadChecks(db, d), n)
  {
    hide Consistent, RunLoad, AfterLoad;
    LoadFailsOn(db, d, n);
    if AllOk(LoadChecks(db, d), n) {
      if n > 0 { assert LoadChecks(db, d)(0); }
      LoadStep(db, d, n);
    }
  }

  lemma LoadFollowsPlan(db: Tables, d: HouseholdData)
    ensures FollowsPlan(LoadRuns(db, d), LoadPlan(db, d), LoadChecks(db, d), LOAD_STATEMENTS)
  {
    NothingLoaded(db, d);
    forall n: nat | n < LOAD_STATEMENTS ensures FollowsStep(LoadRuns(db, d), LoadPlan(db, d), LoadChecks(db, d), n) {
      LoadFollowsStep(db, d, n);
    }
  }

  lemma LoadChecksOk(db: Tables, d: HouseholdData)
    requires Consistent(db)
    ensures AllOk(LoadChecks(db, d), LOAD_STATEMENTS) <==> Loadable(db, d)
  {
    hide Consistent, AfterLoad, FreshAt, FreshPayload, Restored;
    if Loadable(db, d) {
      forall m: nat | m < LOAD_STATEMENTS ensures LoadChecks(db, d)(m) {
        FreshEachStep(db, d, m);
        LoadStaysConsistent(db, d, m + 1);
      }
    }
    if AllOk(LoadChecks(db, d), LOAD_STATEMENTS) {
      forall m: nat | m < LOAD_STATEMENTS ensures FreshAt(db, d, m) { assert LoadChecks(db, d)(m); }
      StepsMeanFresh(db, d);
      assert LoadChecks(db, d)(LOAD_STATEMENTS - 1);
      AllLoaded(db, d);
    }
  }

  /** The 24 statements all succeed if and only if the payload's keys are new and the intended
      result meets every constraint; they then leave exactly that result. */
  lemma LoadOutcome(db: Tables, d: HouseholdData)
    requires Consistent(db)
    ensures RunLoad(db, d, LOAD_STATEMENTS) == if Loadable(db, d) then Some(Restored(db, d)) else None
  {
    LoadFollowsPlan(db, d);
    TransactionOutcome(LoadRuns(db, d), LoadPlan(db, d), LoadChecks(db, d), LOAD_STATEMENTS, LOAD_STATEMENTS);
    LoadChecksOk(db, d);
    AllLoaded(db, d);
    assert LoadRuns(db, d)(LOAD_STATEMENTS) == RunLoad(db, d, LOAD_STATEMENTS);
  }
}
