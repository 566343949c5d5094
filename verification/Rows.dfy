/** The household schema: tables, the foreign keys between them, and one row shape
    carrying every column the backup, restore and close-snapshot logic reads. */
module Rows {
  type Id = int
  type Time = int

  datatype Option<+T> = None | Some(value: T)

  datatype Table =
    | Households | Users | Tags
    | Assets | Investments | Liabilities | Receivables
    | BankAccountDetails | PropertyDetails | VehicleDetails
    | StockDetails | MutualFundDetails | BondDetails | GoldDetails | TimeDepositDetails
    | AssetSnapshots | LiabilitySnapshots | ReceivableSnapshots | InvestmentSnapshots
    | InvestmentTransactions
    | Income | FxRates | InflationRates
    | MonthlyReports | HouseholdInvitations | Sessions | LocalCredentials | PasswordResetTokens

  /** The foreign-key columns. `Parent` is a position for details, snapshots and
      ledger rows, and a user for sessions, credentials and reset tokens. */
  datatype Column = HouseholdId | Parent | SoleOwner | TagId | RolledFrom | Supersedes | CreatedBy | UpdatedBy

  predicate IsPosition(t: Table) {
    t.Assets? || t.Investments? || t.Liabilities? || t.Receivables?
  }

  predicate IsDetail(t: Table) {
    t.BankAccountDetails? || t.PropertyDetails? || t.VehicleDetails? || t.StockDetails?
    || t.MutualFundDetails? || t.BondDetails? || t.GoldDetails? || t.TimeDepositDetails?
  }

  predicate IsSnapshot(t: Table) {
    t.AssetSnapshots? || t.LiabilitySnapshots? || t.ReceivableSnapshots? || t.InvestmentSnapshots?
  }

  predicate IsFlow(t: Table) {
    t.Income? || t.FxRates? || t.InflationRates?
  }

  /** Tables carrying a household_id column of their own. */
  predicate HouseholdScoped(t: Table) {
    t.Users? || t.Tags? || IsPosition(t) || IsFlow(t) || t.MonthlyReports? || t.HouseholdInvitations?
  }

  /** Tables carrying created_by and updated_by. */
  predicate Audited(t: Table) {
    t.Households? || t.Users? || t.Tags? || IsPosition(t) || IsSnapshot(t) || t.InvestmentTransactions? || IsFlow(t)
  }

  function ParentTable(t: Table): Option<Table> {
    match t
    case BankAccountDetails | PropertyDetails | VehicleDetails | AssetSnapshots => Some(Assets)
    case StockDetails | MutualFundDetails | BondDetails | GoldDetails | TimeDepositDetails => Some(Investments)
    case InvestmentSnapshots | InvestmentTransactions => Some(Investments)
    case LiabilitySnapshots => Some(Liabilities)
    case ReceivableSnapshots => Some(Receivables)
    case Sessions | LocalCredentials | PasswordResetTokens => Some(Users)
    case _ => None
  }

  /** The table a foreign-key column points at, or None where the table has no such column. */
  function References(t: Table, c: Column): Option<Table> {
    match c
    case HouseholdId => if HouseholdScoped(t) then Some(Households) else None
    case Parent => ParentTable(t)
    case SoleOwner => if IsPosition(t) || t.Income? then Some(Users) else None
    case TagId => if IsPosition(t) then Some(Tags) else None
    case RolledFrom => if t.Investments? then Some(Investments) else None
    case Supersedes => if IsSnapshot(t) then Some(t) else None
    case CreatedBy => if Audited(t) || t.HouseholdInvitations? then Some(Users) else None
    case UpdatedBy => if Audited(t) then Some(Users) else None
  }

  /** The foreign keys, column by column. */
  lemma ForeignKeys(t: Table, c: Column)
    ensures c.HouseholdId? ==>
              References(t, c) == if t in {Users, Tags, Assets, Investments, Liabilities, Receivables, Income, FxRates,
                                           InflationRates, MonthlyReports, HouseholdInvitations}
                                  then Some(Households) else None
    ensures c.Parent? ==>
              References(t, c) == if t in {BankAccountDetails, PropertyDetails, VehicleDetails, AssetSnapshots}
                                  then Some(Assets)
                                  else if t in {StockDetails, MutualFundDetails, BondDetails, GoldDetails,
                                                TimeDepositDetails, InvestmentSnapshots, InvestmentTransactions}
                                  then Some(Investments)
                                  else if t.LiabilitySnapshots? then Some(Liabilities)
                                  else if t.ReceivableSnapshots? then Some(Receivables)
                                  else if t in {Sessions, LocalCredentials, PasswordResetTokens} then Some(Users)
                                  else None
    ensures c.SoleOwner? ==>
              References(t, c) == if t in {Assets, Investments, Liabilities, Receivables, Income}
                                  then Some(Users) else None
    ensures c.TagId? ==>
              References(t, c) == if t in {Assets, Investments, Liabilities, Receivables} then Some(Tags) else None
    ensures c.RolledFrom? ==> References(t, c) == if t.Investments? then Some(Investments) else None
    ensures c.Supersedes? ==>
              References(t, c) == if t in {AssetSnapshots, LiabilitySnapshots, ReceivableSnapshots,
                                           InvestmentSnapshots}
                                  then Some(t) else None
    ensures c.UpdatedBy? ==>
              References(t, c) == if t in {Households, Users, Tags, Assets, Investments, Liabilities, Receivables,
                                           AssetSnapshots, LiabilitySnapshots, ReceivableSnapshots,
                                           InvestmentSnapshots, InvestmentTransactions, Income, FxRates,
                                           InflationRates}
                                  then Some(Users) else None
    ensures c.CreatedBy? ==>
              References(t, c) == if t.HouseholdInvitations? then Some(Users) else References(t, UpdatedBy)
  {
  }

  /** A row of any table. Columns a table lacks are simply not looked at. `month` is the date of
      income and ledger rows; `rank` is the place of an FX rate's currency in the database's text
      order; `code` is coupon_disposition, entry_type or a password hash by table. */
  datatype Row = Row(
    id: Id,
    household: Option<Id>, parent: Option<Id>, soleOwner: Option<Id>, tag: Option<Id>,
    rolledFrom: Option<Id>, supersedes: Option<Id>, createdBy: Option<Id>, updatedBy: Option<Id>,
    created: Option<Time>, deleted: Option<Time>,
    month: int, amount: real, rank: int, rate: real,
    code: string, email: string, googleSub: Option<string>, content: string)
  {
    function Ref(c: Column): Option<Id> {
      match c
      case HouseholdId => household
      case Parent => parent
      case SoleOwner => soleOwner
      case TagId => tag
      case RolledFrom => rolledFrom
      case Supersedes => supersedes
      case CreatedBy => createdBy
      case UpdatedBy => updatedBy
    }
  }

  /** A row with every optional column NULL. */
  function BlankRow(id: Id): Row {
    Row(id, None, None, None, None, None, None, None, None, None, None, 0, 0.0, 0, 0.0, "", "", None, "")
  }

  lemma HasMember(ids: set<Id>)
    ensures ids == {} || exists id :: id in ids
  {
    if forall id :: id !in ids { assert ids == {}; }
  }
}
