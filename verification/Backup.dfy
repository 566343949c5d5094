/** The backup payload and the checks made on it before a restore commits. */
module Backup {
  import opened Rows

  datatype Fidelity = Full | Compacted

  const BACKUP_TABLES := 22

  /** The tables a backup carries besides the household row, in section order: parents before
      children. */
  function BackupTable(k: nat): Table
    requires k < BACKUP_TABLES
  {
    match k
    case 0 => Users case 1 => Tags case 2 => Assets case 3 => BankAccountDetails
    case 4 => PropertyDetails case 5 => VehicleDetails case 6 => Liabilities case 7 => Receivables
    case 8 => Investments case 9 => StockDetails case 10 => MutualFundDetails case 11 => BondDetails
    case 12 => GoldDetails case 13 => TimeDepositDetails case 14 => AssetSnapshots case 15 => LiabilitySnapshots
    case 16 => ReceivableSnapshots case 17 => InvestmentSnapshots case 18 => InvestmentTransactions case 19 => Income
    case 20 => FxRates
    case _ => InflationRates
  }

  predicate BackedUp(t: Table) {
    t.Users? || t.Tags? || IsPosition(t) || IsDetail(t) || IsSnapshot(t) || t.InvestmentTransactions? || IsFlow(t)
  }

  function SectionIndex(t: Table): nat {
    match t
    case Users => 0 case Tags => 1 case Assets => 2 case BankAccountDetails => 3
    case PropertyDetails => 4 case VehicleDetails => 5 case Liabilities => 6 case Receivables => 7
    case Investments => 8 case StockDetails => 9 case MutualFundDetails => 10 case BondDetails => 11
    case GoldDetails => 12 case TimeDepositDetails => 13 case AssetSnapshots => 14 case LiabilitySnapshots => 15
    case ReceivableSnapshots => 16 case InvestmentSnapshots => 17 case InvestmentTransactions => 18 case Income => 19
    case FxRates => 20 case InflationRates => 21
    case _ => 22
  }

  /** Each backed-up table has exactly one section, and no section precedes the table one of its
      foreign keys names (a table may name itself). */
  lemma SectionOrder(t: Table, c: Column)
    ensures BackedUp(t) <==> SectionIndex(t) < BACKUP_TABLES
    ensures BackedUp(t) ==> BackupTable(SectionIndex(t)) == t
    ensures BackedUp(t) && References(t, c).Some? && !References(t, c).value.Households? ==>
              SectionIndex(References(t, c).value) <= SectionIndex(t)
  {
  }

  lemma SectionIndexInverts(k: nat)
    requires k < BACKUP_TABLES
    ensures BackedUp(BackupTable(k)) && SectionIndex(BackupTable(k)) == k
  {
  }

  datatype HouseholdData = HouseholdData(household: Row, sections: map<Table, seq<Row>>)
  {
    /** An absent section reads as empty. */
    function Section(t: Table): seq<Row> {
      if BackedUp(t) && t in sections then sections[t] else []
    }
  }

  function Ids(rows: seq<Row>): set<Id> {
    set i | 0 <= i < |rows| :: rows[i].id
  }

  method IdSet(rows: seq<Row>) returns (ids: set<Id>)
    ensures ids == Ids(rows)
  {
    ids := {};
    for i := 0 to |rows|
      invariant ids == Ids(rows[..i])
    {
      ids := ids + {rows[i].id};
    }
    assert rows[..|rows|] == rows;
  }

  // ----- Declared counts --------------------------------------------------------

  /** The name a section is declared under. */
  function SectionName(k: nat): string
    requires k < BACKUP_TABLES
  {
    match k
    case 0 => "users" case 1 => "tags" case 2 => "assets" case 3 => "bank_accounts" case 4 => "properties"
    case 5 => "vehicles" case 6 => "liabilities" case 7 => "receivables" case 8 => "investments"
    case 9 => "stocks" case 10 => "mutual_funds" case 11 => "bonds" case 12 => "golds"
    case 13 => "time_deposits" case 14 => "asset_snapshots" case 15 => "liability_snapshots"
    case 16 => "receivable_snapshots" case 17 => "investment_snapshots" case 18 => "investment_transactions"
    case 19 => "income" case 20 => "fx_rates" case _ => "inflation_rates"
  }

  /** The length of the section of that name; an unknown name counts as empty. */
  ghost function ActualCount(d: HouseholdData, name: string): nat {
    if k: nat :| k < BACKUP_TABLES && SectionName(k) == name then |d.Section(BackupTable(k))| else 0
  }

  /** The names the counts are declared under. */
  lemma DeclaredNames(d: HouseholdData)
    ensures ActualCount(d, "users") == |d.Section(Users)| && ActualCount(d, "tags") == |d.Section(Tags)|
    ensures ActualCount(d, "assets") == |d.Section(Assets)|
            && ActualCount(d, "bank_accounts") == |d.Section(BankAccountDetails)|
            && ActualCount(d, "properties") == |d.Section(PropertyDetails)|
            && ActualCount(d, "vehicles") == |d.Section(VehicleDetails)|
            && ActualCount(d, "asset_snapshots") == |d.Section(AssetSnapshots)|
    ensures ActualCount(d, "liabilities") == |d.Section(Liabilities)|
            && ActualCount(d, "liability_snapshots") == |d.Section(LiabilitySnapshots)|
    ensures ActualCount(d, "receivables") == |d.Section(Receivables)|
            && ActualCount(d, "receivable_snapshots") == |d.Section(ReceivableSnapshots)|
    ensures ActualCount(d, "investments") == |d.Section(Investments)|
            && ActualCount(d, "stocks") == |d.Section(StockDetails)|
            && ActualCount(d, "mutual_funds") == |d.Section(MutualFundDetails)|
            && ActualCount(d, "bonds") == |d.Section(BondDetails)|
            && ActualCount(d, "golds") == |d.Section(GoldDetails)|
            && ActualCount(d, "time_deposits") == |d.Section(TimeDepositDetails)|
            && ActualCount(d, "investment_snapshots") == |d.Section(InvestmentSnapshots)|
            && ActualCount(d, "investment_transactions") == |d.Section(InvestmentTransactions)|
    ensures ActualCount(d, "income") == |d.Section(Income)| && ActualCount(d, "fx_rates") == |d.Section(FxRates)|
            && ActualCount(d, "inflation_rates") == |d.Section(InflationRates)|
  {
    CountOf(d, 0);
    CountOf(d, 1);
    CountOf(d, 2);
    CountOf(d, 3);
    CountOf(d, 4);
    CountOf(d, 5);
    CountOf(d, 6);
    CountOf(d, 7);
    CountOf(d, 8);
    CountOf(d, 9);
    CountOf(d, 10);
    CountOf(d, 11);
    CountOf(d, 12);
    CountOf(d, 13);
    CountOf(d, 14);
    CountOf(d, 15);
    CountOf(d, 16);
    CountOf(d, 17);
    CountOf(d, 18);
    CountOf(d, 19);
    CountOf(d, 20);
    CountOf(d, 21);
  }

  lemma CountOf(d: HouseholdData, k: nat)
    requires k < BACKUP_TABLES
    ensures ActualCount(d, SectionName(k)) == |d.Section(BackupTable(k))|
  {
    var j: nat :| j < BACKUP_TABLES && SectionName(j) == SectionName(k)
                  && ActualCount(d, SectionName(k)) == |d.Section(BackupTable(j))|;
    SectionNamesDiffer(j, k);
  }

  lemma SectionNamesDiffer(j: nat, k: nat)
    requires j < BACKUP_TABLES && k < BACKUP_TABLES && SectionName(j) == SectionName(k)
    ensures j == k
  {
  }

  method SectionCounts(d: HouseholdData) returns (actual: map<string, nat>)
    ensures forall name :: (if name in actual then actual[name] else 0) == ActualCount(d, name)
  {
    actual := map[];
    for n := 0 to BACKUP_TABLES
      invariant forall k: nat :: k < n ==>
                SectionName(k) in actual && actual[SectionName(k)] == |d.Section(BackupTable(k))|
      invariant forall name :: name in actual ==> exists k: nat :: k < n && SectionName(k) == name
    {
      forall k: nat | k < n ensures SectionName(k) != SectionName(n) {
        if SectionName(k) == SectionName(n) { SectionNamesDiffer(k, n); }
      }
      actual := actual[SectionName(n) := |d.Section(BackupTable(n))|];
    }
  }

  method AssertCounts(counts: map<string, int>, d: HouseholdData) returns (bad: Option<string>)
    ensures bad.None? <==> forall name :: name in counts ==> counts[name] == ActualCount(d, name)
    ensures bad.Some? ==> bad.value in counts && counts[bad.value] != ActualCount(d, bad.value)
  {
    var actual := SectionCounts(d);
    var todo := counts.Keys;
    while todo != {}
      invariant todo <= counts.Keys
      invariant forall name :: name in counts && name !in todo ==> counts[name] == ActualCount(d, name)
      decreases todo
    {
      var name :| name in todo;
      if (if name in actual then actual[name] else 0) != counts[name] { return Some(name); }
      todo := todo - {name};
    }
    return None;
  }

  // ----- The object graph -------------------------------------------------------

  /** The references the graph check looks at. */
  predicate Policed(t: Table, c: Column) {
    && BackedUp(t) && References(t, c).Some?
    && (c.SoleOwner? || c.TagId? || c.RolledFrom? || c.Parent? || (c.HouseholdId? && !t.InflationRates?))
  }

  /** household_id must name the backup's own household; an optional reference may be unset; any
      other reference must name a row of the payload. */
  predicate ColumnOk(d: HouseholdData, t: Table, c: Column, r: Row) {
    if c.HouseholdId? then r.household == Some(d.household.id)
    else match r.Ref(c)
      case None => !c.Parent?
      case Some(x) => References(t, c).Some? && x in Ids(d.Section(References(t, c).value))
  }

  ghost predicate GraphOk(d: HouseholdData) {
    forall t, c, i :: Policed(t, c) && 0 <= i < |d.Section(t)| ==> ColumnOk(d, t, c, d.Section(t)[i])
  }

  datatype Check = Check(table: Table, columns: seq<Column>)

  datatype GraphError = WrongHousehold(table: Table, id: Id) | DanglingRef(table: Table, id: Id, column: Column)

  const GRAPH_CHECKS := 21

  /** The checks in the order they run: one loop per section, these columns row by row. */
  function GraphCheck(k: nat): Check
    requires k < GRAPH_CHECKS
  {
    match k
    case 0 => Check(Users, [HouseholdId])
    case 1 => Check(Assets, [HouseholdId, SoleOwner, TagId])
    case 2 => Check(Investments, [HouseholdId, SoleOwner, TagId, RolledFrom])
    case 3 => Check(Liabilities, [HouseholdId, SoleOwner, TagId])
    case 4 => Check(Receivables, [HouseholdId, SoleOwner, TagId])
    case 5 => Check(Tags, [HouseholdId])
    case 6 => Check(BankAccountDetails, [Parent])
    case 7 => Check(PropertyDetails, [Parent])
    case 8 => Check(VehicleDetails, [Parent])
    case 9 => Check(StockDetails, [Parent])
    case 10 => Check(MutualFundDetails, [Parent])
    case 11 => Check(BondDetails, [Parent])
    case 12 => Check(GoldDetails, [Parent])
    case 13 => Check(TimeDepositDetails, [Parent])
    case 14 => Check(AssetSnapshots, [Parent])
    case 15 => Check(LiabilitySnapshots, [Parent])
    case 16 => Check(ReceivableSnapshots, [Parent])
    case 17 => Check(InvestmentSnapshots, [Parent])
    case 18 => Check(InvestmentTransactions, [Parent])
    case 19 => Check(Income, [HouseholdId, SoleOwner])
    case _ => Check(FxRates, [HouseholdId])
  }

  function CheckIndex(t: Table): nat {
    match t
    case Users => 0 case Assets => 1 case Investments => 2 case Liabilities => 3 case Receivables => 4
    case Tags => 5 case BankAccountDetails => 6 case PropertyDetails => 7 case VehicleDetails => 8
    case StockDetails => 9 case MutualFundDetails => 10 case BondDetails => 11 case GoldDetails => 12
    case TimeDepositDetails => 13 case AssetSnapshots => 14 case LiabilitySnapshots => 15
    case ReceivableSnapshots => 16 case InvestmentSnapshots => 17 case InvestmentTransactions => 18
    case Income => 19 case FxRates => 20
    case _ => 21
  }

  /** The check list is exactly the policed references. */
  lemma ChecksArePoliced(k: nat, j: nat)
    requires k < GRAPH_CHECKS && j < |GraphCheck(k).columns|
    ensures Policed(GraphCheck(k).table, GraphCheck(k).columns[j])
  {
  }

  lemma PolicedIsChecked(t: Table, c: Column)
    requires Policed(t, c)
    ensures CheckIndex(t) < GRAPH_CHECKS && GraphCheck(CheckIndex(t)).table == t
            && c in GraphCheck(CheckIndex(t)).columns
  {
    var columns := GraphCheck(CheckIndex(t)).columns;
    assert c == columns[0] || c == columns[1] || c == columns[2] || c == columns[3];
  }

  predicate CheckOk(d: HouseholdData, k: int, i: int, j: int)
    requires 0 <= k < GRAPH_CHECKS && 0 <= i < |d.Section(GraphCheck(k).table)| && 0 <= j < |GraphCheck(k).columns|
  {
    ColumnOk(d, GraphCheck(k).table, GraphCheck(k).columns[j], d.Section(GraphCheck(k).table)[i])
  }

  ghost predicate RowOk(d: HouseholdData, k: int, i: int)
    requires 0 <= k < GRAPH_CHECKS && 0 <= i < |d.Section(GraphCheck(k).table)|
  {
    forall j :: 0 <= j < |GraphCheck(k).columns| ==> CheckOk(d, k, i, j)
  }

  ghost predicate SectionOk(d: HouseholdData, k: int)
    requires 0 <= k < GRAPH_CHECKS
  {
    forall i :: 0 <= i < |d.Section(GraphCheck(k).table)| ==> RowOk(d, k, i)
  }

  /** The error names check (k, i, j), which fails, and every check made before it holds. */
  ghost predicate FirstFailure(d: HouseholdData, e: GraphError, k: int, i: int, j: int) {
    && 0 <= k < GRAPH_CHECKS && 0 <= i < |d.Section(GraphCheck(k).table)| && 0 <= j < |GraphCheck(k).columns|
    && !CheckOk(d, k, i, j)
    && (forall j' :: 0 <= j' < j ==> CheckOk(d, k, i, j'))
    && (forall i' :: 0 <= i' < i ==> RowOk(d, k, i'))
    && (forall k' :: 0 <= k' < k ==> SectionOk(d, k'))
    && e == (if GraphCheck(k).columns[j].HouseholdId?
             then WrongHousehold(GraphCheck(k).table, d.Section(GraphCheck(k).table)[i].id)
             else DanglingRef(GraphCheck(k).table, d.Section(GraphCheck(k).table)[i].id, GraphCheck(k).columns[j]))
  }

  lemma AllSectionsOk(d: HouseholdData)
    ensures (forall k :: 0 <= k < GRAPH_CHECKS ==> SectionOk(d, k)) <==> GraphOk(d)
  {
    if forall k :: 0 <= k < GRAPH_CHECKS ==> SectionOk(d, k) {
      forall t, c, i | Policed(t, c) && 0 <= i < |d.Section(t)| ensures ColumnOk(d, t, c, d.Section(t)[i]) {
        PolicedIsChecked(t, c);
        var k := CheckIndex(t);
        var j :| 0 <= j < |GraphCheck(k).columns| && GraphCheck(k).columns[j] == c;
        assert SectionOk(d, k) && RowOk(d, k, i) && CheckOk(d, k, i, j);
      }
    }
    if GraphOk(d) {
      forall k, i | 0 <= k < GRAPH_CHECKS && 0 <= i < |d.Section(GraphCheck(k).table)| ensures RowOk(d, k, i) {
        forall j | 0 <= j < |GraphCheck(k).columns| ensures CheckOk(d, k, i, j) {
          ChecksArePoliced(k, j);
        }
      }
    }
  }

  const OURS := {Users, Tags, Assets, Investments, Liabilities, Receivables, Income, FxRates}
  const OWNED := {Assets, Investments, Liabilities, Receivables, Income}
  const TAGGED := {Assets, Investments, Liabilities, Receivables}
  const OF_ASSETS := {BankAccountDetails, PropertyDetails, VehicleDetails, AssetSnapshots}
  const OF_INVESTMENTS := {StockDetails, MutualFundDetails, BondDetails, GoldDetails, TimeDepositDetails,
                           InvestmentSnapshots, InvestmentTransactions}

  /** The id, if there is one, is the id of a row of that section. */
  ghost predicate Names(d: HouseholdData, t: Table, id: Option<Id>) {
    id.Some? ==> exists j :: 0 <= j < |d.Section(t)| && d.Section(t)[j].id == id.value
  }

  ghost predicate AllOurs(d: HouseholdData) {
    forall t, i :: t in OURS && 0 <= i < |d.Section(t)| ==> d.Section(t)[i].household == Some(d.household.id)
  }

  ghost predicate OwnersNamed(d: HouseholdData) {
    forall t, i :: t in OWNED && 0 <= i < |d.Section(t)| ==> Names(d, Users, d.Section(t)[i].soleOwner)
  }

  ghost predicate TagsNamed(d: HouseholdData) {
    forall t, i :: t in TAGGED && 0 <= i < |d.Section(t)| ==> Names(d, Tags, d.Section(t)[i].tag)
  }

  ghost predicate SourcesNamed(d: HouseholdData) {
    forall i :: 0 <= i < |d.Section(Investments)| ==> Names(d, Investments, d.Section(Investments)[i].rolledFrom)
  }

  ghost predicate ParentsNamed(d: HouseholdData, children: set<Table>, parents: Table) {
    forall t, i :: t in children && 0 <= i < |d.Section(t)| ==>
      d.Section(t)[i].parent.Some? && Names(d, parents, d.Section(t)[i].parent)
  }

  ghost predicate GraphColumnOk(d: HouseholdData, c: Column) {
    forall t, i :: Policed(t, c) && 0 <= i < |d.Section(t)| ==> ColumnOk(d, t, c, d.Section(t)[i])
  }

  lemma NamesIsMembership(d: HouseholdData, t: Table, id: Id)
    ensures Names(d, t, Some(id)) <==> id in Ids(d.Section(t))
  {
  }

  lemma HouseholdColumnMeans(d: HouseholdData)
    ensures GraphColumnOk(d, HouseholdId) <==> AllOurs(d)
  {
    forall t ensures Policed(t, HouseholdId) <==> t in OURS {}
  }

  lemma OptionalColumnMeans(d: HouseholdData, t: Table, c: Column, r: Row)
    requires Policed(t, c) && (c.SoleOwner? || c.TagId? || c.RolledFrom?)
    ensures ColumnOk(d, t, c, r)
            <==> Names(d, if c.SoleOwner? then Users else if c.TagId? then Tags else Investments, r.Ref(c))
  {
    if r.Ref(c).Some? { NamesIsMembership(d, References(t, c).value, r.Ref(c).value); }
  }

  lemma OwnersMean(d: HouseholdData)
    ensures GraphColumnOk(d, SoleOwner) <==> OwnersNamed(d)
  {
    hide ColumnOk, Names;
    forall t ensures Policed(t, SoleOwner) <==> t in OWNED {}
    forall t, i | Policed(t, SoleOwner) && 0 <= i < |d.Section(t)|
      ensures ColumnOk(d, t, SoleOwner, d.Section(t)[i]) <==> Names(d, Users, d.Section(t)[i].soleOwner)
    {
      OptionalColumnMeans(d, t, SoleOwner, d.Section(t)[i]);
    }
  }

  lemma TagsMean(d: HouseholdData)
    ensures GraphColumnOk(d, TagId) <==> TagsNamed(d)
  {
    hide ColumnOk, Names;
    forall t ensures Policed(t, TagId) <==> t in TAGGED {}
    forall t, i | Policed(t, TagId) && 0 <= i < |d.Section(t)|
      ensures ColumnOk(d, t, TagId, d.Section(t)[i]) <==> Names(d, Tags, d.Section(t)[i].tag)
    {
      OptionalColumnMeans(d, t, TagId, d.Section(t)[i]);
    }
  }

  lemma SourcesMean(d: HouseholdData)
    ensures GraphColumnOk(d, RolledFrom) <==> SourcesNamed(d)
  {
    hide ColumnOk, Names;
    forall t ensures Policed(t, RolledFrom) <==> t == Investments {}
    forall i | 0 <= i < |d.Section(Investments)|
      ensures ColumnOk(d, Investments, RolledFrom, d.Section(Investments)[i])
              <==> Names(d, Investments, d.Section(Investments)[i].rolledFrom)
    {
      OptionalColumnMeans(d, Investments, RolledFrom, d.Section(Investments)[i]);
    }
  }

  lemma ParentMeans(d: HouseholdData, t: Table, r: Row)
    requires Policed(t, Parent)
    ensures ColumnOk(d, t, Parent, r) <==> r.parent.Some? && Names(d, ParentTable(t).value, r.parent)
  {
    if r.parent.Some? { NamesIsMembership(d, ParentTable(t).value, r.parent.value); }
  }

  ghost predicate ParentsOk(d: HouseholdData, parents: Table) {
    forall t, i :: Policed(t, Parent) && ParentTable(t) == Some(parents) && 0 <= i < |d.Section(t)| ==>
      ColumnOk(d, t, Parent, d.Section(t)[i])
  }

  lemma ParentsMean(d: HouseholdData, children: set<Table>, parents: Table)
    requires forall t :: t in children <==> Policed(t, Parent) && ParentTable(t) == Some(parents)
    ensures ParentsOk(d, parents) <==> ParentsNamed(d, children, parents)
  {
    hide ColumnOk, Names, Policed, ParentTable;
    forall t, i | t in children && 0 <= i < |d.Section(t)|
      ensures ColumnOk(d, t, Parent, d.Section(t)[i])
              <==> d.Section(t)[i].parent.Some? && Names(d, parents, d.Section(t)[i].parent)
    {
      ParentMeans(d, t, d.Section(t)[i]);
    }
  }

  lemma Children(t: Table)
    ensures t in OF_ASSETS <==> Policed(t, Parent) && ParentTable(t) == Some(Assets)
    ensures t in OF_INVESTMENTS <==> Policed(t, Parent) && ParentTable(t) == Some(Investments)
    ensures t == LiabilitySnapshots <==> Policed(t, Parent) && ParentTable(t) == Some(Liabilities)
    ensures t == ReceivableSnapshots <==> Policed(t, Parent) && ParentTable(t) == Some(Receivables)
    ensures Policed(t, Parent) ==>
              ParentTable(t) in {Some(Assets), Some(Investments), Some(Liabilities), Some(Receivables)}
  {
  }

  lemma ParentColumnMeans(d: HouseholdData)
    ensures GraphColumnOk(d, Parent) <==>
            && ParentsNamed(d, OF_ASSETS, Assets) && ParentsNamed(d, OF_INVESTMENTS, Investments)
            && ParentsNamed(d, {LiabilitySnapshots}, Liabilities)
            && ParentsNamed(d, {ReceivableSnapshots}, Receivables)
  {
    hide ColumnOk, Names, Policed, ParentTable, ParentsNamed, HouseholdData.Section;
    forall t ensures Policed(t, Parent) ==> ParentTable(t) in {Some(Assets), Some(Investments), Some(Liabilities),
                                                               Some(Receivables)}
             ensures t in OF_ASSETS <==> Policed(t, Parent) && ParentTable(t) == Some(Assets)
             ensures t in OF_INVESTMENTS <==> Policed(t, Parent) && ParentTable(t) == Some(Investments)
             ensures t == LiabilitySnapshots <==> Policed(t, Parent) && ParentTable(t) == Some(Liabilities)
             ensures t == ReceivableSnapshots <==> Policed(t, Parent) && ParentTable(t) == Some(Receivables)
    {
      Children(t);
    }
    ParentsMean(d, OF_ASSETS, Assets);
    ParentsMean(d, OF_INVESTMENTS, Investments);
    ParentsMean(d, {LiabilitySnapshots}, Liabilities);
    ParentsMean(d, {ReceivableSnapshots}, Receivables);
    assert GraphColumnOk(d, Parent) <==> ParentsOk(d, Assets) && ParentsOk(d, Investments) && ParentsOk(d, Liabilities)
                                         && ParentsOk(d, Receivables);
  }

  /** What the graph check asks of a payload, column by column. */
  lemma GraphMeans(d: HouseholdData)
    ensures GraphOk(d) <==>
            && AllOurs(d) && OwnersNamed(d) && TagsNamed(d) && SourcesNamed(d)
            && ParentsNamed(d, OF_ASSETS, Assets) && ParentsNamed(d, OF_INVESTMENTS, Investments)
            && ParentsNamed(d, {LiabilitySnapshots}, Liabilities)
            && ParentsNamed(d, {ReceivableSnapshots}, Receivables)
  {
    hide ColumnOk, Names, AllOurs, OwnersNamed, TagsNamed, SourcesNamed, ParentsNamed;
    HouseholdColumnMeans(d);
    OwnersMean(d);
    TagsMean(d);
    SourcesMean(d);
    ParentColumnMeans(d);
    assert GraphOk(d) <==> forall c :: GraphColumnOk(d, c);
    forall c: Column | c.Supersedes? || c.CreatedBy? || c.UpdatedBy? ensures GraphColumnOk(d, c) {}
  }

  method ParentIds(d: HouseholdData) returns (ids: map<Table, set<Id>>)
    ensures ids.Keys == {Users, Tags, Assets, Investments, Liabilities, Receivables}
    ensures forall t :: t in ids ==> ids[t] == Ids(d.Section(t))
  {
    var users := IdSet(d.Section(Users));
    var tags := IdSet(d.Section(Tags));
    var assets := IdSet(d.Section(Assets));
    var investments := IdSet(d.Section(Investments));
    var liabilities := IdSet(d.Section(Liabilities));
    var receivables := IdSet(d.Section(Receivables));
    ids := map[Users := users, Tags := tags, Assets := assets, Investments := investments,
               Liabilities := liabilities, Receivables := receivables];
  }

  /** The graph check passes if and only if every policed reference of the payload is good; a
      failure reports the first bad reference in source order. */
  method ValidateGraph(d: HouseholdData) returns (e: Option<GraphError>)
    ensures e.None? <==> GraphOk(d)
    ensures e.Some? ==> exists k, i, j :: FirstFailure(d, e.value, k, i, j)
  {
    var ids := ParentIds(d);
    for k := 0 to GRAPH_CHECKS
      invariant forall k' :: 0 <= k' < k ==> SectionOk(d, k')
    {
      for i := 0 to |d.Section(GraphCheck(k).table)|
        invariant forall i' :: 0 <= i' < i ==> RowOk(d, k, i')
      {
        var j := FirstBadColumn(d, ids, k, i);
        if j < |GraphCheck(k).columns| {
          var t, c, id := GraphCheck(k).table, GraphCheck(k).columns[j], d.Section(GraphCheck(k).table)[i].id;
          e := Some(if c.HouseholdId? then WrongHousehold(t, id) else DanglingRef(t, id, c));
          assert FirstFailure(d, e.value, k, i, j);
          assert !RowOk(d, k, i) && !SectionOk(d, k);
          AllSectionsOk(d);
          return;
        }
      }
    }
    AllSectionsOk(d);
    return None;
  }

  method FirstBadColumn(d: HouseholdData, ids: map<Table, set<Id>>, k: nat, i: nat) returns (j: nat)
    requires k < GRAPH_CHECKS && i < |d.Section(GraphCheck(k).table)|
    requires forall u :: u in ids ==> ids[u] == Ids(d.Section(u))
    requires ids.Keys == {Users, Tags, Assets, Investments, Liabilities, Receivables}
    ensures j <= |GraphCheck(k).columns| && forall j' :: 0 <= j' < j ==> CheckOk(d, k, i, j')
    ensures j < |GraphCheck(k).columns| ==> !CheckOk(d, k, i, j)
    ensures RowOk(d, k, i) <==> j == |GraphCheck(k).columns|
  {
    j := 0;
    while j < |GraphCheck(k).columns|
      invariant j <= |GraphCheck(k).columns| && forall j' :: 0 <= j' < j ==> CheckOk(d, k, i, j')
    {
      var ok := ColumnPasses(d, ids, GraphCheck(k).table, GraphCheck(k).columns[j], d.Section(GraphCheck(k).table)[i]);
      if !ok { return; }
      j := j + 1;
    }
  }

  method ColumnPasses(d: HouseholdData, ids: map<Table, set<Id>>, t: Table, c: Column, r: Row) returns (ok: bool)
    requires forall u :: u in ids ==> ids[u] == Ids(d.Section(u))
    ensures ok == ColumnOk(d, t, c, r)
  {
    if c.HouseholdId? { return r.household == Some(d.household.id); }
    if r.Ref(c).None? { return !c.Parent?; }
    if References(t, c).None? { return false; }
    var u := References(t, c).value;
    if u in ids { return r.Ref(c).value in ids[u]; }
    return r.Ref(c).value in Ids(d.Section(u));
  }

  // ----- The caller -------------------------------------------------------------

  datatype Caller = Caller(householdId: Id, userId: Id, googleSub: Option<string>, email: string)

  /** A Google caller matches by google_sub alone, a local caller by a non-empty email. */
  predicate IsCaller(u: Row, caller: Caller) {
    if caller.googleSub.Some? then u.googleSub == caller.googleSub
    else caller.email != "" && u.email == caller.email
  }

  method MatchCaller(users: seq<Row>, caller: Caller) returns (r: Option<Id>)
    ensures r == FirstCaller(users, caller)
  {
    for i := 0 to |users|
      invariant FirstCaller(users, caller) == FirstCaller(users[i..], caller)
    {
      if IsCaller(users[i], caller) { return Some(users[i].id); }
      assert users[i..][1..] == users[i + 1..];
    }
    return None;
  }

  function FirstCaller(users: seq<Row>, caller: Caller): (r: Option<Id>)
    ensures r.None? <==> forall i :: 0 <= i < |users| ==> !IsCaller(users[i], caller)
    ensures r.Some? ==> exists i :: IsFirst(users, caller, i) && users[i].id == r.value
  {
    if users == [] then None
    else if IsCaller(users[0], caller) then
      assert IsFirst(users, caller, 0);
      Some(users[0].id)
    else
      var r := FirstCaller(users[1..], caller);
      assert r.Some? ==> exists i :: IsFirst(users, caller, i) && users[i].id == r.value by {
        if r.Some? {
          var i :| IsFirst(users[1..], caller, i) && users[1..][i].id == r.value;
          assert IsFirst(users, caller, i + 1);
        }
      }
      r
  }

  /** A caller who signs in with Google is never matched by address, a local caller never by an
      empty one: whoever is matched has the caller's google_sub, or else their address. */
  lemma MatchedMeans(users: seq<Row>, caller: Caller)
    requires FirstCaller(users, caller).Some?
    ensures exists i :: 0 <= i < |users| && users[i].id == FirstCaller(users, caller).value
                        && (if caller.googleSub.Some? then users[i].googleSub == caller.googleSub
                            else users[i].email == caller.email && users[i].email != "")
  {
  }

  lemma UnmatchedMeans(users: seq<Row>, caller: Caller)
    requires FirstCaller(users, caller).None?
    ensures caller.googleSub.Some? ==> forall i :: 0 <= i < |users| ==> users[i].googleSub != caller.googleSub
    ensures caller.googleSub.None? && caller.email != "" ==>
              forall i :: 0 <= i < |users| ==> users[i].email != caller.email
  {
  }

  ghost predicate IsFirst(users: seq<Row>, caller: Caller, i: int) {
    0 <= i < |users| && IsCaller(users[i], caller) && forall j :: 0 <= j < i ==> !IsCaller(users[j], caller)
  }

  /** A member with no google_sub cannot sign in where local auth is disabled. */
  method CheckStranding(users: seq<Row>, localEnabled: bool) returns (strands: bool)
    ensures strands <==> !localEnabled && exists i :: 0 <= i < |users| && users[i].googleSub.None?
  {
    if localEnabled { return false; }
    for i := 0 to |users|
      invariant forall j :: 0 <= j < i ==> users[j].googleSub.Some?
    {
      if users[i].googleSub.None? { return true; }
    }
    return false;
  }
}
