/** Bringing a backup file up to the importer's format version. */
module Migration {
  import opened Rows
  import opened Backup
  import opened LinkInference

  const FORMAT_VERSION := 5

  datatype MigrateError = InvalidBackupFile | FormatTooNew | ValidationFailed(version: int)

  datatype Migrated = Ok(version: int, data: HouseholdData) | Failed(error: MigrateError)

  /** A step from one version to the next; None is a step that reports an error. */
  type TransformFunc = HouseholdData -> Option<HouseholdData>

  // ----- The production transforms ---------------------------------------------

  function CodeOr(r: Row, default: string): Row {
    if r.code == "" then r.(code := default) else r
  }

  function Backfilled(s: seq<Row>, default: string): seq<Row> {
    seq(|s|, i requires 0 <= i < |s| => CodeOr(s[i], default))
  }

  method BackfillCode(rows: array<Row>, default: string)
    modifies rows
    ensures rows[..] == Backfilled(old(rows[..]), default)
    ensures forall i :: 0 <= i < rows.Length ==>
              rows[i] == if old(rows[i]).code == "" then old(rows[i]).(code := default) else old(rows[i])
  {
    for i := 0 to rows.Length
      invariant forall j :: 0 <= j < i ==> rows[j] == CodeOr(old(rows[j]), default)
      invariant forall j :: i <= j < rows.Length ==> rows[j] == old(rows[j])
    {
      if rows[i].code == "" {
        rows[i] := rows[i].(code := default);
      }
    }
  }

  function OnSection(d: HouseholdData, t: Table, f: seq<Row> -> seq<Row>): HouseholdData {
    if t in d.sections then d.(sections := d.sections[t := f(d.sections[t])]) else d
  }

  function WithCouponDisposition(d: HouseholdData): HouseholdData {
    OnSection(d, BondDetails, s => Backfilled(s, "pays_out"))
  }

  function WithInflation(d: HouseholdData): HouseholdData {
    if d.household.rate == 0.0 then d.(household := d.household.(rate := 3.5)) else d
  }

  function WithEntryType(d: HouseholdData): HouseholdData {
    var acquired := (s: seq<Row>) => Backfilled(s, "acquired");
    OnSection(OnSection(OnSection(OnSection(d, Assets, acquired), Liabilities, acquired), Receivables, acquired),
      Investments, acquired)
  }

  function WithLinks(d: HouseholdData): HouseholdData {
    var relink := (s: seq<Row>) => Relinked(s);
    OnSection(OnSection(OnSection(OnSection(d, AssetSnapshots, relink), LiabilitySnapshots, relink),
                        ReceivableSnapshots, relink), InvestmentSnapshots, relink)
  }

  const TRANSFORMS: map<int, TransformFunc> := map[
    1 := d => Some(WithCouponDisposition(d)),
    2 := d => Some(WithInflation(d)),
    3 := d => Some(WithEntryType(d)),
    4 := d => Some(WithLinks(d))]

  // ----- Running the chain ------------------------------------------------------

  function Upgrade(version: int, d: HouseholdData, target: int, chain: map<int, TransformFunc>): Migrated
    decreases target - version
  {
    if version >= target then Ok(version, d)
    else if version !in chain then Failed(ValidationFailed(version))
    else
      match chain[version](d)
      case None => Failed(ValidationFailed(version))
      case Some(d') => Upgrade(version + 1, d', target, chain)
  }

  function Migrate(version: int, d: HouseholdData, target: int, chain: map<int, TransformFunc>): Migrated {
    if version < 1 then Failed(InvalidBackupFile)
    else if version > target then Failed(FormatTooNew)
    else Upgrade(version, d, target, chain)
  }

  class Envelope {
    var formatVersion: int
    var data: HouseholdData

    constructor (formatVersion: int, data: HouseholdData)
      ensures this.formatVersion == formatVersion && this.data == data
    {
      this.formatVersion, this.data := formatVersion, data;
    }

    method MigrateTo(target: int, chain: map<int, TransformFunc>) returns (error: Option<MigrateError>)
      modifies this
      ensures error.Some? <==> Migrate(old(formatVersion), old(data), target, chain).Failed?
      ensures error.Some? ==> Migrate(old(formatVersion), old(data), target, chain).error == error.value
      ensures error.None? ==> Migrate(old(formatVersion), old(data), target, chain) == Ok(formatVersion, data)
      ensures error == Some(InvalidBackupFile) <==> old(formatVersion) < 1
      ensures error == Some(FormatTooNew) <==> 1 <= old(formatVersion) && target < old(formatVersion)
      ensures error.Some? && error.value.ValidationFailed? ==>
                && old(formatVersion) <= error.value.version < target
                && (error.value.version !in chain || chain[error.value.version](data).None?)
      ensures error.None? ==> formatVersion == target
    {
      if formatVersion < 1 { return Some(InvalidBackupFile); }
      if formatVersion > target { return Some(FormatTooNew); }
      var v := formatVersion;
      while v < target
        invariant v == formatVersion <= target
        invariant Upgrade(old(formatVersion), old(data), target, chain) == Upgrade(v, data, target, chain)
      {
        if v !in chain { return Some(ValidationFailed(v)); }
        var next := chain[v](data);
        if next.None? { return Some(ValidationFailed(v)); }
        data := next.value;
        formatVersion := v + 1;
        v := v + 1;
      }
      return None;
    }
  }

  /** Migrating straight to the target equals stopping at any version on the way. */
  lemma {:induction false} UpgradeThrough(version: int, d: HouseholdData, mid: int, target: int,
          chain: map<int, TransformFunc>)
    requires version <= mid <= target
    ensures Upgrade(version, d, target, chain)
            == match Upgrade(version, d, mid, chain)
               case Ok(v, d') => Upgrade(v, d', target, chain)
               case Failed(e) => Failed(e)
    decreases mid - version
  {
    if version == mid || version !in chain || chain[version](d).None? {
    } else {
      UpgradeThrough(version + 1, chain[version](d).value, mid, target, chain);
    }
  }

  /** Both paths stop at the same version, and a gap in the chain refuses the file. */
  lemma {:induction false} UpgradeEnds(version: int, d: HouseholdData, target: int, chain: map<int, TransformFunc>)
    requires version <= target
    ensures Upgrade(version, d, target, chain).Ok? ==> Upgrade(version, d, target, chain).version == target
    ensures forall v :: version <= v < target && v !in chain ==> Upgrade(version, d, target, chain).Failed?
    decreases target - version
  {
    if version == target || version !in chain || chain[version](d).None? {
    } else {
      UpgradeEnds(version + 1, chain[version](d).value, target, chain);
    }
  }

  // ----- Only absent values -----------------------------------------------------

  /** Same row but for values that were absent: an empty code, or a missing link. */
  predicate OnlyFilledIn(r: Row, q: Row) {
    && q == r.(code := q.code, supersedes := q.supersedes)
    && (r.code != "" ==> q.code == r.code)
    && (r.supersedes.Some? ==> q.supersedes == r.supersedes)
  }

  ghost predicate RowsFilledIn(s: seq<Row>, t: seq<Row>) {
    |t| == |s| && forall i :: 0 <= i < |s| ==> OnlyFilledIn(s[i], t[i])
  }

  ghost predicate FilledIn(d: HouseholdData, e: HouseholdData) {
    && e.household == d.household.(rate := e.household.rate) && (d.household.rate != 0.0 ==> e.household == d.household)
    && (forall t :: RowsFilledIn(d.Section(t), e.Section(t)))
  }

  lemma FilledInOnSection(d: HouseholdData, t: Table, f: seq<Row> -> seq<Row>)
    requires forall s :: RowsFilledIn(s, f(s))
    ensures FilledIn(d, OnSection(d, t, f))
  {
  }

  lemma FilledInTransitive(a: HouseholdData, b: HouseholdData, c: HouseholdData)
    requires FilledIn(a, b) && FilledIn(b, c)
    ensures FilledIn(a, c)
  {
  }

  lemma FourSections(d: HouseholdData, f: seq<Row> -> seq<Row>, a: Table, b: Table, c: Table, e: Table)
    requires forall s :: RowsFilledIn(s, f(s))
    ensures FilledIn(d, OnSection(OnSection(OnSection(OnSection(d, a, f), b, f), c, f), e, f))
  {
    var d1 := OnSection(d, a, f);
    var d2 := OnSection(d1, b, f);
    var d3 := OnSection(d2, c, f);
    FilledInOnSection(d, a, f);
    FilledInOnSection(d1, b, f);
    FilledInOnSection(d2, c, f);
    FilledInOnSection(d3, e, f);
    FilledInTransitive(d, d1, d2);
    FilledInTransitive(d, d2, d3);
    FilledInTransitive(d, d3, OnSection(d3, e, f));
  }

  lemma TransformFillsIn(v: int, d: HouseholdData)
    requires 1 <= v < FORMAT_VERSION
    ensures v in TRANSFORMS && TRANSFORMS[v](d).Some? && FilledIn(d, TRANSFORMS[v](d).value)
  {
    if v == 1 {
      FilledInOnSection(d, BondDetails, s => Backfilled(s, "pays_out"));
    } else if v == 3 {
      FourSections(d, s => Backfilled(s, "acquired"), Assets, Liabilities, Receivables, Investments);
    } else if v == 4 {
      FourSections(d, s => Relinked(s), AssetSnapshots, LiabilitySnapshots, ReceivableSnapshots, InvestmentSnapshots);
    }
  }

  /** Every file from version 1 to 5 reaches version 5, changed only by filling in absent values. */
  lemma {:induction false} ProductionUpgrade(version: int, d: HouseholdData)
    requires 1 <= version <= FORMAT_VERSION
    ensures var r := Migrate(version, d, FORMAT_VERSION, TRANSFORMS);
            r.Ok? && r.version == FORMAT_VERSION && FilledIn(d, r.data)
    decreases FORMAT_VERSION - version
  {
    if version == FORMAT_VERSION {
    } else {
      TransformFillsIn(version, d);
      var d' := TRANSFORMS[version](d).value;
      ProductionUpgrade(version + 1, d');
      FilledInTransitive(d, d', Migrate(version + 1, d', FORMAT_VERSION, TRANSFORMS).data);
    }
  }

  // ----- What migration fills in ------------------------------------------------

  /** What a version-v file's section becomes in the current version. */
  function UpgradedSection(version: int, d: HouseholdData, t: Table): seq<Row> {
    var s := d.Section(t);
    if version <= 1 && t.BondDetails? then Backfilled(s, "pays_out")
    else if version <= 3 && IsPosition(t) then Backfilled(s, "acquired")
    else if version <= 4 && IsSnapshot(t) then Relinked(s)
    else s
  }

  function UpgradedHousehold(version: int, d: HouseholdData): Row {
    if version <= 2 && d.household.rate == 0.0 then d.household.(rate := 3.5) else d.household
  }

  lemma SectionAfter(d: HouseholdData, t: Table, f: seq<Row> -> seq<Row>, u: Table)
    requires f([]) == []
    ensures OnSection(d, t, f).Section(u) == if u == t then f(d.Section(u)) else d.Section(u)
    ensures OnSection(d, t, f).household == d.household
  {
  }

  lemma FourSectionsAfter(d: HouseholdData, f: seq<Row> -> seq<Row>, a: Table, b: Table, c: Table, e: Table, u: Table)
    requires f([]) == [] && a != b && a != c && a != e && b != c && b != e && c != e
    ensures var after := OnSection(OnSection(OnSection(OnSection(d, a, f), b, f), c, f), e, f);
            && after.Section(u) == (if u == a || u == b || u == c || u == e then f(d.Section(u)) else d.Section(u))
            && after.household == d.household
  {
    hide OnSection;
    SectionAfter(d, a, f, u);
    SectionAfter(OnSection(d, a, f), b, f, u);
    SectionAfter(OnSection(OnSection(d, a, f), b, f), c, f, u);
    SectionAfter(OnSection(OnSection(OnSection(d, a, f), b, f), c, f), e, f, u);
  }

  lemma CouponSections(d: HouseholdData, t: Table)
    ensures WithCouponDisposition(d).Section(t)
            == if t.BondDetails? then Backfilled(d.Section(t), "pays_out") else d.Section(t)
    ensures WithCouponDisposition(d).household == d.household
  {
  }

  lemma InflationSections(d: HouseholdData, t: Table)
    ensures WithInflation(d).Section(t) == d.Section(t)
    ensures WithInflation(d).household == UpgradedHousehold(2, d)
  {
  }

  lemma EntryTypeSections(d: HouseholdData, t: Table)
    ensures WithEntryType(d).Section(t) == if IsPosition(t) then Backfilled(d.Section(t), "acquired") else d.Section(t)
    ensures WithEntryType(d).household == d.household
  {
    hide OnSection;
    FourSectionsAfter(d, s => Backfilled(s, "acquired"), Assets, Liabilities, Receivables, Investments, t);
  }

  lemma LinkSections(d: HouseholdData, t: Table)
    ensures WithLinks(d).Section(t) == if IsSnapshot(t) then Relinked(d.Section(t)) else d.Section(t)
    ensures WithLinks(d).household == d.household
  {
    hide OnSection;
    FourSectionsAfter(d, s => Relinked(s), AssetSnapshots, LiabilitySnapshots, ReceivableSnapshots, InvestmentSnapshots,
      t);
  }

  /** One transform does its own version's part of the upgrade and leaves the rest to do. */
  lemma TransformUpgrades(v: int, d: HouseholdData, t: Table)
    requires 1 <= v < FORMAT_VERSION
    ensures v in TRANSFORMS && TRANSFORMS[v](d).Some?
    ensures UpgradedSection(v + 1, TRANSFORMS[v](d).value, t) == UpgradedSection(v, d, t)
    ensures UpgradedHousehold(v + 1, TRANSFORMS[v](d).value) == UpgradedHousehold(v, d)
  {
    hide WithCouponDisposition, WithInflation, WithEntryType, WithLinks, HouseholdData.Section, Backfilled, Relinked;
    CouponSections(d, t);
    InflationSections(d, t);
    EntryTypeSections(d, t);
    LinkSections(d, t);
  }

  /** The whole chain, from any version: bonds pay out where they said nothing, positions were
      acquired, a missing inflation rate is 3.5, snapshot links are rebuilt, nothing else moves. */
  lemma {:induction false} ProductionResult(version: int, d: HouseholdData, t: Table)
    requires 1 <= version <= FORMAT_VERSION
    ensures var r := Migrate(version, d, FORMAT_VERSION, TRANSFORMS);
            r.Ok? && r.data.Section(t) == UpgradedSection(version, d, t)
              && r.data.household == UpgradedHousehold(version, d)
    decreases FORMAT_VERSION - version
  {
    if version == FORMAT_VERSION {
    } else {
      hide UpgradedSection, UpgradedHousehold;
      TransformUpgrades(version, d, t);
      ProductionResult(version + 1, TRANSFORMS[version](d).value, t);
    }
  }

  /** The same value by value, for a file of any version: an empty coupon disposition becomes
      "pays_out", an empty entry type "acquired", an inflation rate of zero 3.5, each only in a file
      of a version that did not know the column; every other column and section is as it was, apart
      from the links of snapshots. */
  lemma DefaultsFilledIn(version: int, d: HouseholdData, t: Table, i: int)
    requires 1 <= version <= FORMAT_VERSION && 0 <= i < |d.Section(t)|
    ensures var e, r := Migrate(version, d, FORMAT_VERSION, TRANSFORMS).data, d.Section(t)[i];
            && |e.Section(t)| == |d.Section(t)|
            && (t.BondDetails? && version == 1 ==>
                  e.Section(t)[i] == r.(code := if r.code == "" then "pays_out" else r.code))
            && (t in {Assets, Liabilities, Receivables, Investments} && version <= 3 ==>
                  e.Section(t)[i] == r.(code := if r.code == "" then "acquired" else r.code))
            && (t in {AssetSnapshots, LiabilitySnapshots, ReceivableSnapshots, InvestmentSnapshots} ==>
                  e.Section(t)[i] == r.(supersedes := e.Section(t)[i].supersedes))
            && (t.BondDetails? && version > 1 ==> e.Section(t)[i] == r)
            && (t in {Assets, Liabilities, Receivables, Investments} && version > 3 ==> e.Section(t)[i] == r)
            && (!IsPosition(t) && !IsSnapshot(t) && !t.BondDetails? ==> e.Section(t)[i] == r)
  {
    hide Migrate;
    ProductionResult(version, d, t);
  }

  lemma RateFilledIn(version: int, d: HouseholdData)
    requires 1 <= version <= FORMAT_VERSION
    ensures Migrate(version, d, FORMAT_VERSION, TRANSFORMS).data.household
            == if version <= 2 && d.household.rate == 0.0 then d.household.(rate := 3.5) else d.household
  {
    hide Migrate;
    ProductionResult(version, d, Users);
  }

  // ----- What migration leaves alone --------------------------------------------

  lemma SameIds(d: HouseholdData, e: HouseholdData, t: Table)
    requires FilledIn(d, e)
    ensures Ids(d.Section(t)) == Ids(e.Section(t))
  {
  }

  /** Migration never changes the outcome of the graph check, the membership match or the
      declared counts. */
  lemma VerdictsSurvive(d: HouseholdData, e: HouseholdData, caller: Caller, name: string)
    requires FilledIn(d, e)
    ensures GraphOk(d) <==> GraphOk(e)
    ensures FirstCaller(d.Section(Users), caller) == FirstCaller(e.Section(Users), caller)
    ensures ActualCount(e, name) == ActualCount(d, name)
  {
    forall t, c, i | Policed(t, c) && 0 <= i < |d.Section(t)|
      ensures ColumnOk(d, t, c, d.Section(t)[i]) <==> ColumnOk(e, t, c, e.Section(t)[i])
    {
      assert RowsFilledIn(d.Section(t), e.Section(t));
      SameIds(d, e, References(t, c).value);
    }
    assert RowsFilledIn(d.Section(Users), e.Section(Users));
    SameFirst(d.Section(Users), e.Section(Users), caller);
  }

  lemma {:induction false} SameFirst(s: seq<Row>, t: seq<Row>, caller: Caller)
    requires |s| == |t|
    requires forall i :: 0 <= i < |s| ==> s[i].id == t[i].id && (IsCaller(s[i], caller) <==> IsCaller(t[i], caller))
    ensures FirstCaller(s, caller) == FirstCaller(t, caller)
  {
    if s == [] || IsCaller(s[0], caller) {
    } else {
      assert forall i :: 0 <= i < |s[1..]| ==> s[1..][i] == s[i + 1] && t[1..][i] == t[i + 1];
      SameFirst(s[1..], t[1..], caller);
    }
  }
}
