/** Restoring one's own household from a version-4 full backup, a file made before links were
    kept: the file is migrated, its links inferred, and the result loaded. */
module MigratedRestore {
  import opened Rows
  import opened Backup
  import opened Restore
  import opened Load
  import opened Commit
  import opened Export
  import opened RoundTrip
  import opened LinkInference
  import opened CompactedRestore
  import C = Compaction
  import D = Displacement
  import M = Migration
  import R = MigratedRuns

  // ----- The file ---------------------------------------------------------------------

  function WithoutLinks(s: seq<Row>): (e: seq<Row>)
    ensures |e| == |s|
  {
    seq(|s|, i requires 0 <= i < |s| => s[i].(supersedes := None))
  }

  /** The backup as version 4 wrote it. */
  function WithoutAnyLinks(d: HouseholdData): HouseholdData {
    d.(sections := map t | t in d.sections :: if IsSnapshot(t) then WithoutLinks(d.sections[t]) else d.sections[t])
  }

  /** m is what the importer makes of that file. */
  ghost predicate IsMigrated(m: HouseholdData, d: HouseholdData) {
    M.Migrate(4, WithoutAnyLinks(d), M.FORMAT_VERSION, M.TRANSFORMS) == M.Ok(M.FORMAT_VERSION, m)
  }

  lemma MigratedSections(m: HouseholdData, d: HouseholdData, t: Table)
    requires IsMigrated(m, d)
    ensures m.household == d.household
    ensures m.Section(t) == if IsSnapshot(t) then Relinked(WithoutLinks(d.Section(t))) else d.Section(t)
  {
    M.ProductionResult(4, WithoutAnyLinks(d), t);
  }

  /** q is r but for its link. */
  predicate OnlyLink(r: Row, q: Row) {
    q == r.(supersedes := q.supersedes)
  }

  lemma RelinkedRow(s: seq<Row>, i: int)
    requires 0 <= i < |s|
    ensures OnlyLink(s[i], Relinked(WithoutLinks(s))[i])
    ensures var link := Relinked(WithoutLinks(s))[i].supersedes; link.Some? ==> link.value in Ids(s)
  {
    var e := WithoutLinks(s);
    if Relinked(e)[i].supersedes.Some? {
      var j :| 0 <= j < |e| && e[j].id == Relinked(e)[i].supersedes.value;
      assert s[j].id == e[j].id;
    }
  }

  lemma MigratedRowIs(m: HouseholdData, d: HouseholdData, t: Table, i: int)
    requires IsMigrated(m, d) && 0 <= i < |d.Section(t)|
    ensures |m.Section(t)| == |d.Section(t)| && OnlyLink(d.Section(t)[i], m.Section(t)[i])
    ensures !IsSnapshot(t) ==> m.Section(t) == d.Section(t)
    ensures IsSnapshot(t) && m.Section(t)[i].supersedes.Some? ==>
              m.Section(t)[i].supersedes.value in Ids(d.Section(t))
  {
    MigratedSections(m, d, t);
    RelinkedRow(d.Section(t), i);
  }

  lemma SameSectionIds(m: HouseholdData, d: HouseholdData, t: Table)
    requires IsMigrated(m, d)
    ensures |m.Section(t)| == |d.Section(t)| && Ids(m.Section(t)) == Ids(d.Section(t))
  {
    hide IsMigrated;
    MigratedSections(m, d, t);
    forall i | 0 <= i < |d.Section(t)| ensures m.Section(t)[i].id == d.Section(t)[i].id { MigratedRowIs(m, d, t, i); }
  }

  // ----- The household with its links inferred -------------------------------------------

  ghost function Reinferred(db: Tables, m: HouseholdData): Tables {
    map k | k in db :: if InPayload(m, k) then PayloadRow(m, k) else db[k]
  }

  /** Only the links of the household's snapshots differ, and they stay in it. */
  ghost predicate RowRedone(db: Tables, after: Tables, hid: Id, k: Key)
    requires k in db && k in after
  {
    && OnlyLink(db[k], after[k])
    && (!IsSnapshot(k.table) || !OwnedBy(db, k, hid) ==> after[k] == db[k])
    && (IsSnapshot(k.table) && OwnedBy(db, k, hid) && after[k].supersedes.Some? ==>
          var target := Key(k.table, after[k].supersedes.value); target in db && OwnedBy(db, target, hid))
  }

  ghost predicate LinksRedone(db: Tables, after: Tables, hid: Id) {
    after.Keys == db.Keys && forall k :: k in db ==> RowRedone(db, after, hid, k)
  }

  lemma FullIsCarried(db: Tables, hid: Id, k: Key)
    requires k in db && BackedUp(k.table)
    ensures Carried(db, hid, Full, k) <==> OwnedBy(db, k, hid)
  {
  }

  lemma ReinferredRow(db: Tables, hid: Id, d: HouseholdData, m: HouseholdData, k: Key)
    requires NotNullOk(db) && IsExport(d, db, hid, Full) && IsMigrated(m, d) && k in db
    ensures RowRedone(db, Reinferred(db, m), hid, k)
  {
    hide NotNullOk, IsExport, IsMigrated, OwnedBy, Carried;
    if BackedUp(k.table) {
      SameSectionIds(m, d, k.table);
      SectionIsSelected(db, hid, Full, d, k.table, k.id);
      assert Key(k.table, k.id) == k;
      FullIsCarried(db, hid, k);
      if InPayload(m, k) {
        var s := m.Section(k.table);
        var i :| 0 <= i < |s| && s[i] == PayloadRow(m, k) && s[i].id == k.id;
        MigratedRowIs(m, d, k.table, i);
        assert d.Section(k.table)[i] == db[k];
        if IsSnapshot(k.table) && PayloadRow(m, k).supersedes.Some? {
          LinkTarget(db, hid, d, k.table, PayloadRow(m, k).supersedes.value);
        }
      }
    } else {
      MigratedSections(m, d, k.table);
      HouseholdRow(db, hid, d, k);
    }
  }

  lemma LinkTarget(db: Tables, hid: Id, d: HouseholdData, t: Table, link: Id)
    requires NotNullOk(db) && IsExport(d, db, hid, Full) && BackedUp(t) && link in Ids(d.Section(t))
    ensures Key(t, link) in db && OwnedBy(db, Key(t, link), hid)
  {
    SectionIsSelected(db, hid, Full, d, t, link);
    CarriedIsOwned(db, hid, Full, Key(t, link));
  }

  lemma HouseholdRow(db: Tables, hid: Id, d: HouseholdData, k: Key)
    requires NotNullOk(db) && IsExport(d, db, hid, Full) && k in db && !BackedUp(k.table)
    ensures InPayload(d, k) ==> db[k] == d.household
    ensures !IsSnapshot(k.table)
  {
  }

  lemma ReinferredRedone(db: Tables, hid: Id, d: HouseholdData, m: HouseholdData)
    requires NotNullOk(db) && IsExport(d, db, hid, Full) && IsMigrated(m, d)
    ensures LinksRedone(db, Reinferred(db, m), hid)
  {
    hide NotNullOk, IsExport, IsMigrated, RowRedone;
    forall k | k in db ensures RowRedone(db, Reinferred(db, m), hid, k) { ReinferredRow(db, hid, d, m, k); }
  }

  lemma SameOwners(db: Tables, after: Tables, hid: Id, k: Key)
    requires LinksRedone(db, after, hid) && k in db
    ensures OwnedBy(after, k, hid) <==> OwnedBy(db, k, hid)
  {
    assert k in after.Keys && RowRedone(db, after, hid, k);
    if ParentTable(k.table).Some? && db[k].parent.Some? {
      var p := Key(ParentTable(k.table).value, db[k].parent.value);
      assert p in db <==> p in after.Keys;
      if p in db { assert RowRedone(db, after, hid, p); }
    }
  }

  lemma RedoneResolves(db: Tables, after: Tables, hid: Id, k: Key, c: Column)
    requires FkOk(db) && LinksRedone(db, after, hid) && k in after
    ensures Resolves(after, k, c)
  {
    assert k in after.Keys && RowRedone(db, after, hid, k) && Resolves(db, k, c);
    if References(k.table, c).Some? && after[k].Ref(c).Some? {
      assert Key(References(k.table, c).value, after[k].Ref(c).value) in db.Keys;
    }
  }

  lemma RedoneConsistent(db: Tables, after: Tables, hid: Id)
    requires Consistent(db) && LinksRedone(db, after, hid)
    ensures Consistent(after)
  {
    hide Slots, OwnedBy;
    forall k, c | k in after ensures Resolves(after, k, c) { RedoneResolves(db, after, hid, k, c); }
    forall k | k in after
      ensures k in db && OnlyLink(db[k], after[k]) && Slots(k.table, after[k]) == Slots(k.table, db[k])
    {
      assert k in db.Keys && RowRedone(db, after, hid, k);
      SameSlots(k.table, db[k], after[k]);
    }
    forall k, l | k in after && l in after && k.table == l.table && k != l
      ensures Slots(k.table, after[k]) !! Slots(l.table, after[l])
    {
      assert Slots(k.table, db[k]) !! Slots(l.table, db[l]);
    }
    assert UniqueOk(after) && FkOk(after) && NotNullOk(after);
  }

  lemma SameSlots(t: Table, r: Row, q: Row)
    requires OnlyLink(r, q)
    ensures Slots(t, q) == Slots(t, r)
  {
  }

  lemma RedoneSelfContained(db: Tables, after: Tables, hid: Id)
    requires Consistent(db) && SelfContained(db, hid) && LinksRedone(db, after, hid)
    ensures SelfContained(after, hid)
  {
    hide UniqueOk, NotNullOk, OwnedBy, LinksRedone;
    forall k, c | k in after && References(k.table, c).Some? && after[k].Ref(c).Some?
      ensures RefersInto(after, k, c, hid) <==> OwnedBy(after, k, hid)
    {
      RedoneReference(db, after, hid, k, c);
    }
  }

  lemma RedoneReference(db: Tables, after: Tables, hid: Id, k: Key, c: Column)
    requires Consistent(db) && SelfContained(db, hid) && LinksRedone(db, after, hid)
    requires k in after && References(k.table, c).Some? && after[k].Ref(c).Some?
    ensures RefersInto(after, k, c, hid) <==> OwnedBy(after, k, hid)
  {
    hide UniqueOk, NotNullOk, OwnedBy;
    assert k in db.Keys && RowRedone(db, after, hid, k);
    SameOwners(db, after, hid, k);
    var target := Key(References(k.table, c).value, after[k].Ref(c).value);
    RedoneResolves(db, after, hid, k, c);
    assert target in after.Keys && target in db;
    SameOwners(db, after, hid, target);
    if !(c.Supersedes? && IsSnapshot(k.table) && OwnedBy(db, k, hid)) {
      assert after[k].Ref(c) == db[k].Ref(c);
      assert RefersInto(db, k, c, hid) <==> OwnedBy(db, k, hid);
    }
  }

  // ----- The migrated file is that household's backup ----------------------------------------

  lemma ReinferredExport(db: Tables, hid: Id, d: HouseholdData, m: HouseholdData)
    requires Consistent(db) && IsExport(d, db, hid, Full) && IsMigrated(m, d)
    ensures IsExport(m, Reinferred(db, m), hid, Full)
  {
    var after := Reinferred(db, m);
    MigratedKeys(d, m);
    ReinferredHousehold(db, hid, d, m);
    forall t | BackedUp(t) ensures Lists(t, m.Section(t), SelectedRows(after, t, hid, Full)) {
      ReinferredSection(db, hid, d, m, t);
    }
  }

  lemma MigratedKeys(d: HouseholdData, m: HouseholdData)
    requires IsMigrated(m, d)
    ensures m.sections.Keys == d.sections.Keys
  {
    hide Relinked;
    assert M.Migrate(4, WithoutAnyLinks(d), M.FORMAT_VERSION, M.TRANSFORMS)
        == M.Upgrade(5, M.WithLinks(WithoutAnyLinks(d)), M.FORMAT_VERSION, M.TRANSFORMS);
  }

  lemma ReinferredHousehold(db: Tables, hid: Id, d: HouseholdData, m: HouseholdData)
    requires IsExport(d, db, hid, Full) && IsMigrated(m, d)
    ensures Key(Households, hid) in Reinferred(db, m) && m.household == Reinferred(db, m)[Key(Households, hid)]
  {
    MigratedSections(m, d, Households);
  }

  lemma ReinferredSorted(db: Tables, hid: Id, d: HouseholdData, m: HouseholdData, t: Table)
    requires IsExport(d, db, hid, Full) && IsMigrated(m, d) && BackedUp(t)
    ensures StrictlySorted(t, m.Section(t))
  {
    hide IsExport, IsMigrated, Before;
    var s, q := d.Section(t), m.Section(t);
    SameSectionIds(m, d, t);
    ListedSection(db, hid, d, t);
    forall i, j | 0 <= i < j < |q| ensures Before(t, q[i], q[j]) {
      MigratedRowIs(m, d, t, i);
      MigratedRowIs(m, d, t, j);
      SameOrder(t, s[i], q[i], s[j], q[j]);
    }
  }

  lemma ReinferredSection(db: Tables, hid: Id, d: HouseholdData, m: HouseholdData, t: Table)
    requires Consistent(db) && IsExport(d, db, hid, Full) && IsMigrated(m, d) && BackedUp(t)
    ensures Lists(t, m.Section(t), SelectedRows(Reinferred(db, m), t, hid, Full))
  {
    hide FkOk, UniqueOk, NotNullOk, IsExport, IsMigrated, OwnedBy, InPayload, StrictlySorted, RowRedone;
    var after, q := Reinferred(db, m), m.Section(t);
    ReinferredSorted(db, hid, d, m, t);
    ReinferredRedone(db, hid, d, m);
    forall i | 0 <= i < |q| ensures q[i] in SelectedRows(after, t, hid, Full) { ListedRow(db, hid, d, m, t, i); }
    forall k | k in after && k.table == t && Selected(after, hid, Full, k) ensures after[k] in q {
      SameOwners(db, after, hid, k);
      SelectedRow(db, hid, d, m, k);
    }
  }

  lemma ListedSection(db: Tables, hid: Id, d: HouseholdData, t: Table)
    requires IsExport(d, db, hid, Full) && BackedUp(t)
    ensures Lists(t, d.Section(t), SelectedRows(db, t, hid, Full))
  {
  }

  lemma SameOrder(t: Table, a: Row, a1: Row, b: Row, b1: Row)
    requires OnlyLink(a, a1) && OnlyLink(b, b1)
    ensures Before(t, a1, b1) <==> Before(t, a, b)
  {
  }

  lemma ListedRow(db: Tables, hid: Id, d: HouseholdData, m: HouseholdData, t: Table, i: int)
    requires Consistent(db) && IsExport(d, db, hid, Full) && IsMigrated(m, d) && BackedUp(t) && 0 <= i < |m.Section(t)|
    ensures var k := Key(t, m.Section(t)[i].id);
            k in Reinferred(db, m) && Reinferred(db, m)[k] == m.Section(t)[i]
              && Selected(Reinferred(db, m), hid, Full, k)
  {
    hide FkOk, UniqueOk, NotNullOk, IsExport, IsMigrated, OwnedBy;
    var k := Key(t, m.Section(t)[i].id);
    SameSectionIds(m, d, t);
    MigratedRowIs(m, d, t, i);
    SectionIsSelected(db, hid, Full, d, t, k.id);
    SectionsDistinct(db, hid, Full, d);
    assert k.id in Ids(m.Section(t)) && d.Section(t)[i].id == k.id;
    var j :| 0 <= j < |m.Section(t)| && m.Section(t)[j] == PayloadRow(m, k) && m.Section(t)[j].id == k.id;
    MigratedRowIs(m, d, t, j);
    assert DistinctIds(d.Section(t)) && d.Section(t)[j].id == k.id;
    ReinferredRedone(db, hid, d, m);
    SameOwners(db, Reinferred(db, m), hid, k);
    FullIsCarried(db, hid, k);
  }

  lemma SelectedRow(db: Tables, hid: Id, d: HouseholdData, m: HouseholdData, k: Key)
    requires Consistent(db) && IsExport(d, db, hid, Full) && IsMigrated(m, d) && BackedUp(k.table)
    requires k in db && OwnedBy(db, k, hid)
    ensures Reinferred(db, m)[k] in m.Section(k.table)
  {
    hide FkOk, UniqueOk, NotNullOk, IsExport, IsMigrated, OwnedBy;
    SameSectionIds(m, d, k.table);
    FullIsCarried(db, hid, k);
    assert Key(k.table, k.id) == k;
    SectionIsSelected(db, hid, Full, d, k.table, k.id);
    assert InPayload(m, k);
  }

  // ----- Loading it ----------------------------------------------------------------------

  lemma SameSurvivors(db: Tables, after: Tables, hid: Id)
    requires LinksRedone(db, after, hid)
    ensures Survivors(after, hid) == Survivors(db, hid)
  {
    hide LinksRedone, OwnedBy;
    var a, b := Survivors(after, hid), Survivors(db, hid);
    forall k ensures k in a <==> k in b
             ensures k in b ==> a[k] == b[k]
    {
      SameKeys(db, after, hid, k);
      if k in db { SameOwners(db, after, hid, k); }
    }
    assert a == b;
  }

  lemma SameKeys(db: Tables, after: Tables, hid: Id, k: Key)
    requires LinksRedone(db, after, hid)
    ensures k in after <==> k in db
    ensures k in db && (!IsSnapshot(k.table) || !OwnedBy(db, k, hid)) ==> after[k] == db[k]
  {
    assert k in after.Keys <==> k in db.Keys;
    if k in db { assert RowRedone(db, after, hid, k); }
  }

  /** Restoring the file into the household it was made from is restoring a full backup into the
      household with its links inferred. */
  lemma SameRestore(db: Tables, after: Tables, hid: Id, m: HouseholdData, caller: Caller)
    requires LinksRedone(db, after, hid) && SelfContained(db, hid) && SelfContained(after, hid)
    requires caller.householdId == hid && FirstCaller(m.Section(Users), caller).Some?
    ensures Committable(db, m, caller) <==> Committable(after, m, caller)
    ensures Committed(db, m, caller) == Committed(after, m, caller)
  {
    hide LinksRedone, OwnedBy, Survivors, Loadable, Restored, FirstCaller, WithCredential;
    SameSurvivors(db, after, hid);
    SameKeys(db, after, hid, Key(LocalCredentials, caller.userId));
  }

  lemma Restorable(db: Tables, hid: Id, d: HouseholdData, m: HouseholdData, caller: Caller)
    requires Consistent(db) && SelfContained(db, hid) && IsExport(d, db, hid, Full) && IsMigrated(m, d)
    requires caller.householdId == hid && FirstCaller(d.Section(Users), caller).Some?
    ensures LinksRedone(db, Reinferred(db, m), hid)
    ensures OwnRestore(Reinferred(db, m), hid, Full, m, caller)
    ensures FirstCaller(m.Section(Users), caller) == FirstCaller(d.Section(Users), caller)
    ensures GraphOk(m) && Committable(db, m, caller)
    ensures Committed(db, m, caller) == Committed(Reinferred(db, m), m, caller)
  {
    hide Consistent, SelfContained, IsExport, IsMigrated, ClosedSelection, Committable, Committed, FirstCaller, GraphOk,
      LinksRedone, Reinferred;
    var after := Reinferred(db, m);
    ReinferredRedone(db, hid, d, m) by { ConsistentIs(db); }
    RedoneConsistent(db, after, hid);
    RedoneSelfContained(db, after, hid);
    ReinferredExport(db, hid, d, m);
    MigratedSections(m, d, Users);
    FullSelectionClosed(after, hid);
    OwnBackupCommits(after, hid, Full, m, caller);
    SameRestore(db, after, hid, m, caller);
    ExportPasses(after, hid, Full, m);
    FullPoliced(after, hid);
  }

  lemma FullPoliced(db: Tables, hid: Id)
    requires ClosedSelection(db, hid, Full)
    ensures PolicedClosed(db, hid, Full)
  {
  }

  // ----- The groups -----------------------------------------------------------------------

  /** A restored full backup has the groups it was made from. */
  lemma FullGroup(db: Tables, hid: Id, d: HouseholdData, caller: Caller, t: Table, terminated: Row -> Option<int>)
    requires OwnRestore(db, hid, Full, d, caller) && IsSnapshot(t)
    ensures Group(Committed(db, d, caller), hid, t, terminated) == Group(db, hid, t, terminated)
  {
    hide Consistent, SelfContained, IsExport, ClosedSelection, Committed, FirstCaller, Group, Selected, OwnedBy;
    var after := Committed(db, d, caller);
    var a, b := Group(after, hid, t, terminated), Group(db, hid, t, terminated);
    forall id ensures id in a.rows <==> id in b.rows
              ensures id in a.rows ==> a.rows[id] == b.rows[id]
              ensures id in a.positions <==> id in b.positions
              ensures id in a.positions ==> a.positions[id] == b.positions[id]
    {
      GroupHolds(db, hid, t, terminated, id);
      GroupHolds(after, hid, t, terminated, id);
      var k, p := Key(t, id), Key(ParentTable(t).value, id);
      SelectedAfter(db, hid, Full, d, caller, k);
      SelectedAfter(db, hid, Full, d, caller, p);
      FullIsOwned(db, hid, k);
      FullIsOwned(after, hid, k);
      FullIsOwned(db, hid, p);
      FullIsOwned(after, hid, p);
    }
    assert a.rows == b.rows && a.positions == b.positions;
  }

  /** The group with its links inferred is the group model's migration of the original. */
  lemma ReinferredGroup(db: Tables, hid: Id, d: HouseholdData, m: HouseholdData, t: Table,
          terminated: Row -> Option<int>)
    requires Consistent(db) && IsExport(d, db, hid, Full) && IsMigrated(m, d) && IsSnapshot(t)
    ensures R.Migrated(Group(db, hid, t, terminated), Group(Reinferred(db, m), hid, t, terminated),
                       WithoutLinks(d.Section(t)))
  {
    hide Consistent, IsExport, IsMigrated, Group, OwnedBy, Reinferred, LinksRedone, Relinked;
    var after, e := Reinferred(db, m), WithoutLinks(d.Section(t));
    var b, f := Group(db, hid, t, terminated), Group(after, hid, t, terminated);
    ReinferredRedone(db, hid, d, m) by { ConsistentIs(db); }
    MigratedSections(m, d, t);
    forall id ensures id in f.positions <==> id in b.positions
              ensures id in b.positions ==> f.positions[id] == b.positions[id]
    {
      SamePosition(db, after, hid, t, terminated, id);
    }
    assert f.positions == b.positions;
    SectionIsGroup(db, hid, d, t, terminated);
    MigratedIsGroup(db, hid, d, m, t, terminated);
  }

  lemma SamePosition(db: Tables, after: Tables, hid: Id, t: Table, terminated: Row -> Option<int>, id: Id)
    requires LinksRedone(db, after, hid) && IsSnapshot(t)
    ensures var b, f := Group(db, hid, t, terminated), Group(after, hid, t, terminated);
            (id in f.positions <==> id in b.positions) && (id in b.positions ==> f.positions[id] == b.positions[id])
  {
    hide LinksRedone, OwnedBy, Group;
    var p := Key(ParentTable(t).value, id);
    GroupHolds(db, hid, t, terminated, id);
    GroupHolds(after, hid, t, terminated, id);
    SameKeys(db, after, hid, p);
    if p in db { SameOwners(db, after, hid, p); }
  }

  lemma SectionIsGroup(db: Tables, hid: Id, d: HouseholdData, t: Table, terminated: Row -> Option<int>)
    requires Consistent(db) && IsExport(d, db, hid, Full) && IsSnapshot(t)
    ensures ErasedExport(WithoutLinks(d.Section(t)), Group(db, hid, t, terminated).rows)
  {
    hide FkOk, UniqueOk, NotNullOk, IsExport, OwnedBy, Group;
    var e, b := WithoutLinks(d.Section(t)), Group(db, hid, t, terminated);
    SectionsDistinct(db, hid, Full, d);
    assert DistinctIds(d.Section(t));
    forall i | 0 <= i < |e| ensures e[i].id in b.rows && e[i] == b.rows[e[i].id].(supersedes := None) {
      assert d.Section(t)[i].id in Ids(d.Section(t));
      InGroup(db, hid, d, t, terminated, e[i].id);
    }
    forall id | id in b.rows ensures exists i :: 0 <= i < |e| && e[i].id == id {
      InGroup(db, hid, d, t, terminated, id);
      var i :| 0 <= i < |d.Section(t)| && d.Section(t)[i].id == id;
      assert e[i].id == id;
    }
  }

  lemma InGroup(db: Tables, hid: Id, d: HouseholdData, t: Table, terminated: Row -> Option<int>, id: Id)
    requires Consistent(db) && IsExport(d, db, hid, Full) && IsSnapshot(t)
    ensures var b := Group(db, hid, t, terminated);
            && (id in Ids(d.Section(t)) <==> id in b.rows)
            && forall i :: 0 <= i < |d.Section(t)| && d.Section(t)[i].id == id ==>
               id in b.rows && d.Section(t)[i] == b.rows[id]
  {
    hide FkOk, UniqueOk, NotNullOk, IsExport, OwnedBy, Group;
    SectionIsSelected(db, hid, Full, d, t, id);
    GroupHolds(db, hid, t, terminated, id);
    if Key(t, id) in db { FullIsCarried(db, hid, Key(t, id)); }
    forall i | 0 <= i < |d.Section(t)| && d.Section(t)[i].id == id ensures id in Ids(d.Section(t)) {}
  }

  lemma MigratedIsGroup(db: Tables, hid: Id, d: HouseholdData, m: HouseholdData, t: Table,
          terminated: Row -> Option<int>)
    requires Consistent(db) && IsExport(d, db, hid, Full) && IsMigrated(m, d) && IsSnapshot(t)
    ensures Tabulates(m.Section(t), Group(Reinferred(db, m), hid, t, terminated).rows)
  {
    hide FkOk, UniqueOk, NotNullOk, IsExport, IsMigrated, OwnedBy, Group;
    var after, q := Reinferred(db, m), m.Section(t);
    var f := Group(after, hid, t, terminated).rows;
    forall i | 0 <= i < |q| ensures q[i].id in f && f[q[i].id] == q[i] {
      ListedRow(db, hid, d, m, t, i);
      FullIsOwned(after, hid, Key(t, q[i].id));
      GroupHolds(after, hid, t, terminated, q[i].id);
    }
    ReinferredRedone(db, hid, d, m);
    forall id | id in f ensures exists i :: 0 <= i < |q| && q[i].id == id {
      GroupHolds(after, hid, t, terminated, id);
      SameKeys(db, after, hid, Key(t, id));
      SameOwners(db, after, hid, Key(t, id));
      SelectedRow(db, hid, d, m, Key(t, id));
      RowHasItsId(after, db, hid, d, m, Key(t, id));
    }
  }

  lemma RowHasItsId(after: Tables, db: Tables, hid: Id, d: HouseholdData, m: HouseholdData, k: Key)
    requires NotNullOk(db) && LinksRedone(db, after, hid) && k in db
    ensures k in after && after[k].id == k.id
  {
    assert k in after.Keys && RowRedone(db, after, hid, k);
  }

  /** A household may always restore a full version-4 backup of its own; afterwards it shows what
      it would have shown, whatever requests follow, if and only if every visible row that
      displaced another is a zero row and the other displaced none. */
  lemma MigratedRestoreShowsTheSameIff(db: Tables, hid: Id, d: HouseholdData, m: HouseholdData, caller: Caller,
          t: Table, terminated: Row -> Option<int>, clock: Time)
    requires Consistent(db) && SelfContained(db, hid) && IsExport(d, db, hid, Full) && IsMigrated(m, d)
    requires caller.householdId == hid && FirstCaller(d.Section(Users), caller).Some?
    requires IsSnapshot(t) && D.Inv(Group(db, hid, t, terminated).rows, clock)
    ensures GraphOk(m) && FirstCaller(m.Section(Users), caller).Some? && Committable(db, m, caller)
    ensures var before, after := Group(db, hid, t, terminated), Group(Committed(db, m, caller), hid, t, terminated);
            R.Inferable(before)
            <==> forall ticks :: D.Legal(before, clock, ticks) && D.Legal(after, clock, ticks) ==>
              R.ShowTheSame(before, after, ticks)
  {
    hide Consistent, SelfContained, IsExport, IsMigrated, Committable, Committed, FirstCaller, GraphOk, Group,
      Reinferred, D.Inv, D.Legal, R.Inferable, R.ShowTheSame, R.Migrated, LinksRedone, OwnRestore;
    Restorable(db, hid, d, m, caller);
    FullGroup(Reinferred(db, m), hid, m, caller, t, terminated);
    ReinferredGroup(db, hid, d, m, t, terminated);
    R.MigrationShowsTheSameIff(Group(db, hid, t, terminated), Group(Reinferred(db, m), hid, t, terminated),
                               WithoutLinks(d.Section(t)), clock);
  }
}
