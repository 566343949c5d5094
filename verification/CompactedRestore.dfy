/** Restoring a compacted backup of one's own household: when it goes through, and what the
    household's close-snapshot history is worth afterwards. */
module CompactedRestore {
  import opened Rows
  import opened Backup
  import opened Restore
  import opened Load
  import opened Commit
  import opened Export
  import opened RoundTrip
  import D = Displacement
  import C = Compaction

  // ----- The graph check on one's own backup ------------------------------------------

  ghost predicate PolicedClosed(db: Tables, hid: Id, f: Fidelity) {
    forall k: Key, c: Column :: Policed(k.table, c) ==> StaysInside(db, hid, f, k, c)
  }

  lemma ExportedHousehold(db: Tables, hid: Id, f: Fidelity, d: HouseholdData)
    requires Consistent(db) && IsExport(d, db, hid, f)
    ensures d.household.id == hid && Carried(db, hid, f, Key(Households, hid))
  {
  }

  lemma OwnColumnsFit(db: Tables, hid: Id, f: Fidelity, k: Key, c: Column)
    requires Consistent(db) && Carried(db, hid, f, k) && Policed(k.table, c)
    ensures c.HouseholdId? ==> db[k].household == Some(hid)
    ensures c.Parent? ==> db[k].parent.Some?
    ensures c.HouseholdId? || BackedUp(References(k.table, c).value)
  {
  }

  lemma ExportColumn(db: Tables, hid: Id, f: Fidelity, d: HouseholdData, t: Table, c: Column, i: int)
    requires Consistent(db) && IsExport(d, db, hid, f) && Policed(t, c) && 0 <= i < |d.Section(t)|
    ensures ColumnOk(d, t, c, d.Section(t)[i]) <==> StaysInside(db, hid, f, Key(t, d.Section(t)[i].id), c)
  {
    hide UniqueOk, FkOk, IsExport, Carried;
    var r := d.Section(t)[i];
    SectionIsSelected(db, hid, f, d, t, r.id);
    assert r.id in Ids(d.Section(t));
    ExportedHousehold(db, hid, f, d);
    OwnColumnsFit(db, hid, f, Key(t, r.id), c);
    if r.Ref(c).Some? && !c.HouseholdId? {
      SectionIsSelected(db, hid, f, d, References(t, c).value, r.Ref(c).value);
    }
  }

  lemma CarriedIsListed(db: Tables, hid: Id, f: Fidelity, d: HouseholdData, k: Key)
    requires Consistent(db) && IsExport(d, db, hid, f) && Carried(db, hid, f, k) && BackedUp(k.table)
    ensures exists i :: 0 <= i < |d.Section(k.table)| && d.Section(k.table)[i].id == k.id
  {
    hide UniqueOk, FkOk, IsExport, Carried;
    SectionIsSelected(db, hid, f, d, k.table, k.id);
    assert Key(k.table, k.id) == k;
  }

  /** The graph check passes on an export exactly when its policed references stay inside it. */
  lemma ExportPasses(db: Tables, hid: Id, f: Fidelity, d: HouseholdData)
    requires Consistent(db) && IsExport(d, db, hid, f)
    ensures GraphOk(d) <==> PolicedClosed(db, hid, f)
  {
    hide Consistent, IsExport, Carried, ColumnOk;
    if PolicedClosed(db, hid, f) {
      forall t, c, i | Policed(t, c) && 0 <= i < |d.Section(t)| ensures ColumnOk(d, t, c, d.Section(t)[i]) {
        ExportColumn(db, hid, f, d, t, c, i);
      }
    }
    if GraphOk(d) {
      forall k: Key, c: Column | Policed(k.table, c) ensures StaysInside(db, hid, f, k, c) {
        if Carried(db, hid, f, k) {
          CarriedIsListed(db, hid, f, d, k);
          var i :| 0 <= i < |d.Section(k.table)| && d.Section(k.table)[i].id == k.id;
          ExportColumn(db, hid, f, d, k.table, c, i);
          assert ColumnOk(d, k.table, c, d.Section(k.table)[i]) && Key(k.table, k.id) == k;
        }
      }
    }
  }

  // ----- Which references can leave a compacted export --------------------------------

  predicate IsLive(db: Tables, k: Key) {
    k in db && db[k].deleted.None?
  }

  /** The row's reference, if set, names a live row. */
  predicate NamesLive(db: Tables, k: Key, c: Column)
    requires k in db
  {
    References(k.table, c).Some? && db[k].Ref(c).Some? ==>
      IsLive(db, Key(References(k.table, c).value, db[k].Ref(c).value))
  }

  predicate IsOwnerTagOrSource(c: Column) {
    c.SoleOwner? || c.TagId? || c.RolledFrom?
  }

  predicate IsAudit(c: Column) {
    c.CreatedBy? || c.UpdatedBy?
  }

  /** The household's live positions and income refer only to live owners, tags and rollover
      sources. */
  ghost predicate LiveReferences(db: Tables, hid: Id) {
    forall k, c :: IsOwnerTagOrSource(c) && IsLive(db, k) && OwnedBy(db, k, hid) ==> NamesLive(db, k, c)
  }

  /** Every carried row was created and last updated by users who are still members. */
  ghost predicate LiveAuthors(db: Tables, hid: Id) {
    forall k, c :: IsAudit(c) && Carried(db, hid, Compacted, k) ==> NamesLive(db, k, c)
  }

  /** Every carried snapshot links only to carried snapshots. */
  ghost predicate LinksStay(db: Tables, hid: Id) {
    forall k: Key :: StaysInside(db, hid, Compacted, k, Supersedes)
  }

  lemma TargetIsOurs(db: Tables, hid: Id, k: Key, c: Column)
    requires Consistent(db) && SelfContained(db, hid) && k in db && OwnedBy(db, k, hid)
    requires References(k.table, c).Some? && db[k].Ref(c).Some?
    ensures var u := Key(References(k.table, c).value, db[k].Ref(c).value); u in db && OwnedBy(db, u, hid)
  {
  }

  lemma CarriedIsOwned(db: Tables, hid: Id, f: Fidelity, k: Key)
    requires Carried(db, hid, f, k)
    ensures k in db && OwnedBy(db, k, hid)
  {
  }

  /** A kept row's parent and household are kept with it. */
  lemma ScopeStaysInside(db: Tables, hid: Id, k: Key)
    requires Consistent(db) && SelfContained(db, hid)
    ensures StaysInside(db, hid, Compacted, k, Parent)
    ensures StaysInside(db, hid, Compacted, k, HouseholdId)
  {
    hide UniqueOk, FkOk, NotNullOk, SelfContained;
    if Carried(db, hid, Compacted, k) && References(k.table, Parent).Some? && db[k].parent.Some? {
      TargetIsOurs(db, hid, k, Parent);
    }
    if Carried(db, hid, Compacted, k) && References(k.table, HouseholdId).Some? && db[k].household.Some? {
      TargetIsOurs(db, hid, k, HouseholdId);
    }
  }

  lemma LiveIsCarried(db: Tables, hid: Id, k: Key)
    requires k in db && OwnedBy(db, k, hid)
             && (k.table.Users? || k.table.Tags? || IsPosition(k.table) || k.table.Income?)
    ensures Carried(db, hid, Compacted, k) <==> IsLive(db, k)
  {
  }

  /** Users, tags and positions are carried when they are live, and on no further condition. */
  lemma StaysInsideIfLive(db: Tables, hid: Id, k: Key, c: Column)
    requires Consistent(db) && SelfContained(db, hid) && (IsOwnerTagOrSource(c) || IsAudit(c))
             && Carried(db, hid, Compacted, k)
    ensures StaysInside(db, hid, Compacted, k, c) <==> NamesLive(db, k, c)
  {
    hide Consistent, SelfContained, OwnedBy, Kept;
    CarriedIsOwned(db, hid, Compacted, k);
    if References(k.table, c).Some? && db[k].Ref(c).Some? {
      TargetIsOurs(db, hid, k, c);
      LiveIsCarried(db, hid, Key(References(k.table, c).value, db[k].Ref(c).value));
    }
  }

  lemma ReferencesStay(db: Tables, hid: Id)
    requires Consistent(db) && SelfContained(db, hid)
    ensures (forall k, c :: IsOwnerTagOrSource(c) ==> StaysInside(db, hid, Compacted, k, c))
            <==> LiveReferences(db, hid)
  {
    hide Consistent, SelfContained, OwnedBy, Kept;
    forall k, c | IsOwnerTagOrSource(c) && k in db && OwnedBy(db, k, hid) && References(k.table, c).Some?
      ensures StaysInside(db, hid, Compacted, k, c) <==> (IsLive(db, k) ==> NamesLive(db, k, c))
    {
      LiveIsCarried(db, hid, k);
      if IsLive(db, k) { StaysInsideIfLive(db, hid, k, c); }
    }
    forall k | Carried(db, hid, Compacted, k)
      ensures k in db && OwnedBy(db, k, hid)
    {
      CarriedIsOwned(db, hid, Compacted, k);
    }
  }

  /** The graph check passes on a compacted export of one's household if and only if its live
      rows refer only to live ones. */
  lemma CompactedPasses(db: Tables, hid: Id, d: HouseholdData)
    requires Consistent(db) && SelfContained(db, hid) && IsExport(d, db, hid, Compacted)
    ensures GraphOk(d) <==> LiveReferences(db, hid)
  {
    hide Consistent, SelfContained, IsExport, GraphOk, Carried, LiveReferences;
    ExportPasses(db, hid, Compacted, d);
    ReferencesStay(db, hid);
    forall k: Key, c | Policed(k.table, c) && !IsOwnerTagOrSource(c) ensures StaysInside(db, hid, Compacted, k, c) {
      ScopeStaysInside(db, hid, k);
    }
    forall k: Key, c | IsOwnerTagOrSource(c) && !Policed(k.table, c) ensures StaysInside(db, hid, Compacted, k, c) {
      assert References(k.table, c).None?;
    }
  }

  // ----- Deleting a rolled-over investment ---------------------------------------------

  function SoftDeleted(db: Tables, k: Key, now: Time): Tables
    requires k in db
  {
    db[k := db[k].(deleted := Some(now))]
  }

  lemma SoftDeleteKeeps(db: Tables, hid: Id, k: Key, now: Time)
    requires Consistent(db) && SelfContained(db, hid) && k in db && k.table.Investments?
    ensures Consistent(SoftDeleted(db, k, now)) && SelfContained(SoftDeleted(db, k, now), hid)
  {
    hide Slots, Consistent, SelfContained;
    var after := SoftDeleted(db, k, now);
    assert FkOk(after) && NotNullOk(after) by { SoftDeleteReferences(db, hid, k, now); }
    assert UniqueOk(after) by { SoftDeleteUnique(db, k, now); }
    SoftDeleteReferences(db, hid, k, now);
    assert Consistent(after) by { ConsistentIs(after); }
  }

  lemma ConsistentIs(db: Tables)
    ensures Consistent(db) <==> FkOk(db) && UniqueOk(db) && NotNullOk(db)
  {
  }

  lemma SoftDeleteReferences(db: Tables, hid: Id, k: Key, now: Time)
    requires Consistent(db) && SelfContained(db, hid) && k in db && k.table.Investments?
    ensures FkOk(SoftDeleted(db, k, now)) && NotNullOk(SoftDeleted(db, k, now))
            && SelfContained(SoftDeleted(db, k, now), hid)
  {
    hide UniqueOk;
    var after := SoftDeleted(db, k, now);
    forall j, c | j in after ensures Resolves(after, j, c) { assert Resolves(db, j, c); }
    forall j, c | j in db ensures RefersInto(after, j, c, hid) <==> RefersInto(db, j, c, hid) {}
  }

  lemma SoftDeleteUnique(db: Tables, k: Key, now: Time)
    requires Consistent(db) && k in db && k.table.Investments?
    ensures UniqueOk(SoftDeleted(db, k, now))
  {
    hide FkOk, NotNullOk;
    var after := SoftDeleted(db, k, now);
    forall i, j | i in after && j in after && i.table == j.table && i != j
      ensures Slots(i.table, after[i]) !! Slots(j.table, after[j])
    {
      assert Slots(i.table, db[i]) !! Slots(j.table, db[j]);
    }
  }

  /** Soft-deleting an investment leaves the live rows referring to live ones exactly when no live
      investment was rolled over from it. */
  lemma DeletedSourceDangles(db: Tables, hid: Id, k: Key, now: Time)
    requires LiveReferences(db, hid) && IsLive(db, k) && k.table.Investments?
    ensures LiveReferences(SoftDeleted(db, k, now), hid)
            <==> forall j :: j != k && IsLive(db, j) && OwnedBy(db, j, hid) && j.table.Investments? ==>
              db[j].rolledFrom != Some(k.id)
  {
    var after := SoftDeleted(db, k, now);
    forall j | j in db ensures OwnedBy(after, j, hid) <==> OwnedBy(db, j, hid) {}
    if LiveReferences(after, hid) {
      forall j | j != k && IsLive(db, j) && OwnedBy(db, j, hid) && j.table.Investments?
        ensures db[j].rolledFrom != Some(k.id)
      {
        assert IsLive(after, j) && NamesLive(after, j, RolledFrom);
      }
    } else {
      var j, c :| IsOwnerTagOrSource(c) && IsLive(after, j) && OwnedBy(after, j, hid) && !NamesLive(after, j, c);
      assert IsLive(db, j) && NamesLive(db, j, c);
    }
  }

  /** So the household's next compacted backup fails its own graph check when one was. */
  lemma DeletedSourceFails(db: Tables, hid: Id, k: Key, now: Time, d: HouseholdData)
    requires Consistent(db) && SelfContained(db, hid) && LiveReferences(db, hid) && IsLive(db, k)
             && k.table.Investments?
    requires IsExport(d, SoftDeleted(db, k, now), hid, Compacted)
    ensures GraphOk(d)
            <==> forall j :: j != k && IsLive(db, j) && OwnedBy(db, j, hid) && j.table.Investments? ==>
              db[j].rolledFrom != Some(k.id)
  {
    hide Consistent, SelfContained, LiveReferences, IsExport, GraphOk;
    SoftDeleteKeeps(db, hid, k, now);
    CompactedPasses(SoftDeleted(db, k, now), hid, d);
    DeletedSourceDangles(db, hid, k, now);
  }

  const HOUSEHOLD := Key(Households, 1)
  const MEMBER := Key(Users, 2)
  const MATURED := Key(Investments, 3)
  const SUCCESSOR := Key(Investments, 4)

  /** A household, its member and an investment rolled over into another. */
  const ROLLED_OVER: Tables := map[
    HOUSEHOLD := BlankRow(1), MEMBER := BlankRow(2).(household := Some(1)),
    MATURED := BlankRow(3).(household := Some(1)),
    SUCCESSOR := BlankRow(4).(household := Some(1), rolledFrom := Some(3))]

  lemma RolledOverResolves()
    ensures FkOk(ROLLED_OVER)
  {
    forall k, c | k in ROLLED_OVER ensures Resolves(ROLLED_OVER, k, c) {
      assert k == HOUSEHOLD || k == MEMBER || k == MATURED || k == SUCCESSOR;
    }
  }

  lemma RolledOverUnique()
    ensures UniqueOk(ROLLED_OVER)
  {
    forall k, l | k in ROLLED_OVER && l in ROLLED_OVER && k.table == l.table && k != l
      ensures Slots(k.table, ROLLED_OVER[k]) !! Slots(l.table, ROLLED_OVER[l])
    {
      assert k.table.Investments?;
    }
  }

  lemma RolledOverConsistent()
    ensures Consistent(ROLLED_OVER)
  {
    hide FkOk, UniqueOk;
    RolledOverResolves();
    RolledOverUnique();
  }

  lemma RolledOverReferences()
    ensures SelfContained(ROLLED_OVER, 1) && LiveReferences(ROLLED_OVER, 1)
  {
    var db := ROLLED_OVER;
    forall k, c | k in db && References(k.table, c).Some? && db[k].Ref(c).Some? ensures RefersInto(db, k, c, 1) {}
    forall k | k in db ensures OwnedBy(db, k, 1) && IsLive(db, k) {}
  }

  /** Such a household exists, and deleting the matured investment breaks its next compacted backup. */
  lemma RolledOverExists()
    ensures Consistent(ROLLED_OVER) && SelfContained(ROLLED_OVER, 1) && LiveReferences(ROLLED_OVER, 1)
    ensures IsLive(ROLLED_OVER, MATURED) && !LiveReferences(SoftDeleted(ROLLED_OVER, MATURED, 5), 1)
  {
    hide Consistent, SelfContained, LiveReferences;
    RolledOverConsistent();
    RolledOverReferences();
    assert IsLive(ROLLED_OVER, SUCCESSOR) && OwnedBy(ROLLED_OVER, SUCCESSOR, 1)
           && ROLLED_OVER[SUCCESSOR].rolledFrom == Some(3);
    DeletedSourceDangles(ROLLED_OVER, 1, MATURED, 5);
  }

  lemma AuthorsStay(db: Tables, hid: Id)
    requires Consistent(db) && SelfContained(db, hid)
    ensures (forall k, c :: IsAudit(c) ==> StaysInside(db, hid, Compacted, k, c)) <==> LiveAuthors(db, hid)
  {
    hide Consistent, SelfContained, Carried, OwnedBy;
    forall k | Carried(db, hid, Compacted, k) ensures k in db { CarriedIsOwned(db, hid, Compacted, k); }
    forall k, c | IsAudit(c) && Carried(db, hid, Compacted, k)
      ensures StaysInside(db, hid, Compacted, k, c) <==> NamesLive(db, k, c)
    {
      StaysInsideIfLive(db, hid, k, c);
    }
  }

  lemma SelectionClosedIff(db: Tables, hid: Id)
    requires Consistent(db) && SelfContained(db, hid)
    ensures ClosedSelection(db, hid, Compacted)
            <==> LiveReferences(db, hid) && LiveAuthors(db, hid) && LinksStay(db, hid)
  {
    hide Consistent, SelfContained, StaysInside, LiveReferences, LiveAuthors;
    ReferencesStay(db, hid);
    AuthorsStay(db, hid);
    if LiveReferences(db, hid) && LiveAuthors(db, hid) && LinksStay(db, hid) {
      forall k, c ensures StaysInside(db, hid, Compacted, k, c) {
        ScopeStaysInside(db, hid, k);
        if c.Supersedes? { assert StaysInside(db, hid, Compacted, k, Supersedes); }
        assert IsOwnerTagOrSource(c) || IsAudit(c) || c.Parent? || c.HouseholdId? || c.Supersedes?;
      }
    }
  }

  // ----- The close-snapshot groups ----------------------------------------------------

  /** One position group of the household, as a book; `terminated` reads the month of
      terminated_at off a position row. */
  ghost function Group(db: Tables, hid: Id, t: Table, terminated: Row -> Option<int>): D.Book
    requires IsSnapshot(t)
  {
    D.Book(map k | k in db && k.table == ParentTable(t).value && OwnedBy(db, k, hid) ::
             k.id := D.Position(terminated(db[k]), db[k].deleted.None?),
           map k | k in db && k.table == t && OwnedBy(db, k, hid) :: k.id := db[k])
  }

  lemma GroupHolds(db: Tables, hid: Id, t: Table, terminated: Row -> Option<int>, id: Id)
    requires IsSnapshot(t)
    ensures var b, k, p := Group(db, hid, t, terminated), Key(t, id), Key(ParentTable(t).value, id);
            && (id in b.rows <==> k in db && OwnedBy(db, k, hid)) && (id in b.rows ==> b.rows[id] == db[k])
            && (id in b.positions <==> p in db && OwnedBy(db, p, hid))
            && (id in b.positions ==> b.positions[id] == D.Position(terminated(db[p]), db[p].deleted.None?))
  {
  }

  /** The compacted WHERE clause keeps exactly the rows the group model carries. */
  lemma KeptIsCarried(db: Tables, hid: Id, t: Table, terminated: Row -> Option<int>, id: Id)
    requires Consistent(db) && SelfContained(db, hid) && IsSnapshot(t)
    ensures Carried(db, hid, Compacted, Key(t, id)) <==> C.InFile(Group(db, hid, t, terminated), id)
  {
    hide UniqueOk, FkOk, SelfContained, Group;
    var b, k := Group(db, hid, t, terminated), Key(t, id);
    GroupHolds(db, hid, t, terminated, id);
    if id in b.rows {
      TargetIsOurs(db, hid, k, Parent);
      GroupHolds(db, hid, t, terminated, db[k].parent.value);
      SupersededInGroup(db, hid, t, terminated, id);
    }
  }

  lemma SupersededInGroup(db: Tables, hid: Id, t: Table, terminated: Row -> Option<int>, id: Id)
    requires Consistent(db) && SelfContained(db, hid) && IsSnapshot(t) && Key(t, id) in db
             && OwnedBy(db, Key(t, id), hid)
    ensures SupersededByLive(db, Key(t, id)) <==> C.HasLiveSuccessor(Group(db, hid, t, terminated).rows, id)
  {
    hide Consistent, Group, OwnedBy;
    var b := Group(db, hid, t, terminated);
    if SupersededByLive(db, Key(t, id)) {
      var c :| c in db && c.table == t && db[c].deleted.None? && db[c].supersedes == Some(id);
      assert RefersInto(db, c, Supersedes, hid);
      GroupHolds(db, hid, t, terminated, c.id);
      assert Key(t, c.id) == c;
      assert D.Live(b.rows, c.id);
    }
    if C.HasLiveSuccessor(b.rows, id) {
      var c :| D.Live(b.rows, c) && b.rows[c].supersedes == Some(id);
      GroupHolds(db, hid, t, terminated, c);
      assert Key(t, c) in db;
    }
  }

  /** Each group of the household is in a state the displacement protocol can reach. */
  ghost predicate GroupsSound(db: Tables, hid: Id, terminated: Row -> Option<int>, clock: Time) {
    forall t :: IsSnapshot(t) ==> D.Sound(Group(db, hid, t, terminated).rows, clock)
  }

  ghost predicate Unchained(db: Tables, hid: Id, terminated: Row -> Option<int>) {
    forall t, id :: IsSnapshot(t) ==> !C.Chained(Group(db, hid, t, terminated), id)
  }

  lemma GroupLinks(db: Tables, hid: Id, t: Table, terminated: Row -> Option<int>)
    requires Consistent(db) && SelfContained(db, hid) && IsSnapshot(t)
    ensures C.LinksClosed(C.Compacted(Group(db, hid, t, terminated)).rows)
            <==> forall id :: StaysInside(db, hid, Compacted, Key(t, id), Supersedes)
  {
    hide Consistent, SelfContained, Carried, C.InFile, Group;
    var b := Group(db, hid, t, terminated);
    forall id ensures Carried(db, hid, Compacted, Key(t, id)) <==> C.InFile(b, id)
              ensures C.InFile(b, id) ==> id in b.rows && Key(t, id) in db && b.rows[id] == db[Key(t, id)]
    {
      KeptIsCarried(db, hid, t, terminated, id);
      GroupHolds(db, hid, t, terminated, id);
      CarriedIsThere(b, id);
    }
    if C.LinksClosed(C.Compacted(b).rows) {
      forall id ensures StaysInside(db, hid, Compacted, Key(t, id), Supersedes) {
        if C.InFile(b, id) { assert id in C.Compacted(b).rows; }
      }
    }
  }

  lemma CarriedIsThere(b: D.Book, id: Id)
    ensures C.InFile(b, id) ==> id in b.rows
  {
  }

  lemma LinksStayIff(db: Tables, hid: Id, terminated: Row -> Option<int>, clock: Time)
    requires Consistent(db) && SelfContained(db, hid) && GroupsSound(db, hid, terminated, clock)
    ensures LinksStay(db, hid) <==> Unchained(db, hid, terminated)
  {
    hide Consistent, SelfContained, StaysInside, Group, D.Sound, C.Compacted, C.LinksClosed, C.Chained;
    forall t | IsSnapshot(t)
      ensures (forall id :: StaysInside(db, hid, Compacted, Key(t, id), Supersedes))
              <==> forall id :: !C.Chained(Group(db, hid, t, terminated), id)
    {
      GroupLinks(db, hid, t, terminated);
      C.ClosedIffUnchained(Group(db, hid, t, terminated), clock);
    }
    forall k: Key
      ensures IsSnapshot(k.table) || StaysInside(db, hid, Compacted, k, Supersedes)
    {
      NoLinkStays(db, hid, k);
    }
    if Unchained(db, hid, terminated) {
      forall k: Key ensures StaysInside(db, hid, Compacted, k, Supersedes) {
        assert Key(k.table, k.id) == k;
      }
    }
  }

  lemma NoLinkStays(db: Tables, hid: Id, k: Key)
    ensures !IsSnapshot(k.table) ==> StaysInside(db, hid, Compacted, k, Supersedes)
  {
  }

  /** A compacted backup of one's own household can be restored if and only if its live rows refer
      only to live ones, its authors are still members, and no live close row displaced a row
      that had itself displaced one. */
  lemma CompactedCommits(db: Tables, hid: Id, d: HouseholdData, caller: Caller, terminated: Row -> Option<int>,
          clock: Time)
    requires Consistent(db) && SelfContained(db, hid) && GroupsSound(db, hid, terminated, clock)
    requires IsExport(d, db, hid, Compacted) && caller.householdId == hid && FirstCaller(d.Section(Users), caller).Some?
    ensures Committable(db, d, caller) <==>
              LiveReferences(db, hid) && LiveAuthors(db, hid) && Unchained(db, hid, terminated)
  {
    hide Consistent, SelfContained, IsExport, Committable, FirstCaller, ClosedSelection, LiveReferences, LiveAuthors,
      LinksStay;
    OwnBackupCommits(db, hid, Compacted, d, caller);
    SelectionClosedIff(db, hid);
    LinksStayIff(db, hid, terminated, clock);
  }

  // ----- The restored groups -----------------------------------------------------------

  /** The restored group is exactly the group model's compaction of the original one. */
  lemma RestoredGroup(db: Tables, hid: Id, d: HouseholdData, caller: Caller, t: Table, terminated: Row -> Option<int>)
    requires OwnRestore(db, hid, Compacted, d, caller) && IsSnapshot(t)
    ensures Group(Committed(db, d, caller), hid, t, terminated) == C.Compacted(Group(db, hid, t, terminated))
  {
    hide Consistent, SelfContained, IsExport, ClosedSelection, Committed, FirstCaller, Group, C.InFile, Carried,
      Selected;
    var a, b := Group(Committed(db, d, caller), hid, t, terminated), C.Compacted(Group(db, hid, t, terminated));
    forall id ensures id in a.rows <==> id in b.rows
              ensures id in a.rows ==> a.rows[id] == b.rows[id]
    {
      RestoredGroupRow(db, hid, d, caller, t, terminated, id);
    }
    assert a.rows == b.rows;
    forall id ensures id in a.positions <==> id in b.positions
              ensures id in a.positions ==> a.positions[id] == b.positions[id]
    {
      RestoredGroupPosition(db, hid, d, caller, t, terminated, id);
    }
    assert a.positions == b.positions;
  }

  lemma FullIsOwned(db: Tables, hid: Id, k: Key)
    ensures Selected(db, hid, Full, k) <==> k in db && OwnedBy(db, k, hid)
  {
  }

  lemma SelectedIsCarried(db: Tables, hid: Id, f: Fidelity, k: Key)
    requires BackedUp(k.table)
    ensures Selected(db, hid, f, k) <==> Carried(db, hid, f, k)
  {
  }

  lemma RestoredGroupRow(db: Tables, hid: Id, d: HouseholdData, caller: Caller, t: Table,
          terminated: Row -> Option<int>, id: Id)
    requires OwnRestore(db, hid, Compacted, d, caller) && IsSnapshot(t)
    ensures var a, b := Group(Committed(db, d, caller), hid, t, terminated), C.Compacted(Group(db, hid, t, terminated));
            (id in a.rows <==> id in b.rows) && (id in a.rows ==> a.rows[id] == b.rows[id])
  {
    hide Consistent, SelfContained, IsExport, ClosedSelection, Committed, FirstCaller, Group, C.InFile, Carried,
      Selected, OwnedBy;
    SelectedAfter(db, hid, Compacted, d, caller, Key(t, id));
    FullIsOwned(Committed(db, d, caller), hid, Key(t, id));
    SelectedIsCarried(db, hid, Compacted, Key(t, id));
    KeptIsCarried(db, hid, t, terminated, id);
    GroupHolds(db, hid, t, terminated, id);
    GroupHolds(Committed(db, d, caller), hid, t, terminated, id);
    CarriedIsThere(Group(db, hid, t, terminated), id);
  }

  lemma RestoredGroupPosition(db: Tables, hid: Id, d: HouseholdData, caller: Caller, t: Table,
          terminated: Row -> Option<int>, id: Id)
    requires OwnRestore(db, hid, Compacted, d, caller) && IsSnapshot(t)
    ensures var a, b := Group(Committed(db, d, caller), hid, t, terminated), C.Compacted(Group(db, hid, t, terminated));
            (id in a.positions <==> id in b.positions) && (id in a.positions ==> a.positions[id] == b.positions[id])
  {
    hide Consistent, SelfContained, IsExport, ClosedSelection, Committed, FirstCaller, Group, C.InFile, Carried,
      Selected, OwnedBy;
    var p := Key(ParentTable(t).value, id);
    SelectedAfter(db, hid, Compacted, d, caller, p);
    FullIsOwned(Committed(db, d, caller), hid, p);
    SelectedIsCarried(db, hid, Compacted, p);
    if p in db && OwnedBy(db, p, hid) { LiveIsCarried(db, hid, p); }
    if Carried(db, hid, Compacted, p) { CarriedIsOwned(db, hid, Compacted, p); }
    GroupHolds(db, hid, t, terminated, id);
    GroupHolds(Committed(db, d, caller), hid, t, terminated, id);
  }

  /** Restoring one's own compacted backup commutes with everything that follows: after any
      further sequence of requests on a position group, undone terminations included, the
      restored household shows exactly what the original would have shown. */
  lemma CompactedRestoreCommutes(db: Tables, hid: Id, d: HouseholdData, caller: Caller, t: Table,
          terminated: Row -> Option<int>, clock: Time, ticks: seq<D.Tick>)
    requires OwnRestore(db, hid, Compacted, d, caller) && IsSnapshot(t)
    requires GroupsSound(db, hid, terminated, clock) && D.Legal(Group(db, hid, t, terminated), clock, ticks)
    ensures var before, after := D.Run(Group(db, hid, t, terminated), ticks),
            D.Run(Group(Committed(db, d, caller), hid, t, terminated), ticks);
            C.VisiblePositions(after) == C.VisiblePositions(before) && C.VisibleRows(after) == C.VisibleRows(before)
  {
    hide Consistent, SelfContained, IsExport, ClosedSelection, Committed, FirstCaller, Group, D.Sound, D.Legal, D.Run,
      C.Compacted, C.Chained, LiveReferences, LiveAuthors;
    SelectionClosedIff(db, hid);
    LinksStayIff(db, hid, terminated, clock);
    RestoredGroup(db, hid, d, caller, t, terminated);
    C.ClosedIffUnchained(Group(db, hid, t, terminated), clock);
    C.RestoredBehavesAsOriginal(Group(db, hid, t, terminated), clock, ticks);
  }
}
