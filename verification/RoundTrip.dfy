/** What a backup that validated still needs to load, and what restoring one's own backup does. */
module RoundTrip {
  import opened Rows
  import opened Backup
  import opened Restore
  import opened Load
  import opened Commit
  import opened Export

  // ----- What the graph check leaves to the database -----------------------------

  predicate HasTarget(db: Tables, d: HouseholdData, u: Table, id: Id) {
    Key(u, id) in db || InPayload(d, Key(u, id))
  }

  predicate IsUnpoliced(t: Table, c: Column) {
    References(t, c).Some? && !Policed(t, c)
  }

  /** The references no check looks at: audit columns, supersedes, the household of an inflation
      rate, and the household's own audit columns. */
  ghost predicate UnpolicedOk(db: Tables, d: HouseholdData) {
    forall k, c :: InPayload(d, k) && PayloadRow(d, k).Ref(c).Some? && IsUnpoliced(k.table, c) ==>
      HasTarget(db, d, References(k.table, c).value, PayloadRow(d, k).Ref(c).value)
  }

  lemma PolicedResolves(db: Tables, d: HouseholdData, k: Key, c: Column)
    requires GraphOk(d) && InPayload(d, k) && Policed(k.table, c) && PayloadRow(d, k).Ref(c).Some?
    ensures HasTarget(db, d, References(k.table, c).value, PayloadRow(d, k).Ref(c).value)
  {
  }

  /** A payload that passed the graph check meets every foreign key once loaded if and only if
      its unpoliced references resolve. */
  lemma ValidatedLoads(db: Tables, d: HouseholdData)
    requires FkOk(db) && FreshPayload(db, d) && GraphOk(d)
    ensures FkOk(Restored(db, d)) <==> UnpolicedOk(db, d)
  {
    var all := Restored(db, d);
    if UnpolicedOk(db, d) {
      forall k, c | k in all ensures Resolves(all, k, c) {
        if k in db {
          assert Resolves(db, k, c);
        } else if Policed(k.table, c) && all[k].Ref(c).Some? {
          PolicedResolves(db, d, k, c);
        }
      }
    }
    if FkOk(all) {
      forall k, c | InPayload(d, k) && References(k.table, c).Some? && PayloadRow(d, k).Ref(c).Some?
        ensures HasTarget(db, d, References(k.table, c).value, PayloadRow(d, k).Ref(c).value)
      {
        assert Resolves(all, k, c);
      }
    }
  }

  // ----- Restoring one's own backup -------------------------------------------------

  /** No reference crosses the household's boundary, in either direction. */
  ghost predicate SelfContained(db: Tables, hid: Id) {
    forall k, c :: k in db && References(k.table, c).Some? && db[k].Ref(c).Some? ==>
      (RefersInto(db, k, c, hid) <==> OwnedBy(db, k, hid))
  }

  predicate Carried(db: Tables, hid: Id, f: Fidelity, k: Key) {
    k in db && if k.table.Households? then k.id == hid else BackedUp(k.table) && Selected(db, hid, f, k)
  }

  /** Everyone else's rows and the ones this backup of the household carries. */
  ghost function Kernel(db: Tables, hid: Id, f: Fidelity): Tables {
    map k | k in db && (!OwnedBy(db, k, hid) || Carried(db, hid, f, k)) :: db[k]
  }

  /** If the row is carried, so is the row this column names. */
  predicate StaysInside(db: Tables, hid: Id, f: Fidelity, k: Key, c: Column) {
    Carried(db, hid, f, k) && References(k.table, c).Some? && db[k].Ref(c).Some? ==>
      Carried(db, hid, f, Key(References(k.table, c).value, db[k].Ref(c).value))
  }

  /** Every reference of a carried row names a carried row. */
  ghost predicate ClosedSelection(db: Tables, hid: Id, f: Fidelity) {
    forall k, c :: StaysInside(db, hid, f, k, c)
  }

  lemma SectionIsSelected(db: Tables, hid: Id, f: Fidelity, d: HouseholdData, t: Table, id: Id)
    requires NotNullOk(db) && IsExport(d, db, hid, f) && BackedUp(t)
    ensures id in Ids(d.Section(t)) <==> Carried(db, hid, f, Key(t, id))
    ensures forall i :: 0 <= i < |d.Section(t)| && d.Section(t)[i].id == id ==>
            Key(t, id) in db && d.Section(t)[i] == db[Key(t, id)]
  {
    var s := d.Section(t);
    assert Lists(t, s, SelectedRows(db, t, hid, f));
    forall i | 0 <= i < |s| && s[i].id == id ensures Carried(db, hid, f, Key(t, id)) && s[i] == db[Key(t, id)] {
      assert s[i] in s;
    }
    if Carried(db, hid, f, Key(t, id)) {
      assert Selected(db, hid, f, Key(t, id));
      assert db[Key(t, id)] in s;
      var i :| 0 <= i < |s| && s[i] == db[Key(t, id)];
    }
  }

  // ----- What an export carries, column by column -------------------------------------

  /** The row's parent column names a live row of the household. */
  predicate UnderLive(db: Tables, hid: Id, k: Key, parents: Table)
    requires k in db
  {
    && db[k].parent.Some?
    && var p := Key(parents, db[k].parent.value); p in db && db[p].household == Some(hid) && db[p].deleted.None?
  }

  predicate UnderOurs(db: Tables, hid: Id, k: Key, parents: Table)
    requires k in db
  {
    && db[k].parent.Some?
    && var p := Key(parents, db[k].parent.value); p in db && db[p].household == Some(hid)
  }

  lemma OwnRowSelected(db: Tables, hid: Id, f: Fidelity, k: Key)
    requires k.table in {Users, Tags, Assets, Investments, Liabilities, Receivables, Income, FxRates, InflationRates}
    ensures Carried(db, hid, f, k) <==>
            k in db && db[k].household == Some(hid) && (f.Full? || db[k].deleted.None?)
  {
  }

  lemma DetailSelected(db: Tables, hid: Id, f: Fidelity, k: Key)
    requires IsDetail(k.table)
    ensures Carried(db, hid, f, k) <==>
            && k in db && UnderOurs(db, hid, k, ParentTable(k.table).value)
            && (f.Full? || UnderLive(db, hid, k, ParentTable(k.table).value))
  {
  }

  lemma LedgerRowSelected(db: Tables, hid: Id, f: Fidelity, k: Key)
    requires k.table.InvestmentTransactions?
    ensures Carried(db, hid, f, k) <==>
            && k in db && UnderOurs(db, hid, k, Investments)
            && (f.Full? || (UnderLive(db, hid, k, Investments) && db[k].deleted.None?))
  {
  }

  predicate NamedByLive(db: Tables, t: Table, id: Id) {
    exists c :: c in db && c.table == t && db[c].deleted.None? && db[c].supersedes == Some(id)
  }

  lemma SnapshotSelected(db: Tables, hid: Id, f: Fidelity, k: Key)
    requires IsSnapshot(k.table)
    ensures Carried(db, hid, f, k) <==>
            && k in db && UnderOurs(db, hid, k, ParentTable(k.table).value)
            && (f.Full? || (UnderLive(db, hid, k, ParentTable(k.table).value)
                            && (db[k].deleted.None? || NamedByLive(db, k.table, k.id))))
  {
  }

  /** What a section of a backup lists, by kind of table; a full backup lists deleted rows too. */
  ghost predicate Listed(db: Tables, hid: Id, f: Fidelity, k: Key) {
    && k in db
    && match k.table
       case BankAccountDetails | PropertyDetails | VehicleDetails =>
         UnderOurs(db, hid, k, Assets) && (f.Full? || UnderLive(db, hid, k, Assets))
       case StockDetails | MutualFundDetails | BondDetails | GoldDetails | TimeDepositDetails =>
         UnderOurs(db, hid, k, Investments) && (f.Full? || UnderLive(db, hid, k, Investments))
       case AssetSnapshots => SnapshotListed(db, hid, f, k, Assets)
       case LiabilitySnapshots => SnapshotListed(db, hid, f, k, Liabilities)
       case ReceivableSnapshots => SnapshotListed(db, hid, f, k, Receivables)
       case InvestmentSnapshots => SnapshotListed(db, hid, f, k, Investments)
       case InvestmentTransactions =>
         UnderOurs(db, hid, k, Investments) && (f.Full? || (UnderLive(db, hid, k, Investments) && db[k].deleted.None?))
       case _ => db[k].household == Some(hid) && (f.Full? || db[k].deleted.None?)
  }

  ghost predicate SnapshotListed(db: Tables, hid: Id, f: Fidelity, k: Key, parents: Table)
    requires k in db
  {
    && UnderOurs(db, hid, k, parents)
    && (f.Full? || (UnderLive(db, hid, k, parents) && (db[k].deleted.None? || NamedByLive(db, k.table, k.id))))
  }

  /** A full backup carries every row of the household. A compacted one carries its live users,
      tags, positions, income and rates; the details of its live positions; the live ledger rows of
      its live investments; and of the snapshots of its live positions those that are live or that
      a live one names. */
  lemma ExportCarries(db: Tables, hid: Id, f: Fidelity, d: HouseholdData, t: Table, id: Id)
    requires NotNullOk(db) && IsExport(d, db, hid, f) && BackedUp(t)
    ensures id in Ids(d.Section(t)) <==> Listed(db, hid, f, Key(t, id))
  {
    SectionIsSelected(db, hid, f, d, t, id);
    hide IsExport, NotNullOk, Carried, UnderLive, UnderOurs;
    var k := Key(t, id);
    if IsDetail(t) {
      DetailSelected(db, hid, f, k);
    } else if IsSnapshot(t) {
      SnapshotSelected(db, hid, f, k);
    } else if t.InvestmentTransactions? {
      LedgerRowSelected(db, hid, f, k);
    } else {
      OwnRowSelected(db, hid, f, k);
    }
  }

  lemma PayloadIsCarried(db: Tables, hid: Id, f: Fidelity, d: HouseholdData, k: Key)
    requires NotNullOk(db) && IsExport(d, db, hid, f)
    ensures InPayload(d, k) <==> Carried(db, hid, f, k)
    ensures InPayload(d, k) ==> PayloadRow(d, k) == db[k]
  {
    if BackedUp(k.table) { SectionIsSelected(db, hid, f, d, k.table, k.id); }
    assert Key(k.table, k.id) == k;
  }

  lemma SortedDistinct(db: Tables, t: Table, hid: Id, f: Fidelity, s: seq<Row>)
    requires NotNullOk(db) && Lists(t, s, SelectedRows(db, t, hid, f))
    ensures DistinctIds(s)
  {
    forall i, j | 0 <= i < j < |s| ensures s[i].id != s[j].id {
      assert s[i] in s && s[j] in s && Before(t, s[i], s[j]);
    }
  }

  lemma RestoredIsKernel(db: Tables, hid: Id, f: Fidelity, d: HouseholdData)
    requires NotNullOk(db) && IsExport(d, db, hid, f)
    ensures Restored(Survivors(db, hid), d) == Kernel(db, hid, f) && FreshPayload(Survivors(db, hid), d)
  {
    hide Kept, NotNullOk, IsExport;
    var a, b := Restored(Survivors(db, hid), d), Kernel(db, hid, f);
    forall k ensures k in a <==> k in b
             ensures k in b ==> a[k] == b[k]
    {
      PayloadIsCarried(db, hid, f, d, k);
    }
    assert a == b;
    forall k | InPayload(d, k) ensures k !in Survivors(db, hid) { PayloadIsCarried(db, hid, f, d, k); }
    SectionsDistinct(db, hid, f, d);
  }

  lemma SectionsDistinct(db: Tables, hid: Id, f: Fidelity, d: HouseholdData)
    requires NotNullOk(db) && IsExport(d, db, hid, f)
    ensures forall t :: DistinctIds(d.Section(t))
  {
    forall t ensures DistinctIds(d.Section(t)) {
      if BackedUp(t) {
        assert Lists(t, d.Section(t), SelectedRows(db, t, hid, f));
        SortedDistinct(db, t, hid, f, d.Section(t));
      }
    }
  }

  lemma KernelConsistent(db: Tables, hid: Id, f: Fidelity)
    requires Consistent(db) && SelfContained(db, hid)
    ensures Consistent(Kernel(db, hid, f)) <==> ClosedSelection(db, hid, f)
  {
    hide UniqueOk, Slots, Kept;
    var b := Kernel(db, hid, f);
    if ClosedSelection(db, hid, f) {
      forall k, c | k in b ensures Resolves(b, k, c) {
        assert Resolves(db, k, c) && StaysInside(db, hid, f, k, c);
      }
    }
    if FkOk(b) {
      forall k, c ensures StaysInside(db, hid, f, k, c) {
        if Carried(db, hid, f, k) && References(k.table, c).Some? && db[k].Ref(c).Some? {
          assert Resolves(b, k, c);
          assert RefersInto(db, k, c, hid);
        }
      }
    }
    FewerRowsUnique(db, b);
  }

  /** A household may restore its own backup exactly when the backup's rows refer only to one
      another; the result is then everyone else's rows and the carried ones. */
  lemma OwnBackupCommits(db: Tables, hid: Id, f: Fidelity, d: HouseholdData, caller: Caller)
    requires Consistent(db) && SelfContained(db, hid) && IsExport(d, db, hid, f)
    requires caller.householdId == hid && FirstCaller(d.Section(Users), caller).Some?
    ensures Committable(db, d, caller) <==> ClosedSelection(db, hid, f)
    ensures Committed(db, d, caller)
            == WithCredential(Kernel(db, hid, f), FirstCaller(d.Section(Users), caller).value, Stashed(db, caller))
  {
    hide FkOk, UniqueOk, NotNullOk, ClosedSelection, Kernel, FreshPayload, Restored, Survivors, IsExport, OwnedBy,
      FirstCaller;
    RestoredIsKernel(db, hid, f, d);
    KernelConsistent(db, hid, f);
  }

  /** A full backup of the household itself always qualifies. */
  lemma FullSelectionClosed(db: Tables, hid: Id)
    requires Consistent(db) && SelfContained(db, hid)
    ensures ClosedSelection(db, hid, Full)
  {
    hide UniqueOk, Kept;
    forall k, c ensures StaysInside(db, hid, Full, k, c) {
      if Carried(db, hid, Full, k) && References(k.table, c).Some? && db[k].Ref(c).Some? {
        assert Resolves(db, k, c) && RefersInto(db, k, c, hid);
        ParentsFirst(k.table, c);
      }
    }
  }

  // ----- What the restore leaves ------------------------------------------------------

  lemma CredentialWiped(db: Tables, hid: Id, f: Fidelity, user: Id)
    requires NotNullOk(db) && Carried(db, hid, f, Key(Users, user))
    ensures Key(LocalCredentials, user) !in Kernel(db, hid, f)
  {
  }

  ghost predicate RestoresTo(db: Tables, hid: Id, f: Fidelity, after: Tables, user: Id, hash: Option<string>, k: Key) {
    && (k in db && !OwnedBy(db, k, hid) ==> k in after && after[k] == db[k])
    && (Carried(db, hid, f, k) ==> k in after && after[k] == db[k])
    && (k in after && k != Key(LocalCredentials, user) ==> k in db && (!OwnedBy(db, k, hid) || Carried(db, hid, f, k)))
    && (hash.Some? ==> Key(LocalCredentials, user) in after && after[Key(LocalCredentials, user)].code == hash.value)
    && (hash.None? ==> Key(LocalCredentials, user) !in after)
  }

  lemma CommittedRow(db: Tables, hid: Id, f: Fidelity, user: Id, hash: Option<string>, k: Key)
    requires NotNullOk(db) && Carried(db, hid, f, Key(Users, user))
    ensures RestoresTo(db, hid, f, WithCredential(Kernel(db, hid, f), user, hash), user, hash, k)
  {
    CredentialWiped(db, hid, f, user);
  }

  lemma CallerIsCarried(db: Tables, hid: Id, f: Fidelity, d: HouseholdData, caller: Caller)
    requires NotNullOk(db) && IsExport(d, db, hid, f) && FirstCaller(d.Section(Users), caller).Some?
    ensures Carried(db, hid, f, Key(Users, FirstCaller(d.Section(Users), caller).value))
  {
    var user := FirstCaller(d.Section(Users), caller).value;
    assert user in Ids(d.Section(Users));
    SectionIsSelected(db, hid, f, d, Users, user);
  }

  /** The caller restores a backup of their own household that is fit to be restored. */
  ghost predicate OwnRestore(db: Tables, hid: Id, f: Fidelity, d: HouseholdData, caller: Caller) {
    && Consistent(db) && SelfContained(db, hid) && IsExport(d, db, hid, f)
    && caller.householdId == hid && FirstCaller(d.Section(Users), caller).Some? && ClosedSelection(db, hid, f)
  }

  /** Afterwards every other household's rows and every carried row of this one are exactly as
      they were; of the rest of this household (reports, invitations, sessions, reset tokens,
      credentials) only the caller's password is left, bound to the user they were matched to. */
  lemma OwnBackupRestores(db: Tables, hid: Id, f: Fidelity, d: HouseholdData, caller: Caller, k: Key)
    requires OwnRestore(db, hid, f, d, caller)
    ensures Committable(db, d, caller)
    ensures RestoresTo(db, hid, f, Committed(db, d, caller), FirstCaller(d.Section(Users), caller).value,
            Stashed(db, caller), k)
    ensures var mine := Key(LocalCredentials, caller.userId);
            var restored, after := Key(LocalCredentials, FirstCaller(d.Section(Users), caller).value),
              Committed(db, d, caller);
            if caller.googleSub.None? && mine in db then restored in after && after[restored].code == db[mine].code
            else restored !in after
  {
    hide SelfContained, IsExport, FkOk, UniqueOk, Kernel, WithCredential, Committed, ClosedSelection, Stashed, OwnedBy,
      FirstCaller;
    OwnBackupCommits(db, hid, f, d, caller);
    CallerIsCarried(db, hid, f, d, caller);
    CommittedRow(db, hid, f, FirstCaller(d.Section(Users), caller).value, Stashed(db, caller), k);
    PasswordCarried(db, d, caller);
  }

  /** A row has the same owner wherever its parent is unchanged. */
  lemma SameOwner(db: Tables, after: Tables, hid: Id, k: Key)
    requires k in db && k in after && after[k] == db[k]
    requires ParentTable(k.table).Some? && db[k].parent.Some? ==>
               var p := Key(ParentTable(k.table).value, db[k].parent.value);
               p in db && p in after && after[p] == db[p]
    ensures OwnedBy(after, k, hid) <==> OwnedBy(db, k, hid)
  {
  }

  /** A row's parent is on the row's side of the household's boundary. */
  lemma ParentSide(db: Tables, hid: Id, f: Fidelity, k: Key)
    requires Consistent(db) && SelfContained(db, hid) && ClosedSelection(db, hid, f) && k in db
             && ParentTable(k.table).Some?
    ensures db[k].parent.Some?
    ensures var p := Key(ParentTable(k.table).value, db[k].parent.value);
            p in db && (Carried(db, hid, f, k) ==> Carried(db, hid, f, p))
              && (!OwnedBy(db, k, hid) ==> !OwnedBy(db, p, hid))
  {
    hide UniqueOk, OwnedBy, Carried;
    assert Resolves(db, k, Parent) && StaysInside(db, hid, f, k, Parent);
    assert References(k.table, Parent) == ParentTable(k.table) && db[k].Ref(Parent) == db[k].parent;
    assert RefersInto(db, k, Parent, hid) <==> OwnedBy(db, k, hid);
  }

  lemma ParentStays(db: Tables, hid: Id, f: Fidelity, d: HouseholdData, caller: Caller, k: Key)
    requires OwnRestore(db, hid, f, d, caller) && k in db && ParentTable(k.table).Some?
    requires Carried(db, hid, f, k) || !OwnedBy(db, k, hid)
    ensures db[k].parent.Some?
    ensures var p := Key(ParentTable(k.table).value, db[k].parent.value);
            p in db && p in Committed(db, d, caller) && Committed(db, d, caller)[p] == db[p]
  {
    hide Consistent, SelfContained, IsExport, Committed, ClosedSelection, OwnedBy, Carried, FirstCaller;
    ParentSide(db, hid, f, k);
    OwnBackupRestores(db, hid, f, d, caller, Key(ParentTable(k.table).value, db[k].parent.value));
  }

  /** What a full export of the restored household selects. */
  lemma SelectedAfter(db: Tables, hid: Id, f: Fidelity, d: HouseholdData, caller: Caller, k: Key)
    requires OwnRestore(db, hid, f, d, caller) && BackedUp(k.table)
    ensures var after := Committed(db, d, caller);
            && (Selected(after, hid, Full, k) <==> Selected(db, hid, f, k))
            && (Selected(after, hid, Full, k) ==> after[k] == db[k])
  {
    hide Consistent, SelfContained, IsExport, Committed, ClosedSelection, OwnedBy, Kept, FirstCaller;
    OwnBackupRestores(db, hid, f, d, caller, k);
    var after := Committed(db, d, caller);
    if k in db && k in after {
      if ParentTable(k.table).Some? { ParentStays(db, hid, f, d, caller, k); }
      SameOwner(db, after, hid, k);
    }
  }

  lemma SameSelection(db: Tables, hid: Id, f: Fidelity, d: HouseholdData, caller: Caller, t: Table)
    requires OwnRestore(db, hid, f, d, caller) && BackedUp(t)
    ensures SelectedRows(Committed(db, d, caller), t, hid, Full) == SelectedRows(db, t, hid, f)
  {
    hide Consistent, SelfContained, IsExport, ClosedSelection, Committed, FirstCaller, OwnedBy, Kept;
    var after := Committed(db, d, caller);
    forall k | k in after && k.table == t && Selected(after, hid, Full, k)
      ensures k in db && Selected(db, hid, f, k) && db[k] == after[k]
    {
      SelectedAfter(db, hid, f, d, caller, k);
    }
    forall k | k in db && k.table == t && Selected(db, hid, f, k)
      ensures k in after && Selected(after, hid, Full, k) && db[k] == after[k]
    {
      SelectedAfter(db, hid, f, d, caller, k);
    }
    SameRows(after, t, hid, Full, db, f);
    SameRows(db, t, hid, f, after, Full);
  }

  lemma SameRows(a: Tables, t: Table, hid: Id, f: Fidelity, b: Tables, g: Fidelity)
    requires forall k :: k in a && k.table == t && Selected(a, hid, f, k) ==>
             k in b && Selected(b, hid, g, k) && b[k] == a[k]
    ensures SelectedRows(a, t, hid, f) <= SelectedRows(b, t, hid, g)
  {
  }

  /** A full export of the restored household is the very backup that was restored. */
  lemma ReExportIdentical(db: Tables, hid: Id, f: Fidelity, d: HouseholdData, caller: Caller, again: HouseholdData)
    requires OwnRestore(db, hid, f, d, caller) && IsExport(again, Committed(db, d, caller), hid, Full)
    ensures again == d
  {
    hide Consistent, Committed, ClosedSelection, SelfContained, OwnedBy, FirstCaller;
    OwnBackupRestores(db, hid, f, d, caller, Key(Households, hid));
    forall t | BackedUp(t) ensures again.sections[t] == d.sections[t] {
      SameSelection(db, hid, f, d, caller, t);
      ListingUnique(t, again.Section(t), d.Section(t), SelectedRows(db, t, hid, f));
    }
    assert again.sections == d.sections;
  }
}
