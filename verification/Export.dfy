/** Gathering one household into a backup. */
module Export {
  import opened Rows
  import opened Backup
  import opened Restore

  function OrZero(x: Option<int>): int {
    if x.Some? then x.value else 0
  }

  /** The leading ORDER BY columns of the table's export query. */
  function SortColumns(t: Table, r: Row): (int, int) {
    if IsDetail(t) then (OrZero(r.parent), 0)
    else if IsSnapshot(t) || t.InvestmentTransactions? then (OrZero(r.parent), r.month)
    else if t.FxRates? then (r.month, r.rank)
    else if IsFlow(t) then (r.month, 0)
    else (OrZero(r.created), 0)
  }

  /** ORDER BY those columns, then the primary key. */
  predicate Before(t: Table, a: Row, b: Row) {
    var x, y := SortColumns(t, a), SortColumns(t, b);
    x.0 < y.0 || (x.0 == y.0 && (x.1 < y.1 || (x.1 == y.1 && a.id < b.id)))
  }

  predicate ParentIsLive(db: Tables, k: Key)
    requires k in db
  {
    && ParentTable(k.table).Some? && db[k].parent.Some?
    && var p := Key(ParentTable(k.table).value, db[k].parent.value); p in db && db[p].deleted.None?
  }

  /** A live row of the same table supersedes it. */
  predicate SupersededByLive(db: Tables, k: Key) {
    exists c :: c in db && c.table == k.table && db[c].deleted.None? && db[c].supersedes == Some(k.id)
  }

  /** The rows a compacted backup carries. */
  predicate Kept(db: Tables, k: Key)
    requires k in db
  {
    if IsDetail(k.table) then ParentIsLive(db, k)
    else if IsSnapshot(k.table) then ParentIsLive(db, k) && (db[k].deleted.None? || SupersededByLive(db, k))
    else if k.table.InvestmentTransactions? then ParentIsLive(db, k) && db[k].deleted.None?
    else db[k].deleted.None?
  }

  predicate Selected(db: Tables, hid: Id, f: Fidelity, k: Key) {
    k in db && OwnedBy(db, k, hid) && (f.Full? || Kept(db, k))
  }

  function SelectedRows(db: Tables, t: Table, hid: Id, f: Fidelity): set<Row> {
    set k | k in db && k.table == t && Selected(db, hid, f, k) :: db[k]
  }

  predicate StrictlySorted(t: Table, items: seq<Row>) {
    forall i, j :: 0 <= i < j < |items| ==> Before(t, items[i], items[j])
  }

  ghost predicate Lists(t: Table, items: seq<Row>, rows: set<Row>) {
    StrictlySorted(t, items) && forall r :: r in items <==> r in rows
  }

  ghost predicate IsExport(d: HouseholdData, db: Tables, hid: Id, f: Fidelity) {
    && Key(Households, hid) in db && d.household == db[Key(Households, hid)]
    && (forall t :: t in d.sections <==> BackedUp(t))
    && (forall t :: BackedUp(t) ==> Lists(t, d.Section(t), SelectedRows(db, t, hid, f)))
  }

  /** A strict order on rows with distinct ids. */
  lemma BeforeOrders(t: Table, a: Row, b: Row, c: Row)
    ensures Before(t, a, b) && Before(t, b, c) ==> Before(t, a, c)
    ensures a.id != b.id ==> Before(t, a, b) || Before(t, b, a)
  {
  }

  lemma {:induction false} LeastExists(t: Table, rows: set<Row>)
    requires rows != {} && forall r, q :: r in rows && q in rows && r.id == q.id ==> r == q
    ensures exists r :: r in rows && forall q :: q in rows && q != r ==> Before(t, r, q)
    decreases rows
  {
    hide Before;
    var x :| x in rows;
    if rows - {x} == {} {
      assert rows == {x};
    } else {
      LeastExists(t, rows - {x});
      var r :| r in rows - {x} && forall q :: q in rows - {x} && q != r ==> Before(t, r, q);
      BeforeOrders(t, r, x, x);
      if Before(t, x, r) {
        forall q | q in rows && q != x ensures Before(t, x, q) {
          assert q in rows - {x};
          BeforeOrders(t, x, r, q);
        }
      } else {
        forall q | q in rows && q != r ensures Before(t, r, q) {
          assert q == x || q in rows - {x};
        }
      }
    }
  }

  /** The order of a listing: by parent then id for details; by parent, then month, then id for
      snapshots and ledger rows; by month, then currency, then id for rates; by date then id for
      income and inflation; otherwise by creation time, then id. */
  predicate InOrder(t: Table, a: Row, b: Row) {
    if IsDetail(t) then
      a.parent.Some? && b.parent.Some? ==>
        a.parent.value < b.parent.value || (a.parent == b.parent && a.id < b.id)
    else if IsSnapshot(t) || t.InvestmentTransactions? then
      a.parent.Some? && b.parent.Some? ==>
        a.parent.value < b.parent.value
        || (a.parent == b.parent && (a.month < b.month || (a.month == b.month && a.id < b.id)))
    else if t.FxRates? then
      a.month < b.month || (a.month == b.month && (a.rank < b.rank || (a.rank == b.rank && a.id < b.id)))
    else if t.Income? || t.InflationRates? then
      a.month < b.month || (a.month == b.month && a.id < b.id)
    else
      a.created.Some? && b.created.Some? ==>
        a.created.value < b.created.value || (a.created == b.created && a.id < b.id)
  }

  lemma BeforeMeans(t: Table, a: Row, b: Row)
    ensures Before(t, a, b) ==> InOrder(t, a, b)
  {
  }

  lemma ListedInOrder(t: Table, items: seq<Row>, rows: set<Row>)
    requires Lists(t, items, rows)
    ensures forall i, j :: 0 <= i < j < |items| ==> InOrder(t, items[i], items[j])
  {
    hide Before, InOrder;
    forall i, j | 0 <= i < j < |items| ensures InOrder(t, items[i], items[j]) { BeforeMeans(t, items[i], items[j]); }
  }

  method ListForExport(db: Tables, t: Table, hid: Id, f: Fidelity) returns (items: seq<Row>)
    requires NotNullOk(db)
    ensures Lists(t, items, SelectedRows(db, t, hid, f))
  {
    var rows := SelectedRows(db, t, hid, f);
    var todo := rows;
    items := [];
    while todo != {}
      invariant todo <= rows && StrictlySorted(t, items)
      invariant forall r :: r in items <==> r in rows && r !in todo
      invariant forall r, q :: r in items && q in todo ==> Before(t, r, q)
      decreases todo
    {
      LeastExists(t, todo);
      var r :| r in todo && forall q :: q in todo && q != r ==> Before(t, r, q);
      items := items + [r];
      todo := todo - {r};
    }
  }

  /** None when the household does not exist. */
  method Gather(db: Tables, hid: Id, f: Fidelity) returns (d: Option<HouseholdData>)
    requires NotNullOk(db)
    ensures d.Some? <==> Key(Households, hid) in db
    ensures d.Some? ==> IsExport(d.value, db, hid, f)
  {
    if Key(Households, hid) !in db { return None; }
    var sections: map<Table, seq<Row>> := map[];
    for n := 0 to BACKUP_TABLES
      invariant forall t :: t in sections <==> SectionIndex(t) < n
      invariant forall t :: t in sections ==> Lists(t, sections[t], SelectedRows(db, t, hid, f))
    {
      var t := BackupTable(n);
      SectionIndexInverts(n);
      var items := ListForExport(db, t, hid, f);
      sections := sections[t := items];
      forall u ensures SectionIndex(u) < n + 1 <==> SectionIndex(u) < n || u == t { SectionOrder(u, HouseholdId); }
    }
    forall t ensures BackedUp(t) <==> t in sections { SectionOrder(t, HouseholdId); }
    d := Some(HouseholdData(db[Key(Households, hid)], sections));
  }

  /** Two listings of the same rows are the same list. */
  lemma {:induction false} ListingUnique(t: Table, a: seq<Row>, b: seq<Row>, rows: set<Row>)
    requires Lists(t, a, rows) && Lists(t, b, rows)
    ensures a == b
  {
    if rows == {} {
      HeadIsListed(t, a, rows);
      HeadIsListed(t, b, rows);
    } else {
      FirstIsLeast(t, a, rows);
      FirstIsLeast(t, b, rows);
      Rest(t, a, rows);
      Rest(t, b, rows);
      ListingUnique(t, a[1..], b[1..], rows - {a[0]});
    }
  }

  lemma HeadIsListed(t: Table, a: seq<Row>, rows: set<Row>)
    requires Lists(t, a, rows)
    ensures a != [] ==> a[0] in rows
  {
  }

  lemma FirstIsLeast(t: Table, a: seq<Row>, rows: set<Row>)
    requires Lists(t, a, rows) && rows != {}
    ensures a != [] && a[0] in rows && forall r :: r in rows && r != a[0] ==> Before(t, a[0], r)
  {
  }

  lemma Rest(t: Table, a: seq<Row>, rows: set<Row>)
    requires Lists(t, a, rows) && a != []
    ensures Lists(t, a[1..], rows - {a[0]})
  {
  }
}
