/** Rebuilding the close-to-displaced link on a backup section that predates it. */
module LinkInference {
  import opened Rows
  import opened Displacement
  import opened LifecycleUndo

  datatype LinkKey = LinkKey(parent: Option<Id>, month: int, at: Time)

  predicate IsDisplacedCandidate(r: Row) {
    r.deleted.Some? && r.amount != 0.0
  }

  predicate NeedsLink(r: Row) {
    r.deleted.None? && r.supersedes.None? && r.amount == 0.0 && r.created.Some?
  }

  /** The last archived non-zero row among the first n with this key. */
  function LastArchived(s: seq<Row>, n: nat, key: LinkKey): (r: Option<Id>)
    requires n <= |s|
    ensures r.Some? ==> exists j :: 0 <= j < n && IsDisplacedCandidate(s[j]) && s[j].id == r.value
                                    && key == LinkKey(s[j].parent, s[j].month, s[j].deleted.value)
    ensures r.None? ==> forall j :: 0 <= j < n && IsDisplacedCandidate(s[j]) ==>
                                      key != LinkKey(s[j].parent, s[j].month, s[j].deleted.value)
  {
    if n == 0 then None
    else
      var r := s[n - 1];
      if IsDisplacedCandidate(r) && key == LinkKey(r.parent, r.month, r.deleted.value) then Some(r.id)
      else LastArchived(s, n - 1, key)
  }

  function LinkFor(s: seq<Row>, r: Row): Option<Id>
    requires NeedsLink(r)
  {
    LastArchived(s, |s|, LinkKey(r.parent, r.month, r.created.value))
  }

  function Relinked(s: seq<Row>): (t: seq<Row>)
    ensures |t| == |s|
  {
    seq(|s|, i requires 0 <= i < |s| =>
      if NeedsLink(s[i]) && LinkFor(s, s[i]).Some? then s[i].(supersedes := LinkFor(s, s[i])) else s[i])
  }

  method LinkDisplacedSnapshots(rows: array<Row>)
    modifies rows
    ensures rows[..] == Relinked(old(rows[..]))
  {
    ghost var s := rows[..];
    var archived: map<LinkKey, Id> := map[];
    for i := 0 to rows.Length
      invariant rows[..] == s
      invariant forall k :: k in archived <==> LastArchived(s, i, k).Some?
      invariant forall k :: k in archived ==> archived[k] == LastArchived(s, i, k).value
    {
      var v := rows[i];
      if v.deleted.None? || v.amount == 0.0 { continue; }
      archived := archived[LinkKey(v.parent, v.month, v.deleted.value) := v.id];
    }
    for i := 0 to rows.Length
      invariant forall j :: 0 <= j < i ==> rows[j] == Relinked(s)[j]
      invariant forall j :: i <= j < rows.Length ==> rows[j] == s[j]
    {
      var v := rows[i];
      if v.deleted.Some? || v.supersedes.Some? || v.amount != 0.0 || v.created.None? { continue; }
      var key := LinkKey(v.parent, v.month, v.created.value);
      if key in archived {
        rows[i] := v.(supersedes := Some(archived[key]));
      }
    }
  }

  // ----- On an arbitrary section ------------------------------------------------

  predicate SameKey(r: Row, q: Row) {
    IsDisplacedCandidate(r) && IsDisplacedCandidate(q) && r.parent == q.parent && r.month == q.month
      && r.deleted == q.deleted
  }

  /** Archived non-zero rows have distinct keys, and ids are distinct. */
  ghost predicate DistinctKeys(s: seq<Row>) {
    && (forall i, j :: 0 <= i < |s| && 0 <= j < |s| && s[i].id == s[j].id ==> i == j)
    && (forall i, j :: 0 <= i < |s| && 0 <= j < |s| && SameKey(s[i], s[j]) ==> i == j)
  }

  ghost predicate Matches(s: seq<Row>, r: Row, j: int) {
    0 <= j < |s| && IsDisplacedCandidate(s[j]) && s[j].parent == r.parent && s[j].month == r.month
      && s[j].deleted == r.created
  }

  /** A row that needs a link gets the id of the matching archived row if and only if there is
      one; every other row, and every other column, is untouched. */
  lemma RelinkedMeaning(s: seq<Row>, i: int)
    requires DistinctKeys(s) && 0 <= i < |s|
    ensures Relinked(s)[i] == s[i].(supersedes := Relinked(s)[i].supersedes)
    ensures !NeedsLink(s[i]) ==> Relinked(s)[i] == s[i]
    ensures NeedsLink(s[i]) ==> forall j :: Matches(s, s[i], j) ==> Relinked(s)[i].supersedes == Some(s[j].id)
    ensures NeedsLink(s[i]) && Relinked(s)[i].supersedes.Some? ==>
              exists j :: Matches(s, s[i], j) && Relinked(s)[i].supersedes == Some(s[j].id)
  {
  }

  /** Running it over a file that already has its links changes nothing. */
  lemma RelinkTwice(s: seq<Row>)
    ensures Relinked(Relinked(s)) == Relinked(s)
  {
  }

  /** No two newly linked rows share a target when live rows are unique per month. */
  lemma NewLinksInjective(s: seq<Row>, i: int, j: int)
    requires DistinctKeys(s) && 0 <= i < |s| && 0 <= j < |s| && NeedsLink(s[i]) && NeedsLink(s[j])
    requires s[i].parent == s[j].parent && s[i].month == s[j].month ==> i == j
    requires Relinked(s)[i].supersedes.Some? && Relinked(s)[i].supersedes == Relinked(s)[j].supersedes
    ensures i == j
  {
  }

  // ----- On a reachable table ---------------------------------------------------

  /** A full export of the table with the supersedes column left out, in any order. */
  ghost predicate ErasedExport(s: seq<Row>, rows: map<Id, Row>) {
    && (forall i :: 0 <= i < |s| ==> s[i].id in rows && s[i] == rows[s[i].id].(supersedes := None))
    && (forall i, j :: 0 <= i < |s| && 0 <= j < |s| && s[i].id == s[j].id ==> i == j)
    && (forall id :: id in rows ==> exists i :: 0 <= i < |s| && s[i].id == id)
  }

  /** For every reachable table, inference gives a live row back exactly the link it had, if and
      only if that row is a zero row or had none. */
  lemma InferenceExact(s: seq<Row>, rows: map<Id, Row>, clock: Time, i: int)
    requires Inv(rows, clock) && ErasedExport(s, rows) && 0 <= i < |s| && s[i].deleted.None?
    ensures Relinked(s)[i].supersedes == rows[s[i].id].supersedes
            <==> s[i].amount == 0.0 || rows[s[i].id].supersedes.None?
  {
  }

  /** On every run: whatever requests a household has seen since it had no snapshots, leaving the
      links out of its export and inferring them again gives each live zero row the link it had. */
  lemma InferenceOnEveryRun(positions: map<Id, Position>, start: Time, ticks: seq<Tick>, s: seq<Row>, i: int)
    requires Legal(Book(positions, map[]), start, ticks)
    requires ErasedExport(s, Run(Book(positions, map[]), ticks).rows) && 0 <= i < |s| && s[i].deleted.None?
             && s[i].amount == 0.0
    ensures Relinked(s)[i].supersedes == Run(Book(positions, map[]), ticks).rows[s[i].id].supersedes
  {
    RunKeeps(Book(positions, map[]), start, ticks);
    InferenceExact(s, Run(Book(positions, map[]), ticks).rows, ClockAfter(start, ticks), i);
  }

  ghost predicate Tabulates(s: seq<Row>, rows: map<Id, Row>) {
    && (forall i :: 0 <= i < |s| ==> s[i].id in rows && rows[s[i].id] == s[i])
    && (forall id :: id in rows ==> exists i :: 0 <= i < |s| && s[i].id == id)
  }

  predicate OnlyLinkDiffers(r: Row, q: Row) {
    && q == r.(supersedes := q.supersedes)
    && (r.deleted.None? && r.amount == 0.0 ==> q == r)
  }

  lemma RelinkedShape(s: seq<Row>, i: int)
    requires 0 <= i < |s|
    ensures Relinked(s)[i] == s[i].(supersedes := Relinked(s)[i].supersedes)
  {
  }

  lemma MigratedRow(s: seq<Row>, rows: map<Id, Row>, migrated: map<Id, Row>, clock: Time, id: Id)
    requires Inv(rows, clock) && ErasedExport(s, rows) && Tabulates(Relinked(s), migrated)
    ensures id in rows <==> id in migrated
    ensures id in rows ==> OnlyLinkDiffers(rows[id], migrated[id])
  {
    hide Inv, Relinked;
    forall i | 0 <= i < |s| ensures Relinked(s)[i] == s[i].(supersedes := Relinked(s)[i].supersedes) {
      RelinkedShape(s, i);
    }
    if id in rows {
      var i :| 0 <= i < |s| && s[i].id == id;
      assert Relinked(s)[i].id == id;
      if Live(rows, id) { InferenceExact(s, rows, clock, i); }
    }
    if id in migrated {
      var i :| 0 <= i < |s| && Relinked(s)[i].id == id;
      assert s[i].id == id;
    }
  }

  /** Undoing any termination after migrating an export without links shows the same live
      amounts as undoing it in the household the export came from. */
  lemma UndoAfterMigration(s: seq<Row>, rows: map<Id, Row>, migrated: map<Id, Row>, clock: Time, pos: Id, month: int,
          now: Time)
    requires Inv(rows, clock) && clock < now && ErasedExport(s, rows) && Tabulates(Relinked(s), migrated)
    ensures var a, b := CloseReverted(rows, pos, month, now), CloseReverted(migrated, pos, month, now);
            a.Some? && b.Some? && AmountView(a.value) == AmountView(b.value)
  {
    LaterIsQuiet(rows, clock, now);
    CloseRevertedKeeps(rows, pos, month, now);
    forall id ensures id in rows <==> id in migrated
              ensures id in rows ==> OnlyLinkDiffers(rows[id], migrated[id])
    {
      MigratedRow(s, rows, migrated, clock, id);
    }
    SameUndo(rows, migrated, pos, month, now);
  }

  lemma ViewsAgree(a: map<Id, Row>, b: map<Id, Row>)
    requires a.Keys == b.Keys
    requires forall id :: id in a ==> a[id].deleted == b[id].deleted && a[id].amount == b[id].amount
    ensures AmountView(a) == AmountView(b)
  {
    forall id | id in AmountView(a) ensures id in AmountView(b) && AmountView(a)[id] == AmountView(b)[id] {
      assert id in a.Keys;
    }
    forall id | id in AmountView(b) ensures id in AmountView(a) {
      assert id in b.Keys;
    }
  }

  lemma SameUndo(rows: map<Id, Row>, other: map<Id, Row>, pos: Id, month: int, now: Time)
    requires UniqueLive(rows) && rows.Keys == other.Keys
    requires forall id :: id in rows ==> OnlyLinkDiffers(rows[id], other[id])
    requires CloseReverted(rows, pos, month, now).Some?
    ensures CloseReverted(other, pos, month, now).Some?
    ensures AmountView(CloseReverted(rows, pos, month, now).value)
            == AmountView(CloseReverted(other, pos, month, now).value)
  {
    forall id ensures LiveAt(rows, pos, month, id) <==> LiveAt(other, pos, month, id) {}
    if LiveId(rows, pos, month).Some? {
      assert SameMonth(rows, LiveId(rows, pos, month).value, LiveId(other, pos, month).value);
    }
    ViewsAgree(CloseReverted(rows, pos, month, now).value, CloseReverted(other, pos, month, now).value);
  }
}
