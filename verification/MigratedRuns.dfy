/** A household migrated from a file without links, against the one the file was made from. */
module MigratedRuns {
  import opened Rows
  import opened Compaction
  import opened Displacement
  import opened LifecycleUndo
  import opened LinkInference
  import opened Reactivation

  /** f is b after its links were left out of a file and inferred again. */
  ghost predicate Migrated(b: Book, f: Book, s: seq<Row>) {
    f.positions == b.positions && ErasedExport(s, b.rows) && Tabulates(Relinked(s), f.rows)
  }

  /** Every visible row that displaced another is a zero row, and that other displaced none. */
  ghost predicate Inferable(b: Book) {
    forall c :: Live(b.rows, c) && UnderLivePosition(b, b.rows[c]) && b.rows[c].supersedes.Some? ==>
      b.rows[c].amount == 0.0
      && (b.rows[c].supersedes.value in b.rows ==> b.rows[b.rows[c].supersedes.value].supersedes.None?)
  }

  predicate LinkKept(r: Row, q: Row) {
    && q == r.(supersedes := q.supersedes)
    && (if r.deleted.None? && r.amount == 0.0 then q == r else q.supersedes.None?)
  }

  /** Migration keeps the links of live zero rows and loses every other. */
  lemma LinksKept(b: Book, f: Book, s: seq<Row>, clock: Time, id: Id)
    requires Inv(b.rows, clock) && Migrated(b, f, s)
    ensures id in b.rows <==> id in f.rows
    ensures id in b.rows ==> LinkKept(b.rows[id], f.rows[id])
  {
    MigratedRow(s, b.rows, f.rows, clock, id);
    if id in b.rows {
      var i :| 0 <= i < |s| && s[i].id == id;
      assert Relinked(s)[i].id == id;
    }
  }

  ghost predicate AllLinksKept(b: Book, f: Book) {
    && f.positions == b.positions && f.rows.Keys == b.rows.Keys
    && forall id :: id in b.rows ==> LinkKept(b.rows[id], f.rows[id])
  }

  lemma MigratedKeeps(b: Book, f: Book, s: seq<Row>, clock: Time)
    requires Inv(b.rows, clock) && Migrated(b, f, s)
    ensures AllLinksKept(b, f)
  {
    forall id ensures id in b.rows <==> id in f.rows
              ensures id in b.rows ==> LinkKept(b.rows[id], f.rows[id])
    {
      LinksKept(b, f, s, clock, id);
    }
  }

  lemma MigratedSound(b: Book, f: Book, clock: Time)
    requires Sound(b.rows, clock) && AllLinksKept(b, f)
    ensures Sound(f.rows, clock)
  {
    forall c | c in f.rows ensures LinkKept(b.rows[c], f.rows[c]) {}
    assert UniqueLive(f.rows) by {
      forall i, j | Live(f.rows, i) && Live(f.rows, j) && SameMonth(f.rows, i, j) ensures i == j {
        assert Live(b.rows, i) && Live(b.rows, j) && SameMonth(b.rows, i, j);
      }
    }
    assert Stamped(f.rows, clock) by {
      forall i, j | i in f.rows && j in f.rows && SameMonth(f.rows, i, j) && f.rows[i].created == f.rows[j].created
        ensures i == j
      {
        assert SameMonth(b.rows, i, j);
      }
    }
    forall c | c in f.rows && f.rows[c].supersedes.Some?
      ensures var d := f.rows[c].supersedes.value;
              d in f.rows && d != c && SameMonth(f.rows, c, d) && (InForce(f.rows, c, d) || Retired(f.rows, c))
    {
      assert f.rows[c] == b.rows[c];
      assert LinkKept(b.rows[b.rows[c].supersedes.value], f.rows[b.rows[c].supersedes.value]);
    }
  }

  /** When every link is inferable, compaction cannot tell the two apart. */
  lemma SameCompaction(b: Book, f: Book, clock: Time)
    requires Sound(b.rows, clock) && AllLinksKept(b, f) && Inferable(b)
    ensures Compacted(f) == Compacted(b) && LinksClosed(Compacted(b).rows)
  {
    forall id | id in b.rows ensures InFile(f, id) <==> InFile(b, id)
                             ensures InFile(b, id) ==> f.rows[id] == b.rows[id]
    {
      SameInFile(b, f, id);
    }
    assert Compacted(f).rows == Compacted(b).rows;
    forall c ensures !Chained(b, c) {}
    ClosedIffUnchained(b, clock);
  }

  lemma SameInFile(b: Book, f: Book, id: Id)
    requires Linked(b.rows) && AllLinksKept(b, f) && Inferable(b) && id in b.rows
    ensures InFile(f, id) <==> InFile(b, id)
    ensures InFile(b, id) ==> f.rows[id] == b.rows[id]
  {
    assert LinkKept(b.rows[id], f.rows[id]);
    if UnderLivePosition(b, b.rows[id]) {
      if HasLiveSuccessor(b.rows, id) {
        var c :| Live(b.rows, c) && b.rows[c].supersedes == Some(id);
        assert SameMonth(b.rows, c, id) && LinkKept(b.rows[c], f.rows[c]);
        assert Live(f.rows, c) && f.rows[c].supersedes == Some(id);
      }
      if HasLiveSuccessor(f.rows, id) {
        var c :| Live(f.rows, c) && f.rows[c].supersedes == Some(id);
        assert LinkKept(b.rows[c], f.rows[c]);
        assert Live(b.rows, c) && b.rows[c].supersedes == Some(id);
      }
    }
  }

  /** The amounts members see. */
  function Shown(b: Book): map<Id, real> {
    map id | id in VisibleRows(b) :: VisibleRows(b)[id].amount
  }

  ghost predicate ShowTheSame(b: Book, f: Book, ticks: seq<Tick>) {
    Shown(Run(f, ticks)) == Shown(Run(b, ticks))
  }

  lemma InferableRuns(b: Book, f: Book, clock: Time, ticks: seq<Tick>)
    requires Sound(b.rows, clock) && AllLinksKept(b, f) && Inferable(b)
    requires Legal(b, clock, ticks) && Legal(f, clock, ticks)
    ensures ShowTheSame(b, f, ticks)
  {
    hide Sound, Legal, Run, Compacted, LinksClosed, VisibleRows, VisiblePositions;
    MigratedSound(b, f, clock);
    SameCompaction(b, f, clock);
    RestoredBehavesAsOriginal(b, clock, ticks);
    RestoredBehavesAsOriginal(f, clock, ticks);
  }

  // ----- When a link is not inferable -------------------------------------------------

  lemma {:induction false} FreshId(ids: set<Id>) returns (n: Id)
    ensures forall id :: id in ids ==> id < n
  {
    if ids == {} {
      n := 0;
    } else {
      HasMember(ids);
      var x :| x in ids;
      n := FreshId(ids - {x});
      if n <= x { n := x + 1; }
      forall id | id in ids ensures id < n { assert id == x || id in ids - {x}; }
    }
  }

  /** Zero the row, assert its termination, undo it. */
  function Undoing(c: Id, pos: Id, m: int, clock: Time, n: Id): seq<Tick> {
    [Tick(Edit(c, 0.0, ""), clock + 1, n), Tick(SetLifecycle(pos, Some(m), ""), clock + 2, n),
     Tick(SetLifecycle(pos, None, ""), clock + 3, n)]
  }

  /** The state before the undo. */
  ghost function Zeroed(b: Book, c: Id, pos: Id, m: int): Book
    requires c in b.rows && pos in b.positions
  {
    Book(WithTermination(b, pos, Some(m)), Edited(b.rows, c, 0.0, ""))
  }

  lemma UndoingRuns(b: Book, c: Id, pos: Id, m: int, clock: Time, n: Id)
    requires Sound(b.rows, clock) && n !in b.rows && LivePosition(b, pos) && LiveAt(b.rows, pos, m, c)
    ensures Legal(b, clock, Undoing(c, pos, m, clock, n))
    ensures Run(b, Undoing(c, pos, m, clock, n)) == Reactivate(Zeroed(b, c, pos, m), pos, clock + 3)
    ensures Sound(Zeroed(b, c, pos, m).rows, clock + 2)
  {
    var ticks, b1, b2 := Undoing(c, pos, m, clock, n), b.(rows := Edited(b.rows, c, 0.0, "")), Zeroed(b, c, pos, m);
    StepKeeps(b, clock, ticks[0].op, clock + 1, n);
    assert Step(b, ticks[0].op, clock + 1, n) == b1;
    LiveIdIs(b1.rows, pos, m, c);
    StepKeeps(b1, clock + 1, ticks[1].op, clock + 2, n);
    assert Edited(b1.rows, c, 0.0, "") == b1.rows;
    assert Step(b1, ticks[1].op, clock + 2, n) == b2;
    assert ticks[1..] == [ticks[1], ticks[2]] && ticks[1..][1..] == [ticks[2]] && ticks[1..][1..][1..] == [];
    var b3 := Step(b2, ticks[2].op, clock + 3, n);
    assert Run(b2, [ticks[2]]) == Run(b3, []) == b3 && Legal(b2, clock + 2, [ticks[2]]);
    assert Run(b1, ticks[1..]) == b3 && Legal(b1, clock + 1, ticks[1..]);
  }

  lemma LostLinkDiverges(b: Book, f: Book, clock: Time, c: Id, pos: Id, m: int, n: Id)
    requires Sound(b.rows, clock) && Sound(f.rows, clock) && LivePosition(b, pos) && LivePosition(f, pos)
    requires n !in b.rows && n !in f.rows && LiveAt(b.rows, pos, m, c) && LiveAt(f.rows, pos, m, c)
    requires b.rows[c].supersedes.Some? && f.rows[c].supersedes.None?
    requires b.rows[c].supersedes.value in f.rows && f.rows[b.rows[c].supersedes.value].deleted.Some?
    ensures Legal(b, clock, Undoing(c, pos, m, clock, n)) && Legal(f, clock, Undoing(c, pos, m, clock, n))
    ensures !ShowTheSame(b, f, Undoing(c, pos, m, clock, n))
  {
    hide Legal, Run;
    var d := b.rows[c].supersedes.value;
    UndoingRuns(b, c, pos, m, clock, n);
    UndoingRuns(f, c, pos, m, clock, n);
    var b2, f2 := Zeroed(b, c, pos, m), Zeroed(f, c, pos, m);
    assert InForce(b.rows, c, d);
    ReactivationRestores(b2, clock + 2, pos, m, d, clock + 3);
    ReactivationRestores(f2, clock + 2, pos, m, d, clock + 3);
    assert LiveAt(b2.rows, pos, m, c) && LiveAt(f2.rows, pos, m, c);
    forall x | LiveAt(f2.rows, pos, m, x) ensures f2.rows[x].supersedes.None? { assert SameMonth(f2.rows, x, c); }
    var b3, f3 := Reactivate(b2, pos, clock + 3), Reactivate(f2, pos, clock + 3);
    assert LiveAt(b3.rows, pos, m, d) && !LiveAt(f3.rows, pos, m, d);
    assert LivePosition(b3, pos);
    assert d in Shown(b3) && d !in Shown(f3);
  }

  /** Assert the termination again and undo it. */
  function Uncovering(pos: Id, m: int, clock: Time, n: Id): seq<Tick> {
    [Tick(SetLifecycle(pos, Some(m), ""), clock + 1, n), Tick(SetLifecycle(pos, None, ""), clock + 2, n)]
  }

  lemma UncoveringRuns(b: Book, c: Id, pos: Id, m: int, clock: Time, n: Id)
    requires Sound(b.rows, clock) && n !in b.rows && LivePosition(b, pos) && LiveAt(b.rows, pos, m, c)
             && b.rows[c].amount == 0.0
    requires b.rows[c].supersedes.Some?
    ensures Legal(b, clock, Uncovering(pos, m, clock, n))
    ensures var d, end := b.rows[c].supersedes.value, Run(b, Uncovering(pos, m, clock, n));
            && d in b.rows && Sound(end.rows, clock + 2) && LivePosition(end, pos) && LiveAt(end.rows, pos, m, d)
            && end.rows.Keys == b.rows.Keys && forall id :: id in b.rows ==> SameIdentity(b.rows[id], end.rows[id])
  {
    var ticks, b1, d := Uncovering(pos, m, clock, n), Zeroed(b, c, pos, m), b.rows[c].supersedes.value;
    LiveIdIs(b.rows, pos, m, c);
    StepKeeps(b, clock, ticks[0].op, clock + 1, n);
    assert Step(b, ticks[0].op, clock + 1, n) == b1;
    StepKeeps(b1, clock + 1, ticks[1].op, clock + 2, n);
    assert LiveAt(b1.rows, pos, m, c) && b1.rows[c].supersedes == Some(d);
    assert InForce(b.rows, c, d);
    ReactivationRestores(b1, clock + 1, pos, m, d, clock + 2);
    var b2 := Step(b1, ticks[1].op, clock + 2, n);
    assert ticks[1..] == [ticks[1]] && ticks[1..][1..] == [];
    assert Run(b1, [ticks[1]]) == Run(b2, []) == b2 && Legal(b1, clock + 1, [ticks[1]]);
    LiveIdIs(b1.rows, pos, m, c);
  }

  lemma ClockOfUncovering(pos: Id, m: int, clock: Time, n: Id)
    ensures ClockAfter(clock, Uncovering(pos, m, clock, n)) == clock + 2
  {
    var ticks := Uncovering(pos, m, clock, n);
    assert ticks[1..] == [ticks[1]] && ticks[1..][1..] == [];
    assert ClockAfter(clock + 1, ticks[1..]) == ClockAfter(clock + 2, []);
  }

  /** A row under a zero row lost its link. */
  lemma LostChainDiverges(b: Book, f: Book, clock: Time, c: Id, pos: Id, m: int, n: Id)
    requires Sound(b.rows, clock) && Sound(f.rows, clock) && AllLinksKept(b, f) && n !in b.rows
    requires LivePosition(b, pos) && LiveAt(b.rows, pos, m, c) && b.rows[c].amount == 0.0 && b.rows[c].supersedes.Some?
    requires b.rows[c].supersedes.value in b.rows && b.rows[b.rows[c].supersedes.value].supersedes.Some?
    ensures exists ticks :: Legal(b, clock, ticks) && Legal(f, clock, ticks) && !ShowTheSame(b, f, ticks)
  {
    hide Legal, Run, ShowTheSame;
    var e := b.rows[c].supersedes.value;
    var g := b.rows[e].supersedes.value;
    assert LinkKept(b.rows[c], f.rows[c]) && LinkKept(b.rows[e], f.rows[e]) && InForce(b.rows, c, e);
    UncoveringRuns(b, c, pos, m, clock, n);
    UncoveringRuns(f, c, pos, m, clock, n);
    ClockOfUncovering(pos, m, clock, n);
    var first, second := Uncovering(pos, m, clock, n), Undoing(e, pos, m, clock + 2, n);
    var b2, f2 := Run(b, first), Run(f, first);
    LinkBelow(b, f, b2, f2, e, g, clock);
    LostLinkDiverges(b2, f2, clock + 2, e, pos, m, n);
    RunAppend(b, clock, first, second);
    RunAppend(f, clock, first, second);
    SameEnd(b, f, b2, f2, first, second);
  }

  lemma LinkBelow(b: Book, f: Book, b2: Book, f2: Book, e: Id, g: Id, clock: Time)
    requires Linked(b.rows) && UniqueLive(f2.rows) && AllLinksKept(b, f)
    requires b2.rows.Keys == b.rows.Keys && f2.rows.Keys == f.rows.Keys
    requires forall id :: id in b.rows ==> SameIdentity(b.rows[id], b2.rows[id])
    requires forall id :: id in f.rows ==> SameIdentity(f.rows[id], f2.rows[id])
    requires e in b.rows && b.rows[e].deleted.Some? && b.rows[e].supersedes == Some(g) && Live(f2.rows, e)
    ensures e in b2.rows && b2.rows[e].supersedes == Some(g) && e in f2.rows && f2.rows[e].supersedes.None?
    ensures g in f2.rows && f2.rows[g].deleted.Some?
  {
    assert LinkKept(b.rows[e], f.rows[e]) && SameMonth(b.rows, e, g) && g != e;
    assert LinkKept(b.rows[g], f.rows[g]) && g in b.rows.Keys && e in b.rows.Keys;
    assert SameMonth(f2.rows, e, g);
  }

  lemma SameEnd(b: Book, f: Book, b2: Book, f2: Book, first: seq<Tick>, second: seq<Tick>)
    requires Run(b, first + second) == Run(b2, second) && Run(f, first + second) == Run(f2, second)
    ensures ShowTheSame(b, f, first + second) <==> ShowTheSame(b2, f2, second)
  {
  }

  lemma NotInferableDiverges(b: Book, f: Book, clock: Time)
    requires Sound(b.rows, clock) && AllLinksKept(b, f) && !Inferable(b)
    ensures exists ticks :: Legal(b, clock, ticks) && Legal(f, clock, ticks) && !ShowTheSame(b, f, ticks)
  {
    hide Legal, Run, ShowTheSame;
    MigratedSound(b, f, clock);
    var c :| Live(b.rows, c) && UnderLivePosition(b, b.rows[c]) && b.rows[c].supersedes.Some?
             && (b.rows[c].amount != 0.0
                 || (b.rows[c].supersedes.value in b.rows && b.rows[b.rows[c].supersedes.value].supersedes.Some?));
    var pos, m := b.rows[c].parent.value, b.rows[c].month;
    var n := FreshId(b.rows.Keys);
    assert LinkKept(b.rows[c], f.rows[c]);
    if b.rows[c].amount != 0.0 {
      var d := b.rows[c].supersedes.value;
      assert InForce(b.rows, c, d) && LinkKept(b.rows[d], f.rows[d]);
      LostLinkDiverges(b, f, clock, c, pos, m, n);
    } else {
      LostChainDiverges(b, f, clock, c, pos, m, n);
    }
  }

  /** A household migrated from a file without links shows what the original shows, after every
      further sequence of requests, if and only if every visible row that displaced another is a
      zero row and the other displaced none. */
  lemma MigrationShowsTheSameIff(b: Book, f: Book, s: seq<Row>, clock: Time)
    requires Inv(b.rows, clock) && Migrated(b, f, s)
    ensures Inferable(b)
            <==> forall ticks :: Legal(b, clock, ticks) && Legal(f, clock, ticks) ==> ShowTheSame(b, f, ticks)
  {
    hide Legal, Run, ShowTheSame, Inferable;
    MigratedKeeps(b, f, s, clock);
    if Inferable(b) {
      forall ticks | Legal(b, clock, ticks) && Legal(f, clock, ticks) ensures ShowTheSame(b, f, ticks) {
        InferableRuns(b, f, clock, ticks);
      }
    } else {
      NotInferableDiverges(b, f, clock);
    }
  }
}
