/** The compacted export of one position group, and the household restored from it. */
module Compaction {
  import opened Rows
  import opened Displacement
  import opened LifecycleUndo

  ghost predicate HasLiveSuccessor(rows: map<Id, Row>, id: Id) {
    exists c :: Live(rows, c) && rows[c].supersedes == Some(id)
  }

  predicate UnderLivePosition(b: Book, r: Row) {
    r.parent.Some? && LivePosition(b, r.parent.value)
  }

  /** The compacted WHERE clause: live parent, and live itself or superseded by a live row. */
  ghost predicate InFile(b: Book, id: Id) {
    id in b.rows && UnderLivePosition(b, b.rows[id]) && (b.rows[id].deleted.None? || HasLiveSuccessor(b.rows, id))
  }

  /** The household's group after wiping it and loading the compacted file. */
  ghost function Compacted(b: Book): Book {
    Book(map p | p in b.positions && b.positions[p].live :: b.positions[p],
         map id | id in b.rows && InFile(b, id) :: b.rows[id])
  }

  /** The supersedes foreign key resolves within the table. */
  ghost predicate LinksClosed(rows: map<Id, Row>) {
    forall id :: id in rows && rows[id].supersedes.Some? ==> rows[id].supersedes.value in rows
  }

  /** A live row's displaced row that displaced something itself. */
  ghost predicate Chained(b: Book, c: Id) {
    && Live(b.rows, c) && UnderLivePosition(b, b.rows[c])
    && b.rows[c].supersedes.Some? && b.rows[c].supersedes.value in b.rows
    && b.rows[b.rows[c].supersedes.value].supersedes.Some?
  }

  /** Every live carried row's displaced row is carried with it. */
  lemma LiveTargetsCarried(b: Book, clock: Time, c: Id)
    requires Sound(b.rows, clock) && InFile(b, c) && Live(b.rows, c) && b.rows[c].supersedes.Some?
    ensures InFile(b, b.rows[c].supersedes.value)
  {
  }

  /** In every reachable state the compacted file's links are closed, so that it can be loaded,
      if and only if no live row displaced a row that had displaced one before. */
  lemma ClosedIffUnchained(b: Book, clock: Time)
    requires Sound(b.rows, clock)
    ensures LinksClosed(Compacted(b).rows) <==> forall c :: !Chained(b, c)
  {
    var f := Compacted(b).rows;
    if LinksClosed(f) {
      forall c ensures !Chained(b, c) {
        if Chained(b, c) { ChainDangles(b, clock, c); }
      }
    }
    if forall c :: !Chained(b, c) {
      forall id | id in f && f[id].supersedes.Some? ensures f[id].supersedes.value in f {
        if Live(b.rows, id) {
          LiveTargetsCarried(b, clock, id);
        } else {
          var c :| Live(b.rows, c) && b.rows[c].supersedes == Some(id);
          assert SameMonth(b.rows, c, id);
          assert Chained(b, c);
          assert false;
        }
      }
    }
  }

  lemma ChainDangles(b: Book, clock: Time, c: Id)
    requires Sound(b.rows, clock) && Chained(b, c)
    ensures var d := b.rows[c].supersedes.value;
            d in Compacted(b).rows && b.rows[d].supersedes.value !in Compacted(b).rows
  {
    var d := b.rows[c].supersedes.value;
    var e := b.rows[d].supersedes.value;
    assert InFile(b, c);
    LiveTargetsCarried(b, clock, c);
    assert InForce(b.rows, c, d) && !Retired(b.rows, d);
    assert InForce(b.rows, d, e) && SameMonth(b.rows, d, e);
    if HasLiveSuccessor(b.rows, e) {
      var x :| Live(b.rows, x) && b.rows[x].supersedes == Some(e);
      assert InForce(b.rows, x, e) && SameMonth(b.rows, x, e);
      assert SameMonth(b.rows, x, d);
    }
  }

  // ----- The restored household behaves as the original ------------------------

  // What a member sees: the live positions, and the live rows under them.

  function VisiblePositions(b: Book): map<Id, Position> {
    map p | p in b.positions && b.positions[p].live :: b.positions[p]
  }

  function VisibleRows(b: Book): map<Id, Row> {
    map id | id in b.rows && b.rows[id].deleted.None? && UnderLivePosition(b, b.rows[id]) :: b.rows[id]
  }

  /** A live position is visible, and a row that is not deleted under one. */
  lemma WhatIsVisible(b: Book, id: Id)
    ensures id in VisiblePositions(b) <==> id in b.positions && b.positions[id].live
    ensures id in VisibleRows(b) <==>
            && id in b.rows && b.rows[id].deleted.None? && b.rows[id].parent.Some?
            && b.rows[id].parent.value in VisiblePositions(b)
    ensures id in VisiblePositions(b) ==> VisiblePositions(b)[id] == b.positions[id]
    ensures id in VisibleRows(b) ==> VisibleRows(b)[id] == b.rows[id]
  {
  }

  /** f holds part of b: every live position, every visible row, and whatever those link to. */
  ghost predicate Mirrors(b: Book, f: Book) {
    && (forall p :: p in b.positions && b.positions[p].live ==> p in f.positions && f.positions[p] == b.positions[p])
    && (forall p :: p in f.positions && f.positions[p].live ==> p in b.positions && f.positions[p] == b.positions[p])
    && (forall id :: id in f.rows ==> id in b.rows && f.rows[id] == b.rows[id])
    && (forall id :: id in b.rows && b.rows[id].deleted.None? && UnderLivePosition(b, b.rows[id]) ==> id in f.rows)
    && LinksClosed(f.rows)
  }

  lemma MirrorsLiveId(b: Book, f: Book, pos: Id, month: int)
    requires UniqueLive(b.rows) && Mirrors(b, f) && LivePosition(b, pos)
    ensures LiveId(f.rows, pos, month) == LiveId(b.rows, pos, month)
  {
    match LiveId(b.rows, pos, month)
    case None =>
      forall id ensures !LiveAt(f.rows, pos, month, id) {
        assert !LiveAt(b.rows, pos, month, id);
      }
    case Some(l) =>
      assert LiveAt(f.rows, pos, month, l);
      assert SameMonth(b.rows, l, LiveId(f.rows, pos, month).value);
  }

  /** The same row written to both sides. */
  lemma MirrorsPut(b: Book, f: Book, id: Id, r: Row)
    requires Mirrors(b, f) && (r.supersedes.Some? ==> r.supersedes.value in f.rows)
    ensures Mirrors(b.(rows := b.rows[id := r]), f.(rows := f.rows[id := r]))
  {
  }

  lemma MirrorsDate(b: Book, f: Book, pos: Id, t: Option<int>)
    requires Mirrors(b, f) && LivePosition(b, pos)
    ensures Mirrors(b.(positions := WithTermination(b, pos, t)), f.(positions := WithTermination(f, pos, t)))
  {
  }

  lemma MirrorsCascade(b: Book, f: Book, pos: Id, now: Time)
    requires Mirrors(b, f) && LivePosition(b, pos)
    ensures Mirrors(Book(b.positions[pos := b.positions[pos].(live := false)], Cascaded(b.rows, pos, now)),
                    Book(f.positions[pos := f.positions[pos].(live := false)], Cascaded(f.rows, pos, now)))
  {
  }

  lemma MirrorsWrite(b: Book, f: Book, pos: Id, month: int, note: string, now: Time, newId: Id)
    requires UniqueLive(b.rows) && Mirrors(b, f) && LivePosition(b, pos)
    ensures Mirrors(b.(rows := CloseWritten(b.rows, pos, month, note, now, newId)),
                    f.(rows := CloseWritten(f.rows, pos, month, note, now, newId)))
  {
    MirrorsLiveId(b, f, pos, month);
    match LiveId(b.rows, pos, month)
    case None => MirrorsPut(b, f, newId, NewSnapshot(newId, pos, month, 0.0, note, None, now));
    case Some(l) =>
      assert UnderLivePosition(b, b.rows[l]);
      if b.rows[l].amount == 0.0 {
        MirrorsPut(b, f, l, b.rows[l].(amount := 0.0, content := note));
      } else {
        MirrorsPut(b, f, l, b.rows[l].(deleted := Some(now)));
        MirrorsPut(b.(rows := Archived(b.rows, l, now)), f.(rows := Archived(f.rows, l, now)),
                   newId, NewSnapshot(newId, pos, month, 0.0, note, Some(l), now));
      }
  }

  lemma MirrorsRevert(b: Book, f: Book, pos: Id, month: int, now: Time)
    requires Sound(b.rows, now) && Quiet(b.rows, Some(pos), month, now) && Mirrors(b, f) && LivePosition(b, pos)
    ensures var x, y := CloseReverted(b.rows, pos, month, now), CloseReverted(f.rows, pos, month, now);
            x.Some? && y.Some? && Mirrors(b.(rows := x.value), f.(rows := y.value))
  {
    MirrorsLiveId(b, f, pos, month);
    CloseRevertedKeeps(b.rows, pos, month, now);
    match LiveId(b.rows, pos, month)
    case None =>
    case Some(l) =>
      assert UnderLivePosition(b, b.rows[l]);
      MirrorsPut(b, f, l, b.rows[l].(deleted := Some(now)));
      if b.rows[l].supersedes.Some? {
        var d := b.rows[l].supersedes.value;
        var c, g := b.(rows := Archived(b.rows, l, now)), f.(rows := Archived(f.rows, l, now));
        assert d in f.rows && c.rows[d] == g.rows[d];
        MirrorsPut(c, g, d, c.rows[d].(deleted := None));
      }
  }

  lemma MirrorsLive(b: Book, f: Book, pos: Id)
    requires Mirrors(b, f) && LivePosition(b, pos)
    ensures pos in f.positions && f.positions[pos] == b.positions[pos]
  {
  }

  lemma MirrorsFlip(b: Book, f: Book, op: Op, now: Time, newId: Id)
    requires op.SetLifecycle? || op.MoveMaturity?
    requires Sound(b.rows, now) && (forall month :: Quiet(b.rows, Some(op.pos), month, now)) && newId !in b.rows
    requires Mirrors(b, f) && LivePosition(b, op.pos)
    ensures Mirrors(Step(b, op, now, newId), Step(f, op, now, newId))
  {
    hide Linked, Stamped, Mirrors, CloseWritten, CloseReverted;
    MirrorsLive(b, f, op.pos);
    var pos := op.pos;
    if op.MoveMaturity? {
      MirrorsDate(b, f, pos, Some(op.to));
      var c, g := b.(positions := WithTermination(b, pos, Some(op.to))),
        f.(positions := WithTermination(f, pos, Some(op.to)));
      if op.from != op.to {
        MirrorsRevert(c, g, pos, op.from, now);
        CloseRevertedKeeps(b.rows, pos, op.from, now);
        c := c.(rows := CloseReverted(b.rows, pos, op.from, now).value);
        g := g.(rows := CloseReverted(f.rows, pos, op.from, now).value);
      }
      MirrorsWrite(c, g, pos, op.to, op.note, now, newId);
    } else {
      MirrorsDate(b, f, pos, op.terminated);
      var c, g := b.(positions := WithTermination(b, pos, op.terminated)),
        f.(positions := WithTermination(f, pos, op.terminated));
      if op.terminated.Some? {
        MirrorsWrite(c, g, pos, op.terminated.value, op.note, now, newId);
      } else if b.positions[pos].terminated.Some? {
        MirrorsRevert(c, g, pos, b.positions[pos].terminated.value, now);
      }
    }
  }

  lemma MirrorsStep(b: Book, f: Book, clock: Time, op: Op, now: Time, newId: Id)
    requires Sound(b.rows, clock) && clock < now && newId !in b.rows && Mirrors(b, f)
    ensures Mirrors(Step(b, op, now, newId), Step(f, op, now, newId))
  {
    LaterIsQuiet(b.rows, clock, now);
    match op
    case Record(pos, month, amount, content) =>
      if LivePosition(b, pos) {
        MirrorsLiveId(b, f, pos, month);
        MirrorsPut(b, f, newId, NewSnapshot(newId, pos, month, amount, content, None, now));
      }
    case Import(pos, month, amount, content) =>
      if LivePosition(b, pos) {
        MirrorsLiveId(b, f, pos, month);
        match LiveId(b.rows, pos, month)
        case None => MirrorsPut(b, f, newId, NewSnapshot(newId, pos, month, amount, content, None, now));
        case Some(l) =>
          assert UnderLivePosition(b, b.rows[l]);
          MirrorsPut(b, f, l, b.rows[l].(amount := amount, content := content));
      }
    case Edit(id, amount, content) =>
      if Editable(b, id) {
        assert UnderLivePosition(b, b.rows[id]);
        MirrorsPut(b, f, id, b.rows[id].(amount := amount, content := content));
      }
    case Delete(id) =>
      if Editable(b, id) {
        assert UnderLivePosition(b, b.rows[id]);
        MirrorsPut(b, f, id, b.rows[id].(deleted := Some(now)));
      }
    case DeletePosition(pos) => if LivePosition(b, pos) { MirrorsCascade(b, f, pos, now); }
    case SetLifecycle(pos, _, _) => if LivePosition(b, pos) { MirrorsFlip(b, f, op, now, newId); }
    case MoveMaturity(pos, _, _, _) => if LivePosition(b, pos) { MirrorsFlip(b, f, op, now, newId); }
  }

  lemma {:induction false} MirrorsRun(b: Book, f: Book, clock: Time, ticks: seq<Tick>)
    requires Sound(b.rows, clock) && Legal(b, clock, ticks) && Mirrors(b, f)
    ensures Mirrors(Run(b, ticks), Run(f, ticks))
    decreases |ticks|
  {
    if ticks == [] {
    } else {
      var k := ticks[0];
      StepKeeps(b, clock, k.op, k.now, k.newId);
      MirrorsStep(b, f, clock, k.op, k.now, k.newId);
      MirrorsRun(Step(b, k.op, k.now, k.newId), Step(f, k.op, k.now, k.newId), k.now, ticks[1..]);
    }
  }

  lemma MirrorsLook(b: Book, f: Book)
    requires Mirrors(b, f)
    ensures VisiblePositions(f) == VisiblePositions(b) && VisibleRows(f) == VisibleRows(b)
  {
    var p, q := VisiblePositions(b), VisiblePositions(f);
    forall i ensures i in p <==> i in q {
      assert i in p <==> i in b.positions && b.positions[i].live;
      assert i in q <==> i in f.positions && f.positions[i].live;
    }
    assert forall i :: i in p ==> p[i] == q[i];
    assert p == q;
    var r, s := VisibleRows(b), VisibleRows(f);
    forall i ensures i in r <==> i in s {
      assert i in r <==> i in b.rows && b.rows[i].deleted.None? && UnderLivePosition(b, b.rows[i]);
      assert i in s <==> i in f.rows && f.rows[i].deleted.None? && UnderLivePosition(f, f.rows[i]);
    }
    assert forall i :: i in r ==> r[i] == s[i];
    assert r == s;
  }

  /** A household restored from a loadable compacted file shows its members exactly what the
      original would after every further sequence of requests, undone terminations included. */
  lemma RestoredBehavesAsOriginal(b: Book, clock: Time, ticks: seq<Tick>)
    requires Sound(b.rows, clock) && Legal(b, clock, ticks) && LinksClosed(Compacted(b).rows)
    ensures VisiblePositions(Run(Compacted(b), ticks)) == VisiblePositions(Run(b, ticks))
    ensures VisibleRows(Run(Compacted(b), ticks)) == VisibleRows(Run(b, ticks))
  {
    MirrorsRun(b, Compacted(b), clock, ticks);
    MirrorsLook(Run(b, ticks), Run(Compacted(b), ticks));
  }

  // ----- Runs with restores in them --------------------------------------------------------

  /** The restored group is in a reachable kind of state again. */
  lemma CompactedKeeps(b: Book, clock: Time)
    requires Sound(b.rows, clock) && LinksClosed(Compacted(b).rows)
    ensures Keeps(b.rows, Compacted(b).rows, clock)
  {
    var f := Compacted(b).rows;
    forall i | i in f ensures i in b.rows && f[i] == b.rows[i] {}
    assert UniqueLive(f) by {
      forall i, j | Live(f, i) && Live(f, j) && SameMonth(f, i, j) ensures i == j { assert SameMonth(b.rows, i, j); }
    }
    assert Stamped(f, clock) by {
      forall i, j | i in f && j in f && SameMonth(f, i, j) && f[i].created == f[j].created ensures i == j {
        assert SameMonth(b.rows, i, j);
      }
    }
    forall c | c in f && f[c].supersedes.Some?
      ensures var d := f[c].supersedes.value;
              d in f && d != c && SameMonth(f, c, d) && (InForce(f, c, d) || Retired(f, c))
    {
      assert SameMonth(b.rows, c, f[c].supersedes.value);
    }
    if NoCoincidence(b.rows) {
      forall a, c | a in f && c in f && SameMonth(f, a, c) && InForce(f, c, a) ensures f[c].supersedes == Some(a) {
        assert SameMonth(b.rows, a, c) && InForce(b.rows, c, a);
      }
    }
  }

  /** A restore replaces the group by its own compacted export, or is refused. */
  datatype Event = Request(tick: Tick) | Restore

  ghost function Handled(b: Book, e: Event): Book {
    match e
    case Request(t) => Step(b, t.op, t.now, t.newId)
    case Restore => if LinksClosed(Compacted(b).rows) then Compacted(b) else b
  }

  ghost function RunAll(b: Book, events: seq<Event>): Book
    decreases |events|
  {
    if events == [] then b else RunAll(Handled(b, events[0]), events[1..])
  }

  function Requests(events: seq<Event>): seq<Tick>
    decreases |events|
  {
    if events == [] then []
    else if events[0].Request? then [events[0].tick] + Requests(events[1..])
    else Requests(events[1..])
  }

  lemma MirrorsAgain(b: Book, f: Book)
    requires Mirrors(b, f) && LinksClosed(Compacted(f).rows)
    ensures Mirrors(b, Compacted(f))
  {
    var g := Compacted(f);
    forall id | id in b.rows && b.rows[id].deleted.None? && UnderLivePosition(b, b.rows[id]) ensures id in g.rows {
      assert id in f.rows && UnderLivePosition(f, f.rows[id]);
    }
  }

  lemma {:induction false} RestoresMirror(b: Book, f: Book, clock: Time, events: seq<Event>)
    requires Sound(b.rows, clock) && Sound(f.rows, clock) && Mirrors(b, f) && Legal(b, clock, Requests(events))
    ensures Mirrors(Run(b, Requests(events)), RunAll(f, events))
    ensures Keeps(f.rows, RunAll(f, events).rows, ClockAfter(clock, Requests(events)))
    decreases |events|
  {
    hide Sound, NoCoincidence, Step, Mirrors, Compacted;
    if events == [] {
    } else {
      var rest := events[1..];
      match events[0] {
        case Request(t) =>
          assert Requests(events)[1..] == Requests(rest);
          StepKeeps(b, clock, t.op, t.now, t.newId);
          MirrorsIds(b, f);
          assert t.newId !in f.rows.Keys;
          StepKeeps(f, clock, t.op, t.now, t.newId);
          MirrorsStep(b, f, clock, t.op, t.now, t.newId);
          RestoresMirror(Step(b, t.op, t.now, t.newId), Step(f, t.op, t.now, t.newId), t.now, rest);
        case Restore =>
          if LinksClosed(Compacted(f).rows) {
            CompactedKeeps(f, clock);
            MirrorsAgain(b, f);
          }
          RestoresMirror(b, Handled(f, Restore), clock, rest);
      }
    }
  }

  /** However often a household is exported compacted and restored from that file between its
      requests, its members see what they would have seen without any restore, and its rows stay
      sound. */
  lemma RestoresAreInvisible(b: Book, clock: Time, events: seq<Event>)
    requires Sound(b.rows, clock) && Legal(b, clock, Requests(events))
    ensures VisiblePositions(RunAll(b, events)) == VisiblePositions(Run(b, Requests(events)))
    ensures VisibleRows(RunAll(b, events)) == VisibleRows(Run(b, Requests(events)))
    ensures Keeps(b.rows, RunAll(b, events).rows, ClockAfter(clock, Requests(events)))
  {
    assert Mirrors(b, b);
    RestoresMirror(b, b, clock, events);
    MirrorsLook(Run(b, Requests(events)), RunAll(b, events));
  }

  lemma MirrorsIds(b: Book, f: Book)
    requires Mirrors(b, f)
    ensures f.rows.Keys <= b.rows.Keys
  {
    forall id | id in f.rows ensures id in b.rows {}
  }
}
