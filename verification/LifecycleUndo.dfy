/** How far un-terminating a position undoes terminating it. */
module LifecycleUndo {
  import opened Rows
  import opened Displacement

  /** What every read of the snapshot tables sees. */
  function LiveView(rows: map<Id, Row>): map<Id, Row> {
    map id | id in rows && rows[id].deleted.None? :: rows[id]
  }

  function AmountView(rows: map<Id, Row>): map<Id, real> {
    map id | id in rows && rows[id].deleted.None? :: rows[id].amount
  }

  /** The month already holds a live zero row, so the flip adopts it instead of displacing it. */
  ghost predicate HoldsZero(rows: map<Id, Row>, pos: Id, month: int) {
    exists id :: LiveAt(rows, pos, month, id) && rows[id].amount == 0.0
  }

  lemma LiveIdIs(rows: map<Id, Row>, pos: Id, month: int, id: Id)
    requires UniqueLive(rows) && LiveAt(rows, pos, month, id)
    ensures LiveId(rows, pos, month) == Some(id)
  {
  }

  ghost function Terminate(b: Book, pos: Id, month: int, note: string, now: Time, newId: Id): Book {
    Step(b, SetLifecycle(pos, Some(month), note), now, newId)
  }

  ghost function Reactivate(b: Book, pos: Id, now: Time): Book {
    Step(b, SetLifecycle(pos, None, ""), now, 0)
  }

  /** The flips on the rows alone. */
  ghost function Undone(rows: map<Id, Row>, pos: Id, m: int, note: string, t1: Time, newId: Id,
          t2: Time): Option<map<Id, Row>>
  {
    CloseReverted(CloseWritten(rows, pos, m, note, t1, newId), pos, m, t2)
  }

  /** The month keeps to one live row when it is closed. */
  ghost predicate Closable(rows: map<Id, Row>, pos: Id, m: int, note: string, now: Time, newId: Id) {
    && UniqueLive(rows) && UniqueLive(CloseWritten(rows, pos, m, note, now, newId))
    && (!HoldsZero(rows, pos, m) ==> newId !in rows)
  }

  lemma CloseLive(rows: map<Id, Row>, pos: Id, m: int, note: string, now: Time, newId: Id)
    requires Closable(rows, pos, m, note, now, newId)
    ensures var l := LiveId(rows, pos, m);
            LiveId(CloseWritten(rows, pos, m, note, now, newId), pos, m)
            == if l.Some? && rows[l.value].amount == 0.0 then l else Some(newId)
  {
    match LiveId(rows, pos, m)
    case None => LiveIdIs(CloseWritten(rows, pos, m, note, now, newId), pos, m, newId);
    case Some(l) =>
      LiveIdIs(CloseWritten(rows, pos, m, note, now, newId), pos, m, if rows[l].amount == 0.0 then l else newId);
  }

  lemma ZeroIsLive(rows: map<Id, Row>, pos: Id, m: int)
    requires UniqueLive(rows)
    ensures HoldsZero(rows, pos, m) <==> LiveId(rows, pos, m).Some? && rows[LiveId(rows, pos, m).value].amount == 0.0
  {
    if HoldsZero(rows, pos, m) {
      var z :| LiveAt(rows, pos, m, z) && rows[z].amount == 0.0;
      LiveIdIs(rows, pos, m, z);
    }
  }

  /** Without a zero row in the month every live row comes back as it was. */
  lemma NoZeroUndone(rows: map<Id, Row>, pos: Id, m: int, note: string, t1: Time, newId: Id, t2: Time)
    requires Closable(rows, pos, m, note, t1, newId) && !HoldsZero(rows, pos, m)
    ensures var end := Undone(rows, pos, m, note, t1, newId, t2);
            end.Some? && LiveView(end.value) == LiveView(rows)
  {
    hide HoldsZero, UniqueLive;
    CloseLive(rows, pos, m, note, t1, newId);
    ZeroIsLive(rows, pos, m);
    var end := Undone(rows, pos, m, note, t1, newId, t2);
    match LiveId(rows, pos, m)
    case None => assert LiveView(end.value) == LiveView(rows);
    case Some(l) =>
      assert end.value[l] == rows[l];
      assert LiveView(end.value) == LiveView(rows);
  }

  /** A zero row in the month goes, and nothing else. */
  lemma ZeroRowGoes(rows: map<Id, Row>, pos: Id, m: int, note: string, t1: Time, newId: Id, t2: Time)
    requires Linked(rows) && Closable(rows, pos, m, note, t1, newId) && HoldsZero(rows, pos, m)
    ensures var end := Undone(rows, pos, m, note, t1, newId, t2);
            && end.Some?
            && (forall z :: LiveAt(rows, pos, m, z) ==> z in end.value && !Live(end.value, z))
            && (forall id :: Live(rows, id) && !LiveAt(rows, pos, m, id) ==> Live(end.value, id))
  {
    hide Linked;
    CloseLive(rows, pos, m, note, t1, newId);
    ZeroIsLive(rows, pos, m);
    var z := LiveId(rows, pos, m).value;
    forall y | LiveAt(rows, pos, m, y) ensures y == z { LiveIdIs(rows, pos, m, y); }
    LinkOfLive(rows, z);
  }

  lemma SoundParts(rows: map<Id, Row>, clock: Time)
    requires Sound(rows, clock)
    ensures UniqueLive(rows) && Linked(rows)
  {
  }

  lemma LinkOfLive(rows: map<Id, Row>, l: Id)
    requires Linked(rows) && Live(rows, l)
    ensures rows[l].supersedes.Some? ==> rows[l].supersedes.value in rows && !Live(rows, rows[l].supersedes.value)
  {
    if rows[l].supersedes.Some? { assert InForce(rows, l, rows[l].supersedes.value); }
  }

  // ----- Requests that keep away from a closed month -----------------------------------

  predicate InMonth(r: Row, pos: Id, m: int) {
    r.parent == Some(pos) && r.month == m
  }

  /** The request is not about the position's termination or deletion, nor about this month of it,
      nor about its close row c. */
  predicate Apart(rows: map<Id, Row>, op: Op, pos: Id, m: int, c: Id) {
    match op
    case Record(p, month, _, _) => p != pos || month != m
    case Import(p, month, _, _) => p != pos || month != m
    case Edit(id, _, _) => id != c && (id in rows ==> !InMonth(rows[id], pos, m))
    case Delete(id) => id != c && (id in rows ==> !InMonth(rows[id], pos, m))
    case DeletePosition(p) => p != pos
    case SetLifecycle(p, _, _) => p != pos
    case MoveMaturity(p, _, _, _) => p != pos
  }

  /** Everything about another position, and everything about other months of this one. */
  lemma WhatIsApart(rows: map<Id, Row>, pos: Id, m: int, c: Id, p: Id, k: int, amount: real, content: string, id: Id,
          t: Option<int>, from: int, to: int)
    requires p != pos || k != m
    ensures Apart(rows, Record(p, k, amount, content), pos, m, c)
    ensures Apart(rows, Import(p, k, amount, content), pos, m, c)
    ensures id in rows && rows[id].parent == Some(p) && rows[id].month == k && id != c ==>
              Apart(rows, Edit(id, amount, content), pos, m, c) && Apart(rows, Delete(id), pos, m, c)
    ensures p != pos ==>
              && Apart(rows, DeletePosition(p), pos, m, c) && Apart(rows, SetLifecycle(p, t, content), pos, m, c)
              && Apart(rows, MoveMaturity(p, from, to, content), pos, m, c)
  {
  }

  ghost predicate AllApart(b: Book, pos: Id, m: int, c: Id, ticks: seq<Tick>)
    decreases |ticks|
  {
    ticks != [] ==>
      Apart(b.rows, ticks[0].op, pos, m, c)
      && AllApart(Step(b, ticks[0].op, ticks[0].now, ticks[0].newId), pos, m, c, ticks[1..])
  }

  /** What closing a month changes. */
  ghost function Patch(rows: map<Id, Row>, pos: Id, m: int, note: string, now: Time, c: Id): map<Id, Row> {
    match LiveId(rows, pos, m)
    case None => map[c := NewSnapshot(c, pos, m, 0.0, note, None, now)]
    case Some(l) =>
      if rows[l].amount == 0.0 then map[l := rows[l].(amount := 0.0, content := note)]
      else map[l := rows[l].(deleted := Some(now))][c := NewSnapshot(c, pos, m, 0.0, note, Some(l), now)]
  }

  lemma CloseIsPatch(rows: map<Id, Row>, pos: Id, m: int, note: string, now: Time, c: Id)
    ensures CloseWritten(rows, pos, m, note, now, c) == rows + Patch(rows, pos, m, note, now, c)
  {
  }

  /** The patch is about this month alone: its close row c, and rows that are there. */
  ghost predicate Patches(rows: map<Id, Row>, patch: map<Id, Row>, pos: Id, m: int, c: Id) {
    && (forall id :: id in patch ==> InMonth(patch[id], pos, m) && (id == c || id in rows))
    && (forall id :: id in patch && id in rows ==> InMonth(rows[id], pos, m))
  }

  ghost function Patched(b: Book, pos: Id, t: Option<int>, patch: map<Id, Row>): Book
    requires pos in b.positions
  {
    Book(WithTermination(b, pos, t), b.rows + patch)
  }

  lemma PatchedLiveId(rows: map<Id, Row>, patch: map<Id, Row>, pos: Id, m: int, c: Id, p: Id, k: int)
    requires UniqueLive(rows) && UniqueLive(rows + patch) && Patches(rows, patch, pos, m, c) && (p != pos || k != m)
    ensures LiveId(rows + patch, p, k) == LiveId(rows, p, k)
    ensures LiveId(rows, p, k).Some? ==> LiveId(rows, p, k).value !in patch
  {
    forall id ensures LiveAt(rows + patch, p, k, id) <==> LiveAt(rows, p, k, id) {}
    match LiveId(rows, p, k)
    case None =>
    case Some(l) => LiveIdIs(rows + patch, p, k, l);
  }

  /** Writing a row that is not in the patch. */
  lemma PutBeside(rows: map<Id, Row>, patch: map<Id, Row>, id: Id, r: Row)
    requires id !in patch
    ensures (rows + patch)[id := r] == rows[id := r] + patch
  {
  }

  lemma PatchedWrite(rows: map<Id, Row>, patch: map<Id, Row>, pos: Id, m: int, c: Id, p: Id, k: int, note: string,
          now: Time, newId: Id)
    requires UniqueLive(rows) && UniqueLive(rows + patch) && Patches(rows, patch, pos, m, c)
    requires p != pos && newId !in patch
    ensures CloseWritten(rows + patch, p, k, note, now, newId) == CloseWritten(rows, p, k, note, now, newId) + patch
  {
    hide UniqueLive, Patches;
    PatchedLiveId(rows, patch, pos, m, c, p, k);
    match LiveId(rows, p, k)
    case None => PutBeside(rows, patch, newId, NewSnapshot(newId, p, k, 0.0, note, None, now));
    case Some(l) =>
      if rows[l].amount == 0.0 {
        PutBeside(rows, patch, l, rows[l].(amount := 0.0, content := note));
      } else {
        PutBeside(rows, patch, l, rows[l].(deleted := Some(now)));
        PutBeside(Archived(rows, l, now), patch, newId, NewSnapshot(newId, p, k, 0.0, note, Some(l), now));
      }
  }

  lemma PatchedRevert(rows: map<Id, Row>, patch: map<Id, Row>, pos: Id, m: int, c: Id, p: Id, k: int, now: Time)
    requires UniqueLive(rows) && UniqueLive(rows + patch) && Linked(rows) && Patches(rows, patch, pos, m, c) && p != pos
    requires CloseReverted(rows, p, k, now).Some?
    ensures CloseReverted(rows + patch, p, k, now) == Some(CloseReverted(rows, p, k, now).value + patch)
  {
    hide UniqueLive;
    PatchedLiveId(rows, patch, pos, m, c, p, k);
    match LiveId(rows, p, k)
    case None =>
    case Some(l) =>
      PutBeside(rows, patch, l, rows[l].(deleted := Some(now)));
      if rows[l].supersedes.Some? {
        var d := rows[l].supersedes.value;
        assert SameMonth(rows, l, d);
        PutBeside(Archived(rows, l, now), patch, d, Archived(rows, l, now)[d].(deleted := None));
      }
  }

  /** A request apart from the month does the same to the patched household. */
  lemma StepPatched(b: Book, clock: Time, patch: map<Id, Row>, pos: Id, m: int, c: Id, t: Option<int>, op: Op,
          now: Time, newId: Id)
    requires Sound(b.rows, clock) && Sound(b.rows + patch, clock) && clock < now
    requires LivePosition(b, pos) && Patches(b.rows, patch, pos, m, c) && Apart(b.rows, op, pos, m, c)
    requires newId !in b.rows && newId !in patch
    ensures Step(Patched(b, pos, t, patch), op, now, newId) == Patched(Step(b, op, now, newId), pos, t, patch)
  {
    hide Sound, Step, Patched;
    SoundParts(b.rows, clock);
    SoundParts(b.rows + patch, clock);
    match op
    case Record(_, _, _, _) => RecordPatched(b, patch, pos, m, c, t, op, now, newId);
    case Import(_, _, _, _) => RecordPatched(b, patch, pos, m, c, t, op, now, newId);
    case Edit(_, _, _) => EditPatched(b, patch, pos, m, c, t, op, now, newId);
    case Delete(_) => EditPatched(b, patch, pos, m, c, t, op, now, newId);
    case DeletePosition(_) => EditPatched(b, patch, pos, m, c, t, op, now, newId);
    case SetLifecycle(_, _, _) => FlipPatched(b, clock, patch, pos, m, c, t, op, now, newId);
    case MoveMaturity(_, _, _, _) => FlipPatched(b, clock, patch, pos, m, c, t, op, now, newId);
  }

  lemma RecordPatched(b: Book, patch: map<Id, Row>, pos: Id, m: int, c: Id, t: Option<int>, op: Op, now: Time,
          newId: Id)
    requires op.Record? || op.Import?
    requires UniqueLive(b.rows) && UniqueLive(b.rows + patch)
    requires LivePosition(b, pos) && Patches(b.rows, patch, pos, m, c) && Apart(b.rows, op, pos, m, c)
    requires newId !in b.rows && newId !in patch
    ensures Step(Patched(b, pos, t, patch), op, now, newId) == Patched(Step(b, op, now, newId), pos, t, patch)
  {
    hide UniqueLive, Patches;
    PatchedLiveId(b.rows, patch, pos, m, c, op.pos, op.month);
    match LiveId(b.rows, op.pos, op.month)
    case None =>
      PutBeside(b.rows, patch, newId, NewSnapshot(newId, op.pos, op.month, op.amount, op.content, None, now));
    case Some(l) => PutBeside(b.rows, patch, l, b.rows[l].(amount := op.amount, content := op.content));
  }

  lemma EditPatched(b: Book, patch: map<Id, Row>, pos: Id, m: int, c: Id, t: Option<int>, op: Op, now: Time, newId: Id)
    requires op.Edit? || op.Delete? || op.DeletePosition?
    requires LivePosition(b, pos) && Patches(b.rows, patch, pos, m, c) && Apart(b.rows, op, pos, m, c)
    ensures Step(Patched(b, pos, t, patch), op, now, newId) == Patched(Step(b, op, now, newId), pos, t, patch)
  {
    match op
    case Edit(id, amount, content) =>
      if Editable(b, id) { PutBeside(b.rows, patch, id, b.rows[id].(amount := amount, content := content)); }
    case Delete(id) => if Editable(b, id) { PutBeside(b.rows, patch, id, b.rows[id].(deleted := Some(now))); }
    case DeletePosition(p) =>
      CascadePatched(b.rows, patch, pos, m, c, p, now);
      if LivePosition(b, p) { RecordsCommute(b, pos, t, p, b.positions[p].(live := false)); }
  }

  lemma CascadePatched(rows: map<Id, Row>, patch: map<Id, Row>, pos: Id, m: int, c: Id, p: Id, now: Time)
    requires Patches(rows, patch, pos, m, c) && p != pos
    ensures Cascaded(rows + patch, p, now) == Cascaded(rows, p, now) + patch
  {
    var x, y := Cascaded(rows + patch, p, now), Cascaded(rows, p, now) + patch;
    forall id ensures id in x <==> id in y
              ensures id in x ==> x[id] == y[id]
    {
      if id in patch { assert InMonth(patch[id], pos, m); }
    }
    assert x == y;
  }

  /** Changing another position's record. */
  lemma RecordsCommute(b: Book, pos: Id, t: Option<int>, p: Id, q: Position)
    requires pos in b.positions && p != pos
    ensures WithTermination(b, pos, t)[p := q] == b.positions[p := q][pos := b.positions[pos].(terminated := t)]
  {
  }

  lemma FlipPatched(b: Book, clock: Time, patch: map<Id, Row>, pos: Id, m: int, c: Id, t: Option<int>, op: Op,
          now: Time, newId: Id)
    requires op.SetLifecycle? || op.MoveMaturity?
    requires Sound(b.rows, clock) && Sound(b.rows + patch, clock) && clock < now
    requires LivePosition(b, pos) && Patches(b.rows, patch, pos, m, c) && op.pos != pos
    requires newId !in b.rows && newId !in patch
    ensures Step(Patched(b, pos, t, patch), op, now, newId) == Patched(Step(b, op, now, newId), pos, t, patch)
  {
    hide Sound, UniqueLive, Linked, CloseWritten, CloseReverted, Patches;
    SoundParts(b.rows, clock);
    SoundParts(b.rows + patch, clock);
    var p := op.pos;
    if LivePosition(b, p) {
      var date := if op.MoveMaturity? then Some(op.to) else op.terminated;
      RecordsCommute(b, pos, t, p, b.positions[p].(terminated := date));
      if op.MoveMaturity? {
        var rows := b.rows;
        if op.from != op.to {
          RevertPatched(b.rows, clock, patch, pos, m, c, p, op.from, now);
          rows := CloseReverted(b.rows, p, op.from, now).value;
        }
        PatchedWrite(rows, patch, pos, m, c, p, op.to, op.note, now, newId);
      } else if op.terminated.Some? {
        PatchedWrite(b.rows, patch, pos, m, c, p, op.terminated.value, op.note, now, newId);
      } else if b.positions[p].terminated.Some? {
        RevertPatched(b.rows, clock, patch, pos, m, c, p, b.positions[p].terminated.value, now);
      }
    }
  }

  lemma RevertPatched(rows: map<Id, Row>, clock: Time, patch: map<Id, Row>, pos: Id, m: int, c: Id, p: Id, k: int,
          now: Time)
    requires Sound(rows, clock) && Sound(rows + patch, clock) && clock < now && Patches(rows, patch, pos, m, c)
             && p != pos
    ensures var s := CloseReverted(rows, p, k, now);
            && s.Some? && CloseReverted(rows + patch, p, k, now) == Some(s.value + patch)
            && UniqueLive(s.value) && UniqueLive(s.value + patch) && Patches(s.value, patch, pos, m, c)
  {
    hide Stamped, Linked;
    LaterIsQuiet(rows, clock, now);
    LaterIsQuiet(rows + patch, clock, now);
    CloseRevertedKeeps(rows, p, k, now);
    CloseRevertedKeeps(rows + patch, p, k, now);
    PatchedRevert(rows, patch, pos, m, c, p, k, now);
    RevertElsewhere(rows, pos, m, p, k, now);
    assert CloseReverted(rows, p, k, now).value.Keys == rows.Keys;
  }

  lemma RevertElsewhere(rows: map<Id, Row>, pos: Id, m: int, p: Id, k: int, now: Time)
    requires CloseReverted(rows, p, k, now).Some?
    ensures var s := CloseReverted(rows, p, k, now).value;
            s.Keys == rows.Keys && forall id :: id in rows ==> (InMonth(s[id], pos, m) <==> InMonth(rows[id], pos, m))
  {
  }

  /** The month's rows are the same rows. */
  ghost predicate SameMonthRows(rows: map<Id, Row>, s: map<Id, Row>, pos: Id, m: int) {
    forall id ::
      && (id in s && InMonth(s[id], pos, m) <==> id in rows && InMonth(rows[id], pos, m))
      && (id in rows && InMonth(rows[id], pos, m) ==> s[id] == rows[id])
  }

  lemma StepApart(b: Book, clock: Time, pos: Id, m: int, c: Id, op: Op, now: Time, newId: Id)
    requires Sound(b.rows, clock) && LivePosition(b, pos) && Apart(b.rows, op, pos, m, c) && newId !in b.rows
    ensures var s := Step(b, op, now, newId);
            && LivePosition(s, pos) && s.positions[pos] == b.positions[pos] && SameMonthRows(b.rows, s.rows, pos, m)
            && forall id :: id != newId ==> (id in s.rows <==> id in b.rows)
  {
    hide Stamped, UniqueLive, CloseWritten, CloseReverted, Linked;
    if (op.SetLifecycle? || op.MoveMaturity?) && LivePosition(b, op.pos) {
      if op.MoveMaturity? {
        var rows := b.rows;
        if op.from != op.to {
          RevertApart(b.rows, pos, m, op.pos, op.from, now);
          if CloseReverted(b.rows, op.pos, op.from, now).Some? {
            rows := CloseReverted(b.rows, op.pos, op.from, now).value;
          }
        }
        WriteApart(rows, pos, m, op.pos, op.to, op.note, now, newId);
      } else if op.terminated.Some? {
        WriteApart(b.rows, pos, m, op.pos, op.terminated.value, op.note, now, newId);
      } else if b.positions[op.pos].terminated.Some? {
        RevertApart(b.rows, pos, m, op.pos, b.positions[op.pos].terminated.value, now);
      }
    }
  }

  lemma WriteApart(rows: map<Id, Row>, pos: Id, m: int, p: Id, k: int, note: string, now: Time, newId: Id)
    requires p != pos && newId !in rows
    ensures var s := CloseWritten(rows, p, k, note, now, newId);
            SameMonthRows(rows, s, pos, m) && forall id :: id != newId ==> (id in s <==> id in rows)
  {
  }

  lemma RevertApart(rows: map<Id, Row>, pos: Id, m: int, p: Id, k: int, now: Time)
    requires Linked(rows) && p != pos
    ensures var s := CloseReverted(rows, p, k, now);
            s.Some? ==> SameMonthRows(rows, s.value, pos, m) && s.value.Keys == rows.Keys
  {
    match LiveId(rows, p, k)
    case None =>
    case Some(l) =>
      if rows[l].supersedes.Some? { assert SameMonth(rows, l, rows[l].supersedes.value); }
  }

  lemma {:induction false} RunPatched(b: Book, clock: Time, patch: map<Id, Row>, pos: Id, m: int, c: Id, t: Option<int>,
          ticks: seq<Tick>)
    requires Sound(b.rows, clock) && Sound(b.rows + patch, clock) && LivePosition(b, pos)
    requires Patches(b.rows, patch, pos, m, c) && AllApart(b, pos, m, c, ticks)
    requires Legal(Patched(b, pos, t, patch), clock, ticks)
    ensures var end := Run(b, ticks);
            && Legal(b, clock, ticks) && LivePosition(end, pos) && end.positions[pos] == b.positions[pos]
            && Run(Patched(b, pos, t, patch), ticks) == Patched(end, pos, t, patch)
            && SameMonthRows(b.rows, end.rows, pos, m) && (c in patch && c !in b.rows ==> c !in end.rows)
    decreases |ticks|
  {
    hide Sound, Step, Patched, Apart, Patches;
    if ticks == [] {
    } else {
      var op, now, newId := ticks[0].op, ticks[0].now, ticks[0].newId;
      var next := Step(b, op, now, newId);
      NewToBoth(b, patch, pos, t, newId);
      StepPatched(b, clock, patch, pos, m, c, t, op, now, newId);
      StepApart(b, clock, pos, m, c, op, now, newId);
      StepKeeps(b, clock, op, now, newId);
      PatchedRows(b, pos, t, patch);
      StepKeeps(Patched(b, pos, t, patch), clock, op, now, newId);
      PatchedRows(next, pos, t, patch);
      StillPatches(b.rows, next.rows, patch, pos, m, c, newId);
      RunPatched(next, now, patch, pos, m, c, t, ticks[1..]);
    }
  }

  lemma PatchedRows(b: Book, pos: Id, t: Option<int>, patch: map<Id, Row>)
    requires pos in b.positions
    ensures Patched(b, pos, t, patch).rows == b.rows + patch
  {
  }

  lemma NewToBoth(b: Book, patch: map<Id, Row>, pos: Id, t: Option<int>, newId: Id)
    requires pos in b.positions && newId !in Patched(b, pos, t, patch).rows
    ensures newId !in b.rows && newId !in patch
  {
  }

  lemma StillPatches(rows: map<Id, Row>, s: map<Id, Row>, patch: map<Id, Row>, pos: Id, m: int, c: Id, newId: Id)
    requires Patches(rows, patch, pos, m, c) && SameMonthRows(rows, s, pos, m) && newId !in patch
    requires forall id :: id != newId ==> (id in s <==> id in rows)
    ensures Patches(s, patch, pos, m, c)
  {
    forall id | id in patch && id in s ensures InMonth(s[id], pos, m) { assert InMonth(rows[id], pos, m); }
  }

  /** Closing a month and then letting requests apart from it happen is letting them happen and
      then closing the month. */
  lemma CloseCommutes(b: Book, clock: Time, pos: Id, m: int, note: string, now: Time, c: Id, ticks: seq<Tick>)
    requires Sound(b.rows, clock) && clock < now && c !in b.rows && LivePosition(b, pos)
    requires Legal(Terminate(b, pos, m, note, now, c), now, ticks) && AllApart(b, pos, m, c, ticks)
    ensures var end := Run(b, ticks);
            && Legal(b, now, ticks) && LivePosition(end, pos) && end.positions[pos] == b.positions[pos]
            && Run(Terminate(b, pos, m, note, now, c), ticks)
               == Book(WithTermination(end, pos, Some(m)), CloseWritten(end.rows, pos, m, note, now, c))
            && Sound(end.rows, ClockAfter(now, ticks)) && Closable(end.rows, pos, m, note, now, c)
            && (HoldsZero(end.rows, pos, m) <==> HoldsZero(b.rows, pos, m))
  {
    hide Stamped, Linked, CloseWritten, Patches, Run, Legal, AllApart, Patch;
    var patch, op := Patch(b.rows, pos, m, note, now, c), SetLifecycle(pos, Some(m), note);
    LaterIsQuiet(b.rows, clock, now);
    StepKeeps(b, clock, op, now, c);
    CloseIsPatch(b.rows, pos, m, note, now, c);
    PatchIsLocal(b.rows, pos, m, note, now, c);
    RunPatched(b, now, patch, pos, m, c, Some(m), ticks);
    RunKeeps(b, now, ticks);
    RunKeeps(Terminate(b, pos, m, note, now, c), now, ticks);
    var end := Run(b, ticks);
    SamePatch(b.rows, end.rows, pos, m, note, now, c);
    CloseIsPatch(end.rows, pos, m, note, now, c);
  }

  lemma PatchIsLocal(rows: map<Id, Row>, pos: Id, m: int, note: string, now: Time, c: Id)
    requires c !in rows
    ensures Patches(rows, Patch(rows, pos, m, note, now, c), pos, m, c)
  {
  }

  lemma SamePatch(rows: map<Id, Row>, s: map<Id, Row>, pos: Id, m: int, note: string, now: Time, c: Id)
    requires UniqueLive(rows) && UniqueLive(s) && SameMonthRows(rows, s, pos, m)
    ensures Patch(s, pos, m, note, now, c) == Patch(rows, pos, m, note, now, c)
    ensures HoldsZero(s, pos, m) <==> HoldsZero(rows, pos, m)
    ensures !HoldsZero(rows, pos, m) ==> c in Patch(rows, pos, m, note, now, c)
  {
    match LiveId(rows, pos, m)
    case None =>
      forall id ensures !LiveAt(s, pos, m, id) {
        if LiveAt(s, pos, m, id) { assert InMonth(s[id], pos, m) && LiveAt(rows, pos, m, id); }
      }
    case Some(l) => LiveIdIs(s, pos, m, l);
    if HoldsZero(s, pos, m) {
      var z :| LiveAt(s, pos, m, z) && s[z].amount == 0.0;
      assert LiveAt(rows, pos, m, z);
    }
    if HoldsZero(rows, pos, m) {
      var z :| LiveAt(rows, pos, m, z) && rows[z].amount == 0.0;
      assert LiveAt(s, pos, m, z);
    }
  }

  /** Terminating, letting any requests apart from the closed month happen, and un-terminating
      leaves every live row as those requests alone would have, if and only if the termination
      month did not already hold a live zero row. */
  lemma UndoIffNoZero(b: Book, clock: Time, pos: Id, month: int, note: string, t1: Time, c: Id, ticks: seq<Tick>,
          t2: Time)
    requires Sound(b.rows, clock) && clock < t1 && c !in b.rows
    requires LivePosition(b, pos) && b.positions[pos].terminated.None?
    requires Legal(Terminate(b, pos, month, note, t1, c), t1, ticks) && AllApart(b, pos, month, c, ticks)
    ensures var end, alone := Reactivate(Run(Terminate(b, pos, month, note, t1, c), ticks), pos, t2), Run(b, ticks);
            && end.positions == alone.positions
            && (LiveView(end.rows) == LiveView(alone.rows) <==> !HoldsZero(b.rows, pos, month))
  {
    hide Sound, CloseWritten, CloseReverted, Run, Legal, AllApart;
    CloseCommutes(b, clock, pos, month, note, t1, c, ticks);
    var alone := Run(b, ticks);
    assert WithTermination(Book(WithTermination(alone, pos, Some(month)), alone.rows), pos, None) == alone.positions;
    SoundParts(alone.rows, ClockAfter(t1, ticks));
    if HoldsZero(b.rows, pos, month) {
      ZeroRowGoes(alone.rows, pos, month, note, t1, c, t2);
      var z :| LiveAt(alone.rows, pos, month, z) && alone.rows[z].amount == 0.0;
      assert z in LiveView(alone.rows);
    } else {
      NoZeroUndone(alone.rows, pos, month, note, t1, c, t2);
    }
  }

  lemma {:induction false} ApartFirst(b: Book, pos: Id, m: int, c: Id, xs: seq<Tick>, ys: seq<Tick>)
    requires AllApart(b, pos, m, c, xs + ys)
    ensures AllApart(b, pos, m, c, xs)
    decreases |xs|
  {
    hide Apart, Step;
    if xs == [] {
    } else {
      assert (xs + ys)[0] == xs[0] && (xs + ys)[1..] == xs[1..] + ys;
      ApartFirst(Step(b, xs[0].op, xs[0].now, xs[0].newId), pos, m, c, xs[1..], ys);
    }
  }

  lemma LegalEarlier(b: Book, clock: Time, earlier: Time, ticks: seq<Tick>)
    requires Legal(b, clock, ticks) && earlier <= clock
    ensures Legal(b, earlier, ticks)
  {
  }

  lemma OtherMonth(rows: map<Id, Row>, pos: Id, m: int, other: int, note: string, now: Time, newId: Id)
    requires m != other && Closable(rows, pos, m, note, now, newId)
    ensures var s := CloseWritten(rows, pos, m, note, now, newId);
            && (HoldsZero(s, pos, other) <==> HoldsZero(rows, pos, other))
            && forall id :: LiveAt(s, pos, other, id) ==> LiveAt(rows, pos, other, id) && s[id] == rows[id]
  {
    var s := CloseWritten(rows, pos, m, note, now, newId);
    ZeroIsLive(rows, pos, m);
    forall id ensures LiveAt(s, pos, other, id) <==> LiveAt(rows, pos, other, id)
              ensures LiveAt(rows, pos, other, id) ==> s[id] == rows[id]
    {
    }
  }

  lemma ZeroAdopted(rows: map<Id, Row>, pos: Id, m: int, note: string, now: Time, newId: Id)
    requires Closable(rows, pos, m, note, now, newId)
    ensures var s := CloseWritten(rows, pos, m, note, now, newId);
            && (HoldsZero(rows, pos, m) ==> AmountView(s) == AmountView(rows))
            && (!HoldsZero(rows, pos, m) ==> LiveAt(s, pos, m, newId))
  {
    ZeroIsLive(rows, pos, m);
  }

  /** Closing two months and reopening only the second. */
  lemma SecondReopened(rows: map<Id, Row>, pos: Id, m1: int, m2: int, note: string, t1: Time, id1: Id, t2: Time,
          id2: Id, t3: Time)
    requires m1 != m2 && Closable(rows, pos, m1, note, t1, id1)
    requires var s := CloseWritten(rows, pos, m1, note, t1, id1); Linked(s) && Closable(s, pos, m2, note, t2, id2)
    ensures var end := Undone(CloseWritten(rows, pos, m1, note, t1, id1), pos, m2, note, t2, id2, t3);
            && end.Some?
            && (AmountView(end.value) == AmountView(rows) <==> HoldsZero(rows, pos, m1) && !HoldsZero(rows, pos, m2))
  {
    hide CloseWritten, CloseReverted, Linked;
    var s := CloseWritten(rows, pos, m1, note, t1, id1);
    ZeroAdopted(rows, pos, m1, note, t1, id1);
    OtherMonth(rows, pos, m1, m2, note, t1, id1);
    if HoldsZero(s, pos, m2) {
      ZeroRowGoes(s, pos, m2, note, t2, id2, t3);
      var z :| LiveAt(s, pos, m2, z) && s[z].amount == 0.0;
      assert z in AmountView(rows);
    } else {
      NoZeroUndone(s, pos, m2, note, t2, id2, t3);
      var end := Undone(s, pos, m2, note, t2, id2, t3).value;
      SameAmounts(end, s);
      if !HoldsZero(rows, pos, m1) { assert id1 in AmountView(s) && id1 !in AmountView(rows); }
    }
  }

  lemma SameAmounts(a: map<Id, Row>, b: map<Id, Row>)
    requires LiveView(a) == LiveView(b)
    ensures AmountView(a) == AmountView(b)
  {
    var x, y := LiveView(a), LiveView(b);
    forall id ensures id in AmountView(a) <==> id in x
              ensures id in AmountView(b) <==> id in y
              ensures id in x ==> AmountView(a)[id] == AmountView(b)[id]
    {
      assert id in x <==> id in y;
      assert id in x ==> x[id] == a[id] && y[id] == b[id];
    }
  }

  /** Moving the termination to another month through the lifecycle form and then un-terminating,
      with any requests apart from the two months in between: the first month's close row is only
      taken back when it was the user's own zero row, so the amounts are what those requests alone
      would have left if and only if the first month already held a live zero row and the second
      did not. */
  lemma RedatedUndo(b: Book, clock: Time, pos: Id, m1: int, m2: int, note: string, t1: Time, id1: Id, xs: seq<Tick>,
          t2: Time, id2: Id, ys: seq<Tick>, t3: Time)
    requires Sound(b.rows, clock) && clock < t1 && id1 !in b.rows && m1 != m2 && LivePosition(b, pos)
    requires var first := Run(Terminate(b, pos, m1, note, t1, id1), xs);
             && Legal(Terminate(b, pos, m1, note, t1, id1), t1, xs) && ClockAfter(t1, xs) < t2 && id2 !in first.rows
             && Legal(Terminate(first, pos, m2, note, t2, id2), t2, ys)
             && AllApart(b, pos, m1, id1, xs + ys) && AllApart(first, pos, m2, id2, ys)
    ensures var first := Run(Terminate(b, pos, m1, note, t1, id1), xs);
            var end := Reactivate(Run(Terminate(first, pos, m2, note, t2, id2), ys), pos, t3);
            AmountView(end.rows) == AmountView(Run(b, xs + ys).rows)
            <==> HoldsZero(b.rows, pos, m1) && !HoldsZero(Run(b, xs).rows, pos, m2)
  {
    hide Sound, CloseWritten, CloseReverted, Run, Legal, AllApart, AmountView, HoldsZero;
    var b1 := Terminate(b, pos, m1, note, t1, id1);
    var first, alone := Run(b1, xs), Run(b, xs + ys);
    ApartFirst(b, pos, m1, id1, xs, ys);
    CloseCommutes(b, clock, pos, m1, note, t1, id1, xs);
    StepKeeps(b, clock, SetLifecycle(pos, Some(m1), note), t1, id1);
    RunKeeps(b1, t1, xs);
    CloseCommutes(first, ClockAfter(t1, xs), pos, m2, note, t2, id2, ys);
    LegalEarlier(first, t2, ClockAfter(t1, xs), ys);
    RunAppend(b1, t1, xs, ys);
    CloseCommutes(b, clock, pos, m1, note, t1, id1, xs + ys);
    SoundParts(Run(first, ys).rows, ClockAfter(t2, ys));
    SecondReopened(alone.rows, pos, m1, m2, note, t1, id1, t2, id2, t3);
    OtherMonth(Run(b, xs).rows, pos, m1, m2, note, t1, id1);
    OtherMonth(alone.rows, pos, m1, m2, note, t1, id1);
  }
}
