/** What each request does to the amounts a household sees. */
module LiveAmounts {
  import opened Rows
  import opened Displacement
  import opened LifecycleUndo

  /** The live amount recorded for a position and month. */
  ghost function AmountAt(rows: map<Id, Row>, pos: Id, month: int): Option<real> {
    match LiveId(rows, pos, month)
    case None => None
    case Some(l) => Some(rows[l].amount)
  }

  /** The amount the month's live row took the place of, if it took any. */
  ghost function DisplacedAt(rows: map<Id, Row>, pos: Id, month: int): Option<real> {
    match LiveId(rows, pos, month)
    case None => None
    case Some(l) =>
      var d := rows[l].supersedes;
      if d.Some? && d.value in rows then Some(rows[d.value].amount) else None
  }

  /** Closing a month writes zero into it. */
  ghost function Closed(rows: map<Id, Row>, pos: Id, closing: int, p: Id, m: int): Option<real> {
    if p == pos && m == closing then Some(0.0) else AmountAt(rows, p, m)
  }

  /** Reopening a month takes a zero out of it and brings back what it displaced. */
  ghost function Reopened(rows: map<Id, Row>, pos: Id, closing: int, p: Id, m: int): Option<real> {
    if p == pos && m == closing && AmountAt(rows, p, m) == Some(0.0) then DisplacedAt(rows, p, m)
    else AmountAt(rows, p, m)
  }

  predicate IsSlot(b: Book, id: Id, p: Id, m: int) {
    Editable(b, id) && b.rows[id].parent == Some(p) && b.rows[id].month == m
  }

  /** The amount position p should show for month m after the request. */
  ghost function Expected(b: Book, op: Op, p: Id, m: int): Option<real> {
    var now := AmountAt(b.rows, p, m);
    match op
    case Record(pos, month, amount, _) =>
      if p == pos && m == month && LivePosition(b, p) && now.None? then Some(amount) else now
    case Import(pos, month, amount, _) => if p == pos && m == month && LivePosition(b, p) then Some(amount) else now
    case Edit(id, amount, _) => if IsSlot(b, id, p, m) then Some(amount) else now
    case Delete(id) => if IsSlot(b, id, p, m) then None else now
    case DeletePosition(pos) => if p == pos && LivePosition(b, p) then None else now
    case SetLifecycle(pos, terminated, _) =>
      if !LivePosition(b, pos) then now
      else if terminated.Some? then Closed(b.rows, pos, terminated.value, p, m)
      else if b.positions[pos].terminated.Some? then Reopened(b.rows, pos, b.positions[pos].terminated.value, p, m)
      else now
    case MoveMaturity(pos, from, to, _) =>
      if !LivePosition(b, pos) then now
      else if p == pos && m == to then Some(0.0)
      else Reopened(b.rows, pos, from, p, m)
  }

  // ----- The whole entry, with everything else a member recorded in it -------------------

  datatype Entry = Entry(amount: real, content: string)

  ghost function EntryAt(rows: map<Id, Row>, pos: Id, month: int): Option<Entry> {
    match LiveId(rows, pos, month)
    case None => None
    case Some(l) => Some(Entry(rows[l].amount, rows[l].content))
  }

  ghost function DisplacedEntry(rows: map<Id, Row>, pos: Id, month: int): Option<Entry> {
    match LiveId(rows, pos, month)
    case None => None
    case Some(l) =>
      var d := rows[l].supersedes;
      if d.Some? && d.value in rows then Some(Entry(rows[d.value].amount, rows[d.value].content)) else None
  }

  ghost function ReopenedEntry(rows: map<Id, Row>, pos: Id, closing: int, p: Id, m: int): Option<Entry> {
    if p == pos && m == closing && AmountAt(rows, p, m) == Some(0.0) then DisplacedEntry(rows, p, m)
    else EntryAt(rows, p, m)
  }

  /** The entry position p should show for month m after the request: a close shows its note. */
  ghost function ExpectedEntry(b: Book, op: Op, p: Id, m: int): Option<Entry> {
    var now := EntryAt(b.rows, p, m);
    match op
    case Record(pos, month, amount, content) =>
      if p == pos && m == month && LivePosition(b, p) && now.None? then Some(Entry(amount, content)) else now
    case Import(pos, month, amount, content) =>
      if p == pos && m == month && LivePosition(b, p) then Some(Entry(amount, content)) else now
    case Edit(id, amount, content) => if IsSlot(b, id, p, m) then Some(Entry(amount, content)) else now
    case Delete(id) => if IsSlot(b, id, p, m) then None else now
    case DeletePosition(pos) => if p == pos && LivePosition(b, p) then None else now
    case SetLifecycle(pos, terminated, note) =>
      if !LivePosition(b, pos) then now
      else if terminated.Some? then if p == pos && m == terminated.value then Some(Entry(0.0, note)) else now
      else if b.positions[pos].terminated.Some? then ReopenedEntry(b.rows, pos, b.positions[pos].terminated.value, p, m)
      else now
    case MoveMaturity(pos, from, to, note) =>
      if !LivePosition(b, pos) then now
      else if p == pos && m == to then Some(Entry(0.0, note))
      else ReopenedEntry(b.rows, pos, from, p, m)
  }

  lemma AmountIs(rows: map<Id, Row>, pos: Id, month: int, id: Id)
    requires UniqueLive(rows) && LiveAt(rows, pos, month, id)
    ensures AmountAt(rows, pos, month) == Some(rows[id].amount)
    ensures EntryAt(rows, pos, month) == Some(Entry(rows[id].amount, rows[id].content))
  {
  }

  lemma SameAmount(rows: map<Id, Row>, s: map<Id, Row>, pos: Id, month: int)
    requires UniqueLive(rows) && UniqueLive(s)
    requires forall id :: LiveAt(rows, pos, month, id) <==> LiveAt(s, pos, month, id)
    requires forall id :: LiveAt(rows, pos, month, id) ==>
               id in s && s[id].amount == rows[id].amount && s[id].content == rows[id].content
    ensures AmountAt(s, pos, month) == AmountAt(rows, pos, month)
    ensures EntryAt(s, pos, month) == EntryAt(rows, pos, month)
  {
  }

  lemma CloseShows(rows: map<Id, Row>, pos: Id, closing: int, note: string, now: Time, newId: Id, p: Id, m: int)
    requires Sound(rows, now) && Quiet(rows, Some(pos), closing, now) && newId !in rows
    ensures AmountAt(CloseWritten(rows, pos, closing, note, now, newId), p, m) == Closed(rows, pos, closing, p, m)
    ensures EntryAt(CloseWritten(rows, pos, closing, note, now, newId), p, m)
            == if p == pos && m == closing then Some(Entry(0.0, note)) else EntryAt(rows, p, m)
  {
    var s := CloseWritten(rows, pos, closing, note, now, newId);
    CloseWrittenKeeps(rows, pos, closing, note, now, newId);
    if p == pos && m == closing {
      match LiveId(rows, pos, closing)
      case Some(l) => AmountIs(s, p, m, if rows[l].amount == 0.0 then l else newId);
      case None => AmountIs(s, p, m, newId);
    } else {
      SameAmount(rows, s, p, m);
    }
  }

  lemma ReopenShows(rows: map<Id, Row>, pos: Id, closing: int, now: Time, p: Id, m: int)
    requires Sound(rows, now) && Quiet(rows, Some(pos), closing, now)
    ensures var s := CloseReverted(rows, pos, closing, now);
            && s.Some? && AmountAt(s.value, p, m) == Reopened(rows, pos, closing, p, m)
            && EntryAt(s.value, p, m) == ReopenedEntry(rows, pos, closing, p, m)
  {
    CloseRevertedKeeps(rows, pos, closing, now);
    var s := CloseReverted(rows, pos, closing, now).value;
    if p == pos && m == closing && AmountAt(rows, p, m) == Some(0.0) {
      var l := LiveId(rows, p, m).value;
      if rows[l].supersedes.Some? {
        var d := rows[l].supersedes.value;
        assert SameMonth(rows, l, d);
        AmountIs(s, p, m, d);
      } else {
        forall id ensures !LiveAt(s, p, m, id) {
          if LiveAt(s, p, m, id) { LiveIdIs(rows, p, m, id); }
        }
      }
    } else {
      SameAmount(rows, s, p, m);
    }
  }

  lemma FlipShows(b: Book, op: Op, now: Time, newId: Id, p: Id, m: int)
    requires op.SetLifecycle? || op.MoveMaturity?
    requires Sound(b.rows, now) && (forall month :: Quiet(b.rows, Some(op.pos), month, now)) && newId !in b.rows
    ensures AmountAt(Step(b, op, now, newId).rows, p, m) == Expected(b, op, p, m)
    ensures EntryAt(Step(b, op, now, newId).rows, p, m) == ExpectedEntry(b, op, p, m)
  {
    hide Sound, AmountAt, EntryAt, DisplacedEntry, DisplacedAt, CloseWritten, CloseReverted;
    var pos := op.pos;
    if !LivePosition(b, pos) {
    } else if op.MoveMaturity? {
      var rows := b.rows;
      if op.from != op.to {
        CloseRevertedKeeps(b.rows, pos, op.from, now);
        ReopenShows(b.rows, pos, op.from, now, p, m);
        rows := CloseReverted(b.rows, pos, op.from, now).value;
        assert newId !in rows.Keys;
      }
      CloseShows(rows, pos, op.to, op.note, now, newId, p, m);
    } else if op.terminated.Some? {
      CloseShows(b.rows, pos, op.terminated.value, op.note, now, newId, p, m);
    } else if b.positions[pos].terminated.Some? {
      ReopenShows(b.rows, pos, b.positions[pos].terminated.value, now, p, m);
    }
  }

  /** In every reachable state every request changes the visible amounts and entries as expected,
      and no others: an edit only its own slot, a close only its month, an undo only what it
      displaced. */
  lemma StepShows(b: Book, clock: Time, op: Op, now: Time, newId: Id, p: Id, m: int)
    requires Sound(b.rows, clock) && clock < now && newId !in b.rows
    ensures AmountAt(Step(b, op, now, newId).rows, p, m) == Expected(b, op, p, m)
    ensures EntryAt(Step(b, op, now, newId).rows, p, m) == ExpectedEntry(b, op, p, m)
  {
    LaterIsQuiet(b.rows, clock, now);
    if op.SetLifecycle? || op.MoveMaturity? {
      FlipShows(b, op, now, newId, p, m);
    } else {
      var s := Step(b, op, now, newId).rows;
      StepKeeps(b, clock, op, now, newId);
      RowOpShows(b, op, now, newId, s, p, m);
    }
  }

  lemma RowOpShows(b: Book, op: Op, now: Time, newId: Id, s: map<Id, Row>, p: Id, m: int)
    requires !op.SetLifecycle? && !op.MoveMaturity? && newId !in b.rows
    requires s == Step(b, op, now, newId).rows && UniqueLive(b.rows) && UniqueLive(s)
    ensures AmountAt(s, p, m) == Expected(b, op, p, m) && EntryAt(s, p, m) == ExpectedEntry(b, op, p, m)
  {
    match op
    case Record(pos, month, _, _) =>
      if s != b.rows && p == pos && m == month {
        AmountIs(s, p, m, newId);
      } else {
        SameAmount(b.rows, s, p, m);
      }
    case Import(pos, month, _, _) =>
      if s != b.rows && p == pos && m == month {
        AmountIs(s, p, m, if LiveId(b.rows, p, m).Some? then LiveId(b.rows, p, m).value else newId);
      } else { SameAmount(b.rows, s, p, m); }
    case Edit(id, _, _) => if IsSlot(b, id, p, m) { AmountIs(s, p, m, id); } else { SameAmount(b.rows, s, p, m); }
    case Delete(id) =>
      if IsSlot(b, id, p, m) {
        forall i ensures !LiveAt(s, p, m, i) {
          if LiveAt(s, p, m, i) { LiveIdIs(b.rows, p, m, i); LiveIdIs(b.rows, p, m, id); }
        }
      } else { SameAmount(b.rows, s, p, m); }
    case DeletePosition(pos) =>
      if p == pos && LivePosition(b, p) {
        forall i ensures !LiveAt(s, p, m, i) {}
      } else { SameAmount(b.rows, s, p, m); }
  }

  // ----- Deleting a position ---------------------------------------------------------------

  ghost predicate IsGone(b: Book, pos: Id) {
    pos in b.positions && !b.positions[pos].live && forall m :: AmountAt(b.rows, pos, m) == None
  }

  lemma GoneStays(b: Book, clock: Time, op: Op, now: Time, newId: Id, pos: Id)
    requires Sound(b.rows, clock) && clock < now && newId !in b.rows && IsGone(b, pos)
    ensures IsGone(Step(b, op, now, newId), pos)
  {
    hide Sound, AmountAt, EntryAt, CloseWritten, CloseReverted;
    forall m ensures AmountAt(Step(b, op, now, newId).rows, pos, m) == None {
      StepShows(b, clock, op, now, newId, pos, m);
    }
  }

  lemma {:induction false} GoneForGood(b: Book, clock: Time, ticks: seq<Tick>, pos: Id)
    requires Sound(b.rows, clock) && Legal(b, clock, ticks) && IsGone(b, pos)
    ensures IsGone(Run(b, ticks), pos)
    decreases |ticks|
  {
    hide Sound, IsGone, Step;
    if ticks == [] {
    } else {
      var k := ticks[0];
      StepKeeps(b, clock, k.op, k.now, k.newId);
      GoneStays(b, clock, k.op, k.now, k.newId, pos);
      GoneForGood(Step(b, k.op, k.now, k.newId), k.now, ticks[1..], pos);
    }
  }

  /** A deleted position is never live again and never shows anything again, whatever requests
      follow. */
  lemma DeletedForGood(b: Book, clock: Time, pos: Id, now: Time, newId: Id, ticks: seq<Tick>)
    requires Sound(b.rows, clock) && clock < now && newId !in b.rows && LivePosition(b, pos)
    requires Legal(Step(b, DeletePosition(pos), now, newId), now, ticks)
    ensures var end := Run(Step(b, DeletePosition(pos), now, newId), ticks);
            !LivePosition(end, pos) && forall m :: AmountAt(end.rows, pos, m) == None
  {
    hide Sound, AmountAt, EntryAt, Legal, Run;
    var next := Step(b, DeletePosition(pos), now, newId);
    StepKeeps(b, clock, DeletePosition(pos), now, newId);
    forall m ensures AmountAt(next.rows, pos, m) == None {
      StepShows(b, clock, DeletePosition(pos), now, newId, pos, m);
    }
    GoneForGood(next, now, ticks, pos);
  }
}
