/** Close-snapshot displacement on one position group (assets, liabilities, receivables
    or investments): the snapshot statements, the lifecycle flips built from them, and
    what every run of them keeps. */
module Displacement {
  import opened Rows

  /** `terminated` is the month of terminated_at, None while the position is active. */
  datatype Position = Position(terminated: Option<int>, live: bool)

  datatype Book = Book(positions: map<Id, Position>, rows: map<Id, Row>)

  // ----- The statements, on the snapshot table as a value ---------------------

  predicate Live(rows: map<Id, Row>, id: Id) {
    id in rows && rows[id].deleted.None?
  }

  predicate LiveAt(rows: map<Id, Row>, pos: Id, month: int, id: Id) {
    Live(rows, id) && rows[id].parent == Some(pos) && rows[id].month == month
  }

  ghost function LiveId(rows: map<Id, Row>, pos: Id, month: int): (r: Option<Id>)
    ensures r.Some? ==> LiveAt(rows, pos, month, r.value)
    ensures r.None? ==> forall id :: !LiveAt(rows, pos, month, id)
  {
    if id :| LiveAt(rows, pos, month, id) then Some(id) else None
  }

  function NewSnapshot(id: Id, pos: Id, month: int, amount: real, content: string, supersedes: Option<Id>,
          now: Time): Row
  {
    BlankRow(id).(parent := Some(pos), month := month, amount := amount, content := content,
                  supersedes := supersedes, created := Some(now))
  }

  function Archived(rows: map<Id, Row>, id: Id, now: Time): map<Id, Row>
    requires id in rows
  {
    rows[id := rows[id].(deleted := Some(now))]
  }

  function Unarchived(rows: map<Id, Row>, id: Id): map<Id, Row>
    requires id in rows
  {
    rows[id := rows[id].(deleted := None)]
  }

  function Edited(rows: map<Id, Row>, id: Id, amount: real, content: string): map<Id, Row>
    requires id in rows
  {
    rows[id := rows[id].(amount := amount, content := content)]
  }

  function Cascaded(rows: map<Id, Row>, pos: Id, now: Time): map<Id, Row> {
    map id | id in rows ::
      if rows[id].deleted.None? && rows[id].parent == Some(pos) then rows[id].(deleted := Some(now)) else rows[id]
  }

  ghost function CloseWritten(rows: map<Id, Row>, pos: Id, month: int, note: string, now: Time,
          newId: Id): map<Id, Row>
  {
    match LiveId(rows, pos, month)
    case None => rows[newId := NewSnapshot(newId, pos, month, 0.0, note, None, now)]
    case Some(l) =>
      if rows[l].amount == 0.0 then Edited(rows, l, 0.0, note)
      else Archived(rows, l, now)[newId := NewSnapshot(newId, pos, month, 0.0, note, Some(l), now)]
  }

  /** None when the restore statement touches no row, which aborts the flip. */
  ghost function CloseReverted(rows: map<Id, Row>, pos: Id, month: int, now: Time): Option<map<Id, Row>> {
    match LiveId(rows, pos, month)
    case None => Some(rows)
    case Some(l) =>
      if rows[l].amount != 0.0 then Some(rows)
      else
        var archived := Archived(rows, l, now);
        match rows[l].supersedes
        case None => Some(archived)
        case Some(d) =>
          if d in archived && archived[d].deleted.Some? then Some(Unarchived(archived, d)) else None
  }

  // ----- One transaction ------------------------------------------------------

  datatype Op =
    | Record(pos: Id, month: int, amount: real, content: string)
    | Import(pos: Id, month: int, amount: real, content: string)
    | Edit(id: Id, amount: real, content: string)
    | Delete(id: Id)
    | DeletePosition(pos: Id)
    | SetLifecycle(pos: Id, terminated: Option<int>, note: string)
    | MoveMaturity(pos: Id, from: int, to: int, note: string)

  predicate LivePosition(b: Book, pos: Id) {
    pos in b.positions && b.positions[pos].live
  }

  /** The guard every single-row statement carries: the row and its position are live. */
  predicate Editable(b: Book, id: Id) {
    Live(b.rows, id) && b.rows[id].parent.Some? && LivePosition(b, b.rows[id].parent.value)
  }

  function WithTermination(b: Book, pos: Id, terminated: Option<int>): map<Id, Position>
    requires pos in b.positions
  {
    b.positions[pos := b.positions[pos].(terminated := terminated)]
  }

  /** The state after one transaction at time `now`, which may insert a row under the id
      `newId`; a failed transaction leaves the book as it was. */
  ghost function Step(b: Book, op: Op, now: Time, newId: Id): Book {
    match op
    case Record(pos, month, amount, content) =>
      if LivePosition(b, pos) && LiveId(b.rows, pos, month).None? then
        b.(rows := b.rows[newId := NewSnapshot(newId, pos, month, amount, content, None, now)])
      else b
    case Import(pos, month, amount, content) =>
      if !LivePosition(b, pos) then b
      else (match LiveId(b.rows, pos, month)
            case None => b.(rows := b.rows[newId := NewSnapshot(newId, pos, month, amount, content, None, now)])
            case Some(l) => b.(rows := Edited(b.rows, l, amount, content)))
    case Edit(id, amount, content) =>
      if Editable(b, id) then b.(rows := Edited(b.rows, id, amount, content)) else b
    case Delete(id) =>
      if Editable(b, id) then b.(rows := Archived(b.rows, id, now)) else b
    case DeletePosition(pos) =>
      if LivePosition(b, pos) then
        Book(b.positions[pos := b.positions[pos].(live := false)], Cascaded(b.rows, pos, now))
      else b
    case SetLifecycle(pos, terminated, note) =>
      if !LivePosition(b, pos) then b
      else if terminated.Some? then
        Book(WithTermination(b, pos, terminated), CloseWritten(b.rows, pos, terminated.value, note, now, newId))
      else if b.positions[pos].terminated.Some? then
        (match CloseReverted(b.rows, pos, b.positions[pos].terminated.value, now)
         case None => b
         case Some(rows) => Book(WithTermination(b, pos, None), rows))
      else b
    case MoveMaturity(pos, from, to, note) =>
      if !LivePosition(b, pos) then b
      else
        var reverted := if from == to then Some(b.rows) else CloseReverted(b.rows, pos, from, now);
        match reverted
        case None => b
        case Some(rows) => Book(WithTermination(b, pos, Some(to)), CloseWritten(rows, pos, to, note, now, newId))
  }

  datatype Tick = Tick(op: Op, now: Time, newId: Id)

  ghost function Run(b: Book, ticks: seq<Tick>): Book
    decreases |ticks|
  {
    if ticks == [] then b
    else Run(Step(b, ticks[0].op, ticks[0].now, ticks[0].newId), ticks[1..])
  }

  /** Transaction times strictly increase and generated ids are new. */
  ghost predicate Legal(b: Book, clock: Time, ticks: seq<Tick>)
    decreases |ticks|
  {
    ticks == [] ||
    (clock < ticks[0].now && ticks[0].newId !in b.rows
     && Legal(Step(b, ticks[0].op, ticks[0].now, ticks[0].newId), ticks[0].now, ticks[1..]))
  }

  // ----- The invariant --------------------------------------------------------

  predicate SameMonth(rows: map<Id, Row>, i: Id, j: Id)
    requires i in rows && j in rows
  {
    rows[i].parent == rows[j].parent && rows[i].month == rows[j].month
  }

  /** The partial unique index: one live row per position and month. */
  ghost predicate UniqueLive(rows: map<Id, Row>) {
    forall i, j :: Live(rows, i) && Live(rows, j) && SameMonth(rows, i, j) ==> i == j
  }

  ghost predicate Stamped(rows: map<Id, Row>, clock: Time) {
    && (forall i :: i in rows ==> rows[i].id == i && rows[i].parent.Some? && rows[i].created.Some?
                                  && rows[i].created.value <= clock
                                  && (rows[i].deleted.Some? ==> rows[i].deleted.value <= clock))
    && (forall i, j :: i in rows && j in rows && SameMonth(rows, i, j) && rows[i].created == rows[j].created ==> i == j)
  }

  /** c's link is in force: the row it names was archived by the transaction that created c. */
  predicate InForce(rows: map<Id, Row>, c: Id, d: Id)
    requires c in rows && d in rows
  {
    rows[d].deleted.Some? && rows[d].deleted == rows[c].created && rows[d].amount != 0.0
  }

  /** c was archived by something other than a displacement, so nothing can bring it back. */
  ghost predicate Retired(rows: map<Id, Row>, c: Id)
    requires c in rows
  {
    rows[c].deleted.Some? && forall x :: x in rows && rows[x].supersedes == Some(c) ==>
      rows[x].created != rows[c].deleted
  }

  ghost predicate Linked(rows: map<Id, Row>) {
    forall c :: c in rows && rows[c].supersedes.Some? ==>
      var d := rows[c].supersedes.value;
      d in rows && d != c && SameMonth(rows, c, d) && (InForce(rows, c, d) || Retired(rows, c))
  }

  /** Every timestamp coincidence the old inference rule would accept is a declared link. */
  ghost predicate NoCoincidence(rows: map<Id, Row>) {
    forall a, c :: a in rows && c in rows && SameMonth(rows, a, c) && InForce(rows, c, a) ==>
      rows[c].supersedes == Some(a)
  }

  /** What the requests rely on. */
  ghost predicate Sound(rows: map<Id, Row>, clock: Time) {
    UniqueLive(rows) && Stamped(rows, clock) && Linked(rows)
  }

  /** What every run from an empty table keeps. */
  ghost predicate Inv(rows: map<Id, Row>, clock: Time) {
    Sound(rows, clock) && NoCoincidence(rows)
  }

  /** s keeps what rows had. */
  ghost predicate Keeps(rows: map<Id, Row>, s: map<Id, Row>, now: Time) {
    Sound(s, now) && (NoCoincidence(rows) ==> NoCoincidence(s))
  }

  // ----- Every transaction keeps it --------------------------------------------

  /** Nothing at this position and month carries the timestamp `now` yet. */
  ghost predicate Quiet(rows: map<Id, Row>, pos: Option<Id>, month: int, now: Time) {
    forall i :: i in rows && rows[i].parent == pos && rows[i].month == month ==>
      rows[i].created != Some(now) && rows[i].deleted != Some(now)
  }

  lemma LaterIsQuiet(rows: map<Id, Row>, clock: Time, now: Time)
    requires Sound(rows, clock) && clock < now
    ensures Sound(rows, now)
    ensures forall pos, month :: Quiet(rows, pos, month, now)
  {
  }

  // A transaction's effect on the rows that were there: each keeps its identity, position,
  // month, creation time and link; it is unchanged while archived, except that one row may
  // be restored; a live one may be edited or archived at `now`.

  predicate SameIdentity(r: Row, q: Row) {
    q.id == r.id && q.parent == r.parent && q.month == r.month && q.created == r.created && q.supersedes == r.supersedes
  }

  predicate Moved(r: Row, q: Row, now: Time, restored: bool) {
    SameIdentity(r, q) &&
    if r.deleted.None? then q.deleted.None? || (q.deleted == Some(now) && q.amount == r.amount)
    else q.amount == r.amount && q.deleted == (if restored then None else r.deleted)
  }

  ghost predicate Moves(rows: map<Id, Row>, s: map<Id, Row>, now: Time, restored: Option<Id>, inserted: Option<Id>) {
    && (forall i :: i in s <==> i in rows || inserted == Some(i))
    && (inserted.Some? ==> inserted.value !in rows && inserted.value in s)
    && (forall i :: i in rows ==> Moved(rows[i], s[i], now, restored == Some(i)))
  }

  /** At most one row (`extra`) may become live, alone at its position and month. */
  lemma UniqueAfter(rows: map<Id, Row>, s: map<Id, Row>, now: Time, restored: Option<Id>, inserted: Option<Id>,
          extra: Option<Id>)
    requires UniqueLive(rows) && Moves(rows, s, now, restored, inserted)
    requires restored.Some? ==> extra == restored
    requires inserted.Some? ==> extra == inserted
    requires extra.Some? && Live(s, extra.value) ==>
               forall i :: Live(s, i) && i != extra.value ==> !SameMonth(s, i, extra.value)
    ensures UniqueLive(s)
  {
    forall i, j | Live(s, i) && Live(s, j) && SameMonth(s, i, j) ensures i == j {
      if extra != Some(i) && extra != Some(j) { assert Live(rows, i) && Live(rows, j) && SameMonth(rows, i, j); }
    }
  }

  lemma StampedAfter(rows: map<Id, Row>, s: map<Id, Row>, now: Time, restored: Option<Id>, inserted: Option<Id>)
    requires Stamped(rows, now) && Moves(rows, s, now, restored, inserted)
    requires inserted.Some? ==>
               var z := s[inserted.value];
               z.id == inserted.value && z.parent.Some? && z.created == Some(now) && z.deleted.None?
                 && Quiet(rows, z.parent, z.month, now)
    ensures Stamped(s, now)
  {
  }

  lemma LinkedAfter(rows: map<Id, Row>, s: map<Id, Row>, now: Time, restored: Option<Id>, inserted: Option<Id>)
    requires Linked(rows) && Moves(rows, s, now, restored, inserted)
    requires restored.Some? ==>
               && restored.value in rows && !Retired(rows, restored.value)
               && forall c :: c in rows && rows[c].supersedes == restored && InForce(rows, c, restored.value) ==>
                 Retired(s, c)
    requires inserted.Some? && s[inserted.value].supersedes.Some? ==>
               var l := s[inserted.value].supersedes.value;
               Live(rows, l) && SameMonth(s, inserted.value, l) && InForce(s, inserted.value, l)
    ensures Linked(s)
  {
  }

  lemma CoincidenceAfter(rows: map<Id, Row>, s: map<Id, Row>, now: Time, restored: Option<Id>, inserted: Option<Id>)
    requires NoCoincidence(rows) && Moves(rows, s, now, restored, inserted)
    requires forall i :: i in rows && s[i].deleted != rows[i].deleted ==>
             Quiet(rows, rows[i].parent, rows[i].month, now)
    requires inserted.Some? ==>
               var z := s[inserted.value];
               z.created == Some(now) && z.deleted.None? && Quiet(rows, z.parent, z.month, now)
               && forall a :: Live(rows, a) && !Live(s, a) && SameMonth(s, a, inserted.value) ==>
                 z.supersedes == Some(a)
    ensures NoCoincidence(s)
  {
  }

  lemma InsertKeeps(rows: map<Id, Row>, r: Row, now: Time)
    requires Sound(rows, now) && Quiet(rows, r.parent, r.month, now) && r.id !in rows
    requires r.created == Some(now) && r.deleted.None? && r.supersedes.None? && r.parent.Some?
    requires LiveId(rows, r.parent.value, r.month).None?
    ensures Keeps(rows, rows[r.id := r], now)
  {
    var s := rows[r.id := r];
    forall i | Live(s, i) && i != r.id ensures !SameMonth(s, i, r.id) {
      assert !LiveAt(rows, r.parent.value, r.month, i);
    }
    UniqueAfter(rows, s, now, None, Some(r.id), Some(r.id));
    StampedAfter(rows, s, now, None, Some(r.id));
    LinkedAfter(rows, s, now, None, Some(r.id));
    if NoCoincidence(rows) { CoincidenceAfter(rows, s, now, None, Some(r.id)); }
  }

  /** Editing or archiving live rows, inserting and restoring none. */
  lemma InPlaceKeeps(rows: map<Id, Row>, s: map<Id, Row>, now: Time)
    requires Sound(rows, now) && Moves(rows, s, now, None, None)
    requires forall i :: i in rows && s[i].deleted != rows[i].deleted ==>
             Quiet(rows, rows[i].parent, rows[i].month, now)
    ensures Keeps(rows, s, now)
  {
    UniqueAfter(rows, s, now, None, None, None);
    StampedAfter(rows, s, now, None, None);
    LinkedAfter(rows, s, now, None, None);
    if NoCoincidence(rows) { CoincidenceAfter(rows, s, now, None, None); }
  }

  /** Displacing a non-zero live row and inserting the close row that names it. */
  lemma DisplaceKeeps(rows: map<Id, Row>, l: Id, z: Row, now: Time)
    requires Sound(rows, now) && Live(rows, l) && rows[l].amount != 0.0 && z.id !in rows
    requires z.created == Some(now) && z.deleted.None? && z.supersedes == Some(l)
    requires z.parent == rows[l].parent && z.month == rows[l].month && Quiet(rows, z.parent, z.month, now)
    ensures Keeps(rows, Archived(rows, l, now)[z.id := z], now)
  {
    var s := Archived(rows, l, now)[z.id := z];
    forall i | Live(s, i) && i != z.id ensures !SameMonth(s, i, z.id) {
      assert Live(rows, i) && (SameMonth(rows, i, l) ==> i == l);
    }
    UniqueAfter(rows, s, now, None, Some(z.id), Some(z.id));
    StampedAfter(rows, s, now, None, Some(z.id));
    LinkedAfter(rows, s, now, None, Some(z.id));
    if NoCoincidence(rows) { CoincidenceAfter(rows, s, now, None, Some(z.id)); }
  }

  /** Archiving a live row and restoring what it displaced. */
  lemma RevertKeeps(rows: map<Id, Row>, l: Id, now: Time)
    requires Sound(rows, now) && Live(rows, l) && rows[l].supersedes.Some?
    requires Quiet(rows, rows[l].parent, rows[l].month, now)
    ensures var d := rows[l].supersedes.value;
            && d in rows && d != l && rows[d].deleted.Some? && SameMonth(rows, l, d)
            && Keeps(rows, Unarchived(Archived(rows, l, now), d), now)
  {
    var d := rows[l].supersedes.value;
    var s := Unarchived(Archived(rows, l, now), d);
    assert InForce(rows, l, d);
    forall i | Live(s, i) && i != d ensures !SameMonth(s, i, d) {
      assert Live(rows, i) && (SameMonth(rows, i, l) ==> i == l);
    }
    UniqueAfter(rows, s, now, Some(d), None, Some(d));
    StampedAfter(rows, s, now, Some(d), None);
    forall c | c in rows && rows[c].supersedes == Some(d) && InForce(rows, c, d) ensures Retired(s, c) {
      assert SameMonth(rows, c, l) && rows[c].created == rows[l].created;  // so c is l itself
      assert c == l;
      forall x | x in s && s[x].supersedes == Some(l) ensures s[x].created != Some(now) {
        assert SameMonth(rows, x, l);
      }
    }
    LinkedAfter(rows, s, now, Some(d), None);
    if NoCoincidence(rows) { CoincidenceAfter(rows, s, now, Some(d), None); }
  }

  lemma CloseWrittenKeeps(rows: map<Id, Row>, pos: Id, month: int, note: string, now: Time, newId: Id)
    requires Sound(rows, now) && Quiet(rows, Some(pos), month, now) && newId !in rows
    ensures Keeps(rows, CloseWritten(rows, pos, month, note, now, newId), now)
  {
    match LiveId(rows, pos, month)
    case None => InsertKeeps(rows, NewSnapshot(newId, pos, month, 0.0, note, None, now), now);
    case Some(l) =>
      if rows[l].amount == 0.0 {
        InPlaceKeeps(rows, Edited(rows, l, 0.0, note), now);
      } else {
        DisplaceKeeps(rows, l, NewSnapshot(newId, pos, month, 0.0, note, Some(l), now), now);
      }
  }

  /** Un-terminating never fails on a restore that finds no row, nor on the unique index. */
  lemma CloseRevertedKeeps(rows: map<Id, Row>, pos: Id, month: int, now: Time)
    requires Sound(rows, now) && Quiet(rows, Some(pos), month, now)
    ensures var r := CloseReverted(rows, pos, month, now);
            && r.Some? && Keeps(rows, r.value, now) && r.value.Keys == rows.Keys
            && forall other :: other != month && Quiet(rows, Some(pos), other, now) ==>
              Quiet(r.value, Some(pos), other, now)
  {
    match LiveId(rows, pos, month)
    case None =>
    case Some(l) =>
      if rows[l].amount == 0.0 {
        InPlaceKeeps(rows, Archived(rows, l, now), now);
        if rows[l].supersedes.Some? { RevertKeeps(rows, l, now); }
      }
  }

  lemma FlipKeeps(b: Book, op: Op, now: Time, newId: Id)
    requires op.SetLifecycle? || op.MoveMaturity?
    requires Sound(b.rows, now) && (forall month :: Quiet(b.rows, Some(op.pos), month, now)) && newId !in b.rows
    ensures Keeps(b.rows, Step(b, op, now, newId).rows, now)
  {
    var pos := op.pos;
    if !LivePosition(b, pos) {
    } else if op.MoveMaturity? {
      if op.from == op.to {
        CloseWrittenKeeps(b.rows, pos, op.to, op.note, now, newId);
      } else {
        CloseRevertedKeeps(b.rows, pos, op.from, now);
        CloseWrittenKeeps(CloseReverted(b.rows, pos, op.from, now).value, pos, op.to, op.note, now, newId);
      }
    } else if op.terminated.Some? {
      CloseWrittenKeeps(b.rows, pos, op.terminated.value, op.note, now, newId);
    } else if b.positions[pos].terminated.Some? {
      CloseRevertedKeeps(b.rows, pos, b.positions[pos].terminated.value, now);
    }
  }

  /** Every transaction keeps the invariant. */
  lemma StepKeeps(b: Book, clock: Time, op: Op, now: Time, newId: Id)
    requires Sound(b.rows, clock) && clock < now && newId !in b.rows
    ensures Keeps(b.rows, Step(b, op, now, newId).rows, now)
  {
    LaterIsQuiet(b.rows, clock, now);
    match op
    case Record(pos, month, amount, content) =>
      if LivePosition(b, pos) && LiveId(b.rows, pos, month).None? {
        InsertKeeps(b.rows, NewSnapshot(newId, pos, month, amount, content, None, now), now);
      }
    case Import(pos, month, amount, content) =>
      if LivePosition(b, pos) {
        match LiveId(b.rows, pos, month)
        case None => InsertKeeps(b.rows, NewSnapshot(newId, pos, month, amount, content, None, now), now);
        case Some(l) => InPlaceKeeps(b.rows, Edited(b.rows, l, amount, content), now);
      }
    case Edit(id, amount, content) =>
      if Editable(b, id) { InPlaceKeeps(b.rows, Edited(b.rows, id, amount, content), now); }
    case Delete(id) =>
      if Editable(b, id) { InPlaceKeeps(b.rows, Archived(b.rows, id, now), now); }
    case DeletePosition(pos) =>
      if LivePosition(b, pos) { InPlaceKeeps(b.rows, Cascaded(b.rows, pos, now), now); }
    case SetLifecycle(_, _, _) => FlipKeeps(b, op, now, newId);
    case MoveMaturity(_, _, _, _) => FlipKeeps(b, op, now, newId);
  }

  function ClockAfter(clock: Time, ticks: seq<Tick>): Time
    decreases |ticks|
  {
    if ticks == [] then clock else ClockAfter(ticks[0].now, ticks[1..])
  }

  /** Every reachable state satisfies the invariant. */
  lemma {:induction false} RunKeeps(b: Book, clock: Time, ticks: seq<Tick>)
    requires Sound(b.rows, clock) && Legal(b, clock, ticks)
    ensures clock <= ClockAfter(clock, ticks) && Keeps(b.rows, Run(b, ticks).rows, ClockAfter(clock, ticks))
    decreases |ticks|
  {
    if ticks == [] {
    } else {
      StepKeeps(b, clock, ticks[0].op, ticks[0].now, ticks[0].newId);
      RunKeeps(Step(b, ticks[0].op, ticks[0].now, ticks[0].newId), ticks[0].now, ticks[1..]);
    }
  }

  lemma {:induction false} RunAppend(b: Book, clock: Time, xs: seq<Tick>, ys: seq<Tick>)
    requires Legal(b, clock, xs) && Legal(Run(b, xs), ClockAfter(clock, xs), ys)
    ensures Legal(b, clock, xs + ys) && Run(b, xs + ys) == Run(Run(b, xs), ys)
    decreases |xs|
  {
    if xs == [] {
      assert xs + ys == ys;
    } else {
      assert (xs + ys)[0] == xs[0] && (xs + ys)[1..] == xs[1..] + ys;
      RunAppend(Step(b, xs[0].op, xs[0].now, xs[0].newId), xs[0].now, xs[1..], ys);
    }
  }
}
