/** Editing the date of a maturity moves its close snapshot. */
module Relocation {
  import opened Rows
  import opened Displacement
  import opened LifecycleUndo
  import opened LiveAmounts

  /** What reopening a month would show: what a zero there took the place of, if anything, and
      otherwise the amount itself. */
  ghost function Under(rows: map<Id, Row>, pos: Id, month: int): Option<real> {
    if AmountAt(rows, pos, month) == Some(0.0) then DisplacedAt(rows, pos, month) else AmountAt(rows, pos, month)
  }

  /** What a zero displaced was not itself a zero. */
  lemma NeverZero(rows: map<Id, Row>, pos: Id, month: int)
    requires Linked(rows)
    ensures Under(rows, pos, month) != Some(0.0)
  {
    if AmountAt(rows, pos, month) == Some(0.0) && DisplacedAt(rows, pos, month).Some? {
      var l := LiveId(rows, pos, month).value;
      assert InForce(rows, l, rows[l].supersedes.value);
    }
  }

  /** What a position shows once it was closed in these months in turn: zero in the last of them,
      in the others what was under a zero in b0, everywhere else what it showed in b0. */
  ghost function AfterClosing(rows: map<Id, Row>, pos: Id, visited: seq<int>, month: int): Option<real>
    requires visited != []
  {
    if month == visited[|visited| - 1] then Some(0.0)
    else if month in visited then Under(rows, pos, month)
    else AmountAt(rows, pos, month)
  }

  ghost predicate ClosedAt(b0: Book, b: Book, pos: Id, visited: seq<int>)
    requires visited != []
  {
    && LivePosition(b, pos)
    && (forall k :: AmountAt(b.rows, pos, k) == AfterClosing(b0.rows, pos, visited, k))
    && DisplacedAt(b.rows, pos, visited[|visited| - 1]) == Under(b0.rows, pos, visited[|visited| - 1])
    && (forall k :: k !in visited ==> DisplacedAt(b.rows, pos, k) == DisplacedAt(b0.rows, pos, k))
  }

  lemma SameDisplaced(rows: map<Id, Row>, s: map<Id, Row>, pos: Id, m: int)
    requires UniqueLive(rows) && UniqueLive(s) && Linked(rows)
    requires forall id :: LiveAt(rows, pos, m, id) <==> LiveAt(s, pos, m, id)
    requires forall id :: id in rows && rows[id].parent == Some(pos) && rows[id].month == m ==>
               id in s && s[id].supersedes == rows[id].supersedes && s[id].amount == rows[id].amount
    ensures DisplacedAt(s, pos, m) == DisplacedAt(rows, pos, m)
  {
    match LiveId(rows, pos, m)
    case None =>
    case Some(l) =>
      LiveIdIs(s, pos, m, l);
      if rows[l].supersedes.Some? { assert SameMonth(rows, l, rows[l].supersedes.value); }
  }

  /** What closing a month displaces. */
  lemma CloseDisplaces(rows: map<Id, Row>, pos: Id, t: int, note: string, now: Time, newId: Id)
    requires Sound(rows, now) && Quiet(rows, Some(pos), t, now) && newId !in rows
    ensures DisplacedAt(CloseWritten(rows, pos, t, note, now, newId), pos, t)
            == Under(rows, pos, t)
  {
    var s := CloseWritten(rows, pos, t, note, now, newId);
    CloseWrittenKeeps(rows, pos, t, note, now, newId);
    match LiveId(rows, pos, t)
    case None => LiveIdIs(s, pos, t, newId);
    case Some(l) =>
      if rows[l].amount == 0.0 { SameDisplaced(rows, s, pos, t); } else { LiveIdIs(s, pos, t, newId); }
  }

  /** Closing or reopening one month leaves the others' links alone. */
  lemma CloseElsewhere(rows: map<Id, Row>, pos: Id, t: int, note: string, now: Time, newId: Id, k: int)
    requires Sound(rows, now) && Quiet(rows, Some(pos), t, now) && newId !in rows && k != t
    ensures DisplacedAt(CloseWritten(rows, pos, t, note, now, newId), pos, k) == DisplacedAt(rows, pos, k)
  {
    CloseWrittenKeeps(rows, pos, t, note, now, newId);
    SameDisplaced(rows, CloseWritten(rows, pos, t, note, now, newId), pos, k);
  }

  lemma ReopenElsewhere(rows: map<Id, Row>, pos: Id, t: int, now: Time, k: int)
    requires Sound(rows, now) && Quiet(rows, Some(pos), t, now) && k != t
    ensures var s := CloseReverted(rows, pos, t, now);
            s.Some? && DisplacedAt(s.value, pos, k) == DisplacedAt(rows, pos, k)
  {
    CloseRevertedKeeps(rows, pos, t, now);
    match LiveId(rows, pos, t)
    case None =>
    case Some(l) =>
      if rows[l].supersedes.Some? { assert SameMonth(rows, l, rows[l].supersedes.value); }
      SameDisplaced(rows, CloseReverted(rows, pos, t, now).value, pos, k);
  }

  lemma TerminateCloses(b: Book, clock: Time, pos: Id, m: int, note: string, now: Time, newId: Id)
    requires Sound(b.rows, clock) && clock < now && newId !in b.rows && LivePosition(b, pos)
    ensures ClosedAt(b, Terminate(b, pos, m, note, now, newId), pos, [m])
  {
    hide Sound, AmountAt, DisplacedAt, CloseWritten, Under;
    LaterIsQuiet(b.rows, clock, now);
    var end := Terminate(b, pos, m, note, now, newId);
    forall k ensures AmountAt(end.rows, pos, k) == AfterClosing(b.rows, pos, [m], k) {
      StepShows(b, clock, SetLifecycle(pos, Some(m), note), now, newId, pos, k);
    }
    CloseDisplaces(b.rows, pos, m, note, now, newId);
    forall k | k !in [m] ensures DisplacedAt(end.rows, pos, k) == DisplacedAt(b.rows, pos, k) {
      CloseElsewhere(b.rows, pos, m, note, now, newId, k);
    }
  }

  /** One edit of the date. */
  lemma MoveCloses(b0: Book, b: Book, clock: Time, pos: Id, visited: seq<int>, to: int, note: string, now: Time,
          newId: Id)
    requires Linked(b0.rows) && visited != []
    requires Sound(b.rows, clock) && clock < now && newId !in b.rows && ClosedAt(b0, b, pos, visited)
    ensures ClosedAt(b0, Step(b, MoveMaturity(pos, visited[|visited| - 1], to, note), now, newId), pos, visited + [to])
  {
    hide Sound, AmountAt, DisplacedAt, CloseWritten, CloseReverted;
    LaterIsQuiet(b.rows, clock, now);
    var from, next := visited[|visited| - 1], visited + [to];
    var end := Step(b, MoveMaturity(pos, from, to, note), now, newId);
    forall k ensures AmountAt(end.rows, pos, k) == AfterClosing(b0.rows, pos, next, k) {
      StepShows(b, clock, MoveMaturity(pos, from, to, note), now, newId, pos, k);
    }
    var rows := b.rows;
    if from != to {
      CloseRevertedKeeps(b.rows, pos, from, now);
      rows := CloseReverted(b.rows, pos, from, now).value;
      assert newId !in rows.Keys;
      ReopenShows(b.rows, pos, from, now, pos, to);
      ReopenElsewhere(b.rows, pos, from, now, to);
      NeverZero(b0.rows, pos, to);
    }
    CloseDisplaces(rows, pos, to, note, now, newId);
    forall k | k !in next ensures DisplacedAt(end.rows, pos, k) == DisplacedAt(b0.rows, pos, k) {
      if from != to { ReopenElsewhere(b.rows, pos, from, now, k); }
      CloseElsewhere(rows, pos, to, note, now, newId, k);
    }
  }

  /** A maturity booked in the first month, its date then edited through the others. */
  ghost function Edits(months: seq<int>, pos: Id, note: string, now: Time, ids: seq<Id>): seq<Tick>
    requires |months| > 0 && |ids| == |months| - 1
  {
    seq(|months| - 1, i requires 0 <= i < |months| - 1 =>
      Tick(MoveMaturity(pos, months[i], months[i + 1], note), now + i, ids[i]))
  }

  lemma {:induction false} EditsInTurn(b0: Book, b: Book, clock: Time, visited: seq<int>, months: seq<int>, pos: Id,
          note: string, now: Time, ids: seq<Id>)
    requires |months| > 0 && |ids| == |months| - 1 && clock < now
    requires visited != [] && visited[|visited| - 1] == months[0]
    requires Linked(b0.rows) && Sound(b.rows, clock) && ClosedAt(b0, b, pos, visited)
    requires Legal(b, clock, Edits(months, pos, note, now, ids))
    ensures ClosedAt(b0, Run(b, Edits(months, pos, note, now, ids)), pos, visited + months[1..])
    decreases |months|
  {
    hide Sound, Linked, ClosedAt, Step;
    var ticks := Edits(months, pos, note, now, ids);
    if |months| == 1 {
      assert ticks == [] && visited + months[1..] == visited;
    } else {
      var k := ticks[0];
      MoveCloses(b0, b, clock, pos, visited, months[1], note, now, ids[0]);
      StepKeeps(b, clock, k.op, now, ids[0]);
      assert ticks[1..] == Edits(months[1..], pos, note, now + 1, ids[1..]);
      EditsInTurn(b0, Step(b, k.op, now, ids[0]), now, visited + [months[1]], months[1..], pos, note, now + 1,
        ids[1..]);
      assert visited + [months[1]] + months[1..][1..] == visited + months[1..];
    }
  }

  /** Booking a maturity and then editing its date any number of times, from any reachable
      household, leaves one close snapshot, in the last month, and every other month as it was, if
      and only if no other month it was ever dated in held a recorded zero. */
  lemma BookedThenEdited(b: Book, clock: Time, months: seq<int>, pos: Id, note: string, now: Time, c: Id, ids: seq<Id>)
    requires |months| > 0 && |ids| == |months| - 1 && clock < now && c !in b.rows
    requires Sound(b.rows, clock) && LivePosition(b, pos)
    requires Legal(Terminate(b, pos, months[0], note, now, c), now, Edits(months, pos, note, now + 1, ids))
    ensures var end := Run(Terminate(b, pos, months[0], note, now, c), Edits(months, pos, note, now + 1, ids));
            var last := months[|months| - 1];
            (forall k :: AmountAt(end.rows, pos, k) == if k == last then Some(0.0) else AmountAt(b.rows, pos, k))
            <==> forall i :: 0 <= i < |months| && months[i] != last ==> AmountAt(b.rows, pos, months[i]) != Some(0.0)
  {
    hide Sound, Edits, AmountAt, DisplacedAt, Step;
    StepKeeps(b, clock, SetLifecycle(pos, Some(months[0]), note), now, c);
    TerminateCloses(b, clock, pos, months[0], note, now, c);
    SoundParts(b.rows, clock);
    EditsInTurn(b, Terminate(b, pos, months[0], note, now, c), now, [months[0]], months, pos, note, now + 1, ids);
    assert [months[0]] + months[1..] == months;
    forall i | 0 <= i < |months| ensures Under(b.rows, pos, months[i]) != Some(0.0) {
      NeverZero(b.rows, pos, months[i]);
    }
  }
}
