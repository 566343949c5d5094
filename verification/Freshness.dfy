/** The staleness watermark of the monthly reports: which changes of their inputs it sees. */
module Freshness {
  import opened Rows

  /** Positions (with their details) and the household row are timeless; snapshots are dated by
      month, income, ledger rows and rates by day. The household's members are read too. */
  datatype When = Timeless | Member | Snapshot(month: int) | On(month: int, day: nat)

  datatype Input = Input(when: When, stamp: Time, live: bool, content: string)

  type Inputs = map<Id, Input>

  datatype Fact = Fact(when: When, content: string)

  /** The engine files a row under its month, whatever the day. */
  predicate Seen(w: When, month: int) {
    w.Timeless? || w.Member? || w.month <= month
  }

  /** The watermark compares the full date with the first day of the last month, and does not look
      at members. */
  predicate Watched(w: When, last: int) {
    match w
    case Timeless => true
    case Member => false
    case Snapshot(month) => month <= last
    case On(month, day) => month < last || (month == last && day <= 1)
  }

  /** What the report for a month is computed from. */
  function Facts(rows: Inputs, month: int): map<Id, Fact> {
    map id | id in rows && rows[id].live && Seen(rows[id].when, month) :: Fact(rows[id].when, rows[id].content)
  }

  function FactOf(rows: Inputs, id: Id, month: int): Option<Fact> {
    if id in rows && rows[id].live && Seen(rows[id].when, month) then
      Some(Fact(rows[id].when, rows[id].content))
    else None
  }

  lemma SameFacts(a: Inputs, b: Inputs, month: int)
    ensures Facts(a, month) == Facts(b, month) <==> forall id :: FactOf(a, id, month) == FactOf(b, id, month)
  {
    var x, y := Facts(a, month), Facts(b, month);
    forall id ensures FactOf(a, id, month) == (if id in x then Some(x[id]) else None)
              ensures FactOf(b, id, month) == (if id in y then Some(y[id]) else None)
    {
    }
    if forall id :: FactOf(a, id, month) == FactOf(b, id, month) {
      forall id ensures id in x <==> id in y
                ensures id in x ==> x[id] == y[id]
      {
        assert FactOf(a, id, month) == FactOf(b, id, month);
      }
      assert x == y;
    }
  }

  /** No watched row is newer than the report. */
  ghost predicate UpToDate(rows: Inputs, last: int, generated: Time) {
    forall id :: id in rows && Watched(rows[id].when, last) ==> rows[id].stamp <= generated
  }

  // ----- Runs of stamped writes ---------------------------------------------------------

  /** A create, edit, soft delete or undelete, stamped `now`. */
  datatype Write = Write(id: Id, when: When, live: bool, content: string, now: Time)

  function Written(rows: Inputs, w: Write): Inputs {
    rows[w.id := Input(w.when, w.now, w.live, w.content)]
  }

  function After(rows: Inputs, ws: seq<Write>): Inputs {
    if ws == [] then rows else Written(After(rows, ws[..|ws| - 1]), ws[|ws| - 1])
  }

  predicate Later(ws: seq<Write>, generated: Time) {
    forall i :: 0 <= i < |ws| ==> ws[i].now > generated
  }

  ghost predicate AllBefore(rows: Inputs, generated: Time) {
    forall id :: id in rows ==> rows[id].stamp <= generated
  }

  /** No later write of the run is to the same row. */
  predicate IsLast(ws: seq<Write>, i: int) {
    0 <= i < |ws| && forall j :: i < j < |ws| ==> ws[j].id != ws[i].id
  }

  /** What a row will contribute to a month once the write is made. */
  function NewFact(w: Write, month: int): Option<Fact> {
    if w.live && Seen(w.when, month) then Some(Fact(w.when, w.content)) else None
  }

  /** After a run each row is as its last write left it, or as it was. */
  lemma {:induction false} AfterRun(rows: Inputs, ws: seq<Write>, id: Id)
    ensures forall i :: IsLast(ws, i) && ws[i].id == id ==>
              id in After(rows, ws) && After(rows, ws)[id] == Input(ws[i].when, ws[i].now, ws[i].live, ws[i].content)
    ensures (forall i :: IsLast(ws, i) ==> ws[i].id != id) ==>
              (id in rows <==> id in After(rows, ws)) && (id in rows ==> After(rows, ws)[id] == rows[id])
  {
    if ws == [] {
    } else {
      var first, w := ws[..|ws| - 1], ws[|ws| - 1];
      AfterRun(rows, first, id);
      forall i | 0 <= i < |first| && ws[i].id == id && w.id != id ensures IsLast(ws, i) <==> IsLast(first, i) {
        LastOfFront(ws, i);
      }
      assert IsLast(ws, |ws| - 1);
    }
  }

  lemma LastOfFront(ws: seq<Write>, i: int)
    requires 0 <= i < |ws| - 1 && ws[i].id != ws[|ws| - 1].id
    ensures IsLast(ws, i) <==> IsLast(ws[..|ws| - 1], i)
  {
    var first := ws[..|ws| - 1];
    if IsLast(first, i) {
      forall j | i < j < |ws| ensures ws[j].id != ws[i].id { assert j < |first| ==> first[j] == ws[j]; }
    }
    if IsLast(ws, i) {
      forall j | i < j < |first| ensures first[j].id != first[i].id { assert first[j] == ws[j]; }
    }
  }

  /** A write later than the report makes the check fail exactly if it is to a position or the
      household, to a snapshot of a month up to the last one, or to a row dated no later than the
      1st of the last month. */
  lemma CheckSees(rows: Inputs, w: Write, generated: Time, last: int)
    requires UpToDate(rows, last, generated) && w.now > generated
    ensures !UpToDate(Written(rows, w), last, generated)
            <==> w.when.Timeless? || (w.when.Snapshot? && w.when.month <= last)
                 || (w.when.On? && (w.when.month < last || (w.when.month == last && w.when.day <= 1)))
  {
    assert w.id in Written(rows, w);
  }

  /** Editing a row changes what the reports of its own month and every later one are computed
      from; editing a position, the household or a member changes every report's inputs. */
  lemma EditShows(rows: Inputs, id: Id, content: string, now: Time, month: int)
    requires id in rows && rows[id].live && rows[id].content != content
    ensures Facts(Written(rows, Write(id, rows[id].when, true, content, now)), month) != Facts(rows, month)
            <==> rows[id].when.Timeless? || rows[id].when.Member? || rows[id].when.month <= month
  {
    var w := Write(id, rows[id].when, true, content, now);
    SameFacts(Written(rows, w), rows, month);
    assert id in Written(rows, w) && FactOf(Written(rows, w), id, month) == NewFact(w, month);
    forall x | x != id ensures FactOf(Written(rows, w), x, month) == FactOf(rows, x, month) {}
  }

  /** A write is missed - the check still passes and the report no longer holds - if and only if it
      is to a member, to a snapshot of a month after the last one, or to a row dated after the 1st
      of the last month, and changes what the row contributes. */
  lemma MissedIff(rows: Inputs, w: Write, generated: Time, month: int, last: int)
    requires UpToDate(rows, last, generated) && w.now > generated
    ensures UpToDate(Written(rows, w), last, generated) && Facts(Written(rows, w), month) != Facts(rows, month)
            <==> (w.when.Member? || (w.when.Snapshot? && w.when.month > last)
                  || (w.when.On? && (w.when.month > last || (w.when.month == last && w.when.day > 1))))
                 && NewFact(w, month) != FactOf(rows, w.id, month)
  {
    var end := Written(rows, w);
    SameFacts(end, rows, month);
    assert w.id in end && FactOf(end, w.id, month) == NewFact(w, month);
    forall id | id != w.id ensures FactOf(end, id, month) == FactOf(rows, id, month) {}
  }

  /** After any run of writes the check passes a stale report if and only if the last write of
      every row written is dated where the watermark does not look and one of those changes what
      its row contributed. */
  lemma StaleIffMissed(rows: Inputs, ws: seq<Write>, generated: Time, month: int, last: int)
    requires AllBefore(rows, generated) && Later(ws, generated)
    ensures UpToDate(After(rows, ws), last, generated) && Facts(After(rows, ws), month) != Facts(rows, month)
            <==> (forall i :: IsLast(ws, i) ==> !Watched(ws[i].when, last))
                 && exists i :: IsLast(ws, i) && NewFact(ws[i], month) != FactOf(rows, ws[i].id, month)
  {
    var end := After(rows, ws);
    forall i | IsLast(ws, i)
      ensures ws[i].id in end && end[ws[i].id] == Input(ws[i].when, ws[i].now, ws[i].live, ws[i].content)
    {
      AfterRun(rows, ws, ws[i].id);
    }
    forall id | id in end && end[id].stamp > generated ensures exists i :: IsLast(ws, i) && ws[i].id == id {
      AfterRun(rows, ws, id);
    }
    ChangedByLast(rows, ws, month);
  }

  /** Facts change exactly when some row's last write changes what it contributed. */
  lemma ChangedByLast(rows: Inputs, ws: seq<Write>, month: int)
    ensures Facts(After(rows, ws), month) != Facts(rows, month)
            <==> exists i :: IsLast(ws, i) && NewFact(ws[i], month) != FactOf(rows, ws[i].id, month)
  {
    var end := After(rows, ws);
    SameFacts(end, rows, month);
    forall i | IsLast(ws, i)
      ensures FactOf(end, ws[i].id, month) == NewFact(ws[i], month)
    {
      AfterRun(rows, ws, ws[i].id);
    }
    forall id | FactOf(end, id, month) != FactOf(rows, id, month) ensures exists i :: IsLast(ws, i) && ws[i].id == id {
      AfterRun(rows, ws, id);
    }
  }

  /** The row lands where the watermark looks, or it neither was nor is anything the month or the
      watermark looks at. */
  predicate Safe(rows: Inputs, w: Write, month: int, last: int) {
    Watched(w.when, last)
    || (!Seen(w.when, month) && (w.id in rows ==> !Seen(rows[w.id].when, month) && !Watched(rows[w.id].when, last)))
  }

  predicate AllSafe(rows: Inputs, ws: seq<Write>, month: int, last: int) {
    ws != [] ==>
      AllSafe(rows, ws[..|ws| - 1], month, last) && Safe(After(rows, ws[..|ws| - 1]), ws[|ws| - 1], month, last)
  }

  /** While no write moves a row past the watermark's date or edits one there, a report that
      passes the check has exactly the inputs it was generated from. */
  lemma {:induction false} SafeRunStaysFresh(rows: Inputs, ws: seq<Write>, generated: Time, month: int, last: int)
    requires Later(ws, generated) && AllSafe(rows, ws, month, last)
    ensures UpToDate(After(rows, ws), last, generated) ==> Facts(After(rows, ws), month) == Facts(rows, month)
  {
    if ws == [] {
    } else {
      var first, w := ws[..|ws| - 1], ws[|ws| - 1];
      SafeRunStaysFresh(rows, first, generated, month, last);
      SafeWriteKeeps(After(rows, first), w, generated, month, last);
    }
  }

  lemma SafeWriteKeeps(rows: Inputs, w: Write, generated: Time, month: int, last: int)
    requires w.now > generated && Safe(rows, w, month, last)
    ensures UpToDate(Written(rows, w), last, generated) ==>
              UpToDate(rows, last, generated) && Facts(Written(rows, w), month) == Facts(rows, month)
  {
    var end := Written(rows, w);
    if UpToDate(end, last, generated) {
      assert w.id in end && end[w.id].stamp > generated;
      forall id | id in rows && Watched(rows[id].when, last) ensures rows[id].stamp <= generated {
        assert id in end && (id != w.id ==> end[id] == rows[id]);
      }
      SameFacts(end, rows, month);
    }
  }

  /** In the last month itself: creating, editing or deleting income or a ledger row there is
      missed exactly when it is dated after the 1st and not a write that changes nothing. */
  lemma LastMonthIsMissed(rows: Inputs, w: Write, generated: Time, month: int)
    requires UpToDate(rows, month, generated) && w.now > generated && w.when.On? && w.when.month == month
    ensures UpToDate(Written(rows, w), month, generated) && Facts(Written(rows, w), month) != Facts(rows, month)
            <==> w.when.day > 1
                 && (if w.live then FactOf(rows, w.id, month) != Some(Fact(w.when, w.content))
                     else FactOf(rows, w.id, month).Some?)
  {
    MissedIff(rows, w, generated, month, month);
  }

  /** A salary dated the 15th of the last month, and a member who joins, are missed. */
  lemma SomeAreMissed()
    ensures var rows, salary := map[1 := Input(Snapshot(0), 1, true, "100")], Write(2, On(0, 15), true, "salary", 3);
            && UpToDate(rows, 0, 2) && UpToDate(Written(rows, salary), 0, 2)
            && Facts(Written(rows, salary), 0) != Facts(rows, 0)
    ensures var rows, joiner := map[1 := Input(Snapshot(0), 1, true, "100")], Write(2, Member, true, "joiner", 3);
            UpToDate(Written(rows, joiner), 0, 2) && Facts(Written(rows, joiner), 0) != Facts(rows, 0)
  {
    var rows := map[1 := Input(Snapshot(0), 1, true, "100")];
    MissedIff(rows, Write(2, On(0, 15), true, "salary", 3), 2, 0, 0);
    MissedIff(rows, Write(2, Member, true, "joiner", 3), 2, 0, 0);
  }

  /** A refresh that read its inputs before writing passes its own check whatever was written in
      between, so its report holds exactly if no row's last write changed what it contributed. */
  lemma RefreshRace(rows: Inputs, between: seq<Write>, generated: Time, month: int, last: int)
    requires AllBefore(rows, generated) && forall i :: 0 <= i < |between| ==> between[i].now <= generated
    ensures UpToDate(After(rows, between), last, generated)
    ensures Facts(After(rows, between), month) == Facts(rows, month)
            <==> forall i :: IsLast(between, i) ==> NewFact(between[i], month) == FactOf(rows, between[i].id, month)
  {
    ChangedByLast(rows, between, month);
    forall id | id in After(rows, between) ensures After(rows, between)[id].stamp <= generated {
      AfterRun(rows, between, id);
    }
  }
}
