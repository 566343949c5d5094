/** Short sequences of ordinary requests that reach the cases where something is lost. */
module Scenarios {
  import opened Rows
  import opened Compaction
  import opened Displacement
  import opened LifecycleUndo
  import opened LiveAmounts

  /** One active position. */
  ghost const EMPTY := Book(map[1 := Position(None, true)], map[])

  ghost const RECORDED := EMPTY.(rows := map[10 := NewSnapshot(10, 1, 0, 10.0, "", None, 1)])

  ghost const CLOSED := Book(map[1 := Position(Some(0), true)],
                             Archived(RECORDED.rows, 10, 2)[20 := NewSnapshot(20, 1, 0, 0.0, "", Some(10), 2)])

  ghost const CORRECTED := CLOSED.(rows := Edited(CLOSED.rows, 20, 5.0, ""))

  ghost const RECLOSED :=
    CORRECTED.(rows := Archived(CORRECTED.rows, 20, 4)[40 := NewSnapshot(40, 1, 0, 0.0, "", Some(20), 4)])

  ghost const UNCLOSED := CLOSED.(rows := Archived(CLOSED.rows, 20, 3))

  ghost const HOLLOW := UNCLOSED.(positions := map[1 := Position(None, true)])

  ghost const ZERO := EMPTY.(rows := map[10 := NewSnapshot(10, 1, 0, 0.0, "", None, 1)])

  ghost const ZERO_CLOSED := ZERO.(positions := map[1 := Position(Some(0), true)])

  ghost const ZERO_GONE := EMPTY.(rows := Archived(ZERO.rows, 10, 3))

  ghost const REDATED := Book(map[1 := Position(Some(1), true)],
                              CLOSED.rows[30 := NewSnapshot(30, 1, 1, 0.0, "", None, 3)])

  ghost const STRANDED := EMPTY.(rows := Archived(REDATED.rows, 30, 4))

  ghost const NEXT_ZERO := EMPTY.(rows := map[10 := NewSnapshot(10, 1, 1, 0.0, "", None, 1)])

  ghost const BOOKED := Book(map[1 := Position(Some(0), true)],
                             NEXT_ZERO.rows[20 := NewSnapshot(20, 1, 0, 0.0, "", None, 2)])

  ghost const ADOPTED := Book(map[1 := Position(Some(1), true)], Archived(BOOKED.rows, 20, 3))

  ghost const PASSED := Book(map[1 := Position(Some(2), true)],
                             Archived(ADOPTED.rows, 10, 4)[40 := NewSnapshot(40, 1, 2, 0.0, "", None, 4)])

  /** The tick takes one state to the other, legally. */
  ghost predicate Leads(b: Book, clock: Time, t: Tick, next: Book) {
    Step(b, t.op, t.now, t.newId) == next && clock < t.now && t.newId !in b.rows
  }

  lemma Three(b0: Book, b1: Book, b2: Book, b3: Book, t1: Tick, t2: Tick, t3: Tick)
    requires Leads(b0, 0, t1, b1) && Leads(b1, t1.now, t2, b2) && Leads(b2, t2.now, t3, b3)
    ensures Legal(b0, 0, [t1, t2, t3]) && Run(b0, [t1, t2, t3]) == b3
  {
    assert [t1, t2, t3][1..] == [t2, t3] && [t2, t3][1..] == [t3] && [t3][1..] == [];
    assert Run(b2, [t3]) == Run(b3, []) == b3 && Legal(b2, t2.now, [t3]);
    assert Run(b1, [t2, t3]) == b3 && Legal(b1, t1.now, [t2, t3]);
  }

  lemma Four(b0: Book, b1: Book, b2: Book, b3: Book, b4: Book, t1: Tick, t2: Tick, t3: Tick, t4: Tick)
    requires Leads(b0, 0, t1, b1) && Leads(b1, t1.now, t2, b2) && Leads(b2, t2.now, t3, b3) && Leads(b3, t3.now, t4, b4)
    ensures Legal(b0, 0, [t1, t2, t3, t4]) && Run(b0, [t1, t2, t3, t4]) == b4
  {
    assert [t1, t2, t3, t4][1..] == [t2, t3, t4] && [t2, t3, t4][1..] == [t3, t4] && [t3, t4][1..] == [t4]
           && [t4][1..] == [];
    assert Run(b3, [t4]) == Run(b4, []) == b4 && Legal(b3, t3.now, [t4]);
    assert Run(b2, [t3, t4]) == b4 && Legal(b2, t2.now, [t3, t4]);
    assert Run(b1, [t2, t3, t4]) == b4 && Legal(b1, t1.now, [t2, t3, t4]);
  }

  const RECORD := Tick(Record(1, 0, 10.0, ""), 1, 10)
  const TERMINATE := Tick(SetLifecycle(1, Some(0), ""), 2, 20)

  lemma RecordThenTerminate()
    ensures Leads(EMPTY, 0, RECORD, RECORDED) && Leads(RECORDED, 1, TERMINATE, CLOSED)
  {
    assert LiveAt(RECORDED.rows, 1, 0, 10);
  }

  /** Record 10, terminate, correct the close row to 5, terminate again: a chain. */
  lemma ChainIsReachable()
    ensures var ticks := [RECORD, TERMINATE, Tick(Edit(20, 5.0, ""), 3, 30), Tick(SetLifecycle(1, Some(0), ""), 4, 40)];
            Inv(EMPTY.rows, 0) && Legal(EMPTY, 0, ticks) && Run(EMPTY, ticks) == RECLOSED && Chained(RECLOSED, 40)
  {
    var t3, t4 := Tick(Edit(20, 5.0, ""), 3, 30), Tick(SetLifecycle(1, Some(0), ""), 4, 40);
    RecordThenTerminate();
    assert LiveAt(CORRECTED.rows, 1, 0, 20);
    Four(EMPTY, RECORDED, CLOSED, CORRECTED, RECLOSED, RECORD, TERMINATE, t3, t4);
  }

  /** Record 10, terminate, delete the close row, reactivate: a hole, with the 10 still archived. */
  lemma DeletedCloseRowLosesValue()
    ensures var ticks := [RECORD, TERMINATE, Tick(Delete(20), 3, 30), Tick(SetLifecycle(1, None, ""), 4, 40)];
            && Inv(EMPTY.rows, 0) && Legal(EMPTY, 0, ticks) && Run(EMPTY, ticks) == HOLLOW
            && !HoldsZero(RECORDED.rows, 1, 0) && AmountAt(RECORDED.rows, 1, 0) == Some(10.0)
            && AmountAt(HOLLOW.rows, 1, 0) == None && HOLLOW.positions[1].terminated == None
  {
    var t3, t4 := Tick(Delete(20), 3, 30), Tick(SetLifecycle(1, None, ""), 4, 40);
    RecordThenTerminate();
    assert LiveAt(RECORDED.rows, 1, 0, 10);
    Four(EMPTY, RECORDED, CLOSED, UNCLOSED, HOLLOW, RECORD, TERMINATE, t3, t4);
  }

  /** Record 0, terminate, reactivate: the 0 is gone. */
  lemma RecordedZeroIsLost()
    ensures var ticks := [Tick(Record(1, 0, 0.0, ""), 1, 10), TERMINATE, Tick(SetLifecycle(1, None, ""), 3, 30)];
            && Inv(EMPTY.rows, 0) && Legal(EMPTY, 0, ticks) && Run(EMPTY, ticks) == ZERO_GONE
            && AmountAt(ZERO.rows, 1, 0) == Some(0.0) && AmountAt(ZERO_GONE.rows, 1, 0) == None
  {
    var t1, t3 := Tick(Record(1, 0, 0.0, ""), 1, 10), Tick(SetLifecycle(1, None, ""), 3, 30);
    assert LiveAt(ZERO.rows, 1, 0, 10);
    assert ZERO_CLOSED.rows == Edited(ZERO.rows, 10, 0.0, "");
    Three(EMPTY, ZERO, ZERO_CLOSED, ZERO_GONE, t1, TERMINATE, t3);
  }

  /** Record 10, terminate, re-date the termination to the next month, reactivate: the close row
      of the first month stays. */
  lemma RedatedValueIsLost()
    ensures var ticks := [RECORD, TERMINATE, Tick(SetLifecycle(1, Some(1), ""), 3, 30),
            Tick(SetLifecycle(1, None, ""), 4, 40)];
            && Inv(EMPTY.rows, 0) && Legal(EMPTY, 0, ticks) && Run(EMPTY, ticks) == STRANDED
            && AmountAt(RECORDED.rows, 1, 0) == Some(10.0) && AmountAt(STRANDED.rows, 1, 0) == Some(0.0)
  {
    var t3, t4 := Tick(SetLifecycle(1, Some(1), ""), 3, 30), Tick(SetLifecycle(1, None, ""), 4, 40);
    RecordThenTerminate();
    assert LiveAt(RECORDED.rows, 1, 0, 10) && LiveAt(REDATED.rows, 1, 1, 30) && LiveAt(STRANDED.rows, 1, 0, 20);
    Four(EMPTY, RECORDED, CLOSED, REDATED, STRANDED, RECORD, TERMINATE, t3, t4);
  }

  const PUT_OFF := Tick(MoveMaturity(1, 0, 1, ""), 3, 30)
  const PUT_OFF_AGAIN := Tick(MoveMaturity(1, 1, 2, ""), 4, 40)

  lemma PutOffTwice()
    ensures Leads(BOOKED, 2, PUT_OFF, ADOPTED) && Leads(ADOPTED, 3, PUT_OFF_AGAIN, PASSED)
  {
    assert LiveAt(BOOKED.rows, 1, 0, 20) && LiveAt(ADOPTED.rows, 1, 1, 10);
    assert ADOPTED.rows == Edited(Archived(BOOKED.rows, 20, 3), 10, 0.0, "");
  }

  /** Record 0 for a month, book a maturity in the month before it, edit its date to that month
      and then to the one after: the 0 is gone. */
  lemma EditedPastZero()
    ensures var ticks := [Tick(Record(1, 1, 0.0, ""), 1, 10), TERMINATE, PUT_OFF, PUT_OFF_AGAIN];
            && Inv(EMPTY.rows, 0) && Legal(EMPTY, 0, ticks) && Run(EMPTY, ticks) == PASSED
            && AmountAt(NEXT_ZERO.rows, 1, 1) == Some(0.0) && AmountAt(PASSED.rows, 1, 1) == None
  {
    var t1 := Tick(Record(1, 1, 0.0, ""), 1, 10);
    assert LiveAt(NEXT_ZERO.rows, 1, 1, 10);
    assert Leads(NEXT_ZERO, 1, TERMINATE, BOOKED);
    PutOffTwice();
    Four(EMPTY, NEXT_ZERO, BOOKED, ADOPTED, PASSED, t1, TERMINATE, PUT_OFF, PUT_OFF_AGAIN);
  }
}
