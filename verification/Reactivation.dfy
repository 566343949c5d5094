/** What becomes of a recorded snapshot over any run of requests, and so when reactivating its
    position brings it back. */
module Reactivation {
  import opened Rows
  import opened Displacement
  import opened LifecycleUndo

  /** One row of a pile, with its amount. */
  datatype Layer = Layer(id: Id, amount: real)

  /** A snapshot's fate, told from the requests alone. It is kept at the bottom of a pile of rows
      that each displaced the one below, the top one live; or nothing can ever show it again. */
  datatype Fate = Lost | Kept(pile: seq<Layer>, terminated: Option<int>)

  function Top(f: Fate): Layer
    requires f.Kept? && f.pile != []
  {
    f.pile[|f.pile| - 1]
  }

  function WithTop(f: Fate, amount: real): Fate
    requires f.Kept? && f.pile != []
  {
    f.(pile := f.pile[|f.pile| - 1 := Layer(Top(f).id, amount)])
  }

  /** A termination in the snapshot's month. */
  function CloseOver(f: Fate, newId: Id): (g: Fate)
    requires f.Kept? && f.pile != []
    ensures g.Kept? && g.pile != [] && g.pile[0].id == f.pile[0].id && g.terminated == f.terminated
  {
    if Top(f).amount == 0.0 then f else f.(pile := f.pile + [Layer(newId, 0.0)])
  }

  /** An undone termination of the snapshot's month. */
  function Uncover(f: Fate): (g: Fate)
    requires f.Kept? && f.pile != []
    ensures g.Kept? ==> g.pile != [] && g.pile[0].id == f.pile[0].id && g.terminated == f.terminated
  {
    if Top(f).amount != 0.0 then f
    else if |f.pile| == 1 then Lost
    else f.(pile := f.pile[..|f.pile| - 1])
  }

  function Dated(f: Fate, terminated: Option<int>): (g: Fate)
    requires f.Kept? ==> f.pile != []
    ensures g.Kept? ==> g.pile != []
  {
    if f.Kept? then f.(terminated := terminated) else f
  }

  /** The fate of a snapshot of position pos in month m after one more request. */
  function FateStep(f: Fate, pos: Id, m: int, op: Op, newId: Id): (g: Fate)
    requires f.Kept? ==> f.pile != []
    ensures g.Kept? ==> g.pile != []
  {
    if f.Lost? then Lost
    else
      match op
      case Record(_, _, _, _) => f
      case Import(p, month, amount, _) => if p == pos && month == m then WithTop(f, amount) else f
      case Edit(id, amount, _) => if id == Top(f).id then WithTop(f, amount) else f
      case Delete(id) => if id == Top(f).id then Lost else f
      case DeletePosition(p) => if p == pos then Lost else f
      case SetLifecycle(p, Some(t), _) =>
        if p != pos then f else Dated(if t == m then CloseOver(f, newId) else f, Some(t))
      case SetLifecycle(p, None, _) =>
        if p != pos || f.terminated.None? then f else Dated(if f.terminated == Some(m) then Uncover(f) else f, None)
      case MoveMaturity(p, from, to, _) =>
        if p != pos then f
        else
          var g := if from != to && from == m then Uncover(f) else f;
          Dated(if g.Kept? && to == m then CloseOver(g, newId) else g, Some(to))
  }

  function FateAfter(f: Fate, pos: Id, m: int, ticks: seq<Tick>): (g: Fate)
    requires f.Kept? ==> f.pile != []
    ensures g.Kept? ==> g.pile != []
    decreases |ticks|
  {
    if ticks == [] then f else FateAfter(FateStep(f, pos, m, ticks[0].op, ticks[0].newId), pos, m, ticks[1..])
  }

  // ----- What a fate says about the rows -----------------------------------------

  predicate Layered(rows: map<Id, Row>, pos: Id, m: int, pile: seq<Layer>, i: int)
    requires 0 <= i < |pile|
  {
    var id := pile[i].id;
    && id in rows && rows[id].amount == pile[i].amount && rows[id].parent == Some(pos) && rows[id].month == m
    && (i < |pile| - 1 ==> rows[id].deleted.Some?)
    && (0 < i ==> rows[id].supersedes == Some(pile[i - 1].id))
  }

  ghost predicate Piled(rows: map<Id, Row>, pos: Id, m: int, pile: seq<Layer>) {
    && pile != [] && Live(rows, pile[|pile| - 1].id)
    && (forall i :: 0 <= i < |pile| ==> Layered(rows, pos, m, pile, i))
    && (forall i, j :: 0 <= i < j < |pile| ==> pile[i].id != pile[j].id)
  }

  /** From d up along links to a live row. */
  predicate Chain(rows: map<Id, Row>, ids: seq<Id>, d: Id) {
    && ids != [] && ids[0] == d && Live(rows, ids[|ids| - 1])
    && forall i :: 0 <= i < |ids| ==> ids[i] in rows && (i > 0 ==> rows[ids[i]].supersedes == Some(ids[i - 1]))
  }

  ghost predicate Drowned(rows: map<Id, Row>, d: Id) {
    d in rows && forall ids :: !Chain(rows, ids, d)
  }

  ghost predicate Tells(b: Book, pos: Id, m: int, d: Id, f: Fate) {
    match f
    case Lost => Drowned(b.rows, d)
    case Kept(pile, terminated) =>
      && LivePosition(b, pos) && b.positions[pos].terminated == terminated
      && Piled(b.rows, pos, m, pile) && pile[0].id == d
  }

  // ----- A drowned row stays drowned -----------------------------------------------

  /** Links never change; a new row links to a live one at most; a row becomes live again only
      from under a live row. */
  ghost predicate Surfacing(rows: map<Id, Row>, s: map<Id, Row>) {
    && (forall i :: i in rows ==> i in s && s[i].supersedes == rows[i].supersedes)
    && (forall i :: i in rows && rows[i].supersedes.Some? ==> rows[i].supersedes.value in rows)
    && (forall i :: i in s && i !in rows && s[i].supersedes.Some? ==> Live(rows, s[i].supersedes.value))
    && (forall i :: i in rows && Live(s, i) && !Live(rows, i) ==>
      exists l :: Live(rows, l) && rows[l].supersedes == Some(i))
  }

  /** The old part of a chain was linked the same way. */
  lemma OldLinks(rows: map<Id, Row>, s: map<Id, Row>, ids: seq<Id>, d: Id)
    requires Surfacing(rows, s) && Chain(s, ids, d)
    ensures forall i :: 0 <= i < |ids| - 1 ==> ids[i] in rows
    ensures forall i :: 0 < i < |ids| && ids[i] in rows ==> rows[ids[i]].supersedes == Some(ids[i - 1])
  {
    forall i | 0 <= i < |ids| - 1 ensures ids[i] in rows {
      var above := ids[i + 1];
      assert above in s && s[above].supersedes == Some(ids[i]);
      assert above in rows ==> rows[above].supersedes == Some(ids[i]);
    }
    forall i | 0 < i < |ids| && ids[i] in rows ensures rows[ids[i]].supersedes == Some(ids[i - 1]) {
      var id := ids[i];
      assert id in s && s[id].supersedes == Some(ids[i - 1]) && s[id].supersedes == rows[id].supersedes;
    }
  }

  lemma StaysDrowned(rows: map<Id, Row>, s: map<Id, Row>, d: Id)
    requires Drowned(rows, d) && Surfacing(rows, s)
    ensures Drowned(s, d)
  {
    forall ids ensures !Chain(s, ids, d) {
      if Chain(s, ids, d) {
        OldLinks(rows, s, ids, d);
        ShorterChain(rows, s, ids, d);
      }
    }
  }

  lemma ShorterChain(rows: map<Id, Row>, s: map<Id, Row>, ids: seq<Id>, d: Id)
    requires Surfacing(rows, s) && Chain(s, ids, d) && d in rows
    ensures exists shorter :: Chain(rows, shorter, d)
  {
    OldLinks(rows, s, ids, d);
    var n := |ids| - 1;
    if ids[n] !in rows {
      assert s[ids[n]].supersedes == Some(ids[n - 1]);
      assert Chain(rows, ids[..n], d);
    } else if Live(rows, ids[n]) {
      assert Chain(rows, ids, d);
    } else {
      var l :| Live(rows, l) && rows[l].supersedes == Some(ids[n]);
      assert Chain(rows, ids + [l], d);
    }
  }

  lemma {:induction false} ChainMonth(rows: map<Id, Row>, ids: seq<Id>, d: Id, k: nat)
    requires Linked(rows) && Chain(rows, ids, d) && k < |ids|
    ensures SameMonth(rows, ids[k], d)
  {
    if k == 0 {
    } else {
      ChainMonth(rows, ids, d, k - 1);
      assert SameMonth(rows, ids[k], ids[k - 1]);
    }
  }

  lemma EmptyMonthDrowns(rows: map<Id, Row>, pos: Id, m: int, d: Id)
    requires Linked(rows) && d in rows && rows[d].parent == Some(pos) && rows[d].month == m
    requires forall id :: !LiveAt(rows, pos, m, id)
    ensures Drowned(rows, d)
  {
    forall ids ensures !Chain(rows, ids, d) {
      if ids != [] { assert !LiveAt(rows, pos, m, ids[|ids| - 1]); }
      if Chain(rows, ids, d) { ChainMonth(rows, ids, d, |ids| - 1); }
    }
  }

  lemma {:induction false} ChainRetired(rows: map<Id, Row>, ids: seq<Id>, d: Id, k: nat)
    requires Linked(rows) && d in rows && Retired(rows, d) && Chain(rows, ids, d) && k < |ids|
    ensures Retired(rows, ids[k])
  {
    if k == 0 {
    } else {
      ChainRetired(rows, ids, d, k - 1);
    }
  }

  lemma RetiredDrowns(rows: map<Id, Row>, d: Id)
    requires Linked(rows) && d in rows && Retired(rows, d)
    ensures Drowned(rows, d)
  {
    forall ids ensures !Chain(rows, ids, d) {
      if Chain(rows, ids, d) { ChainRetired(rows, ids, d, |ids| - 1); }
    }
  }

  // ----- One request --------------------------------------------------------------

  lemma CloseSurfaces(rows: map<Id, Row>, pos: Id, t: int, note: string, now: Time, newId: Id)
    requires Linked(rows) && newId !in rows
    ensures Surfacing(rows, CloseWritten(rows, pos, t, note, now, newId))
  {
  }

  lemma ReopenSurfaces(rows: map<Id, Row>, pos: Id, t: int, now: Time)
    requires Linked(rows) && CloseReverted(rows, pos, t, now).Some?
    ensures Surfacing(rows, CloseReverted(rows, pos, t, now).value)
  {
  }

  predicate SameButContent(rows: map<Id, Row>, s: map<Id, Row>, id: Id)
    requires id in rows
  {
    id in s && s[id] == rows[id].(content := s[id].content)
  }

  /** The month's archived rows and its top row keep their columns, content aside. */
  ghost predicate KeepsMonth(rows: map<Id, Row>, s: map<Id, Row>, pos: Id, m: int, top: Id) {
    forall id :: id in rows && InMonth(rows[id], pos, m) && (rows[id].deleted.Some? || id == top) ==>
      SameButContent(rows, s, id)
  }

  lemma SamePile(rows: map<Id, Row>, s: map<Id, Row>, pos: Id, m: int, pile: seq<Layer>)
    requires Piled(rows, pos, m, pile) && KeepsMonth(rows, s, pos, m, pile[|pile| - 1].id)
    ensures Piled(s, pos, m, pile)
  {
    forall i | 0 <= i < |pile|
      ensures Layered(s, pos, m, pile, i) && pile[i].id in rows && s[pile[i].id].deleted == rows[pile[i].id].deleted
    {
      assert Layered(rows, pos, m, pile, i) && SameButContent(rows, s, pile[i].id);
    }
    assert Layered(s, pos, m, pile, |pile| - 1);
  }

  lemma TopIs(rows: map<Id, Row>, pos: Id, m: int, pile: seq<Layer>)
    requires UniqueLive(rows) && Piled(rows, pos, m, pile)
    ensures LiveId(rows, pos, m) == Some(pile[|pile| - 1].id)
  {
    assert Layered(rows, pos, m, pile, |pile| - 1);
    LiveIdIs(rows, pos, m, pile[|pile| - 1].id);
  }

  lemma PushTells(rows: map<Id, Row>, f: Fate, pos: Id, m: int, note: string, now: Time, newId: Id)
    requires newId !in rows && f.Kept? && Piled(rows, pos, m, f.pile) && Top(f).amount != 0.0
    ensures Top(f).id in rows
    ensures Piled(Archived(rows, Top(f).id, now)[newId := NewSnapshot(newId, pos, m, 0.0, note, Some(Top(f).id), now)],
                  pos, m, CloseOver(f, newId).pile)
  {
    assert Layered(rows, pos, m, f.pile, |f.pile| - 1);
    var s := Archived(rows, Top(f).id, now)[newId := NewSnapshot(newId, pos, m, 0.0, note, Some(Top(f).id), now)];
    var g := CloseOver(f, newId).pile;
    forall i | 0 <= i < |g| ensures Layered(s, pos, m, g, i) && (i < |f.pile| ==> g[i].id != newId) {
      if i < |f.pile| { assert Layered(rows, pos, m, f.pile, i); }
    }
  }

  /** Closing month t of position p. */
  lemma CloseTells(rows: map<Id, Row>, f: Fate, pos: Id, m: int, p: Id, t: int, note: string, now: Time, newId: Id)
    requires UniqueLive(rows) && newId !in rows && f.Kept? && Piled(rows, pos, m, f.pile)
    ensures Piled(CloseWritten(rows, p, t, note, now, newId), pos, m,
                  if p == pos && t == m then CloseOver(f, newId).pile else f.pile)
  {
    TopIs(rows, pos, m, f.pile);
    assert Layered(rows, pos, m, f.pile, |f.pile| - 1);
    if p != pos || t != m || Top(f).amount == 0.0 {
      SamePile(rows, CloseWritten(rows, p, t, note, now, newId), pos, m, f.pile);
    } else {
      PushTells(rows, f, pos, m, note, now, newId);
    }
  }

  ghost predicate TellsRows(rows: map<Id, Row>, pos: Id, m: int, d: Id, f: Fate) {
    if f.Lost? then Drowned(rows, d) else Piled(rows, pos, m, f.pile) && f.pile[0].id == d
  }

  /** Reopening month t of position p. */
  lemma ReopenTells(rows: map<Id, Row>, f: Fate, pos: Id, m: int, p: Id, t: int, now: Time)
    requires Sound(rows, now) && Quiet(rows, Some(p), t, now) && f.Kept? && Piled(rows, pos, m, f.pile)
    ensures var s := CloseReverted(rows, p, t, now);
            s.Some? && TellsRows(s.value, pos, m, f.pile[0].id, if p == pos && t == m then Uncover(f) else f)
  {
    CloseRevertedKeeps(rows, p, t, now);
    TopIs(rows, pos, m, f.pile);
    assert Layered(rows, pos, m, f.pile, |f.pile| - 1);
    if p != pos || t != m || Top(f).amount != 0.0 {
      ElsewhereTells(rows, f.pile, pos, m, p, t, now);
    } else if |f.pile| == 1 {
      BottomGoes(rows, f.pile[0].id, pos, m, now);
    } else {
      TopGoes(rows, f.pile, pos, m, now);
    }
  }

  lemma ElsewhereTells(rows: map<Id, Row>, pile: seq<Layer>, pos: Id, m: int, p: Id, t: int, now: Time)
    requires UniqueLive(rows) && Linked(rows) && Piled(rows, pos, m, pile)
    requires CloseReverted(rows, p, t, now).Some? && (p != pos || t != m || pile[|pile| - 1].amount != 0.0)
    ensures Piled(CloseReverted(rows, p, t, now).value, pos, m, pile)
  {
    TopIs(rows, pos, m, pile);
    assert Layered(rows, pos, m, pile, |pile| - 1);
    var s, l := CloseReverted(rows, p, t, now).value, LiveId(rows, p, t);
    assert l.Some? && rows[l.value].supersedes.Some? ==> SameMonth(rows, l.value, rows[l.value].supersedes.value);
    SamePile(rows, s, pos, m, pile);
  }

  lemma BottomGoes(rows: map<Id, Row>, d: Id, pos: Id, m: int, now: Time)
    requires Sound(rows, now) && Quiet(rows, Some(pos), m, now) && LiveAt(rows, pos, m, d) && rows[d].amount == 0.0
    ensures CloseReverted(rows, pos, m, now).Some? && Drowned(CloseReverted(rows, pos, m, now).value, d)
  {
    CloseRevertedKeeps(rows, pos, m, now);
    LiveIdIs(rows, pos, m, d);
    var s := CloseReverted(rows, pos, m, now).value;
    forall x | x in s && s[x].supersedes == Some(d) ensures s[x].created != Some(now) {
      assert SameMonth(s, x, d);
    }
    RetiredDrowns(s, d);
  }

  lemma TopGoes(rows: map<Id, Row>, pile: seq<Layer>, pos: Id, m: int, now: Time)
    requires UniqueLive(rows) && Piled(rows, pos, m, pile) && |pile| > 1 && pile[|pile| - 1].amount == 0.0
    ensures CloseReverted(rows, pos, m, now).Some?
    ensures Piled(CloseReverted(rows, pos, m, now).value, pos, m, pile[..|pile| - 1])
  {
    TopIs(rows, pos, m, pile);
    assert Layered(rows, pos, m, pile, |pile| - 1) && Layered(rows, pos, m, pile, |pile| - 2);
    var s, lower := CloseReverted(rows, pos, m, now).value, pile[..|pile| - 1];
    forall i | 0 <= i < |lower| ensures Layered(s, pos, m, lower, i) {
      assert Layered(rows, pos, m, pile, i) && pile[i].id != pile[|pile| - 1].id;
    }
  }

  /** Writing an amount into the top row. */
  lemma EditTells(rows: map<Id, Row>, f: Fate, pos: Id, m: int, amount: real, content: string)
    requires f.Kept? && Piled(rows, pos, m, f.pile)
    ensures Top(f).id in rows && Piled(Edited(rows, Top(f).id, amount, content), pos, m, WithTop(f, amount).pile)
  {
    assert Layered(rows, pos, m, f.pile, |f.pile| - 1);
    var s, g := Edited(rows, Top(f).id, amount, content), WithTop(f, amount).pile;
    forall i | 0 <= i < |g| ensures Layered(s, pos, m, g, i) { assert Layered(rows, pos, m, f.pile, i); }
  }

  /** The request is about the month's top row. */
  predicate Touches(f: Fate, pos: Id, m: int, op: Op)
    requires f.Kept? && f.pile != []
  {
    match op
    case Import(p, month, _, _) => p == pos && month == m
    case Edit(id, _, _) => id == Top(f).id
    case Delete(id) => id == Top(f).id
    case DeletePosition(p) => p == pos
    case _ => false
  }

  lemma UntouchedMonth(b: Book, f: Fate, pos: Id, m: int, op: Op, now: Time, newId: Id)
    requires !op.SetLifecycle? && !op.MoveMaturity? && newId !in b.rows
    requires f.Kept? && f.pile != [] && LiveId(b.rows, pos, m) == Some(Top(f).id) && !Touches(f, pos, m, op)
    ensures KeepsMonth(b.rows, Step(b, op, now, newId).rows, pos, m, Top(f).id)
  {
  }

  lemma NothingLeft(b: Book, f: Fate, pos: Id, m: int, op: Op, now: Time, newId: Id)
    requires UniqueLive(b.rows) && f.Kept? && f.pile != [] && LiveAt(b.rows, pos, m, Top(f).id) && LivePosition(b, pos)
    requires op == Delete(Top(f).id) || op == DeletePosition(pos)
    ensures forall id :: !LiveAt(Step(b, op, now, newId).rows, pos, m, id)
  {
    forall id | LiveAt(b.rows, pos, m, id) ensures id == Top(f).id { assert SameMonth(b.rows, id, Top(f).id); }
    forall id ensures !LiveAt(Step(b, op, now, newId).rows, pos, m, id) {
      assert LiveAt(Step(b, op, now, newId).rows, pos, m, id) ==> LiveAt(b.rows, pos, m, id);
    }
  }

  lemma RowOpTells(b: Book, f: Fate, pos: Id, m: int, d: Id, op: Op, now: Time, newId: Id)
    requires !op.SetLifecycle? && !op.MoveMaturity?
    requires UniqueLive(b.rows) && Linked(Step(b, op, now, newId).rows) && newId !in b.rows
    requires f.Kept? && Tells(b, pos, m, d, f)
    ensures Tells(Step(b, op, now, newId), pos, m, d, FateStep(f, pos, m, op, newId))
  {
    hide UniqueLive, Linked, KeepsMonth;
    var s := Step(b, op, now, newId).rows;
    TopIs(b.rows, pos, m, f.pile);
    assert Layered(b.rows, pos, m, f.pile, |f.pile| - 1) && Layered(b.rows, pos, m, f.pile, 0);
    if !Touches(f, pos, m, op) {
      UntouchedMonth(b, f, pos, m, op, now, newId);
      SamePile(b.rows, s, pos, m, f.pile);
    } else if op.Import? || op.Edit? {
      EditTells(b.rows, f, pos, m, op.amount, op.content);
    } else {
      NothingLeft(b, f, pos, m, op, now, newId);
      EmptyMonthDrowns(s, pos, m, d);
    }
  }

  lemma LifecycleTells(b: Book, f: Fate, pos: Id, m: int, d: Id, op: Op, now: Time, newId: Id)
    requires op.SetLifecycle? && Sound(b.rows, now) && newId !in b.rows && f.Kept? && f.pile != []
             && Tells(b, pos, m, d, f)
    requires forall month :: Quiet(b.rows, Some(op.pos), month, now)
    ensures Tells(Step(b, op, now, newId), pos, m, d, FateStep(f, pos, m, op, newId))
  {
    hide Sound, Piled, Drowned, CloseWritten, CloseReverted;
    if !LivePosition(b, op.pos) {
    } else if op.terminated.Some? {
      SoundRows(b.rows, now);
      CloseTells(b.rows, f, pos, m, op.pos, op.terminated.value, op.note, now, newId);
    } else if b.positions[op.pos].terminated.Some? {
      ReopenTells(b.rows, f, pos, m, op.pos, b.positions[op.pos].terminated.value, now);
    }
  }

  lemma SoundRows(rows: map<Id, Row>, now: Time)
    requires Sound(rows, now)
    ensures UniqueLive(rows) && Linked(rows)
  {
  }

  lemma MaturityTells(b: Book, f: Fate, pos: Id, m: int, d: Id, op: Op, now: Time, newId: Id)
    requires op.MoveMaturity? && Sound(b.rows, now) && newId !in b.rows && f.Kept? && f.pile != []
             && Tells(b, pos, m, d, f)
    requires forall month :: Quiet(b.rows, Some(op.pos), month, now)
    ensures Tells(Step(b, op, now, newId), pos, m, d, FateStep(f, pos, m, op, newId))
  {
    hide Sound, Piled, Drowned, CloseWritten, CloseReverted;
    if LivePosition(b, op.pos) {
      var rows, g := b.rows, f;
      SoundRows(rows, now);
      if op.from != op.to {
        ReopenTells(b.rows, f, pos, m, op.pos, op.from, now);
        CloseRevertedKeeps(b.rows, op.pos, op.from, now);
        rows := CloseReverted(b.rows, op.pos, op.from, now).value;
        g := if op.pos == pos && op.from == m then Uncover(f) else f;
        SoundRows(rows, now);
        assert newId !in rows.Keys;
      }
      if g.Kept? {
        CloseTells(rows, g, pos, m, op.pos, op.to, op.note, now, newId);
      } else {
        CloseSurfaces(rows, op.pos, op.to, op.note, now, newId);
        StaysDrowned(rows, CloseWritten(rows, op.pos, op.to, op.note, now, newId), d);
      }
    }
  }

  lemma LostTells(b: Book, d: Id, op: Op, now: Time, newId: Id)
    requires Sound(b.rows, now) && newId !in b.rows && Drowned(b.rows, d)
    requires op.SetLifecycle? || op.MoveMaturity? ==> forall month :: Quiet(b.rows, Some(op.pos), month, now)
    ensures Drowned(Step(b, op, now, newId).rows, d)
  {
    hide Drowned, Sound;
    SoundRows(b.rows, now);
    if op.SetLifecycle? || op.MoveMaturity? {
      LostFlips(b, d, op, now, newId);
    } else {
      StaysDrowned(b.rows, Step(b, op, now, newId).rows, d);
    }
  }

  lemma LostFlips(b: Book, d: Id, op: Op, now: Time, newId: Id)
    requires op.SetLifecycle? || op.MoveMaturity?
    requires Sound(b.rows, now) && newId !in b.rows && Drowned(b.rows, d)
             && forall month :: Quiet(b.rows, Some(op.pos), month, now)
    ensures Drowned(Step(b, op, now, newId).rows, d)
  {
    hide Drowned, Sound, CloseWritten, CloseReverted, Surfacing;
    SoundRows(b.rows, now);
    var reopened :=
      if op.MoveMaturity? then op.from
      else if LivePosition(b, op.pos) && b.positions[op.pos].terminated.Some? then b.positions[op.pos].terminated.value
      else 0;
    CloseRevertedKeeps(b.rows, op.pos, reopened, now);
    ReopenSurfaces(b.rows, op.pos, reopened, now);
    var rows := CloseReverted(b.rows, op.pos, reopened, now).value;
    StaysDrowned(b.rows, rows, d);
    SoundRows(rows, now);
    assert newId !in rows.Keys;
    var closed := if op.MoveMaturity? then op.to else if op.terminated.Some? then op.terminated.value else 0;
    CloseSurfaces(b.rows, op.pos, closed, op.note, now, newId);
    StaysDrowned(b.rows, CloseWritten(b.rows, op.pos, closed, op.note, now, newId), d);
    CloseSurfaces(rows, op.pos, closed, op.note, now, newId);
    StaysDrowned(rows, CloseWritten(rows, op.pos, closed, op.note, now, newId), d);
  }

  lemma LostIsFinal(pos: Id, m: int, op: Op, newId: Id)
    ensures FateStep(Lost, pos, m, op, newId) == Lost
  {
  }

  // ----- Whole runs -------------------------------------------------------------------

  lemma StepTells(b: Book, clock: Time, f: Fate, pos: Id, m: int, d: Id, op: Op, now: Time, newId: Id)
    requires Sound(b.rows, clock) && clock < now && newId !in b.rows && Tells(b, pos, m, d, f)
    requires f.Kept? ==> f.pile != []
    ensures Tells(Step(b, op, now, newId), pos, m, d, FateStep(f, pos, m, op, newId))
  {
    hide Sound, Piled, Drowned, Step, FateStep;
    LaterIsQuiet(b.rows, clock, now);
    StepKeeps(b, clock, op, now, newId);
    SoundRows(b.rows, now);
    SoundRows(Step(b, op, now, newId).rows, now);
    if f.Lost? {
      LostTells(b, d, op, now, newId);
      LostIsFinal(pos, m, op, newId);
    } else if op.SetLifecycle? {
      LifecycleTells(b, f, pos, m, d, op, now, newId);
    } else if op.MoveMaturity? {
      MaturityTells(b, f, pos, m, d, op, now, newId);
    } else {
      RowOpTells(b, f, pos, m, d, op, now, newId);
    }
  }

  lemma {:induction false} RunTells(b: Book, clock: Time, f: Fate, pos: Id, m: int, d: Id, ticks: seq<Tick>)
    requires Sound(b.rows, clock) && Legal(b, clock, ticks) && Tells(b, pos, m, d, f)
    requires f.Kept? ==> f.pile != []
    ensures Tells(Run(b, ticks), pos, m, d, FateAfter(f, pos, m, ticks))
    decreases |ticks|
  {
    if ticks == [] {
    } else {
      hide Sound, Tells, Step, FateStep;
      var k := ticks[0];
      StepTells(b, clock, f, pos, m, d, k.op, k.now, k.newId);
      StepKeeps(b, clock, k.op, k.now, k.newId);
      RunTells(Step(b, k.op, k.now, k.newId), k.now, FateStep(f, pos, m, k.op, k.newId), pos, m, d, ticks[1..]);
    }
  }

  ghost function FirstFate(b: Book, pos: Id, d: Id): Fate
    requires d in b.rows && pos in b.positions
  {
    Kept([Layer(d, b.rows[d].amount)], b.positions[pos].terminated)
  }

  /** The fate says that the snapshot itself is the month's live row. */
  predicate IsShown(f: Fate) {
    f.Kept? && |f.pile| == 1
  }

  /** After every run of requests, a snapshot that was once live is the month's live row exactly
      when the requests say so, and then with the amount they say. */
  lemma ShownIff(b: Book, clock: Time, pos: Id, m: int, d: Id, ticks: seq<Tick>)
    requires Sound(b.rows, clock) && Legal(b, clock, ticks) && LivePosition(b, pos) && LiveAt(b.rows, pos, m, d)
    ensures var f, end := FateAfter(FirstFate(b, pos, d), pos, m, ticks), Run(b, ticks).rows;
            && (LiveAt(end, pos, m, d) <==> IsShown(f))
            && (f.Kept? ==> d in end && end[d].amount == f.pile[0].amount)
  {
    var f := FirstFate(b, pos, d);
    assert Layered(b.rows, pos, m, f.pile, 0);
    RunTells(b, clock, f, pos, m, d, ticks);
    RunKeeps(b, clock, ticks);
    var g, end := FateAfter(f, pos, m, ticks), Run(b, ticks).rows;
    if g.Lost? {
      assert !Chain(end, [d], d);
    } else {
      assert Layered(end, pos, m, g.pile, 0);
    }
  }

  /** Reactivating brings a displaced snapshot back if and only if the termination month's live
      row is a zero row that names it, in every state that keeps the invariant. */
  lemma ReactivationRestores(b: Book, clock: Time, pos: Id, m: int, d: Id, now: Time)
    requires Sound(b.rows, clock) && clock < now && LivePosition(b, pos) && b.positions[pos].terminated == Some(m)
    requires d in b.rows && b.rows[d].deleted.Some?
    ensures LiveAt(Reactivate(b, pos, now).rows, pos, m, d)
            <==> exists c :: LiveAt(b.rows, pos, m, c) && b.rows[c].amount == 0.0 && b.rows[c].supersedes == Some(d)
  {
    LaterIsQuiet(b.rows, clock, now);
    CloseRevertedKeeps(b.rows, pos, m, now);
    forall c | LiveAt(b.rows, pos, m, c) ensures LiveId(b.rows, pos, m) == Some(c) { LiveIdIs(b.rows, pos, m, c); }
    forall c | c in b.rows && b.rows[c].supersedes == Some(d) ensures SameMonth(b.rows, c, d) {}
  }

  // ----- Terminate, any requests, reactivate ---------------------------------------------

  lemma ReactivateTells(b: Book, clock: Time, f: Fate, pos: Id, m: int, d: Id, now: Time)
    requires Sound(b.rows, clock) && clock < now && Tells(b, pos, m, d, f)
    requires f.Kept? ==> f.pile != []
    ensures Tells(Reactivate(b, pos, now), pos, m, d, FateStep(f, pos, m, SetLifecycle(pos, None, ""), 0))
  {
    hide Sound, Piled, Drowned, CloseReverted, Surfacing;
    LaterIsQuiet(b.rows, clock, now);
    SoundRows(b.rows, now);
    if LivePosition(b, pos) && b.positions[pos].terminated.Some? {
      var t := b.positions[pos].terminated.value;
      CloseRevertedKeeps(b.rows, pos, t, now);
      if f.Lost? {
        ReopenSurfaces(b.rows, pos, t, now);
        StaysDrowned(b.rows, CloseReverted(b.rows, pos, t, now).value, d);
      } else {
        ReopenTells(b.rows, f, pos, m, pos, t, now);
      }
    }
  }

  lemma ReadOff(b: Book, pos: Id, m: int, d: Id, f: Fate)
    requires Tells(b, pos, m, d, f) && (f.Kept? ==> f.pile != [])
    ensures d in b.rows && (LiveAt(b.rows, pos, m, d) <==> IsShown(f))
    ensures f.Kept? ==> b.rows[d].amount == f.pile[0].amount
  {
    if f.Lost? {
      assert !Chain(b.rows, [d], d);
    } else {
      assert Layered(b.rows, pos, m, f.pile, 0);
    }
  }

  /** The snapshot d under the close row c of a position terminated in its month. */
  function Covered(d: Id, amount: real, c: Id, m: int): Fate {
    Kept([Layer(d, amount), Layer(c, 0.0)], Some(m))
  }

  function AtReactivation(f: Fate, pos: Id, m: int): Fate
    requires f.Kept? ==> f.pile != []
  {
    FateStep(f, pos, m, SetLifecycle(pos, None, ""), 0)
  }

  lemma TerminationCovers(b: Book, clock: Time, pos: Id, m: int, d: Id, note: string, now: Time, c: Id)
    requires Sound(b.rows, clock) && clock < now && c !in b.rows
    requires LivePosition(b, pos) && LiveAt(b.rows, pos, m, d) && b.rows[d].amount != 0.0
    ensures Tells(Terminate(b, pos, m, note, now, c), pos, m, d, Covered(d, b.rows[d].amount, c, m))
    ensures Sound(Terminate(b, pos, m, note, now, c).rows, now)
  {
    assert Layered(b.rows, pos, m, FirstFate(b, pos, d).pile, 0);
    var op := SetLifecycle(pos, Some(m), note);
    StepTells(b, clock, FirstFate(b, pos, d), pos, m, d, op, now, c);
    StepKeeps(b, clock, op, now, c);
  }

  /** Terminate over a recorded snapshot, let any requests follow, reactivate: the snapshot is the
      month's live row again if and only if the requests in between say so. */
  lemma ReactivationAfterRun(b: Book, clock: Time, pos: Id, m: int, d: Id, note: string, t1: Time, c: Id,
          ticks: seq<Tick>, t2: Time)
    requires Sound(b.rows, clock) && clock < t1 && c !in b.rows
    requires LivePosition(b, pos) && LiveAt(b.rows, pos, m, d) && b.rows[d].amount != 0.0
    requires Legal(Terminate(b, pos, m, note, t1, c), t1, ticks) && ClockAfter(t1, ticks) < t2
    ensures var end := Reactivate(Run(Terminate(b, pos, m, note, t1, c), ticks), pos, t2);
            var f := AtReactivation(FateAfter(Covered(d, b.rows[d].amount, c, m), pos, m, ticks), pos, m);
            && (LiveAt(end.rows, pos, m, d) <==> IsShown(f))
            && (f.Kept? ==> d in end.rows && end.rows[d].amount == f.pile[0].amount)
  {
    hide Sound, Tells, FateStep, Legal;
    var b1, f := Terminate(b, pos, m, note, t1, c), Covered(d, b.rows[d].amount, c, m);
    TerminationCovers(b, clock, pos, m, d, note, t1, c);
    RunTells(b1, t1, f, pos, m, d, ticks);
    RunKeeps(b1, t1, ticks);
    ReactivateTells(Run(b1, ticks), ClockAfter(t1, ticks), FateAfter(f, pos, m, ticks), pos, m, d, t2);
    ReadOff(Reactivate(Run(b1, ticks), pos, t2), pos, m, d, AtReactivation(FateAfter(f, pos, m, ticks), pos, m));
  }

  /** The requests that lose a covered snapshot: recording another amount over its close row,
      deleting that row or the position, and moving the termination out of its month without
      going through an undo. */
  predicate Loses(op: Op, pos: Id, m: int, c: Id) {
    match op
    case Record(_, _, _, _) => false
    case Import(p, month, amount, _) => p == pos && month == m && amount != 0.0
    case Edit(id, amount, _) => id == c && amount != 0.0
    case Delete(id) => id == c
    case DeletePosition(p) => p == pos
    case SetLifecycle(p, t, _) => p == pos && t.Some? && t.value != m
    case MoveMaturity(p, from, to, _) => p == pos && to != m && (from != m || from == to)
  }

  lemma FateOfOne(d: Id, amount: real, c: Id, m: int, pos: Id, op: Op, newId: Id)
    requires amount != 0.0
    ensures IsShown(AtReactivation(FateStep(Covered(d, amount, c, m), pos, m, op, newId), pos, m))
            <==> !Loses(op, pos, m, c)
  {
  }

  /** One request between terminating and reactivating loses the snapshot exactly when it is one
      of those. */
  lemma OneRequestLoses(b: Book, clock: Time, pos: Id, m: int, d: Id, note: string, t1: Time, c: Id, tick: Tick,
          t2: Time)
    requires Sound(b.rows, clock) && clock < t1 < tick.now < t2 && c !in b.rows
    requires LivePosition(b, pos) && LiveAt(b.rows, pos, m, d) && b.rows[d].amount != 0.0
    requires tick.newId !in Terminate(b, pos, m, note, t1, c).rows
    ensures var end := Reactivate(Step(Terminate(b, pos, m, note, t1, c), tick.op, tick.now, tick.newId), pos, t2);
            LiveAt(end.rows, pos, m, d) <==> !Loses(tick.op, pos, m, c)
  {
    hide Sound, Loses, FateStep, Step;
    var b1, f := Terminate(b, pos, m, note, t1, c), Covered(d, b.rows[d].amount, c, m);
    OneTick(b1, t1, f, pos, m, tick);
    ReactivationAfterRun(b, clock, pos, m, d, note, t1, c, [tick], t2);
    FateOfOne(d, b.rows[d].amount, c, m, pos, tick.op, tick.newId);
  }

  lemma OneTick(b: Book, clock: Time, f: Fate, pos: Id, m: int, tick: Tick)
    requires clock < tick.now && tick.newId !in b.rows && (f.Kept? ==> f.pile != [])
    ensures Legal(b, clock, [tick]) && Run(b, [tick]) == Step(b, tick.op, tick.now, tick.newId)
    ensures ClockAfter(clock, [tick]) == tick.now
    ensures FateAfter(f, pos, m, [tick]) == FateStep(f, pos, m, tick.op, tick.newId)
  {
    hide Step, FateStep;
    assert [tick][1..] == [];
    assert Run(Step(b, tick.op, tick.now, tick.newId), []) == Step(b, tick.op, tick.now, tick.newId);
    assert FateAfter(FateStep(f, pos, m, tick.op, tick.newId), pos, m, []) == FateStep(f, pos, m, tick.op, tick.newId);
    assert ClockAfter(tick.now, []) == tick.now;
  }

  /** Requests that leave the close row and the termination alone. */
  predicate Leaves(op: Op, pos: Id, m: int, c: Id) {
    match op
    case SetLifecycle(p, t, _) => p != pos || t == Some(m)
    case MoveMaturity(p, _, to, _) => p != pos || to == m
    case _ => !Loses(op, pos, m, c)
  }

  lemma LeavesFate(d: Id, amount: real, c: Id, m: int, pos: Id, op: Op, newId: Id)
    requires amount != 0.0 && d != c
    ensures FateStep(Covered(d, amount, c, m), pos, m, op, newId) == Covered(d, amount, c, m)
            <==> Leaves(op, pos, m, c)
  {
    assert Covered(d, amount, c, m).pile[1 := Layer(c, 0.0)] == Covered(d, amount, c, m).pile;
  }

  lemma {:induction false} LeavesFateAlone(d: Id, amount: real, c: Id, m: int, pos: Id, ticks: seq<Tick>)
    requires amount != 0.0 && d != c
    requires forall i :: 0 <= i < |ticks| ==> Leaves(ticks[i].op, pos, m, c)
    ensures FateAfter(Covered(d, amount, c, m), pos, m, ticks) == Covered(d, amount, c, m)
    decreases |ticks|
  {
    if ticks == [] {
    } else {
      LeavesFate(d, amount, c, m, pos, ticks[0].op, ticks[0].newId);
      LeavesFateAlone(d, amount, c, m, pos, ticks[1..]);
    }
  }

  /** Any number of such requests later, reactivating hands back the recorded amount. */
  lemma LeftAlone(b: Book, clock: Time, pos: Id, m: int, d: Id, note: string, t1: Time, c: Id, ticks: seq<Tick>,
          t2: Time)
    requires Sound(b.rows, clock) && clock < t1 && c !in b.rows
    requires LivePosition(b, pos) && LiveAt(b.rows, pos, m, d) && b.rows[d].amount != 0.0
    requires Legal(Terminate(b, pos, m, note, t1, c), t1, ticks) && ClockAfter(t1, ticks) < t2
    requires forall i :: 0 <= i < |ticks| ==> Leaves(ticks[i].op, pos, m, c)
    ensures var end := Reactivate(Run(Terminate(b, pos, m, note, t1, c), ticks), pos, t2);
            LiveAt(end.rows, pos, m, d) && end.rows[d].amount == b.rows[d].amount
  {
    hide Sound, Leaves, Legal, Run;
    var f := Covered(d, b.rows[d].amount, c, m);
    ReactivationAfterRun(b, clock, pos, m, d, note, t1, c, ticks, t2);
    LeavesFateAlone(d, b.rows[d].amount, c, m, pos, ticks);
    assert f.pile[..1] == [Layer(d, b.rows[d].amount)];
  }
}
