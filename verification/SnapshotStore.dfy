/** The snapshot repository of one position group: each method is one transaction and does to
    the tables what Displacement.Step says. */
module SnapshotStore {
  import opened Rows
  import opened Displacement

  class Store {
    var positions: map<Id, Position>
    var rows: map<Id, Row>

    constructor ()
      ensures positions == map[] && rows == map[]
    {
      positions, rows := map[], map[];
    }

    ghost function Contents(): Book
      reads this
    {
      Book(positions, rows)
    }

    predicate PositionIsLive(pos: Id)
      reads this
      ensures PositionIsLive(pos) <==> LivePosition(Contents(), pos)
    {
      pos in positions && positions[pos].live
    }

    predicate RowIsEditable(id: Id)
      reads this
      ensures RowIsEditable(id) <==> Editable(Contents(), id)
    {
      id in rows && rows[id].deleted.None? && rows[id].parent.Some? && PositionIsLive(rows[id].parent.value)
    }

    // ----- The statements -------------------------------------------------------

    method LiveAtMonth(pos: Id, month: int) returns (r: Option<Id>)
      requires UniqueLive(rows)
      ensures r == if PositionIsLive(pos) then LiveId(rows, pos, month) else None
    {
      if !PositionIsLive(pos) { return None; }
      if exists id :: id in rows && LiveAt(rows, pos, month, id) {
        var id :| id in rows && LiveAt(rows, pos, month, id);
        assert SameMonth(rows, LiveId(rows, pos, month).value, id);
        return Some(id);
      }
      return None;
    }

    method Archive(id: Id, now: Time) returns (affected: bool)
      modifies this`rows
      ensures affected == old(Editable(Contents(), id))
      ensures rows == if affected then Archived(old(rows), id, now) else old(rows)
    {
      affected := RowIsEditable(id);
      if affected {
        rows := rows[id := rows[id].(deleted := Some(now))];
      }
    }

    method Restore(id: Id) returns (affected: bool)
      modifies this`rows
      ensures affected
              == old(id in rows && rows[id].deleted.Some? && rows[id].parent.Some?
                && PositionIsLive(rows[id].parent.value))
      ensures rows == if affected then Unarchived(old(rows), id) else old(rows)
    {
      affected := id in rows && rows[id].deleted.Some? && rows[id].parent.Some?
        && PositionIsLive(rows[id].parent.value);
      if affected {
        rows := rows[id := rows[id].(deleted := None)];
      }
    }

    // ----- The close-snapshot machinery -----------------------------------------

    method WriteCloseSnapshot(pos: Id, month: int, note: string, now: Time, newId: Id)
      requires UniqueLive(rows) && PositionIsLive(pos)
      modifies this`rows
      ensures rows == CloseWritten(old(rows), pos, month, note, now, newId)
    {
      var live := LiveAtMonth(pos, month);
      var displaced: Option<Id> := None;
      if live.Some? {
        if rows[live.value].amount == 0.0 {
          rows := rows[live.value := rows[live.value].(amount := 0.0, content := note)];
          return;
        }
        var affected := Archive(live.value, now);
        displaced := live;
      }
      rows := rows[newId := NewSnapshot(newId, pos, month, 0.0, note, displaced, now)];
    }

    /** `ok` is false when the restore statement touched no row. */
    method RevertCloseSnapshot(pos: Id, month: int, now: Time) returns (ok: bool)
      requires Sound(rows, now) && PositionIsLive(pos)
      modifies this`rows
      ensures ok <==> CloseReverted(old(rows), pos, month, now).Some?
      ensures ok ==> Some(rows) == CloseReverted(old(rows), pos, month, now)
    {
      var live := LiveAtMonth(pos, month);
      if live.None? || rows[live.value].amount != 0.0 {
        return true;
      }
      var supersedes := rows[live.value].supersedes;
      assert supersedes.Some? ==> supersedes.value in rows && SameMonth(rows, live.value, supersedes.value);
      var affected := Archive(live.value, now);
      if supersedes.None? {
        return true;
      }
      ok := Restore(supersedes.value);
    }

    // ----- The transactions -----------------------------------------------------

    method CreateSnapshot(pos: Id, month: int, amount: real, content: string, now: Time, newId: Id) returns (ok: bool)
      requires UniqueLive(rows)
      modifies this`rows
      ensures Contents() == Step(old(Contents()), Record(pos, month, amount, content), now, newId)
      ensures ok == (old(PositionIsLive(pos)) && LiveId(old(rows), pos, month).None?)
    {
      var live := LiveAtMonth(pos, month);
      ok := PositionIsLive(pos) && live.None?;
      if ok {
        rows := rows[newId := NewSnapshot(newId, pos, month, amount, content, None, now)];
      }
    }

    method UpsertSnapshot(pos: Id, month: int, amount: real, content: string, now: Time, newId: Id) returns (ok: bool)
      requires UniqueLive(rows)
      modifies this`rows
      ensures Contents() == Step(old(Contents()), Import(pos, month, amount, content), now, newId)
      ensures ok == old(PositionIsLive(pos))
    {
      ok := PositionIsLive(pos);
      if !ok { return; }
      var live := LiveAtMonth(pos, month);
      match live
      case None => rows := rows[newId := NewSnapshot(newId, pos, month, amount, content, None, now)];
      case Some(l) => rows := rows[l := rows[l].(amount := amount, content := content)];
    }

    method UpdateSnapshot(id: Id, amount: real, content: string, now: Time) returns (ok: bool)
      modifies this`rows
      ensures ok == old(Editable(Contents(), id))
      ensures Contents() == Step(old(Contents()), Edit(id, amount, content), now, 0)
    {
      ok := RowIsEditable(id);
      if ok {
        rows := rows[id := rows[id].(amount := amount, content := content)];
      }
    }

    method DeleteSnapshot(id: Id, now: Time) returns (ok: bool)
      modifies this`rows
      ensures ok == old(Editable(Contents(), id))
      ensures Contents() == Step(old(Contents()), Delete(id), now, 0)
    {
      ok := Archive(id, now);
    }

    /** Children first, while the parent is still live; a miss on the parent rolls both back. */
    method SoftDeletePosition(pos: Id, now: Time) returns (ok: bool)
      modifies this
      ensures ok == old(PositionIsLive(pos))
      ensures Contents() == Step(old(Contents()), Op.DeletePosition(pos), now, 0)
      ensures ok ==> pos in positions && !positions[pos].live
      ensures ok ==> forall id :: id in rows && rows[id].parent == Some(pos) ==> rows[id].deleted.Some?
    {
      ok := PositionIsLive(pos);
      if !ok { return; }
      rows := map id | id in rows ::
        if rows[id].deleted.None? && rows[id].parent == Some(pos) then rows[id].(deleted := Some(now)) else rows[id];
      positions := positions[pos := positions[pos].(live := false)];
    }

    method UpdateLifecycle(pos: Id, terminated: Option<int>, note: string, now: Time, newId: Id) returns (ok: bool)
      requires Sound(rows, now) && newId !in rows
      modifies this
      ensures Contents() == Step(old(Contents()), SetLifecycle(pos, terminated, note), now, newId)
      ensures !ok ==> Contents() == old(Contents())
      ensures ok ==> old(PositionIsLive(pos)) && positions[pos] == old(positions[pos]).(terminated := terminated)
      ensures old(PositionIsLive(pos)) && (forall month :: Quiet(old(rows), Some(pos), month, now)) ==> ok
    {
      if !PositionIsLive(pos) { return false; }
      var savedPositions, savedRows := positions, rows;
      var prior := positions[pos].terminated;
      positions := positions[pos := positions[pos].(terminated := terminated)];
      ok := true;
      if terminated.Some? {
        WriteCloseSnapshot(pos, terminated.value, note, now, newId);
      } else if prior.Some? {
        if Quiet(rows, Some(pos), prior.value, now) { CloseRevertedKeeps(rows, pos, prior.value, now); }
        ok := RevertCloseSnapshot(pos, prior.value, now);
      }
      if !ok {
        positions, rows := savedPositions, savedRows;
      } else {
        assert prior.None? && terminated.None? ==> positions == savedPositions;
      }
    }

    method UpdateMaturityDate(pos: Id, from: int, to: int, note: string, now: Time, newId: Id) returns (ok: bool)
      requires Sound(rows, now) && (forall month :: Quiet(rows, Some(pos), month, now)) && newId !in rows
      modifies this
      ensures Contents() == Step(old(Contents()), MoveMaturity(pos, from, to, note), now, newId)
      ensures !ok ==> Contents() == old(Contents())
      ensures ok == old(PositionIsLive(pos))
      ensures ok ==> positions[pos] == old(positions[pos]).(terminated := Some(to))
    {
      if !PositionIsLive(pos) { return false; }
      var savedPositions, savedRows := positions, rows;
      positions := positions[pos := positions[pos].(terminated := Some(to))];
      ok := true;
      if from != to {
        ok := RevertCloseSnapshot(pos, from, now);
      }
      if ok {
        if from != to { CloseRevertedKeeps(savedRows, pos, from, now); }
        WriteCloseSnapshot(pos, to, note, now, newId);
      } else {
        positions, rows := savedPositions, savedRows;
      }
      if from != to { CloseRevertedKeeps(savedRows, pos, from, now); }
    }
  }
}
