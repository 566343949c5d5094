/** The monthly-report cache: what a read serves. A report is a function of its inputs, so a stored
    report is modelled by the inputs it was computed from. */
module ReportCache {
  import opened Freshness
  import opened Rows

  datatype Stored = Stored(month: int, facts: map<Id, Fact>, generated: Time, version: string)

  const ENGINE_VERSION := "current"

  predicate DistinctMonths(existing: seq<Stored>) {
    forall i, j :: 0 <= i < j < |existing| ==> existing[i].month != existing[j].month
  }

  predicate Serves(e: Stored, watermark: Time) {
    e.version == ENGINE_VERSION && e.generated >= watermark
  }

  function Months(first: int, last: int): (s: set<int>)
    requires first <= last + 1
    ensures |s| == last + 1 - first
    ensures forall m :: m in s <==> first <= m <= last
    decreases last + 1 - first
  {
    if first > last then {} else Months(first, last - 1) + {last}
  }

  function MonthsOf(existing: seq<Stored>): set<int> {
    set i | 0 <= i < |existing| :: existing[i].month
  }

  lemma {:induction false} DistinctCount(existing: seq<Stored>)
    requires DistinctMonths(existing)
    ensures |MonthsOf(existing)| == |existing|
  {
    if existing == [] {
    } else {
      var front := existing[..|existing| - 1];
      DistinctCount(front);
      assert MonthsOf(existing) == MonthsOf(front) + {existing[|existing| - 1].month} by {
        forall m | m in MonthsOf(existing) ensures m in MonthsOf(front) + {existing[|existing| - 1].month} {
          var i :| 0 <= i < |existing| && existing[i].month == m;
          assert i < |front| ==> front[i].month == m;
        }
        forall m | m in MonthsOf(front) ensures m in MonthsOf(existing) {
          var i :| 0 <= i < |front| && front[i].month == m;
          assert existing[i].month == m;
        }
      }
    }
  }

  lemma SubsetOfSameSize<T>(a: set<T>, b: set<T>)
    requires a <= b && |a| == |b|
    ensures a == b
  {
    assert b == a + (b - a);
    assert |b - a| == 0;
  }

  /** Nothing needs regenerating if and only if the stored months are exactly first..last, each
      under the current engine version and no older than the watermark. */
  method NeedsRegen(first: int, last: int, existing: seq<Stored>, watermark: Time) returns (regen: bool)
    requires first <= last && DistinctMonths(existing)
    ensures !regen <==>
              MonthsOf(existing) == Months(first, last)
              && forall i :: 0 <= i < |existing| ==>
                existing[i].version == "current" && existing[i].generated >= watermark
  {
    DistinctCount(existing);
    if |existing| != last + 1 - first { return true; }
    var have: map<int, Time> := map[];
    for i := 0 to |existing|
      invariant forall m :: m in have <==> exists j :: 0 <= j < i && existing[j].month == m
      invariant forall j :: 0 <= j < i ==>
                existing[j].version == ENGINE_VERSION && existing[j].month in have
                  && have[existing[j].month] == existing[j].generated
    {
      if existing[i].version != ENGINE_VERSION {
        assert !Serves(existing[i], watermark);
        return true;
      }
      have := have[existing[i].month := existing[i].generated];
    }
    for m := first to last + 1
      invariant forall k :: first <= k < m ==> k in have && have[k] >= watermark
    {
      if m !in have || have[m] < watermark {
        if m in have {
          var j :| 0 <= j < |existing| && existing[j].month == m;
          assert !Serves(existing[j], watermark);
        } else {
          assert m in Months(first, last) && m !in MonthsOf(existing);
        }
        return true;
      }
    }
    forall m | m in Months(first, last) ensures m in MonthsOf(existing) { assert m in have; }
    SubsetOfSameSize(Months(first, last), MonthsOf(existing));
    forall i | 0 <= i < |existing| ensures Serves(existing[i], watermark) {
      assert existing[i].month in MonthsOf(existing);
    }
    return false;
  }

  /** The newest stamp over the watched rows, 0 if there is none. */
  method MaxInputStamp(rows: Inputs, last: int) returns (watermark: Time)
    ensures forall id :: id in rows && Watched(rows[id].when, last) ==> rows[id].stamp <= watermark
    ensures forall id :: id in rows && rows[id].when.Timeless? ==> rows[id].stamp <= watermark
    ensures forall id :: id in rows && rows[id].when.Snapshot? && rows[id].when.month <= last ==>
              rows[id].stamp <= watermark
    ensures forall id :: id in rows && rows[id].when.On? && rows[id].when.month < last ==> rows[id].stamp <= watermark
    ensures watermark == 0 || exists id :: id in rows && Watched(rows[id].when, last) && rows[id].stamp == watermark
  {
    watermark := 0;
    var todo: set<Id> := rows.Keys;
    while todo != {}
      invariant todo <= rows.Keys
      invariant forall id :: id in rows.Keys - todo && Watched(rows[id].when, last) ==> rows[id].stamp <= watermark
      invariant watermark == 0 || exists id :: id in rows && Watched(rows[id].when, last) && rows[id].stamp == watermark
      decreases todo
    {
      HasMember(todo);
      var id :| id in todo;
      if Watched(rows[id].when, last) && rows[id].stamp > watermark { watermark := rows[id].stamp; }
      todo := todo - {id};
    }
  }

  // ----- The engine's months ---------------------------------------------------------------

  predicate IsLiveSnapshot(rows: Inputs, id: Id) {
    id in rows && rows[id].live && rows[id].when.Snapshot?
  }

  ghost predicate HasSnapshot(rows: Inputs) {
    exists id :: IsLiveSnapshot(rows, id)
  }

  ghost predicate SnapshotIn(rows: Inputs, ids: set<Id>, month: int) {
    exists id :: id in ids && IsLiveSnapshot(rows, id) && rows[id].when.month == month
  }

  /** From the first of these live snapshots' months to the last one's, or to the current month if
      that is later. */
  ghost predicate IsRange(rows: Inputs, ids: set<Id>, current: int, first: int, last: int) {
    && SnapshotIn(rows, ids, first)
    && (forall id :: id in ids && IsLiveSnapshot(rows, id) ==> first <= rows[id].when.month <= last)
    && current <= last && (last == current || SnapshotIn(rows, ids, last))
  }

  /** The months the engine reports on, None when no live snapshot is left. */
  ghost function Range(rows: Inputs, current: int): (range: Option<(int, int)>)
    ensures range.Some? <==> HasSnapshot(rows)
    ensures range.Some? ==> range.value.0 <= range.value.1
    ensures forall first, last :: IsRange(rows, rows.Keys, current, first, last) <==> range == Some((first, last))
  {
    RangeExists(rows, rows.Keys, current);
    if first, last :| IsRange(rows, rows.Keys, current, first, last) then Some((first, last)) else None
  }

  lemma {:induction false} RangeExists(rows: Inputs, ids: set<Id>, current: int)
    requires ids <= rows.Keys
    ensures (exists first, last :: IsRange(rows, ids, current, first, last))
            <==> exists id :: id in ids && IsLiveSnapshot(rows, id)
    ensures forall first, last, f, l ::
              IsRange(rows, ids, current, first, last) && IsRange(rows, ids, current, f, l) ==> f == first && l == last
    decreases ids
  {
    if ids != {} {
      HasMember(ids);
      var id :| id in ids;
      var rest := ids - {id};
      RangeExists(rows, rest, current);
      assert ids == rest + {id};
      if first, last :| IsRange(rows, rest, current, first, last) {
        var range := Widened(Some((first, last)), rows, id, current);
        RangeWidens(rows, rest, id, current, Some((first, last)));
        assert range.Some?;
      } else {
        RangeWidens(rows, rest, id, current, None);
      }
    }
  }

  function Widened(range: Option<(int, int)>, rows: Inputs, id: Id, current: int): Option<(int, int)>
    requires id in rows
  {
    if !IsLiveSnapshot(rows, id) then range
    else
      var month := rows[id].when.month;
      match range
      case None => Some((month, if month > current then month else current))
      case Some((first, last)) => Some((if month < first then month else first, if month > last then month else last))
  }

  ghost predicate RangeOf(rows: Inputs, ids: set<Id>, current: int, range: Option<(int, int)>) {
    match range
    case None => forall id :: id in ids ==> !IsLiveSnapshot(rows, id)
    case Some((first, last)) => IsRange(rows, ids, current, first, last)
  }

  lemma RangeWidens(rows: Inputs, ids: set<Id>, id: Id, current: int, range: Option<(int, int)>)
    requires id in rows && RangeOf(rows, ids, current, range)
    ensures RangeOf(rows, ids + {id}, current, Widened(range, rows, id, current))
  {
    var all := ids + {id};
    forall m | SnapshotIn(rows, ids, m) ensures SnapshotIn(rows, all, m) {
      var s :| s in ids && IsLiveSnapshot(rows, s) && rows[s].when.month == m;
      assert s in all;
    }
    if IsLiveSnapshot(rows, id) { assert SnapshotIn(rows, all, rows[id].when.month); }
  }

  /** No months exactly when no live snapshot is left; otherwise from the first snapshot's month
      to the last one's, or to the current month when that is later. */
  method EngineRange(rows: Inputs, current: int) returns (range: Option<(int, int)>)
    ensures range == Range(rows, current)
    ensures range.None? <==> forall id :: id in rows && rows[id].live ==> !rows[id].when.Snapshot?
    ensures range.Some? ==>
              (exists id :: id in rows && rows[id].live && rows[id].when == Snapshot(range.value.0))
    ensures range.Some? ==> forall id :: id in rows && rows[id].live && rows[id].when.Snapshot? ==>
              range.value.0 <= rows[id].when.month <= range.value.1
    ensures range.Some? && range.value.1 != current ==>
              && range.value.1 > current
              && exists id :: id in rows && rows[id].live && rows[id].when == Snapshot(range.value.1)
  {
    range := None;
    var todo: set<Id> := rows.Keys;
    while todo != {}
      invariant todo <= rows.Keys && RangeOf(rows, rows.Keys - todo, current, range)
      decreases todo
    {
      HasMember(todo);
      var id :| id in todo;
      RangeWidens(rows, rows.Keys - todo, id, current, range);
      assert rows.Keys - todo + {id} == rows.Keys - (todo - {id});
      if rows[id].live && rows[id].when.Snapshot? {
        var month := rows[id].when.month;
        match range {
          case None => range := Some((month, if month > current then month else current));
          case Some((first, last)) =>
            range := Some((if month < first then month else first, if month > last then month else last));
        }
      }
      todo := todo - {id};
    }
    assert rows.Keys - todo == rows.Keys;
    if range.None? { assert forall id :: id in rows ==> !IsLiveSnapshot(rows, id); }
    if range.Some? {
      assert SnapshotIn(rows, rows.Keys, range.value.0);
      forall id | id in rows && rows[id].live && rows[id].when.Snapshot?
        ensures range.value.0 <= rows[id].when.month <= range.value.1
      {
        assert IsLiveSnapshot(rows, id);
      }
    }
  }

  // ----- What a refresh leaves -----------------------------------------------------------

  function Generated(rows: Inputs, month: int, now: Time): Stored {
    Stored(month, Facts(rows, month), now, ENGINE_VERSION)
  }

  function ReportsFor(read: Inputs, first: int, last: int, now: Time): (reports: seq<Stored>)
    requires first <= last + 1
    ensures |reports| == last + 1 - first
    ensures forall i :: 0 <= i < |reports| ==> reports[i] == Generated(read, first + i, now)
    decreases last + 1 - first
  {
    if first > last then [] else ReportsFor(read, first, last - 1, now) + [Generated(read, last, now)]
  }

  lemma ReportMonths(read: Inputs, first: int, last: int, now: Time)
    requires first <= last + 1
    ensures DistinctMonths(ReportsFor(read, first, last, now))
    ensures MonthsOf(ReportsFor(read, first, last, now)) == Months(first, last)
  {
    var reports := ReportsFor(read, first, last, now);
    forall m | m in Months(first, last) ensures m in MonthsOf(reports) { assert reports[m - first].month == m; }
  }

  ghost predicate Passes(rows: Inputs, e: Stored, last: int) {
    e.version == ENGINE_VERSION && UpToDate(rows, last, e.generated)
  }

  ghost predicate AllPass(rows: Inputs, stored: seq<Stored>, last: int) {
    forall i :: 0 <= i < |stored| ==> Passes(rows, stored[i], last)
  }

  ghost predicate AllRight(rows: Inputs, stored: seq<Stored>) {
    forall i :: 0 <= i < |stored| ==> stored[i].facts == Facts(rows, stored[i].month)
  }

  ghost predicate PassingAreRight(rows: Inputs, stored: seq<Stored>, last: int) {
    forall i :: 0 <= i < |stored| && Passes(rows, stored[i], last) ==> stored[i].facts == Facts(rows, stored[i].month)
  }

  predicate IsLastStored(stored: seq<Stored>, last: int) {
    last in MonthsOf(stored) && forall m :: m in MonthsOf(stored) ==> m <= last
  }

  /** Every stored report that the check would pass is right. */
  ghost predicate Truthful(rows: Inputs, stored: seq<Stored>) {
    DistinctMonths(stored) && forall last :: IsLastStored(stored, last) ==> PassingAreRight(rows, stored, last)
  }

  /** The stored months after the rest of a refresh that read the inputs `read`, possibly before
      other writes. With nothing to report on it returns at once, without pruning. */
  ghost function Refreshed(rows: Inputs, read: Inputs, stored: seq<Stored>, current: int, now: Time): seq<Stored> {
    match Range(read, current)
    case None => stored
    case Some((first, last)) =>
      if MonthsOf(stored) == Months(first, last) && AllPass(rows, stored, last) then stored
      else ReportsFor(read, first, last, now)
  }

  /** What a read should serve: exactly the engine's months, each computed from the rows. */
  ghost predicate Current(rows: Inputs, stored: seq<Stored>, current: int) {
    match Range(rows, current)
    case None => stored == []
    case Some((first, last)) =>
      MonthsOf(stored) == Months(first, last) && DistinctMonths(stored) && AllRight(rows, stored)
  }

  lemma LastOfMonths(stored: seq<Stored>, first: int, last: int)
    requires first <= last && MonthsOf(stored) == Months(first, last)
    ensures IsLastStored(stored, last)
  {
  }

  /** A refresh of a truthful cache serves the engine's months, all right, if and only if a live
      snapshot is left or nothing was stored. */
  lemma RefreshServesIff(rows: Inputs, stored: seq<Stored>, current: int, now: Time)
    requires Truthful(rows, stored)
    ensures Current(rows, Refreshed(rows, rows, stored, current, now), current) <==> HasSnapshot(rows) || stored == []
  {
    hide Facts, MonthsOf, Months, DistinctMonths, UpToDate, IsLastStored;
    match Range(rows, current)
    case None =>
    case Some((first, last)) =>
      ReportMonths(rows, first, last, now);
      if MonthsOf(stored) == Months(first, last) { LastOfMonths(stored, first, last); }
  }

  /** The cache matches the rows and no watched row is newer. */
  ghost predicate Settled(rows: Inputs, stored: seq<Stored>) {
    && DistinctMonths(stored) && AllRight(rows, stored)
    && forall last :: IsLastStored(stored, last) ==> AllPass(rows, stored, last)
  }

  predicate ChangesNothing(rows: Inputs, w: Write, stored: seq<Stored>) {
    forall i :: 0 <= i < |stored| ==> NewFact(w, stored[i].month) == FactOf(rows, w.id, stored[i].month)
  }

  /** From a settled cache, the next read after one write of any kind reflects it if and only if a
      live snapshot is left and the engine's months are others than those stored, or the write is
      dated where the watermark looks, or it changes nothing any stored month is computed from. */
  lemma ServedAfterWriteIff(rows: Inputs, stored: seq<Stored>, w: Write, current: int, now: Time)
    requires stored != [] && Settled(rows, stored) && forall i :: 0 <= i < |stored| ==> stored[i].generated < w.now
    ensures var end := Written(rows, w);
            Current(end, Refreshed(end, end, stored, current, now), current)
            <==> match Range(end, current)
                 case None => false
                 case Some((first, last)) =>
                   MonthsOf(stored) != Months(first, last) || Watched(w.when, last) || ChangesNothing(rows, w, stored)
  {
    hide Facts, MonthsOf, Months, DistinctMonths, UpToDate, IsLastStored, Written, ChangesNothing, Watched;
    var end := Written(rows, w);
    match Range(end, current)
    case None =>
    case Some((first, last)) =>
      ReportMonths(end, first, last, now);
      if MonthsOf(stored) == Months(first, last) {
        LastOfMonths(stored, first, last);
        WriteStays(rows, stored, w, last);
      }
  }

  /** So, whatever was stored before, with a live snapshot left the next read reflects every edit of
      a position or the household, every write to a snapshot of a month reported on, and every one
      to a row dated no later than the 1st of the last month. */
  lemma EditIsServed(rows: Inputs, stored: seq<Stored>, w: Write, current: int, now: Time)
    requires forall i :: 0 <= i < |stored| ==> stored[i].generated < w.now
    requires Range(Written(rows, w), current).Some?
    requires var last := Range(Written(rows, w), current).value.1;
             w.when.Timeless? || (w.when.Snapshot? && w.when.month <= last)
             || (w.when.On? && (w.when.month < last || (w.when.month == last && w.when.day <= 1)))
    ensures var end := Written(rows, w); Current(end, Refreshed(end, end, stored, current, now), current)
  {
    hide Facts, MonthsOf, Months, DistinctMonths, IsLastStored;
    var end := Written(rows, w);
    var (first, last) := Range(end, current).value;
    ReportMonths(end, first, last, now);
    assert w.id in end;
    if MonthsOf(stored) == Months(first, last) {
      LastOfMonths(stored, first, last);
      NotEmpty(stored, first, last);
      assert !Passes(end, stored[0], last);
    }
  }

  lemma NotEmpty(stored: seq<Stored>, first: int, last: int)
    requires first <= last && MonthsOf(stored) == Months(first, last)
    ensures stored != []
  {
    assert first in MonthsOf(stored);
  }

  /** A report written by another engine version is never served while there is anything to report
      on. */
  lemma OtherVersionRegenerates(rows: Inputs, read: Inputs, stored: seq<Stored>, i: int, current: int, now: Time)
    requires HasSnapshot(read) && 0 <= i < |stored| && stored[i].version != "current"
    ensures forall j :: 0 <= j < |Refreshed(rows, read, stored, current, now)| ==>
              Refreshed(rows, read, stored, current, now)[j].version == "current"
              && Refreshed(rows, read, stored, current, now)[j].generated == now
  {
  }

  /** With no write in between, a second read rewrites nothing. */
  lemma SecondReadKeeps(rows: Inputs, stored: seq<Stored>, current: int, now: Time, later: Time)
    requires AllBefore(rows, now)
    ensures var once := Refreshed(rows, rows, stored, current, now);
            Refreshed(rows, rows, once, current, later) == once
  {
    hide Facts, MonthsOf, Months, DistinctMonths;
    match Range(rows, current)
    case None =>
    case Some((first, last)) => ReportMonths(rows, first, last, now);
  }

  lemma WriteStays(rows: Inputs, stored: seq<Stored>, w: Write, last: int)
    requires stored != [] && AllRight(rows, stored) && AllPass(rows, stored, last)
    requires forall i :: 0 <= i < |stored| ==> stored[i].generated < w.now
    ensures AllPass(Written(rows, w), stored, last) <==> !Watched(w.when, last)
    ensures AllRight(Written(rows, w), stored) <==> ChangesNothing(rows, w, stored)
  {
    var end := Written(rows, w);
    assert w.id in end;
    if Watched(w.when, last) { assert !Passes(end, stored[0], last); }
    forall i | 0 <= i < |stored|
      ensures Facts(end, stored[i].month) == Facts(rows, stored[i].month)
              <==> NewFact(w, stored[i].month) == FactOf(rows, w.id, stored[i].month)
    {
      OneFactChanges(rows, w, stored[i].month);
    }
  }

  lemma OneFactChanges(rows: Inputs, w: Write, month: int)
    ensures Facts(Written(rows, w), month) == Facts(rows, month) <==> NewFact(w, month) == FactOf(rows, w.id, month)
  {
    var end := Written(rows, w);
    SameFacts(end, rows, month);
    assert FactOf(end, w.id, month) == NewFact(w, month);
    forall id | id != w.id ensures FactOf(end, id, month) == FactOf(rows, id, month) {}
  }

  /** A refresh that regenerates leaves a cache whose every report passes the check, so the cache
      stays truthful exactly if nothing the reports are computed from changed since it was read. */
  lemma RefreshTruthIff(rows: Inputs, read: Inputs, stored: seq<Stored>, current: int, now: Time)
    requires Truthful(rows, stored) && AllBefore(rows, now)
    ensures var end := Refreshed(rows, read, stored, current, now);
            Truthful(rows, end)
            <==> end == stored || forall i :: 0 <= i < |end| ==> Facts(read, end[i].month) == Facts(rows, end[i].month)
  {
    hide Facts, MonthsOf, Months, DistinctMonths, IsLastStored;
    match Range(read, current)
    case None =>
    case Some((first, last)) =>
      ReportMonths(read, first, last, now);
      LastOfMonths(ReportsFor(read, first, last, now), first, last);
  }

  // ----- Runs of writes and reads ------------------------------------------------------------

  datatype Event = Change(write: Write) | Read(current: int, now: Time)

  datatype Household = Household(rows: Inputs, stored: seq<Stored>)

  function TimeOf(e: Event): Time {
    if e.Change? then e.write.now else e.now
  }

  ghost function Next(h: Household, e: Event): Household {
    match e
    case Change(w) => h.(rows := Written(h.rows, w))
    case Read(current, now) => h.(stored := Refreshed(h.rows, h.rows, h.stored, current, now))
  }

  ghost function Ended(h: Household, events: seq<Event>): Household
    decreases |events|
  {
    if events == [] then h else Ended(Next(h, events[0]), events[1..])
  }

  /** Each event later than the one before, each write safe for the reports then stored. */
  ghost predicate SafeRun(h: Household, clock: Time, events: seq<Event>)
    decreases |events|
  {
    events != [] ==>
      && SafeEvent(h, clock, events[0])
      && SafeRun(Next(h, events[0]), TimeOf(events[0]), events[1..])
  }

  ghost predicate SafeEvent(h: Household, clock: Time, e: Event) {
    clock < TimeOf(e) && (e.Change? ==> SafeFor(h, e.write))
  }

  ghost predicate SafeFor(h: Household, w: Write) {
    forall last :: IsLastStored(h.stored, last) ==> SafeForAll(h, w, last)
  }

  predicate SafeForAll(h: Household, w: Write, last: int) {
    forall i :: 0 <= i < |h.stored| ==> Safe(h.rows, w, h.stored[i].month, last)
  }

  ghost predicate Coherent(h: Household, clock: Time) {
    && Truthful(h.rows, h.stored) && AllBefore(h.rows, clock)
    && forall i :: 0 <= i < |h.stored| ==> h.stored[i].generated <= clock
  }

  lemma ChangeKeeps(h: Household, w: Write, clock: Time)
    requires Coherent(h, clock) && clock < w.now && SafeFor(h, w)
    ensures Coherent(Next(h, Change(w)), w.now)
  {
    var end := Written(h.rows, w);
    forall last | IsLastStored(h.stored, last) ensures PassingAreRight(end, h.stored, last) {
      forall i | 0 <= i < |h.stored| && Passes(end, h.stored[i], last)
        ensures h.stored[i].facts == Facts(end, h.stored[i].month)
      {
        SafeWriteKeeps(h.rows, w, h.stored[i].generated, h.stored[i].month, last);
      }
    }
  }

  lemma ReadKeeps(h: Household, current: int, clock: Time, now: Time)
    requires Coherent(h, clock) && clock < now
    ensures Coherent(Next(h, Read(current, now)), now)
  {
    RefreshTruthIff(h.rows, h.rows, h.stored, current, now);
  }

  /** After any run of safe writes and reads, the next read serves the engine's months, all right,
      if and only if a live snapshot is left or nothing was ever stored. */
  lemma {:induction false} SafeRunServesIff(h: Household, clock: Time, events: seq<Event>, current: int, now: Time)
    requires Coherent(h, clock) && SafeRun(h, clock, events)
    ensures var end := Ended(h, events);
            Current(end.rows, Next(end, Read(current, now)).stored, current)
            <==> HasSnapshot(end.rows) || end.stored == []
    decreases |events|
  {
    hide Truthful, Current, Refreshed, Safe;
    if events == [] {
      RefreshServesIff(h.rows, h.stored, current, now);
    } else {
      match events[0] {
        case Change(w) => ChangeKeeps(h, w, clock);
        case Read(c, t) => ReadKeeps(h, c, clock, t);
      }
      SafeRunServesIff(Next(h, events[0]), TimeOf(events[0]), events[1..], current, now);
    }
  }

  lemma Unrolled(h: Household, clock: Time, e: Event, rest: seq<Event>)
    ensures Ended(h, [e] + rest) == Ended(Next(h, e), rest)
    ensures SafeRun(h, clock, [e] + rest) <==> SafeEvent(h, clock, e) && SafeRun(Next(h, e), TimeOf(e), rest)
  {
    assert ([e] + rest)[1..] == rest;
  }

  const CREATED := Write(1, Snapshot(0), true, "100", 1)
  const DELETED := Write(1, Snapshot(0), false, "100", 3)

  /** A household with one asset and one snapshot of it. */
  const ONE_SNAPSHOT: Inputs := Written(map[], CREATED)

  lemma FirstRead(now: Time)
    ensures Refreshed(ONE_SNAPSHOT, ONE_SNAPSHOT, [], 0, now) == [Generated(ONE_SNAPSHOT, 0, now)]
  {
    var rows := ONE_SNAPSHOT;
    assert SnapshotIn(rows, rows.Keys, 0) by { assert IsLiveSnapshot(rows, 1); }
    assert IsRange(rows, rows.Keys, 0, 0, 0);
    assert MonthsOf([]) == {} && 0 in Months(0, 0);
  }

  lemma DeletedShows(end: Inputs, stored: seq<Stored>)
    requires end == Written(ONE_SNAPSHOT, DELETED) && stored == [Generated(ONE_SNAPSHOT, 0, 2)]
    ensures Refreshed(end, end, stored, 0, 4) == stored && !AllRight(end, stored) && !Current(end, stored, 0)
  {
    assert !HasSnapshot(end);
    assert 1 in Facts(ONE_SNAPSHOT, 0) && 1 !in Facts(end, 0);
    assert stored[0].facts != Facts(end, stored[0].month);
  }

  /** Record the snapshot, read, delete it, read again. The deletion is dated where the watermark
      looks, yet the old net worth is served. */
  lemma LastSnapshotDeleted()
    ensures var h, events := Household(map[], []), [Change(CREATED), Read(0, 2), Change(DELETED), Read(0, 4)];
            var end := Ended(h, events);
            && SafeRun(h, 0, events) && Watched(DELETED.when, 0)
            && |end.stored| == 1 && !AllRight(end.rows, end.stored) && !Current(end.rows, end.stored, 0)
  {
    hide Facts, Refreshed, Range, Ended, SafeRun;
    var h0 := Household(map[], []);
    var h1 := Next(h0, Change(CREATED));
    var h2 := Next(h1, Read(0, 2));
    var h3 := Next(h2, Change(DELETED));
    FirstRead(2);
    DeletedShows(h3.rows, h2.stored);
    var last := [Read(0, 4)] + [];
    var third := [Change(DELETED)] + last;
    var second := [Read(0, 2)] + third;
    assert [Change(CREATED), Read(0, 2), Change(DELETED), Read(0, 4)] == [Change(CREATED)] + second;
    Unrolled(h0, 0, Change(CREATED), second);
    Unrolled(h1, 1, Read(0, 2), third);
    Unrolled(h2, 2, Change(DELETED), last);
    Unrolled(h3, 3, Read(0, 4), []);
    NoMoreEvents(h3, 4);
  }

  lemma NoMoreEvents(h: Household, clock: Time)
    ensures Ended(h, []) == h && SafeRun(h, clock, [])
  {
  }

  class Cache {
    var rows: Inputs
    var stored: seq<Stored>

    constructor ()
      ensures rows == map[] && stored == []
    {
      rows, stored := map[], [];
    }

    /** A stamped mutation; safe ones keep the cache truthful. */
    method Mutate(w: Write, ghost clock: Time)
      requires Coherent(Household(rows, stored), clock) && clock < w.now
      modifies this`rows
      ensures rows == Written(old(rows), w)
      ensures SafeFor(Household(old(rows), stored), w) ==> Coherent(Household(rows, stored), w.now)
    {
      if SafeFor(Household(rows, stored), w) { ChangeKeeps(Household(rows, stored), w, clock); }
      rows := rows[w.id := Input(w.when, w.now, w.live, w.content)];
    }

    method WriteReports(read: Inputs, first: int, last: int, now: Time)
      requires first <= last
      modifies this`stored
      ensures stored == ReportsFor(read, first, last, now)
      ensures DistinctMonths(stored) && MonthsOf(stored) == Months(first, last)
    {
      var reports := [];
      for m := first to last + 1
        invariant reports == ReportsFor(read, first, m - 1, now)
      {
        reports := reports + [Generated(read, m, now)];
      }
      ReportMonths(read, first, last, now);
      stored := reports;
    }

    /** The rest of a refresh that read the inputs `read`, possibly before other writes. It
        rewrites nothing if and only if there is nothing to report on, or exactly the engine's
        months are stored and every one of them passes the check. */
    method Refresh(read: Inputs, current: int, now: Time) returns (regen: bool)
      requires DistinctMonths(stored)
      requires forall id :: id in rows ==> 0 <= rows[id].stamp
      requires forall i :: 0 <= i < |stored| ==> 0 <= stored[i].generated
      modifies this`stored
      ensures stored == Refreshed(rows, read, old(stored), current, now) && DistinctMonths(stored)
      ensures regen ==> HasSnapshot(read) && forall i :: 0 <= i < |stored| ==>
                          && stored[i].facts == Facts(read, stored[i].month) && stored[i].generated == now
                          && stored[i].version == "current"
      ensures !regen <==> match Range(read, current)
                          case None => true
                          case Some((first, last)) =>
                            MonthsOf(old(stored)) == Months(first, last) && AllPass(rows, old(stored), last)
      ensures !regen && HasSnapshot(read) && Truthful(rows, old(stored)) ==> AllRight(rows, stored)
    {
      hide Facts, Months;
      var range := EngineRange(read, current);
      if range.None? { return false; }
      var (first, last) := range.value;
      var watermark := MaxInputStamp(rows, last);
      regen := NeedsRegen(first, last, stored, watermark);
      forall i | 0 <= i < |stored|
        ensures stored[i].generated >= watermark <==> UpToDate(rows, last, stored[i].generated) {}
      if regen {
        WriteReports(read, first, last, now);
      } else {
        LastOfMonths(stored, first, last);
      }
    }
  }
}
