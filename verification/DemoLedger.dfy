/** The demo household's cash: the reconciling checking account and the market positions.
    Amounts are reals; a stored snapshot is rounded to two decimals. */
module DemoLedger {

  // ----- Rounding and sums --------------------------------------------------------

  /** Two decimals, halves away from zero. */
  function Round2(x: real): real {
    if x >= 0.0 then (x * 100.0 + 0.5).Floor as real / 100.0 else -((-x * 100.0 + 0.5).Floor as real / 100.0)
  }

  function Cents(n: int): real {
    n as real / 100.0
  }

  ghost predicate InCents(x: real) {
    exists n: int :: x == Cents(n)
  }

  lemma Round2Near(x: real)
    ensures -0.005 <= Round2(x) - x <= 0.005
    ensures Round2(-x) == -Round2(x)
  {
  }

  /** The nearest whole cent, the larger one when two are equally near; negatives mirror. */
  lemma Round2Means(x: real)
    requires x >= 0.0
    ensures InCents(Round2(x)) && x - 0.005 < Round2(x) <= x + 0.005
    ensures InCents(Round2(-x)) && Round2(-x) == -Round2(x)
  {
    var n := (x * 100.0 + 0.5).Floor;
    assert Round2(x) == Cents(n) && Round2(-x) == Cents(-n);
  }

  /** Rounding leaves exactly the amounts of whole cents alone. */
  lemma Round2Exact(x: real)
    ensures InCents(x) <==> Round2(x) == x
  {
    if InCents(x) {
      var n: int :| x == Cents(n);
      var m: int := if n >= 0 then n else -n;
      assert Cents(m) * 100.0 + 0.5 == m as real + 0.5;
      assert (m as real + 0.5).Floor == m;
    }
    if Round2(x) == x {
      var m := if x >= 0.0 then (x * 100.0 + 0.5).Floor else -(-x * 100.0 + 0.5).Floor;
      assert x == Cents(m);
    }
  }

  lemma CentsAdd(x: real, y: real)
    requires InCents(x) && InCents(y)
    ensures InCents(x + y)
  {
    var n: int :| x == Cents(n);
    var m: int :| y == Cents(m);
    assert x + y == Cents(n + m);
  }

  function Sum<T>(s: seq<T>, f: T -> real): real {
    if s == [] then 0.0 else Sum(s[..|s| - 1], f) + f(s[|s| - 1])
  }

  lemma SumAppend<T>(s: seq<T>, x: T, f: T -> real)
    ensures Sum(s + [x], f) == Sum(s, f) + f(x)
  {
  }

  lemma SumLast<T>(s: seq<T>, f: T -> real)
    requires s != []
    ensures Sum(s, f) == Sum(s[..|s| - 1], f) + f(s[|s| - 1])
  {
  }

  /** The sum of f over the months a < i <= b. */
  function Over(f: int -> real, a: int, b: int): real
    requires a <= b
    decreases b - a
  {
    if a == b then 0.0 else Over(f, a, b - 1) + f(b)
  }

  /** Month-on-month changes add up to the change over the window. */
  lemma {:induction false} Telescope(change: int -> real, level: int -> real, a: int, b: int)
    requires a <= b && forall i :: a < i <= b ==> change(i) == level(i) - level(i - 1)
    ensures Over(change, a, b) == level(b) - level(a)
    decreases b - a
  {
    if a == b {
    } else {
      Telescope(change, level, a, b - 1);
    }
  }

  // ----- What was recorded ----------------------------------------------------------

  datatype Bucket = Savings | Receivable | Liability

  datatype Entry =
    | Earned(month: int, amount: real)
    | Invested(month: int, amount: real)
    | Tracked(bucket: Bucket, series: seq<real>)

  /** The value a snapshot trail shows in month i: its last one carries forward. */
  function ValueAt(series: seq<real>, i: int): real {
    if series == [] || i < 0 then 0.0 else if i < |series| then series[i] else series[|series| - 1]
  }

  function DeltaAt(series: seq<real>, i: int): real {
    if 1 <= i < |series| then series[i] - series[i - 1] else 0.0
  }

  function EarnedIn(i: int): Entry -> real {
    (e: Entry) => if e.Earned? && e.month == i then e.amount else 0.0
  }

  function InvestedIn(i: int): Entry -> real {
    (e: Entry) => if e.Invested? && e.month == i then e.amount else 0.0
  }

  function ChangeIn(b: Bucket, i: int): Entry -> real {
    (e: Entry) => if e.Tracked? && e.bucket == b then DeltaAt(e.series, i) else 0.0
  }

  function HeldIn(b: Bucket, i: int): Entry -> real {
    (e: Entry) => if e.Tracked? && e.bucket == b then ValueAt(e.series, i) else 0.0
  }

  function StoredIn(b: Bucket, i: int): Entry -> real {
    (e: Entry) => if e.Tracked? && e.bucket == b then Round2(ValueAt(e.series, i)) else 0.0
  }

  /** Adds the series' month-on-month changes to a bucket. */
  method RecordSeriesDelta(dst: array<real>, series: seq<real>)
    requires |series| <= dst.Length
    modifies dst
    ensures forall i :: 0 <= i < dst.Length ==> dst[i] == old(dst[i]) + DeltaAt(series, i)
  {
    var i := 1;
    while i < |series|
      invariant 1 <= i && (i <= |series| || |series| < 1)
      invariant forall j :: 0 <= j < dst.Length ==> dst[j] == old(dst[j]) + if j < i then DeltaAt(series, j) else 0.0
    {
      dst[i] := dst[i] + (series[i] - series[i - 1]);
      i := i + 1;
    }
  }

  const OPENING := 12000000.0

  function Held(es: seq<Entry>, b: Bucket, i: int): real {
    Sum(es, HeldIn(b, i))
  }

  function Stored(es: seq<Entry>, b: Bucket, i: int): real {
    Sum(es, StoredIn(b, i))
  }

  /** The bank is the checking account and the tracked savings. */
  function Bank(es: seq<Entry>, checking: seq<real>, i: int): real {
    ValueAt(checking, i) + Held(es, Savings, i)
  }

  function StoredBank(es: seq<Entry>, checking: seq<real>, i: int): real {
    Round2(ValueAt(checking, i)) + Stored(es, Savings, i)
  }

  /** The engine's derived living expenses for month i:
      income - change in bank - change in receivables + change in liabilities - net investment. */
  function Derived(es: seq<Entry>, checking: seq<real>, i: int): real {
    Sum(es, EarnedIn(i)) - (Bank(es, checking, i) - Bank(es, checking, i - 1))
    - (Held(es, Receivable, i) - Held(es, Receivable, i - 1)) + (Held(es, Liability, i) - Held(es, Liability, i - 1))
    - Sum(es, InvestedIn(i))
  }

  /** The same from the stored, rounded snapshots. */
  function DerivedFromStored(es: seq<Entry>, checking: seq<real>, i: int): real {
    Sum(es, EarnedIn(i)) - (StoredBank(es, checking, i) - StoredBank(es, checking, i - 1))
    - (Stored(es, Receivable, i) - Stored(es, Receivable, i - 1))
      + (Stored(es, Liability, i) - Stored(es, Liability, i - 1))
    - Sum(es, InvestedIn(i))
  }

  /** The checking account reconciles: it opens at the opening balance, and every later month's
      derived expenses are the chosen ones. */
  ghost predicate Reconciles(checking: seq<real>, es: seq<Entry>, expenses: seq<real>) {
    && |checking| == |expenses| && (|checking| > 0 ==> checking[0] == OPENING)
    && forall i :: 1 <= i < |checking| ==> Derived(es, checking, i) == expenses[i]
  }

  lemma ChangeIsDifference(es: seq<Entry>, b: Bucket, i: int)
    requires i >= 1
    ensures Sum(es, ChangeIn(b, i)) == Sum(es, HeldIn(b, i)) - Sum(es, HeldIn(b, i - 1))
  {
  }

  class CashLedger {
    const income: array<real>
    const investNetIn: array<real>
    const savingsDelta: array<real>
    const recvDelta: array<real>
    const liabDelta: array<real>
    const expenses: array<real>
    ghost var entries: seq<Entry>

    ghost predicate Shaped() {
      && income.Length == investNetIn.Length == savingsDelta.Length == recvDelta.Length == liabDelta.Length
        == expenses.Length
      && income != investNetIn && income != savingsDelta && income != recvDelta && income != liabDelta
        && income != expenses
      && investNetIn != savingsDelta && investNetIn != recvDelta && investNetIn != liabDelta && investNetIn != expenses
      && savingsDelta != recvDelta && savingsDelta != liabDelta && savingsDelta != expenses
      && recvDelta != liabDelta && recvDelta != expenses && liabDelta != expenses
    }

    /** Every cell holds what the entries recorded so far add up to. */
    ghost predicate Valid()
      reads this, income, investNetIn, savingsDelta, recvDelta, liabDelta
    {
      Shaped() && forall i :: 0 <= i < expenses.Length ==>
        && income[i] == Sum(entries, EarnedIn(i)) && investNetIn[i] == Sum(entries, InvestedIn(i))
        && (1 <= i ==> savingsDelta[i] == Sum(entries, ChangeIn(Savings, i)))
        && (1 <= i ==> recvDelta[i] == Sum(entries, ChangeIn(Receivable, i)))
        && (1 <= i ==> liabDelta[i] == Sum(entries, ChangeIn(Liability, i)))
    }

    constructor (chosen: array<real>)
      ensures Valid() && expenses == chosen && entries == []
      ensures fresh(income) && fresh(investNetIn) && fresh(savingsDelta) && fresh(recvDelta) && fresh(liabDelta)
    {
      var n := chosen.Length;
      income := new real[n](_ => 0.0);
      investNetIn := new real[n](_ => 0.0);
      savingsDelta := new real[n](_ => 0.0);
      recvDelta := new real[n](_ => 0.0);
      liabDelta := new real[n](_ => 0.0);
      expenses := chosen;
      entries := [];
    }

    ghost method Append(e: Entry)
      modifies this
      ensures entries == old(entries) + [e]
      ensures forall f: Entry -> real :: Sum(entries, f) == Sum(old(entries), f) + f(e)
    {
      forall f: Entry -> real ensures Sum(entries + [e], f) == Sum(entries, f) + f(e) { SumAppend(entries, e, f); }
      entries := entries + [e];
    }

    method AddIncome(month: int, amount: real)
      requires Valid() && 0 <= month < income.Length
      modifies this, income
      ensures Valid() && entries == old(entries) + [Earned(month, amount)]
      ensures forall i :: 0 <= i < income.Length ==>
                income[i] == old(income[i]) + if i == month then amount else 0.0
    {
      income[month] := income[month] + amount;
      Append(Earned(month, amount));
    }

    method AddInvest(month: int, cashIn: real)
      requires Valid() && 0 <= month < investNetIn.Length
      modifies this, investNetIn
      ensures Valid() && entries == old(entries) + [Invested(month, cashIn)]
      ensures forall i :: 0 <= i < investNetIn.Length ==>
                investNetIn[i] == old(investNetIn[i]) + if i == month then cashIn else 0.0
    {
      investNetIn[month] := investNetIn[month] + cashIn;
      Append(Invested(month, cashIn));
    }

    method Track(bucket: Bucket, series: seq<real>)
      requires Valid() && |series| <= expenses.Length
      modifies this, savingsDelta, recvDelta, liabDelta
      ensures Valid() && entries == old(entries) + [Tracked(bucket, series)]
    {
      match bucket {
        case Savings => RecordSeriesDelta(savingsDelta, series);
        case Receivable => RecordSeriesDelta(recvDelta, series);
        case Liability => RecordSeriesDelta(liabDelta, series);
      }
      Append(Tracked(bucket, series));
    }

    /** The recorded flows, however many, make the identity close in every month. */
    method CheckingSeries() returns (c: array<real>)
      requires Valid() && expenses.Length > 0
      ensures fresh(c) && Reconciles(c[..], entries, expenses[..])
      ensures c.Length == expenses.Length && c[0] == 12_000_000.0
      ensures forall i :: 1 <= i < c.Length ==>
        c[i] == c[i - 1] + income[i] - savingsDelta[i] - recvDelta[i] + liabDelta[i] - investNetIn[i] - expenses[i]
    {
      var n := expenses.Length;
      c := new real[n];
      c[0] := OPENING;
      var i := 1;
      while i < n
        invariant 1 <= i <= n && c[0] == OPENING
        invariant forall j :: 1 <= j < i ==>
          c[j] == c[j - 1] + income[j] - savingsDelta[j] - recvDelta[j] + liabDelta[j] - investNetIn[j] - expenses[j]
      {
        c[i] := c[i - 1] + income[i] - savingsDelta[i] - recvDelta[i] + liabDelta[i] - investNetIn[i] - expenses[i];
        i := i + 1;
      }
      forall j | 1 <= j < n ensures Derived(entries, c[..], j) == expenses[..][j] {
        ChangeIsDifference(entries, Savings, j);
        ChangeIsDifference(entries, Receivable, j);
        ChangeIsDifference(entries, Liability, j);
      }
    }
  }

  // ----- What reconciling means --------------------------------------------------------

  /** What the household holds: cash, savings and money lent, less what it owes. */
  function Worth(es: seq<Entry>, checking: seq<real>, i: int): real {
    Bank(es, checking, i) + Held(es, Receivable, i) - Held(es, Liability, i)
  }

  function StoredWorth(es: seq<Entry>, checking: seq<real>, i: int): real {
    StoredBank(es, checking, i) + Stored(es, Receivable, i) - Stored(es, Liability, i)
  }

  /** Income less investment less spending. */
  function NetFlow(es: seq<Entry>, expenses: seq<real>): int -> real {
    (i: int) => Sum(es, EarnedIn(i)) - Sum(es, InvestedIn(i)) - ValueAt(expenses, i)
  }

  /** Nothing is lost: what the household holds in cash, savings and loans changes over any
      window by exactly its income less its investments less its chosen expenses, and this holds
      of no other checking series with that opening balance. */
  lemma ConservedIffReconciles(checking: seq<real>, es: seq<Entry>, expenses: seq<real>)
    requires |checking| == |expenses| > 0
    ensures Reconciles(checking, es, expenses) <==>
              checking[0] == OPENING
              && forall b :: 0 <= b < |checking| ==>
                Worth(es, checking, b) == Worth(es, checking, 0) + Over(NetFlow(es, expenses), 0, b)
  {
    if Reconciles(checking, es, expenses) {
      forall b | 0 <= b < |checking|
        ensures Worth(es, checking, b) == Worth(es, checking, 0) + Over(NetFlow(es, expenses), 0, b)
      {
        forall i | 0 < i <= b ensures NetFlow(es, expenses)(i) == Worth(es, checking, i) - Worth(es, checking, i - 1) {
          assert Derived(es, checking, i) == expenses[i];
        }
        Telescope(NetFlow(es, expenses), (i: int) => Worth(es, checking, i), 0, b);
      }
    }
    if checking[0] == OPENING
       && (forall b :: 0 <= b < |checking| ==>
             Worth(es, checking, b) == Worth(es, checking, 0) + Over(NetFlow(es, expenses), 0, b))
    {
      forall i | 1 <= i < |checking| ensures Derived(es, checking, i) == expenses[i] {
        assert Over(NetFlow(es, expenses), 0, i) == Over(NetFlow(es, expenses), 0, i - 1) + NetFlow(es, expenses)(i);
      }
    }
  }

  function IsTracked(): Entry -> real {
    (e: Entry) => if e.Tracked? then 1.0 else 0.0
  }

  /** Each tracked trail is stored with at most half a cent of rounding. */
  lemma {:induction false} StoredNear(es: seq<Entry>, i: int)
    ensures var error := Stored(es, Savings, i) + Stored(es, Receivable, i) - Stored(es, Liability, i)
                         - (Held(es, Savings, i) + Held(es, Receivable, i) - Held(es, Liability, i));
            -0.005 * Sum(es, IsTracked()) <= error <= 0.005 * Sum(es, IsTracked())
  {
    if es == [] {
    } else {
      StoredNear(es[..|es| - 1], i);
      var e := es[|es| - 1];
      if e.Tracked? { Round2Near(ValueAt(e.series, i)); }
    }
  }

  function Misstated(es: seq<Entry>, checking: seq<real>, expenses: seq<real>): int -> real {
    (i: int) => DerivedFromStored(es, checking, i) - ValueAt(expenses, i)
  }

  function Rounding(es: seq<Entry>, checking: seq<real>): int -> real {
    (i: int) => Worth(es, checking, i) - StoredWorth(es, checking, i)
  }

  lemma MisstatedIsRounding(es: seq<Entry>, checking: seq<real>, i: int)
    ensures DerivedFromStored(es, checking, i) - Derived(es, checking, i)
            == Rounding(es, checking)(i) - Rounding(es, checking)(i - 1)
  {
  }

  /** What the engine derives from the stored, rounded snapshots misses the chosen expenses by at
      most a cent per trail, over any window: rounding never accumulates from month to month. */
  lemma StoredIdentity(checking: seq<real>, es: seq<Entry>, expenses: seq<real>, a: int, b: int)
    requires Reconciles(checking, es, expenses) && 0 <= a <= b < |checking|
    ensures var bound := 0.01 * (1.0 + Sum(es, IsTracked()));
            -bound <= Over(Misstated(es, checking, expenses), a, b) <= bound
  {
    hide Round2;
    forall i | a < i <= b
      ensures Misstated(es, checking, expenses)(i) == Rounding(es, checking)(i) - Rounding(es, checking)(i - 1)
    {
      assert Derived(es, checking, i) == expenses[i];
      MisstatedIsRounding(es, checking, i);
    }
    Telescope(Misstated(es, checking, expenses), Rounding(es, checking), a, b);
    StoredNear(es, a);
    StoredNear(es, b);
    Round2Near(checking[a]);
    Round2Near(checking[b]);
  }

  // ----- Market positions -----------------------------------------------------------------

  /** A buy (positive quantity) or a sell in a month. */
  datatype Trade = Trade(month: int, quantity: real)

  datatype Snapshot = Snapshot(quantity: real, price: real, amount: real)

  function TradedBy(i: int): Trade -> real {
    (t: Trade) => if t.month <= i then t.quantity else 0.0
  }

  /** The rounded quantities the month's ledger entries carry. */
  function LedgerIn(i: int): Trade -> real {
    (t: Trade) => if t.month == i then Round2(t.quantity) else 0.0
  }

  method CumulativeQty(trades: seq<Trade>, upto: int) returns (q: real)
    ensures q == Sum(trades, TradedBy(upto))
  {
    q := 0.0;
    for k := 0 to |trades|
      invariant q == Sum(trades[..k], TradedBy(upto))
    {
      assert trades[..k + 1] == trades[..k] + [trades[k]];
      SumAppend(trades[..k], trades[k], TradedBy(upto));
      if trades[k].month <= upto { q := q + trades[k].quantity; }
    }
    assert trades[..|trades|] == trades;
  }

  function PriceAt(prices: seq<real>, i: int): real {
    Round2(ValueAt(prices, i))
  }

  function QuantityAt(trades: seq<Trade>, i: int): real {
    Round2(Sum(trades, TradedBy(i)))
  }

  function SnapshotAmount(trades: seq<Trade>, prices: seq<real>): int -> real {
    (i: int) => QuantityAt(trades, i) * PriceAt(prices, i)
  }

  method SeedMarketSnapshots(trades: seq<Trade>, prices: seq<real>) returns (trail: seq<Snapshot>)
    ensures |trail| == |prices|
    ensures forall i :: 0 <= i < |prices| ==>
              trail[i] == Snapshot(QuantityAt(trades, i), PriceAt(prices, i), SnapshotAmount(trades, prices)(i))
    ensures forall i :: 0 <= i < |prices| ==>
              && trail[i].quantity == Round2(Sum(trades, TradedBy(i))) && trail[i].price == Round2(prices[i])
              && trail[i].amount == trail[i].quantity * trail[i].price
  {
    hide Round2, Sum;
    trail := [];
    for i := 0 to |prices|
      invariant |trail| == i
      invariant forall j :: 0 <= j < i ==>
                trail[j] == Snapshot(QuantityAt(trades, j), PriceAt(prices, j), SnapshotAmount(trades, prices)(j))
    {
      var price := Round2(prices[i]);
      var q := CumulativeQty(trades, i);
      trail := trail + [Snapshot(Round2(q), price, Round2(q) * price)];
    }
  }

  /** What the trades of month i put into the position, as recorded in the cash ledger. */
  function CashInto(trades: seq<Trade>, prices: seq<real>): int -> real {
    (i: int) => Sum(TradeEntries(trades, prices), InvestedIn(i))
  }

  /** What a trade puts into the position: negative for a sell. */
  function CashOf(t: Trade, prices: seq<real>): real {
    Round2(t.quantity) * PriceAt(prices, t.month)
  }

  function TradeEntries(trades: seq<Trade>, prices: seq<real>): seq<Entry> {
    if trades == [] then []
    else
      var t := trades[|trades| - 1];
      TradeEntries(trades[..|trades| - 1], prices) + [Invested(t.month, CashOf(t, prices))]
  }

  lemma TradeEntriesAppend(trades: seq<Trade>, t: Trade, prices: seq<real>)
    ensures TradeEntries(trades + [t], prices)
            == TradeEntries(trades, prices) + [Invested(t.month, CashOf(t, prices))]
  {
  }

  /** Records each trade, a sell as a negated positive quantity. */
  method SeedTrades(trades: seq<Trade>, prices: seq<real>, ledger: CashLedger)
    requires ledger.Valid() && |prices| == ledger.expenses.Length
    requires forall t :: t in trades ==> 0 <= t.month < |prices|
    modifies ledger, ledger.investNetIn
    ensures ledger.Valid() && ledger.entries == old(ledger.entries) + TradeEntries(trades, prices)
  {
    hide Round2, Sum, CashOf;
    for k := 0 to |trades|
      invariant ledger.Valid() && ledger.entries == old(ledger.entries) + TradeEntries(trades[..k], prices)
    {
      var t := trades[k];
      assert t in trades;
      var cashIn := TradeCash(t, prices);
      assert trades[..k + 1] == trades[..k] + [t];
      TradeEntriesAppend(trades[..k], t, prices);
      ledger.AddInvest(t.month, cashIn);
    }
    assert trades[..|trades|] == trades;
  }

  method TradeCash(t: Trade, prices: seq<real>) returns (cashIn: real)
    requires 0 <= t.month < |prices|
    ensures cashIn == CashOf(t, prices)
    ensures t.quantity >= 0.0 ==> cashIn == Round2(t.quantity) * Round2(prices[t.month])
    ensures t.quantity < 0.0 ==> cashIn == -(Round2(-t.quantity) * Round2(prices[t.month]))
  {
    var quantity := if t.quantity < 0.0 then -t.quantity else t.quantity;
    var amount := Round2(quantity) * Round2(prices[t.month]);
    SignedCash(t, prices);
    cashIn := if t.quantity < 0.0 then -amount else amount;
  }

  /** A sell is booked as a negated positive amount. */
  lemma SignedCash(t: Trade, prices: seq<real>)
    ensures -(Round2(-t.quantity) * PriceAt(prices, t.month)) == CashOf(t, prices)
  {
  }

  lemma ReturnAlgebra(q0: real, q1: real, n: real, p0: real, p1: real)
    ensures (q1 * p1 - q0 * p0 - n * p1) - q0 * (p1 - p0) == (q1 - q0 - n) * p1
    ensures (q1 - q0 - n) * p1 == 0.0 <==> q1 - q0 - n == 0.0 || p1 == 0.0
  {
  }

  lemma {:induction false} CashIsQuantityTimesPrice(trades: seq<Trade>, prices: seq<real>, i: int)
    ensures CashInto(trades, prices)(i) == Sum(trades, LedgerIn(i)) * PriceAt(prices, i)
  {
    hide *;
    if trades == [] {
      NoTrades(prices, i);
    } else {
      var first, t := trades[..|trades| - 1], trades[|trades| - 1];
      CashIsQuantityTimesPrice(first, prices, i);
      OneMoreTrade(trades, prices, i);
      SumLast(trades, LedgerIn(i));
      CashOfMonth(t, prices, i, Sum(first, LedgerIn(i)));
    }
  }

  lemma NoTrades(prices: seq<real>, i: int)
    ensures CashInto([], prices)(i) == 0.0 && Sum([], LedgerIn(i)) == 0.0
  {
  }

  lemma OneMoreTrade(trades: seq<Trade>, prices: seq<real>, i: int)
    requires trades != []
    ensures var first, t := trades[..|trades| - 1], trades[|trades| - 1];
            CashInto(trades, prices)(i)
            == CashInto(first, prices)(i) + InvestedIn(i)(Invested(t.month, CashOf(t, prices)))
  {
    hide CashOf, Sum, InvestedIn;
    var first, t := trades[..|trades| - 1], trades[|trades| - 1];
    SumAppend(TradeEntries(first, prices), Invested(t.month, CashOf(t, prices)), InvestedIn(i));
  }

  lemma CashOfMonth(t: Trade, prices: seq<real>, i: int, before: real)
    ensures before * PriceAt(prices, i) + InvestedIn(i)(Invested(t.month, CashOf(t, prices)))
            == (before + LedgerIn(i)(t)) * PriceAt(prices, i)
  {
  }

  /** How far the month's change in snapshot quantity is from the quantity its ledger entries carry. */
  function Drift(trades: seq<Trade>, i: int): real {
    QuantityAt(trades, i) - QuantityAt(trades, i - 1) - Sum(trades, LedgerIn(i))
  }

  /** The engine's return for month i. */
  function Return(trades: seq<Trade>, prices: seq<real>): int -> real {
    (i: int) => SnapshotAmount(trades, prices)(i) - SnapshotAmount(trades, prices)(i - 1) - CashInto(trades, prices)(i)
  }

  /** Price appreciation on the lot already held. */
  function Appreciation(trades: seq<Trade>, prices: seq<real>): int -> real {
    (i: int) => QuantityAt(trades, i - 1) * (PriceAt(prices, i) - PriceAt(prices, i - 1))
  }

  /** A month's return is pure appreciation if and only if the stored quantity moved by exactly
      what the ledger recorded, or the price rounds to nothing. */
  lemma ReturnIsAppreciation(trades: seq<Trade>, prices: seq<real>, i: int)
    ensures Return(trades, prices)(i) == Appreciation(trades, prices)(i)
            <==> Drift(trades, i) == 0.0 || PriceAt(prices, i) == 0.0
  {
    hide PriceAt, QuantityAt, CashInto, Sum;
    CashIsQuantityTimesPrice(trades, prices, i);
    ReturnAlgebra(QuantityAt(trades, i - 1), QuantityAt(trades, i), Sum(trades, LedgerIn(i)), PriceAt(prices, i - 1),
      PriceAt(prices, i));
  }

  lemma {:induction false} CentsNeverDrift(trades: seq<Trade>, i: int)
    requires forall t :: t in trades ==> InCents(t.quantity)
    ensures Sum(trades, TradedBy(i)) - Sum(trades, TradedBy(i - 1)) == Sum(trades, LedgerIn(i))
    ensures InCents(Sum(trades, TradedBy(i)))
  {
    if trades == [] {
      assert 0.0 == Cents(0);
    } else {
      var t := trades[|trades| - 1];
      CentsNeverDrift(trades[..|trades| - 1], i);
      assert t in trades;
      Round2Exact(t.quantity);
      CentsAdd(Sum(trades[..|trades| - 1], TradedBy(i)), t.quantity);
    }
  }

  lemma CentsHaveNoDrift(trades: seq<Trade>, i: int)
    requires forall t :: t in trades ==> InCents(t.quantity)
    ensures Drift(trades, i) == 0.0
  {
    hide Round2, Sum;
    CentsNeverDrift(trades, i);
    CentsNeverDrift(trades, i - 1);
    Round2Exact(Sum(trades, TradedBy(i)));
    Round2Exact(Sum(trades, TradedBy(i - 1)));
  }

  lemma CentsMonth(trades: seq<Trade>, prices: seq<real>, i: int)
    requires forall t :: t in trades ==> InCents(t.quantity)
    ensures Return(trades, prices)(i) == Appreciation(trades, prices)(i)
    ensures Return(trades, prices)(i)
            == SnapshotAmount(trades, prices)(i) - SnapshotAmount(trades, prices)(i - 1) - CashInto(trades, prices)(i)
  {
    hide Drift, Appreciation, CashInto, SnapshotAmount, InCents;
    CentsHaveNoDrift(trades, i);
    ReturnIsAppreciation(trades, prices, i);
  }

  /** With quantities of at most two decimals every month's return is appreciation, and over any
      window these add up to final value less opening value less net cash in. */
  lemma MarketIdentity(trades: seq<Trade>, prices: seq<real>, a: int, b: int)
    requires a <= b && forall t :: t in trades ==> InCents(t.quantity)
    ensures forall i :: a < i <= b ==> Return(trades, prices)(i) == Appreciation(trades, prices)(i)
    ensures Over(Appreciation(trades, prices), a, b)
            == SnapshotAmount(trades, prices)(b) - SnapshotAmount(trades, prices)(a)
               - Over(CashInto(trades, prices), a, b)
  {
    hide Appreciation, CashInto, SnapshotAmount, Return, Over, InCents;
    forall i | a < i <= b
      ensures Return(trades, prices)(i) == Appreciation(trades, prices)(i)
      ensures Appreciation(trades, prices)(i)
              == SnapshotAmount(trades, prices)(i) - SnapshotAmount(trades, prices)(i - 1) - CashInto(trades, prices)(i)
    {
      CentsMonth(trades, prices, i);
    }
    ReturnsAddUp(Appreciation(trades, prices), SnapshotAmount(trades, prices), CashInto(trades, prices), a, b);
  }

  lemma {:induction false} ReturnsAddUp(gain: int -> real, value: int -> real, cash: int -> real, a: int, b: int)
    requires a <= b && forall i :: a < i <= b ==> gain(i) == value(i) - value(i - 1) - cash(i)
    ensures Over(gain, a, b) == value(b) - value(a) - Over(cash, a, b)
    decreases b - a
  {
    if a == b {
    } else {
      ReturnsAddUp(gain, value, cash, a, b - 1);
    }
  }

  /** Finer quantities do drift: the snapshot rounds the running sum, the ledger each trade. */
  lemma FineQuantityDrifts()
    ensures Drift([Trade(0, 0.004), Trade(1, 0.004)], 1) == 0.01
  {
    var a, b := Trade(0, 0.004), Trade(1, 0.004);
    assert [a, b][..1] == [a] && [a][..0] == [];
    assert Sum([a], TradedBy(1)) == 0.004 && Sum([a], TradedBy(0)) == 0.004 && Sum([a], LedgerIn(1)) == 0.0;
    assert Sum([a, b], TradedBy(1)) == 0.008 && Sum([a, b], TradedBy(0)) == 0.004;
    assert Sum([a, b], LedgerIn(1)) == Round2(0.004);
  }
}
