/**
 * Whole runs of the event processor: markets do not disturb each other, batches can be cut
 * anywhere, and the books are what a replay of the public trade tape gives.
 */
module LedgerRuns {
  import opened Common
  import opened ChainOrder
  import opened Ledger
  import opened LedgerLaws

  function BookAt(db: Db, k: MarketKey): Option<Book> {
    if k in db.books then Some(db.books[k]) else None
  }

  /** What one market sees of a run of logs. */
  function Events(logs: seq<Log>, k: MarketKey): seq<Event> {
    if logs == [] then []
    else if KeyOf(logs[0]) == k then [logs[0].event] + Events(logs[1..], k)
    else Events(logs[1..], k)
  }

  /** A market's book depends on its own logs alone, whatever they were interleaved with. */
  lemma {:induction false} RunProjects(db: Db, logs: seq<Log>, k: MarketKey)
    requires Run(db, logs).ok
    ensures BookAt(Run(db, logs).db, k) == MarketRun(BookAt(db, k), Events(logs, k))
    ensures RunOk(BookAt(db, k), Events(logs, k))
    decreases |logs|
  {
    if logs != [] {
      var l := logs[0];
      RunProjects(Step(db, l).db, logs[1..], k);
      if KeyOf(l) == k {
        assert Events(logs, k) == [l.event] + Events(logs[1..], k);
        assert Events(logs, k)[1..] == Events(logs[1..], k);
        assert BookAt(Step(db, l).db, k) == MarketStep(BookAt(db, k), l.event);
      } else {
        assert BookAt(Step(db, l).db, k) == BookAt(db, k);
      }
    }
  }

  /** A run goes through exactly when every market's own history does. */
  lemma {:induction false} RunOkIff(db: Db, logs: seq<Log>)
    ensures Run(db, logs).ok <==> forall k :: RunOk(BookAt(db, k), Events(logs, k))
    decreases |logs|
  {
    if Run(db, logs).ok {
      forall k ensures RunOk(BookAt(db, k), Events(logs, k)) { RunProjects(db, logs, k); }
    } else if logs != [] {
      var l := logs[0];
      var k := KeyOf(l);
      assert Events(logs, k)[0] == l.event && Events(logs, k)[1..] == Events(logs[1..], k);
      if Step(db, l).ok {
        RunOkIff(Step(db, l).db, logs[1..]);
        var j :| !RunOk(BookAt(Step(db, l).db, j), Events(logs[1..], j));
        if j == k {
          assert BookAt(Step(db, l).db, k) == MarketStep(BookAt(db, k), l.event);
        } else {
          assert BookAt(Step(db, l).db, j) == BookAt(db, j);
        }
        assert !RunOk(BookAt(db, j), Events(logs, j));
      } else {
        assert !RunOk(BookAt(db, k), Events(logs, k));
      }
    }
  }

  /** Any two deliveries that agree market by market leave every book the same. */
  lemma InterleavingIrrelevant(db: Db, a: seq<Log>, b: seq<Log>)
    requires Run(db, a).ok && forall k :: Events(a, k) == Events(b, k)
    ensures Run(db, b).ok && Run(db, b).db.books == Run(db, a).db.books
  {
    RunOkIff(db, a);
    RunOkIff(db, b);
    var x, y := Run(db, a).db.books, Run(db, b).db.books;
    forall k
      ensures (k in x <==> k in y) && (k in x ==> x[k] == y[k])
    {
      RunProjects(db, a, k);
      RunProjects(db, b, k);
      assert BookAt(Run(db, a).db, k) == BookAt(Run(db, b).db, k);
    }
    assert x.Keys == y.Keys;
  }

  /** Neighbouring logs of different markets may be swapped, trade tape included. */
  lemma StepsCommute(db: Db, a: Log, b: Log)
    requires KeyOf(a) != KeyOf(b) && TradeKeyOf(a) != TradeKeyOf(b)
    requires Step(db, a).ok && Step(db, b).ok
    ensures Step(Step(db, a).db, b) == Step(Step(db, b).db, a)
  {
    hide BookStep, Taped, InsertTrade;
    var ab, ba := Step(Step(db, a).db, b), Step(Step(db, b).db, a);
    assert ab.db.books == ba.db.books;
    if IsTrade(a.event) && IsTrade(b.event) {
      InsertsCommute(db.trades, a, b);
    }
    assert IsTradeIfTaped(db, a) && IsTradeIfTaped(db, b);
  }

  predicate IsTradeIfTaped(db: Db, l: Log)
    ensures IsTradeIfTaped(db, l)
  {
    KeyOf(l) in db.books && Taped(db.books[KeyOf(l)], l.event) ==> IsTrade(l.event)
  }

  lemma InsertsCommute(trades: map<TradeKey, Trade>, a: Log, b: Log)
    requires IsTrade(a.event) && IsTrade(b.event) && TradeKeyOf(a) != TradeKeyOf(b)
    ensures InsertTrade(InsertTrade(trades, a), b) == InsertTrade(InsertTrade(trades, b), a)
  {
    hide TradeRow;
    assert InsertTrade(InsertTrade(trades, a), b) == InsertTrade(InsertTrade(trades, b), a);
  }

  // ---- batches -------------------------------------------------------------

  lemma {:induction false} RunAppend(db: Db, a: seq<Log>, b: seq<Log>)
    ensures Run(db, a + b) == if Run(db, a).ok then Run(Run(db, a).db, b) else Run(db, a)
    decreases |a|
  {
    if a == [] {
      assert a + b == b;
    } else {
      assert (a + b)[0] == a[0] && (a + b)[1..] == a[1..] + b;
      RunAppend(Step(db, a[0]).db, a[1..], b);
    }
  }

  function Concat(batches: seq<seq<Log>>): seq<Log> {
    if batches == [] then [] else batches[0] + Concat(batches[1..])
  }

  function RunBatches(db: Db, batches: seq<seq<Log>>): Applied
    decreases |batches|
  {
    if batches == [] then Applied(db, true)
    else
      var r := Run(db, batches[0]);
      if r.ok then RunBatches(r.db, batches[1..]) else r
  }

  /** However the logs were cut into batches, the result is that of the uncut run. */
  lemma {:induction false} BatchCutsIrrelevant(db: Db, batches: seq<seq<Log>>)
    ensures RunBatches(db, batches) == Run(db, Concat(batches))
    decreases |batches|
  {
    if batches != [] {
      RunAppend(db, batches[0], Concat(batches[1..]));
      BatchCutsIrrelevant(Run(db, batches[0]).db, batches[1..]);
    }
  }

  // ---- the trade tape, replayed from scratch -------------------------------

  /** What the tape determines of a book. */
  datatype View = View(pot: int, shares: seq<int>, held: map<Holder, Position>)

  function ViewOf(b: Book): View {
    View(b.pot, b.shares, b.held)
  }

  function HeldIn(v: View, h: Holder): Position {
    if h in v.held then v.held[h] else NO_POSITION
  }

  /** How many outcomes a short on `o` credits, and which of them carries the rounding. */
  function OtherOutcomes(count: nat, o: nat): nat {
    if o < count then count - 1 else count
  }

  function LastOther(count: nat, o: nat): int {
    if o == count - 1 then count - 2 else count - 1
  }

  function ShortShare(count: nat, o: nat, cost: nat, i: nat): nat
    requires OtherOutcomes(count, o) > 0
  {
    var n := OtherOutcomes(count, o);
    PerLeg(cost, n);
    if i == LastOther(count, o) then cost - cost / n * (n - 1) else cost / n
  }

  /** One tape row, all its effects at once. */
  function ReplayRow(v: View, t: Trade): View
    requires t.side.Short? ==> OtherOutcomes(|v.shares|, t.outcome) > 0
    requires !t.side.Short? ==> t.outcome < |v.shares|
    ensures |ReplayRow(v, t).shares| == |v.shares|
  {
    var h := Holder(t.account, t.outcome);
    match t.side
    case Buy => View(v.pot + t.amount, v.shares[t.outcome := v.shares[t.outcome] + t.shares],
                     v.held[h := BuyPosition(HeldIn(v, h), t.shares, t.amount)])
    case Sell => View(v.pot - t.amount, v.shares[t.outcome := v.shares[t.outcome] - t.shares],
                      v.held[h := SellPosition(HeldIn(v, h), t.shares, t.amount)])
    case Short =>
      var n := |v.shares|;
      View(v.pot + t.amount,
           seq(n, i requires 0 <= i < n => if i == t.outcome then v.shares[i] else v.shares[i] + t.shares),
           v.held + ShortedRows(v, t))
  }

  function ShortedRows(v: View, t: Trade): map<Holder, Position>
    requires OtherOutcomes(|v.shares|, t.outcome) > 0
  {
    map i: nat | 0 <= i < |v.shares| && i != t.outcome ::
      Holder(t.account, i) := BuyPosition(HeldIn(v, Holder(t.account, i)), t.shares,
                                          ShortShare(|v.shares|, t.outcome, t.amount, i))
  }

  predicate Replayable(count: nat, t: Trade) {
    if t.side.Short? then OtherOutcomes(count, t.outcome) > 0 else t.outcome < count
  }

  function ReplayAll(v: View, rows: seq<Trade>): View
    requires forall t :: t in rows ==> Replayable(|v.shares|, t)
    decreases |rows|
  {
    if rows == [] then v else assert Replayable(|v.shares|, rows[0]); ReplayAll(ReplayRow(v, rows[0]), rows[1..])
  }

  lemma {:induction false} LegsAt(count: nat, o: nat)
    ensures |Legs(count, o)| == OtherOutcomes(count, o)
    ensures forall k :: 0 <= k < |Legs(count, o)| ==> Legs(count, o)[k] == if k < o then k else k + 1
  {
    if count > 0 {
      LegsAt(count - 1, o);
    }
  }

  ghost predicate LegFilled(b: Book, b': Book, account: string, legs: seq<nat>, shares: nat, cost: nat, k: nat)
    requires k < |legs|
  {
    var h := Holder(account, legs[k]);
    && h in b'.held && b'.held[h] == BuyPosition(Held(b, h), shares, LegBasis(cost, |legs|, k))
    && legs[k] < |b.shares| && legs[k] < |b'.shares| && b'.shares[legs[k]] == b.shares[legs[k]] + shares
  }

  ghost predicate Untouched(b: Book, b': Book, account: string, filled: seq<nat>)
    requires |b'.shares| == |b.shares|
  {
    && (forall i :: 0 <= i < |b.shares| && i !in filled ==> b'.shares[i] == b.shares[i])
    && (forall h: Holder :: h.account != account || h.outcome !in filled ==>
          (h in b'.held <==> h in b.held) && Held(b', h) == Held(b, h))
  }

  lemma CreditFrame(b: Book, done: Book, account: string, legs: seq<nat>, n: nat, shares: nat, cost: nat)
    requires n < |legs| && legs[n] < |b.shares| == |done.shares| && legs[n] !in legs[..n]
    requires Untouched(b, done, account, legs[..n])
    ensures var b' := CreditLeg(done, Holder(account, legs[n]), shares, LegBasis(cost, |legs|, n));
            && LegFilled(b, b', account, legs, shares, cost, n)
            && Untouched(b, b', account, legs[..n + 1]) && b'.pot == done.pot
            && forall k :: 0 <= k < n && LegFilled(b, done, account, legs, shares, cost, k)
                 ==> LegFilled(b, b', account, legs, shares, cost, k)
  {
    hide LegBasis;
    assert legs[..n + 1] == legs[..n] + [legs[n]];
    assert Held(done, Holder(account, legs[n])) == Held(b, Holder(account, legs[n]));
    forall k | 0 <= k < n
      ensures legs[k] != legs[n]
    {
      assert legs[k] == legs[..n][k];
    }
  }

  /** The leg loop after `n` legs, row by row. */
  lemma {:induction false} FilledLegs(b: Book, account: string, legs: seq<nat>, shares: nat, cost: nat, n: nat)
    requires n <= |legs| && forall k :: 0 <= k < |legs| ==> legs[k] < |b.shares|
    requires forall j, k :: 0 <= j < k < |legs| ==> legs[j] < legs[k]
    ensures var b' := FillLegs(b, account, legs, shares, cost, n);
            && (forall k :: 0 <= k < n ==> LegFilled(b, b', account, legs, shares, cost, k))
            && Untouched(b, b', account, legs[..n])
            && b'.pot == b.pot
  {
    hide LegFilled, Untouched, LegBasis, CreditLeg;
    if n == 0 {
      NoneFilled(b, account, legs);
    } else {
      FilledLegs(b, account, legs, shares, cost, n - 1);
      CreditFrame(b, FillLegs(b, account, legs, shares, cost, n - 1), account, legs, n - 1, shares, cost);
    }
  }

  lemma NoneFilled(b: Book, account: string, legs: seq<nat>)
    ensures Untouched(b, b, account, legs[..0])
  {
  }

  lemma ShortReplays(b: Book, l: Log)
    requires l.event.Shorted? && Taped(b, l.event)
    ensures Replayable(|b.shares|, TradeRow(l))
    ensures ViewOf(BookStep(b, l.event).book) == ReplayRow(ViewOf(b), TradeRow(l))
  {
    hide FillLegs, LegFilled, Untouched, ShortedRows, PriceWad;
    var e, t := l.event, TradeRow(l);
    var legs := Legs(|b.shares|, e.outcome);
    LegsAt(|b.shares|, e.outcome);
    FilledLegs(b, t.account, legs, e.shares, e.cost, |legs|);
    assert legs[..|legs|] == legs;
    var b' := FillLegs(b, t.account, legs, e.shares, e.cost, |legs|);
    SharesReplay(b, b', t, legs);
    HeldReplay(b, b', t, legs);
  }

  /** `b'` is `b` with every leg of the short `t` credited. */
  ghost predicate AllFilled(b: Book, b': Book, t: Trade, legs: seq<nat>) {
    && t.side.Short? && |legs| == OtherOutcomes(|b.shares|, t.outcome) > 0
    && |b'.shares| == |b.shares|
    && (forall k :: 0 <= k < |legs| ==> legs[k] == if k < t.outcome then k else k + 1)
    && (forall k :: 0 <= k < |legs| ==> LegFilled(b, b', t.account, legs, t.shares, t.amount, k))
    && Untouched(b, b', t.account, legs)
  }

  lemma SharesReplay(b: Book, b': Book, t: Trade, legs: seq<nat>)
    requires AllFilled(b, b', t, legs)
    ensures b'.shares == ReplayRow(ViewOf(b), t).shares
  {
    var y := ReplayRow(ViewOf(b), t).shares;
    forall i | 0 <= i < |b.shares|
      ensures b'.shares[i] == y[i]
    {
      if i != t.outcome {
        assert LegFilled(b, b', t.account, legs, t.shares, t.amount, LegOf(i, t.outcome));
      }
    }
  }

  lemma HeldReplay(b: Book, b': Book, t: Trade, legs: seq<nat>)
    requires AllFilled(b, b', t, legs)
    ensures b'.held == ReplayRow(ViewOf(b), t).held
  {
    var v := ViewOf(b);
    var y := ReplayRow(v, t).held;
    forall h: Holder
      ensures (h in b'.held <==> h in y) && (h in y ==> b'.held[h] == y[h])
    {
      if h.account == t.account && h.outcome < |b.shares| && h.outcome != t.outcome {
        ShortedRow(b, b', t, legs, h.outcome);
      } else {
        assert h !in ShortedRows(v, t);
        assert h.outcome !in legs || h.account != t.account;
        assert Held(b', h) == Held(b, h);
      }
    }
    assert b'.held.Keys == y.Keys;
  }

  lemma ShortedRow(b: Book, b': Book, t: Trade, legs: seq<nat>, i: nat)
    requires AllFilled(b, b', t, legs) && i < |b.shares| && i != t.outcome
    ensures var h := Holder(t.account, i); var rows := ShortedRows(ViewOf(b), t);
            h in rows && h in b'.held && b'.held[h] == rows[h]
  {
    var k := LegOf(i, t.outcome);
    assert LegFilled(b, b', t.account, legs, t.shares, t.amount, k);
    LegShare(|b.shares|, t.outcome, t.amount, i);
    assert HeldIn(ViewOf(b), Holder(t.account, i)) == Held(b, Holder(t.account, i));
    assert Holder(t.account, i) in ShortedRows(ViewOf(b), t);
  }

  lemma LegShare(count: nat, o: nat, cost: nat, i: nat)
    requires OtherOutcomes(count, o) > 0 && i < count && i != o
    ensures LegOf(i, o) < OtherOutcomes(count, o)
    ensures LegBasis(cost, OtherOutcomes(count, o), LegOf(i, o)) == ShortShare(count, o, cost, i)
  {
  }

  function LegOf(i: nat, o: nat): nat {
    if i < o then i else if i > 0 then i - 1 else 0
  }

  lemma TradeReplays(b: Book, l: Log)
    requires Taped(b, l.event) && BookStep(b, l.event).ok
    ensures Replayable(|b.shares|, TradeRow(l))
    ensures ViewOf(BookStep(b, l.event).book) == ReplayRow(ViewOf(b), TradeRow(l))
  {
    if l.event.Shorted? {
      ShortReplays(b, l);
    }
  }

  /** The rows a run adds to the tape of market `k`, in the order it adds them. */
  function TapeOf(ob: Option<Book>, logs: seq<Log>, k: MarketKey): seq<Trade>
    decreases |logs|
  {
    if logs == [] then []
    else if KeyOf(logs[0]) != k then TapeOf(ob, logs[1..], k)
    else
      var tail := TapeOf(MarketStep(ob, logs[0].event), logs[1..], k);
      if ob.Some? && Taped(ob.value, logs[0].event) then [TradeRow(logs[0])] + tail else tail
  }

  lemma {:induction false} TapeReplays(b: Book, logs: seq<Log>, k: MarketKey)
    requires TradingPhase(Events(logs, k)) && RunOk(Some(b), Events(logs, k))
    ensures var tape := TapeOf(Some(b), logs, k); var r := MarketRun(Some(b), Events(logs, k));
            && (forall t :: t in tape ==> Replayable(|b.shares|, t))
            && r.Some? && ViewOf(r.value) == ReplayAll(ViewOf(b), tape)
    decreases |logs|
  {
    if logs != [] {
      var l := logs[0];
      if KeyOf(l) == k {
        var b' := BookStep(b, l.event).book;
        assert Events(logs, k)[0] == l.event && Events(logs, k)[1..] == Events(logs[1..], k);
        assert l.event in Events(logs, k);
        assert forall e :: e in Events(logs[1..], k) ==> e in Events(logs, k);
        TapeReplays(b', logs[1..], k);
        if Taped(b, l.event) {
          TradeReplays(b, l);
          var tail := TapeOf(Some(b'), logs[1..], k);
          assert TapeOf(Some(b), logs, k) == [TradeRow(l)] + tail;
          assert TapeOf(Some(b), logs, k)[1..] == tail;
        } else {
          assert b' == b;
          assert TapeOf(Some(b), logs, k) == TapeOf(Some(b'), logs[1..], k);
        }
      } else {
        assert Events(logs, k) == Events(logs[1..], k);
        TapeReplays(b, logs[1..], k);
      }
    }
  }

  const LOG_POS: Log -> Pos := (l: Log) => l.pos

  const TRADE_POS: Trade -> Pos := (t: Trade) => t.pos

  lemma {:induction false} TapeOrdered(ob: Option<Book>, logs: seq<Log>, k: MarketKey)
    requires StrictlyOrdered(logs, LOG_POS)
    ensures StrictlyOrdered(TapeOf(ob, logs, k), TRADE_POS)
    ensures forall t :: t in TapeOf(ob, logs, k) ==> t.market == k && exists l :: l in logs && l.pos == t.pos
    decreases |logs|
  {
    if logs != [] {
      var l := logs[0];
      assert forall x :: x in logs[1..] ==> x in logs;
      var ob' := if KeyOf(l) == k then MarketStep(ob, l.event) else ob;
      TapeOrdered(ob', logs[1..], k);
      var tail := TapeOf(ob', logs[1..], k);
      forall t | t in tail
        ensures Before(l.pos, t.pos)
      {
        var x :| x in logs[1..] && x.pos == t.pos;
        var i :| 0 <= i < |logs[1..]| && logs[1..][i] == x;
        assert Before(LOG_POS(logs[0]), LOG_POS(logs[i + 1]));
      }
    }
  }

  /** Each log is delivered once. */
  ghost predicate Once(logs: seq<Log>) {
    forall i, j :: 0 <= i < j < |logs| ==> TradeKeyOf(logs[i]) != TradeKeyOf(logs[j])
  }

  ghost predicate NotYetTaped(db: Db, logs: seq<Log>) {
    forall l :: l in logs ==> TradeKeyOf(l) !in db.trades
  }

  /** The rows of one market in the trade table. */
  function TapeRows(db: Db, k: MarketKey): set<Trade> {
    set key | key in db.trades && db.trades[key].market == k :: db.trades[key]
  }

  lemma {:induction false} TapeGrows(db: Db, logs: seq<Log>, k: MarketKey)
    requires Once(logs) && NotYetTaped(db, logs) && Run(db, logs).ok
    ensures TapeRows(Run(db, logs).db, k) == TapeRows(db, k) + set t | t in TapeOf(BookAt(db, k), logs, k)
    decreases |logs|
  {
    if logs != [] {
      var l := logs[0];
      var db' := Step(db, l).db;
      forall x | x in logs[1..]
        ensures TradeKeyOf(x) !in db'.trades
      {
        var i :| 0 <= i < |logs[1..]| && logs[1..][i] == x;
        assert x == logs[i + 1];
      }
      assert forall i, j :: 0 <= i < j < |logs[1..]| ==> logs[1..][i] == logs[i + 1] && logs[1..][j] == logs[j + 1];
      TapeGrows(db', logs[1..], k);
      assert l in logs;
      StepTapes(db, l, k);
      if KeyOf(l) == k {
        assert BookAt(db', k) == MarketStep(BookAt(db, k), l.event);
      } else {
        assert BookAt(db', k) == BookAt(db, k);
      }
    }
  }

  lemma StepTapes(db: Db, l: Log, k: MarketKey)
    requires TradeKeyOf(l) !in db.trades
    ensures TapeRows(Step(db, l).db, k) == TapeRows(db, k) +
              if KeyOf(l) == k && k in db.books && Taped(db.books[k], l.event) then {TradeRow(l)} else {}
  {
    var db' := Step(db, l).db;
    if KeyOf(l) in db.books && Taped(db.books[KeyOf(l)], l.event) {
      assert db'.trades == db.trades[TradeKeyOf(l) := TradeRow(l)];
      assert forall key :: key in db.trades ==> key in db'.trades && db'.trades[key] == db.trades[key];
      if KeyOf(l) == k {
        assert TradeRow(l) in TapeRows(db', k) by {
          assert TradeKeyOf(l) in db'.trades && db'.trades[TradeKeyOf(l)].market == k;
        }
      }
    } else {
      assert db'.trades == db.trades;
    }
  }

  /**
   * The incrementally kept ledger is a replay of the tape: read the market's rows of the trade table
   * in chain order, apply them to the freshly seeded book, and the pot, the outcome shares and every
   * position come out the same.
   */
  lemma LedgerIsReplay(logs: seq<Log>, k: MarketKey, rows: seq<Trade>)
    requires StrictlyOrdered(logs, LOG_POS) && Once(logs)
    requires Run(EMPTY, logs).ok && TradingPhase(Events(logs, k))
    requires k in Run(EMPTY, logs).db.books
    requires Ordered(rows, TRADE_POS) && multiset(rows) == multiset(TapeRows(Run(EMPTY, logs).db, k))
    ensures var c := Creation(Events(logs, k));
            && c.Some? && c.value.MarketCreated?
            && var g := ViewOf(Genesis(c.value.outcomeCount, c.value.seedPerOutcome, c.value.seedCost));
            && (forall t :: t in rows ==> Replayable(|g.shares|, t))
            && ViewOf(Run(EMPTY, logs).db.books[k]) == ReplayAll(g, rows)
  {
    var tape := TapeOf(None, logs, k);
    TapeOrdered(None, logs, k);
    TapeGrows(EMPTY, logs, k);
    assert TapeRows(EMPTY, k) == {};
    StrictListsOnce(tape, TRADE_POS);
    assert TapeRows(Run(EMPTY, logs).db, k) == set t | t in tape;
    OrderIsUnique(rows, tape, TRADE_POS);
    RunProjects(EMPTY, logs, k);
    FromCreation(logs, k);
  }

  lemma {:induction false} FromCreation(logs: seq<Log>, k: MarketKey)
    requires TradingPhase(Events(logs, k)) && RunOk(None, Events(logs, k))
    requires MarketRun(None, Events(logs, k)).Some?
    ensures var c := Creation(Events(logs, k)); var tape := TapeOf(None, logs, k);
            && c.Some? && c.value.MarketCreated?
            && var g := ViewOf(Genesis(c.value.outcomeCount, c.value.seedPerOutcome, c.value.seedCost));
            && (forall t :: t in tape ==> Replayable(|g.shares|, t))
            && ViewOf(MarketRun(None, Events(logs, k)).value) == ReplayAll(g, tape)
    decreases |logs|
  {
    var l := logs[0];
    if KeyOf(l) == k {
      assert Events(logs, k)[0] == l.event && Events(logs, k)[1..] == Events(logs[1..], k);
      assert forall e :: e in Events(logs[1..], k) ==> e in Events(logs, k);
      if l.event.MarketCreated? && l.event.outcomeCount > 0 {
        TapeReplays(Genesis(l.event.outcomeCount, l.event.seedPerOutcome, l.event.seedCost), logs[1..], k);
        assert TapeOf(None, logs, k) == TapeOf(MarketStep(None, l.event), logs[1..], k);
      } else {
        FromCreation(logs[1..], k);
        assert TapeOf(None, logs, k) == TapeOf(None, logs[1..], k);
      }
    } else {
      FromCreation(logs[1..], k);
    }
  }

  // ---- what a re-scan does -------------------------------------------------

  /** Every log finds its market, and every short has an outcome to credit. */
  predicate Recognised(db: Db, logs: seq<Log>)
    decreases |logs|
  {
    logs == [] || (Recognises(db, logs[0]) && Recognised(Step(db, logs[0]).db, logs[1..]))
  }

  predicate Recognises(db: Db, l: Log) {
    if l.event.MarketCreated? then true
    else KeyOf(l) in db.books && (l.event.Shorted? ==> Taped(db.books[KeyOf(l)], l.event))
  }

  lemma {:induction false} EventsAppend(a: seq<Log>, b: seq<Log>, k: MarketKey)
    ensures Events(a + b, k) == Events(a, k) + Events(b, k)
  {
    if a == [] {
      assert a + b == b;
    } else {
      assert (a + b)[0] == a[0] && (a + b)[1..] == a[1..] + b;
      EventsAppend(a[1..], b, k);
    }
  }

  /** The public tape is the part that survives a re-scan: a second delivery adds and changes nothing. */
  lemma {:induction false} TapeSurvivesRescan(db: Db, logs: seq<Log>, again: Db)
    requires Recognised(db, logs) && Run(db, logs).ok
    requires Run(db, logs).db.trades.Keys <= again.trades.Keys
    ensures Run(again, logs).db.trades == again.trades
    decreases |logs|
  {
    if logs != [] {
      var l := logs[0];
      var db' := Step(db, l).db;
      TapeOnlyGrows(db', logs[1..]);
      assert TradeKeyOf(l) in again.trades || !IsTrade(l.event);
      TapeSurvivesRescan(db', logs[1..], Step(again, l).db);
    }
  }

  lemma {:induction false} TapeOnlyGrows(db: Db, logs: seq<Log>)
    ensures db.trades.Keys <= Run(db, logs).db.trades.Keys
    decreases |logs|
  {
    if logs != [] {
      TapeOnlyGrows(Step(db, logs[0]).db, logs[1..]);
    }
  }

  // ---- what the tape shows -------------------------------------------------

  /** A row of the tape against the log it is of. */
  predicate TapeShows(t: Trade, l: Log)
    requires IsTrade(l.event)
  {
    var e := l.event;
    && t.market == MarketKey(Lower(l.address), l.marketId) && t.account == Lower(e.account)
    && t.outcome == e.outcome && t.shares == e.shares && t.spreadWad == l.spreadWad && t.pos == l.pos && t.tx == l.tx
    && (e.Bought? ==> t.side == Buy && t.amount == e.cost)
    && (e.Sold? ==> t.side == Sell && t.amount == e.proceeds)
    && (e.Shorted? ==> t.side == Short && t.amount == e.cost)
    && (t.shares == 0 ==> t.priceWad == 0)
    && (t.shares > 0 ==>
          t.priceWad * t.shares <= t.amount * 1_000_000_000_000_000_000 < (t.priceWad + 1) * t.shares)
  }

  lemma RowShows(l: Log)
    requires IsTrade(l.event)
    ensures TapeShows(TradeRow(l), l)
  {
    var t := TradeRow(l);
    if t.shares > 0 {
      DivBounds(t.amount * WAD, t.shares);
      assert (t.priceWad + 1) * t.shares == t.priceWad * t.shares + t.shares;
    }
  }

  lemma {:induction false} RowsStay(db: Db, logs: seq<Log>, key: TradeKey)
    requires key in db.trades
    ensures key in Run(db, logs).db.trades && Run(db, logs).db.trades[key] == db.trades[key]
    decreases |logs|
  {
    if logs != [] {
      RowsStay(Step(db, logs[0]).db, logs[1..], key);
    }
  }

  /**
   * Every trade of a run is on the tape with its side, amounts, account and place, at the average price
   * it was made at, rounded down.
   */
  lemma {:induction false} TradesAreShown(db: Db, logs: seq<Log>, i: nat)
    requires Recognised(db, logs) && Run(db, logs).ok && Once(logs) && NotYetTaped(db, logs)
    requires i < |logs| && IsTrade(logs[i].event)
    ensures var trades := Run(db, logs).db.trades;
            TradeKeyOf(logs[i]) in trades && TapeShows(trades[TradeKeyOf(logs[i])], logs[i])
    decreases |logs|
  {
    var l, db' := logs[0], Step(db, logs[0]).db;
    assert l in logs;
    if i == 0 {
      FirstIsTaped(db, l);
      RowsStay(db', logs[1..], TradeKeyOf(l));
      RowShows(l);
    } else {
      OnlyItsOwnKey(db, l);
      forall x | x in logs[1..]
        ensures TradeKeyOf(x) !in db'.trades
      {
        var j :| 0 <= j < |logs[1..]| && logs[1..][j] == x;
        assert logs[j + 1] == x && TradeKeyOf(logs[0]) != TradeKeyOf(logs[j + 1]);
        assert x in logs;
      }
      assert forall a, b :: 0 <= a < b < |logs[1..]| ==> logs[1..][a] == logs[a + 1] && logs[1..][b] == logs[b + 1];
      hide Step, TapeShows, TradeKeyOf;
      TradesAreShown(db', logs[1..], i - 1);
    }
  }

  lemma FirstIsTaped(db: Db, l: Log)
    requires Recognises(db, l) && IsTrade(l.event) && TradeKeyOf(l) !in db.trades
    ensures TradeKeyOf(l) in Step(db, l).db.trades && Step(db, l).db.trades[TradeKeyOf(l)] == TradeRow(l)
  {
    hide BookStep, TradeRow;
  }

  lemma OnlyItsOwnKey(db: Db, l: Log)
    ensures forall key :: key in Step(db, l).db.trades ==> key in db.trades || key == TradeKeyOf(l)
  {
    hide BookStep, TradeRow;
  }
}
