/**
 * Batches that die and are scanned again: which figures of a book come out wrong, and by how much.
 *
 * A tick applies its batch and only then saves the cursor. When the process dies in between, the next
 * tick starts from the same block, so everything the dead tick wrote is written once more.
 */
module Rescan {
  import opened Common
  import opened ChainOrder
  import opened Ledger
  import opened LedgerLaws
  import opened LedgerRuns

  // ---- figures that trades move by amounts of their own --------------------

  /** The pot, one outcome's stock, one position's basis less what it realised, and that over all positions. */
  datatype Meter = Pot | Stock(outcome: nat) | RowCash(holder: Holder) | AllCash

  ghost function Read(b: Book, m: Meter): int {
    match m
    case Pot => b.pot
    case Stock(i) => if i < |b.shares| then b.shares[i] else 0
    case RowCash(h) => Held(b, h).basis - Held(b, h).realized
    case AllCash => NetCash(b)
  }

  /** What a trade credits to outcome `i` of a market with `n`. */
  function StockOf(n: nat, e: Event, i: nat): int
    requires IsTrade(e)
  {
    if i >= n then 0
    else match e
      case Bought(_, o, shares, _) => if i == o then shares else 0
      case Sold(_, o, shares, _) => if i == o then 0 - shares else 0
      case Shorted(_, o, shares, _) => if i != o then shares else 0
  }

  /** What a trade puts in, or takes out. */
  function CashOf(n: nat, e: Event): int
    requires IsTrade(e)
  {
    match e
    case Bought(_, _, _, cost) => cost
    case Sold(_, _, _, proceeds) => 0 - proceeds
    case Shorted(_, o, _, cost) => if OtherOutcomes(n, o) > 0 then cost else 0
  }

  /** The rows a trade writes. */
  predicate Touches(n: nat, e: Event, h: Holder) {
    IsTrade(e) && h.outcome < n && h.account == Lower(e.account)
    && if e.Shorted? then h.outcome != e.outcome else h.outcome == e.outcome
  }

  function RowCashOf(n: nat, e: Event, h: Holder): int
    requires IsTrade(e)
  {
    if !Touches(n, e, h) then 0
    else if e.Shorted? then
      assert OtherOutcomes(n, e.outcome) > 0;
      ShortShare(n, e.outcome, e.cost, h.outcome)
    else CashOf(n, e)
  }

  function Delta(n: nat, e: Event, m: Meter): int {
    if !IsTrade(e) then 0
    else match m
      case Pot => CashOf(n, e)
      case Stock(i) => StockOf(n, e, i)
      case RowCash(h) => RowCashOf(n, e, h)
      case AllCash => CashOf(n, e)
  }

  function MeterSum(n: nat, events: seq<Event>, m: Meter): int {
    if events == [] then 0 else Delta(n, events[0], m) + MeterSum(n, events[1..], m)
  }

  function LogOf(e: Event): Log {
    Log("", 0, Pos(0, 0), "", 0, e)
  }

  /** Whatever the book, a trade moves each figure by the same amount. */
  lemma StepMoves(b: Book, e: Event, m: Meter)
    requires (IsTrade(e) || e.MarketCreated?) && BookStep(b, e).ok
    ensures |BookStep(b, e).book.shares| == |b.shares|
    ensures Read(BookStep(b, e).book, m) == Read(b, m) + Delta(|b.shares|, e, m)
  {
    if IsTrade(e) {
      TradeConserves(b, e);
      LegsAt(|b.shares|, if e.Shorted? then e.outcome else 0);
      if Taped(b, e) {
        TradeReplays(b, LogOf(e));
        ReplayMoves(b, BookStep(b, e).book, e, m);
      } else {
        assert BookStep(b, e).book == b;
      }
    }
  }

  lemma ReplayMoves(b: Book, b': Book, e: Event, m: Meter)
    requires IsTrade(e) && Replayable(|b.shares|, TradeRow(LogOf(e)))
    requires ViewOf(b') == ReplayRow(ViewOf(b), TradeRow(LogOf(e)))
    requires b'.pot - NetCash(b') == b.pot - NetCash(b)
    ensures Read(b', m) == Read(b, m) + Delta(|b.shares|, e, m)
  {
    hide NetCash, ShortShare, PriceWad;
    var t := TradeRow(LogOf(e));
    match m
    case Pot =>
    case AllCash =>
    case Stock(i) =>
    case RowCash(h) => RowMoves(b, b', e, h);
  }

  lemma RowMoves(b: Book, b': Book, e: Event, h: Holder)
    requires IsTrade(e) && Replayable(|b.shares|, TradeRow(LogOf(e)))
    requires ViewOf(b') == ReplayRow(ViewOf(b), TradeRow(LogOf(e)))
    ensures Read(b', RowCash(h)) == Read(b, RowCash(h)) + RowCashOf(|b.shares|, e, h)
  {
    hide NetCash, ShortShare, PriceWad;
    var t := TradeRow(LogOf(e));
    if e.Shorted? {
      assert HeldIn(ViewOf(b), h) == Held(b, h);
      if Touches(|b.shares|, e, h) {
        assert h == Holder(t.account, h.outcome);
        assert h in ShortedRows(ViewOf(b), t);
      } else {
        assert h !in ShortedRows(ViewOf(b), t);
      }
    }
  }

  // ---- one market's runs ---------------------------------------------------

  predicate Creates(e: Event) {
    e.MarketCreated? && e.outcomeCount > 0
  }

  /** How many outcomes the market has once there is one. */
  function Count(ob: Option<Book>, events: seq<Event>): nat
    decreases |events|
  {
    if ob.Some? then |ob.value.shares|
    else if events == [] then 0
    else if Creates(events[0]) then events[0].outcomeCount
    else Count(ob, events[1..])
  }

  /** What a figure starts from, if every event were then to move it, those before the creation included. */
  ghost function Base(ob: Option<Book>, events: seq<Event>, m: Meter, n: nat): int
    decreases |events|
  {
    if ob.Some? then Read(ob.value, m)
    else if events == [] then 0
    else if Creates(events[0]) then
      Read(Genesis(events[0].outcomeCount, events[0].seedPerOutcome, events[0].seedCost), m)
    else Base(ob, events[1..], m, n) - Delta(n, events[0], m)
  }

  lemma {:induction false} RunReads(ob: Option<Book>, events: seq<Event>, m: Meter)
    requires TradingPhase(events) && RunOk(ob, events) && MarketRun(ob, events).Some?
    ensures var r := MarketRun(ob, events).value; var n := Count(ob, events);
            && |r.shares| == n
            && Read(r, m) == Base(ob, events, m, n) + MeterSum(n, events, m)
    decreases |events|
  {
    if events != [] {
      var e := events[0];
      assert e in events;
      hide Read, Delta, BookStep;
      if ob.Some? {
        StepMoves(ob.value, e, m);
      }
      if ob.None? && Creates(e) {
        CreationIsFree(Count(ob, events), e, m);
      }
      assert MarketStep(ob, e).Some? || ob.None?;
      RunReads(MarketStep(ob, e), events[1..], m);
    }
  }

  lemma CreationIsFree(n: nat, e: Event, m: Meter)
    requires e.MarketCreated?
    ensures Delta(n, e, m) == 0
  {
  }

  // ---- a handler cut short -------------------------------------------------

  /** A short's loop after `v` writes: whole legs, and perhaps the stock half of the next. */
  function PartShort(b: Book, account: string, legs: seq<nat>, shares: nat, cost: nat, v: nat): Book
    requires v <= 2 * |legs| && forall k :: 0 <= k < |legs| ==> legs[k] < |b.shares|
  {
    var filled := FillLegs(b, account, legs, shares, cost, v / 2);
    if v % 2 == 0 then filled
    else filled.(shares := filled.shares[legs[v / 2] := filled.shares[legs[v / 2]] + shares])
  }

  /** The book after the first `writes` of a handler's own writes; a trade's first is its tape row. */
  function PartBook(b: Book, e: Event, writes: nat): Book {
    match e
    case Bought(_, i, shares, cost) =>
      var paid := b.(pot := b.pot + cost);
      if writes <= 1 then b
      else if writes == 2 || i >= |b.shares| then paid
      else if writes == 3 then paid.(shares := paid.shares[i := paid.shares[i] + shares])
      else BookStep(b, e).book
    case Sold(_, i, shares, proceeds) =>
      var paid := b.(pot := b.pot - proceeds);
      if writes <= 1 then b
      else if writes == 2 || i >= |b.shares| then paid
      else if writes == 3 then paid.(shares := paid.shares[i := paid.shares[i] - shares])
      else BookStep(b, e).book
    case Shorted(account, o, shares, cost) =>
      var legs := Legs(|b.shares|, o);
      if writes == 0 then b
      else if writes - 1 <= 2 * |legs| then PartShort(b, Lower(account), legs, shares, cost, writes - 1)
      else BookStep(b, e).book
    case Redeemed(account, amount) =>
      if writes == 0 then b
      else if writes == 1 then b.(held := RedeemAll(b.held, Lower(account), amount))
      else BookStep(b, e).book
    case _ => if writes == 0 then b else BookStep(b, e).book
  }

  /** How much of each leg's effect the first `v` writes of a short's loop have made. */
  function PartShortDelta(n: nat, e: Event, v: nat, m: Meter): int
    requires e.Shorted?
  {
    var legs := OtherOutcomes(n, e.outcome);
    if v > 2 * legs then Delta(n, e, m)
    else match m
      case Pot => 0
      case Stock(i) => if v > 2 * LegOf(i, e.outcome) then StockOf(n, e, i) else 0
      case RowCash(h) => if v > 2 * LegOf(h.outcome, e.outcome) + 1 then RowCashOf(n, e, h) else 0
      case AllCash => if v / 2 == 0 then 0 else if v / 2 == legs then e.cost else e.cost / legs * (v / 2)
  }

  function PartDelta(n: nat, e: Event, writes: nat, m: Meter): int {
    if !IsTrade(e) || writes == 0 then 0
    else if e.Shorted? then PartShortDelta(n, e, writes - 1, m)
    else if e.outcome >= n then if writes >= 2 && m.Pot? then CashOf(n, e) else 0
    else match m
      case Pot => if writes >= 2 then CashOf(n, e) else 0
      case Stock(i) => if writes >= 3 then StockOf(n, e, i) else 0
      case RowCash(h) => if writes >= 4 then RowCashOf(n, e, h) else 0
      case AllCash => if writes >= 4 then CashOf(n, e) else 0
  }

  /** What a handler cut short has moved by then. */
  lemma PartMoves(b: Book, e: Event, writes: nat, m: Meter)
    requires IsTrade(e)
    ensures var b' := PartBook(b, e, writes);
            |b'.shares| == |b.shares| && Read(b', m) == Read(b, m) + PartDelta(|b.shares|, e, writes, m)
  {
    if e.Shorted? {
      PartShortMoves(b, e, writes, m);
    } else if e.outcome < |b.shares| && writes >= 4 {
      StepMoves(b, e, m);
    } else {
      SharesAlone(b, PartBook(b, e, writes));
    }
  }

  lemma PartShortMoves(b: Book, e: Event, writes: nat, m: Meter)
    requires e.Shorted?
    ensures var b' := PartBook(b, e, writes);
            |b'.shares| == |b.shares| && Read(b', m) == Read(b, m) + PartDelta(|b.shares|, e, writes, m)
  {
    hide Read, Delta, BookStep, PartShort, PartShortDelta;
    LegsAt(|b.shares|, e.outcome);
    if writes > 0 {
      if writes - 1 <= 2 * OtherOutcomes(|b.shares|, e.outcome) {
        LoopMoves(b, e, writes - 1, m);
      } else {
        ShortIsOk(b, e);
        StepMoves(b, e, m);
        WholeShort(|b.shares|, e, writes - 1, m);
      }
    }
  }

  lemma ShortIsOk(b: Book, e: Event)
    requires e.Shorted?
    ensures BookStep(b, e).ok
  {
  }

  lemma WholeShort(n: nat, e: Event, v: nat, m: Meter)
    requires e.Shorted? && v > 2 * OtherOutcomes(n, e.outcome)
    ensures PartShortDelta(n, e, v, m) == Delta(n, e, m)
  {
  }

  lemma LoopMoves(b: Book, e: Event, v: nat, m: Meter)
    requires e.Shorted? && v <= 2 * |Legs(|b.shares|, e.outcome)|
    ensures var b' := PartShort(b, Lower(e.account), Legs(|b.shares|, e.outcome), e.shares, e.cost, v);
            |b'.shares| == |b.shares| && Read(b', m) == Read(b, m) + PartShortDelta(|b.shares|, e, v, m)
  {
    hide NetCash, FillLegs, Untouched, LegFilled;
    var legs := Legs(|b.shares|, e.outcome);
    LoopDone(b, e, v / 2);
    var filled := FillLegs(b, Lower(e.account), legs, e.shares, e.cost, v / 2);
    var b' := PartShort(b, Lower(e.account), legs, e.shares, e.cost, v);
    SharesAlone(filled, b');
    match m
    case Pot =>
    case AllCash =>
    case Stock(i) => LoopStock(b, filled, e, legs, v, i);
    case RowCash(h) => LoopRow(b, filled, e, legs, v / 2, h);
  }

  ghost predicate LegsDone(b: Book, filled: Book, e: Event, legs: seq<nat>, k: nat)
    requires e.Shorted?
  {
    && k <= |legs| == OtherOutcomes(|b.shares|, e.outcome) && |filled.shares| == |b.shares|
    && (forall j :: 0 <= j < |legs| ==> legs[j] == if j < e.outcome then j else j + 1)
    && (forall j :: 0 <= j < k ==> LegFilled(b, filled, Lower(e.account), legs, e.shares, e.cost, j))
    && Untouched(b, filled, Lower(e.account), legs[..k])
  }

  lemma LoopDone(b: Book, e: Event, k: nat)
    requires e.Shorted? && k <= |Legs(|b.shares|, e.outcome)|
    ensures var legs := Legs(|b.shares|, e.outcome);
            var filled := FillLegs(b, Lower(e.account), legs, e.shares, e.cost, k);
            && LegsDone(b, filled, e, legs, k) && filled.pot == b.pot
            && NetCash(filled) == NetCash(b) + if k == 0 then 0 else if k == |legs| then e.cost else e.cost / |legs| * k
  {
    hide NetCash, FillLegs, Untouched, LegFilled;
    var legs := Legs(|b.shares|, e.outcome);
    LegsAt(|b.shares|, e.outcome);
    LegsConserve(b, Lower(e.account), legs, e.shares, e.cost, k);
    FilledLegs(b, Lower(e.account), legs, e.shares, e.cost, k);
  }

  lemma LoopStock(b: Book, filled: Book, e: Event, legs: seq<nat>, v: nat, i: nat)
    requires e.Shorted? && v <= 2 * |legs| && LegsDone(b, filled, e, legs, v / 2)
    ensures var shares := if v % 2 == 0 then filled.shares
                          else filled.shares[legs[v / 2] := filled.shares[legs[v / 2]] + e.shares];
            i < |b.shares| ==>
              shares[i] == b.shares[i] + if v > 2 * LegOf(i, e.outcome) then StockOf(|b.shares|, e, i) else 0
  {
    var k := v / 2;
    if i < |b.shares| && i != e.outcome {
      var j := LegOf(i, e.outcome);
      assert j < |legs| && legs[j] == i;
      if j < k {
        assert LegFilled(b, filled, Lower(e.account), legs, e.shares, e.cost, j);
      } else {
        assert i !in legs[..k];
      }
    }
  }

  lemma LoopRow(b: Book, filled: Book, e: Event, legs: seq<nat>, k: nat, h: Holder)
    requires e.Shorted? && LegsDone(b, filled, e, legs, k)
    ensures Read(filled, RowCash(h))
         == Read(b, RowCash(h)) + if k > LegOf(h.outcome, e.outcome) then RowCashOf(|b.shares|, e, h) else 0
  {
    hide LegBasis, ShortShare;
    if Touches(|b.shares|, e, h) {
      var j := LegOf(h.outcome, e.outcome);
      LegShare(|b.shares|, e.outcome, e.cost, h.outcome);
      assert j < |legs| && legs[j] == h.outcome;
      if j < k {
        assert LegFilled(b, filled, Lower(e.account), legs, e.shares, e.cost, j);
      } else {
        assert h.outcome !in legs[..k];
      }
    } else {
      assert h.account != Lower(e.account) || h.outcome !in legs[..k];
    }
  }

  // ---- dead attempts -------------------------------------------------------

  /** An attempt that died after `done` whole logs and `writes` writes of the next handler. */
  datatype Death = Death(done: nat, writes: nat)

  /** The first writes of one log's handler. */
  function PartStep(db: Db, l: Log, writes: nat): Db {
    var k := KeyOf(l);
    if l.event.MarketCreated? then if writes == 0 then db else Step(db, l).db
    else if k !in db.books then db
    else
      Db(db.books[k := PartBook(db.books[k], l.event, writes)],
         if writes > 0 && Taped(db.books[k], l.event) then InsertTrade(db.trades, l) else db.trades)
  }

  function AfterDeath(db: Db, logs: seq<Log>, d: Death): Db
    requires d.done <= |logs|
  {
    var r := Run(db, logs[..d.done]).db;
    if d.done < |logs| then PartStep(r, logs[d.done], d.writes) else r
  }

  /** Each attempt begins at the same block, over whatever its predecessors wrote. */
  function AfterDeaths(db: Db, logs: seq<Log>, deaths: seq<Death>): Db
    requires forall d :: d in deaths ==> d.done <= |logs|
    decreases |deaths|
  {
    if deaths == [] then db
    else
      assert deaths[0] in deaths;
      AfterDeaths(AfterDeath(db, logs, deaths[0]), logs, deaths[1..])
  }

  /** Every attempt got to where it died, and the one after them all goes through. */
  ghost predicate Recovers(db: Db, logs: seq<Log>, deaths: seq<Death>)
    decreases |deaths|
  {
    if deaths == [] then Run(db, logs).ok
    else
      && deaths[0].done <= |logs| && Run(db, logs[..deaths[0].done]).ok
      && Recovers(AfterDeath(db, logs, deaths[0]), logs, deaths[1..])
  }

  lemma {:induction false} DeathsFit(db: Db, logs: seq<Log>, deaths: seq<Death>)
    requires Recovers(db, logs, deaths)
    ensures forall d :: d in deaths ==> d.done <= |logs|
    ensures Run(AfterDeaths(db, logs, deaths), logs).ok
    decreases |deaths|
  {
    if deaths != [] {
      DeathsFit(AfterDeath(db, logs, deaths[0]), logs, deaths[1..]);
    }
  }

  /** The log the attempt died on, when it is this market's. */
  function CutShort(logs: seq<Log>, d: Death, k: MarketKey): Option<Event> {
    if d.done < |logs| && KeyOf(logs[d.done]) == k then Some(logs[d.done].event) else None
  }

  /** What one dead attempt leaves behind: nothing while there is no market to leave it in. */
  function LeftBy(n: nat, db: Db, logs: seq<Log>, d: Death, k: MarketKey, m: Meter): int
    requires d.done <= |logs|
  {
    var cut := CutShort(logs, d, k);
    if k !in AfterDeath(db, logs, d).books then 0
    else MeterSum(n, Events(logs[..d.done], k), m) + if cut.Some? then PartDelta(n, cut.value, d.writes, m) else 0
  }

  function LeftByAll(n: nat, db: Db, logs: seq<Log>, deaths: seq<Death>, k: MarketKey, m: Meter): int
    requires forall d :: d in deaths ==> d.done <= |logs|
    decreases |deaths|
  {
    if deaths == [] then 0
    else
      assert deaths[0] in deaths;
      LeftBy(n, db, logs, deaths[0], k, m) + LeftByAll(n, AfterDeath(db, logs, deaths[0]), logs, deaths[1..], k, m)
  }

  // ---- one death, one market -----------------------------------------------

  lemma {:induction false} OnceThereAlwaysThere(ob: Option<Book>, events: seq<Event>)
    requires ob.Some?
    ensures MarketRun(ob, events).Some?
    decreases |events|
  {
    if events != [] {
      hide BookStep;
      OnceThereAlwaysThere(MarketStep(ob, events[0]), events[1..]);
    }
  }

  lemma {:induction false} BaseOfPrefix(front: seq<Event>, rest: seq<Event>, m: Meter, n: nat)
    ensures MarketRun(None, front).Some? ==>
              Base(None, front + rest, m, n) == Base(None, front, m, n) && Count(None, front + rest) == Count(None, front)
    ensures MarketRun(None, front).None? ==>
              && Base(None, front + rest, m, n) == Base(None, rest, m, n) - MeterSum(n, front, m)
              && Count(None, front + rest) == Count(None, rest)
    decreases |front|
  {
    if front == [] {
      assert front + rest == rest;
    } else {
      hide Read, Delta;
      assert (front + rest)[0] == front[0] && (front + rest)[1..] == front[1..] + rest;
      if Creates(front[0]) {
        OnceThereAlwaysThere(MarketStep(None, front[0]), front[1..]);
      } else {
        BaseOfPrefix(front[1..], rest, m, n);
      }
    }
  }

  /** A market's book when its next handler is cut short. */
  function PartOf(ob: Option<Book>, e: Event, writes: nat): Option<Book> {
    match ob
    case Some(b) => Some(PartBook(b, e, writes))
    case None => if writes == 0 then None else MarketStep(None, e)
  }

  lemma CreatedAgain(b: Book, e: Event, writes: nat)
    requires e.MarketCreated?
    ensures PartBook(b, e, writes) == b
  {
  }

  lemma PartProjects(db: Db, l: Log, writes: nat, k: MarketKey)
    ensures BookAt(PartStep(db, l, writes), k)
         == if KeyOf(l) == k then PartOf(BookAt(db, k), l.event, writes) else BookAt(db, k)
  {
    hide BookStep, Taped, InsertTrade, PartBook;
    if l.event.MarketCreated? && KeyOf(l) == k && k in db.books {
      CreatedAgain(db.books[k], l.event, writes);
    }
  }

  /** The book after `p` and perhaps the first writes of `q[0]`. */
  function Stopped(ob: Option<Book>, p: seq<Event>, cut: Option<Event>, writes: nat): Option<Book> {
    var mid := MarketRun(ob, p);
    if cut.Some? then PartOf(mid, cut.value, writes) else mid
  }

  function LeftIn(n: nat, ob: Option<Book>, p: seq<Event>, cut: Option<Event>, writes: nat, m: Meter): int {
    if Stopped(ob, p, cut, writes).None? then 0
    else MeterSum(n, p, m) + if cut.Some? then PartDelta(n, cut.value, writes, m) else 0
  }

  /** One death shifts what a figure starts from by exactly what it leaves behind. */
  lemma DeathShifts(ob: Option<Book>, p: seq<Event>, q: seq<Event>, cut: Option<Event>, writes: nat, m: Meter, n: nat)
    requires TradingPhase(p + q) && RunOk(ob, p) && Count(ob, p + q) == n
    requires cut.Some? ==> q != [] && q[0] == cut.value
    ensures Count(Stopped(ob, p, cut, writes), p + q) == n
    ensures Base(Stopped(ob, p, cut, writes), p + q, m, n) == Base(ob, p + q, m, n) + LeftIn(n, ob, p, cut, writes, m)
  {
    hide Read, Delta, PartDelta, BookStep, PartBook, MeterSum, Base, Count;
    assert TradingPhase(p) by { assert forall e :: e in p ==> e in p + q; }
    assert cut.Some? ==> cut.value in p + q;
    var mid := MarketRun(ob, p);
    if ob.None? { BaseOfPrefix(p, q, m, n); }
    if mid.Some? {
      RunReads(ob, p, m);
      BaseOfBook(ob, p, q, m, n);
      if cut.Some? { CutMoves(mid.value, cut.value, writes, m); }
      BaseOfSome(Stopped(ob, p, cut, writes), p + q, m, n);
    } else {
      NoneStaysNone(ob, p);
      if Stopped(ob, p, cut, writes).Some? { CreatedByCut(q, cut.value, writes, m, n); }
    }
  }

  lemma {:induction false} NoneStaysNone(ob: Option<Book>, events: seq<Event>)
    requires MarketRun(ob, events).None?
    ensures ob.None?
    decreases |events|
  {
    if ob.Some? { OnceThereAlwaysThere(ob, events); }
  }

  lemma BaseOfSome(ob: Option<Book>, events: seq<Event>, m: Meter, n: nat)
    requires ob.Some?
    ensures Base(ob, events, m, n) == Read(ob.value, m) && Count(ob, events) == |ob.value.shares|
  {
  }

  lemma BaseOfBook(ob: Option<Book>, p: seq<Event>, q: seq<Event>, m: Meter, n: nat)
    ensures ob.Some? ==> Base(ob, p + q, m, n) == Base(ob, p, m, n) && Count(ob, p + q) == Count(ob, p)
  {
  }

  lemma CutMoves(b: Book, e: Event, writes: nat, m: Meter)
    requires IsTrade(e) || e.MarketCreated?
    ensures |PartBook(b, e, writes).shares| == |b.shares|
    ensures Read(PartBook(b, e, writes), m) == Read(b, m) + PartDelta(|b.shares|, e, writes, m)
  {
    if IsTrade(e) {
      PartMoves(b, e, writes, m);
    } else {
      CreatedAgain(b, e, writes);
    }
  }

  lemma CreatedByCut(q: seq<Event>, e: Event, writes: nat, m: Meter, n: nat)
    requires q != [] && q[0] == e && PartOf(None, e, writes).Some?
    ensures var b := PartOf(None, e, writes).value;
            && Read(b, m) == Base(None, q, m, n) && |b.shares| == Count(None, q) && PartDelta(n, e, writes, m) == 0
            && forall events :: Base(Some(b), events, m, n) == Read(b, m) && Count(Some(b), events) == |b.shares|
  {
  }

  // ---- any number of deaths ------------------------------------------------

  lemma DeathProjects(db: Db, logs: seq<Log>, d: Death, k: MarketKey) returns (q: seq<Event>)
    requires d.done <= |logs| && Run(db, logs[..d.done]).ok
    ensures var p := Events(logs[..d.done], k); var cut := CutShort(logs, d, k);
            && Events(logs, k) == p + q && RunOk(BookAt(db, k), p) && (cut.Some? ==> q != [] && q[0] == cut.value)
            && BookAt(AfterDeath(db, logs, d), k) == Stopped(BookAt(db, k), p, cut, d.writes)
            && forall n, m :: LeftBy(n, db, logs, d, k, m) == LeftIn(n, BookAt(db, k), p, cut, d.writes, m)
  {
    hide Run, PartStep, PartOf, MeterSum, PartDelta;
    var front, back := logs[..d.done], logs[d.done..];
    assert logs == front + back;
    EventsAppend(front, back, k);
    q := Events(back, k);
    RunProjects(db, front, k);
    if d.done < |logs| { PartProjects(Run(db, front).db, logs[d.done], d.writes, k); }
  }

  lemma {:induction false} DeathsShift(db: Db, logs: seq<Log>, deaths: seq<Death>, k: MarketKey, m: Meter, n: nat)
    requires Recovers(db, logs, deaths) && TradingPhase(Events(logs, k))
    requires Count(BookAt(db, k), Events(logs, k)) == n
    requires forall d :: d in deaths ==> d.done <= |logs|
    ensures var ob := BookAt(AfterDeaths(db, logs, deaths), k); var all := Events(logs, k);
            && Count(ob, all) == n && (k in db.books ==> ob.Some?)
            && Base(ob, all, m, n) == Base(BookAt(db, k), all, m, n) + LeftByAll(n, db, logs, deaths, k, m)
    decreases |deaths|
  {
    hide AfterDeath, Base, Count, LeftBy, Stopped, LeftIn, Run;
    if deaths != [] {
      var d := deaths[0];
      assert d in deaths;
      var q := DeathProjects(db, logs, d, k);
      var p, cut := Events(logs[..d.done], k), CutShort(logs, d, k);
      DeathShifts(BookAt(db, k), p, q, cut, d.writes, m, n);
      if k in db.books { StoppedStays(BookAt(db, k), p, cut, d.writes); }
      DeathsShift(AfterDeath(db, logs, d), logs, deaths[1..], k, m, n);
    }
  }

  lemma StoppedStays(ob: Option<Book>, p: seq<Event>, cut: Option<Event>, writes: nat)
    requires ob.Some?
    ensures Stopped(ob, p, cut, writes).Some?
  {
    OnceThereAlwaysThere(ob, p);
  }

  /**
   * A batch that died any number of times, between logs or inside a handler, and then went through.
   * Every figure of a trading market's book is off by what the dead attempts left in it, so it is
   * right exactly when that adds up to nothing; which it may for the pot and not for the stock.
   */
  lemma RescanCountsTwice(db: Db, logs: seq<Log>, deaths: seq<Death>, k: MarketKey, m: Meter)
    requires Run(db, logs).ok && Recovers(db, logs, deaths) && TradingPhase(Events(logs, k))
    requires k in Run(db, logs).db.books
    ensures forall d :: d in deaths ==> d.done <= |logs|
    ensures var clean := Run(db, logs).db.books[k]; var again := Run(AfterDeaths(db, logs, deaths), logs).db;
            && k in again.books && |again.books[k].shares| == |clean.shares|
            && Read(again.books[k], m) == Read(clean, m) + LeftByAll(|clean.shares|, db, logs, deaths, k, m)
            && (Read(again.books[k], m) == Read(clean, m) <==> LeftByAll(|clean.shares|, db, logs, deaths, k, m) == 0)
  {
    DeathsFit(db, logs, deaths);
    var all, after := Events(logs, k), AfterDeaths(db, logs, deaths);
    var n := Count(BookAt(db, k), all);
    hide Run, AfterDeaths, Base, Count, LeftByAll, Read, Recovers;
    RunProjects(db, logs, k);
    RunProjects(after, logs, k);
    DeathsShift(db, logs, deaths, k, m, n);
    if BookAt(after, k).Some? { OnceThereAlwaysThere(BookAt(after, k), all); }
    RunReads(BookAt(db, k), all, m);
    RunReads(BookAt(after, k), all, m);
  }

  /** A purchase and a sale for the same cash, left by a dead attempt: the pot is right, the stock is not. */
  lemma PotMayBeRightAlone(n: nat, account: string, cash: nat, bought: nat, sold: nat)
    requires n > 0
    ensures var left := [Bought(account, 0, bought, cash), Sold(account, 0, sold, cash)];
            && MeterSum(n, left, Pot) == 0 && MeterSum(n, left, AllCash) == 0
            && (MeterSum(n, left, Stock(0)) == 0 <==> bought == sold)
  {
    var left := [Bought(account, 0, bought, cash), Sold(account, 0, sold, cash)];
    assert left[1..] == [left[1]] && left[1..][1..] == [];
    assert forall m :: MeterSum(n, left, m) == Delta(n, left[0], m) + Delta(n, left[1], m) by {
      forall m: Meter ensures MeterSum(n, left, m) == Delta(n, left[0], m) + Delta(n, left[1], m) {
        assert MeterSum(n, left[1..], m) == Delta(n, left[1], m) + MeterSum(n, left[1..][1..], m);
      }
    }
  }

  // ---- single rows ---------------------------------------------------------

  /** The same row, or no row, in both books. */
  ghost predicate SameRow(b: Book, c: Book, h: Holder) {
    (h in b.held <==> h in c.held) && Held(b, h) == Held(c, h)
  }

  lemma UntouchedByStep(b: Book, e: Event, h: Holder)
    requires (IsTrade(e) || e.MarketCreated?) && BookStep(b, e).ok && !Touches(|b.shares|, e, h)
    ensures SameRow(BookStep(b, e).book, b, h) && |BookStep(b, e).book.shares| == |b.shares|
  {
    StepMoves(b, e, Pot);
    if IsTrade(e) && Taped(b, e) {
      TradeReplays(b, LogOf(e));
      hide BookStep, ShortShare;
    }
  }

  lemma SameStep(b: Book, c: Book, e: Event, h: Holder)
    requires (IsTrade(e) || e.MarketCreated?) && BookStep(b, e).ok && BookStep(c, e).ok
    requires |b.shares| == |c.shares| && SameRow(b, c, h)
    ensures SameRow(BookStep(b, e).book, BookStep(c, e).book, h)
  {
    if e.Shorted? && Taped(b, e) {
      TradeReplays(b, LogOf(e));
      TradeReplays(c, LogOf(e));
      SameReplay(b, c, TradeRow(LogOf(e)), h);
    } else {
      hide BuyPosition, SellPosition;
    }
  }

  lemma SameReplay(b: Book, c: Book, t: Trade, h: Holder)
    requires t.side.Short? && Replayable(|b.shares|, t) && |b.shares| == |c.shares| && SameRow(b, c, h)
    ensures var x, y := ReplayRow(ViewOf(b), t).held, ReplayRow(ViewOf(c), t).held;
            (h in x <==> h in y) && (h in x ==> x[h] == y[h])
  {
    hide ShortShare, BuyPosition;
    assert HeldIn(ViewOf(b), h) == Held(b, h) && HeldIn(ViewOf(c), h) == Held(c, h);
    assert h in ShortedRows(ViewOf(b), t) <==> h in ShortedRows(ViewOf(c), t);
  }

  // ---- rows over runs ------------------------------------------------------

  /** None of these events writes row `h`. */
  ghost predicate Untouching(n: nat, events: seq<Event>, h: Holder) {
    forall e :: e in events ==> !Touches(n, e, h)
  }

  lemma {:induction false} RowStays(b: Book, events: seq<Event>, h: Holder)
    requires TradingPhase(events) && RunOk(Some(b), events) && Untouching(|b.shares|, events, h)
    ensures var r := MarketRun(Some(b), events);
            r.Some? && SameRow(r.value, b, h) && |r.value.shares| == |b.shares|
    decreases |events|
  {
    if events != [] {
      hide BookStep, Touches;
      assert events[0] in events;
      UntouchedByStep(b, events[0], h);
      RowStays(BookStep(b, events[0]).book, events[1..], h);
    }
  }

  lemma {:induction false} RowsAgree(b: Book, c: Book, events: seq<Event>, h: Holder)
    requires TradingPhase(events) && RunOk(Some(b), events) && RunOk(Some(c), events)
    requires |b.shares| == |c.shares| && SameRow(b, c, h)
    ensures var r, s := MarketRun(Some(b), events), MarketRun(Some(c), events);
            r.Some? && s.Some? && SameRow(r.value, s.value, h)
    decreases |events|
  {
    if events != [] {
      hide BookStep, SameRow;
      var e := events[0];
      assert e in events;
      SameStep(b, c, e, h);
      StepMoves(b, e, Pot);
      StepMoves(c, e, Pot);
      RowsAgree(BookStep(b, e).book, BookStep(c, e).book, events[1..], h);
    }
  }

  /** The events before the one that creates the market. */
  function BeforeCreation(events: seq<Event>): seq<Event> {
    if events == [] || Creates(events[0]) then [] else [events[0]] + BeforeCreation(events[1..])
  }

  /** A book that a dead attempt created agrees with the one the clean run creates. */
  lemma {:induction false} CreatedEarly(c: Book, events: seq<Event>, h: Holder)
    requires TradingPhase(events) && RunOk(None, events) && RunOk(Some(c), events) && MarketRun(None, events).Some?
    requires Count(None, events) == |c.shares| && h !in c.held
    requires Untouching(|c.shares|, BeforeCreation(events), h)
    ensures var r, s := MarketRun(None, events), MarketRun(Some(c), events);
            s.Some? && SameRow(r.value, s.value, h)
    decreases |events|
  {
    var e := events[0];
    assert e in events;
    hide BookStep, Touches;
    if Creates(e) {
      CreatedTwice(c, e);
      RowsAgree(MarketStep(None, e).value, c, events[1..], h);
    } else {
      assert BeforeCreation(events)[0] == e && BeforeCreation(events)[1..] == BeforeCreation(events[1..]);
      assert forall x :: x in BeforeCreation(events[1..]) ==> x in BeforeCreation(events);
      UntouchedByStep(c, e, h);
      CreatedEarly(BookStep(c, e).book, events[1..], h);
    }
  }

  lemma CreatedTwice(c: Book, e: Event)
    requires Creates(e)
    ensures BookStep(c, e).book == c
  {
  }

  lemma UntouchedByLoop(b: Book, e: Event, v: nat, h: Holder)
    requires e.Shorted? && v <= 2 * |Legs(|b.shares|, e.outcome)| && !Touches(|b.shares|, e, h)
    ensures SameRow(PartShort(b, Lower(e.account), Legs(|b.shares|, e.outcome), e.shares, e.cost, v), b, h)
  {
    var legs := Legs(|b.shares|, e.outcome);
    LegsAt(|b.shares|, e.outcome);
    FilledLegs(b, Lower(e.account), legs, e.shares, e.cost, v / 2);
    hide FillLegs, LegFilled;
    assert h.account != Lower(e.account) || h.outcome !in legs[..v / 2];
  }

  lemma UntouchedByPart(b: Book, e: Event, writes: nat, h: Holder)
    requires (IsTrade(e) || e.MarketCreated?) && (writes > 0 ==> !Touches(|b.shares|, e, h))
    ensures SameRow(PartBook(b, e, writes), b, h)
  {
    hide PartShort, SameRow;
    SameRowAlways(b, h);
    if writes > 0 && e.Shorted? {
      if writes - 1 <= 2 * |Legs(|b.shares|, e.outcome)| {
        UntouchedByLoop(b, e, writes - 1, h);
      } else {
        ShortIsOk(b, e);
        UntouchedByStep(b, e, h);
      }
    } else if writes > 0 && IsTrade(e) {
      UntouchedByDeal(b, e, writes, h);
    }
  }

  lemma SameRowAlways(b: Book, h: Holder)
    ensures SameRow(b, b, h)
  {
  }

  lemma UntouchedByDeal(b: Book, e: Event, writes: nat, h: Holder)
    requires (e.Bought? || e.Sold?) && !Touches(|b.shares|, e, h)
    ensures SameRow(PartBook(b, e, writes), b, h)
  {
    if e.outcome < |b.shares| && writes >= 4 {
      UntouchedByStep(b, e, h);
    }
  }

  lemma {:induction false} CreatedWithout(p: seq<Event>, q: seq<Event>, h: Holder)
    requires TradingPhase(p) && RunOk(None, p) && Untouching(Count(None, p + q), p, h)
    ensures MarketRun(None, p).Some? ==>
              && h !in MarketRun(None, p).value.held && |MarketRun(None, p).value.shares| == Count(None, p + q)
              && BeforeCreation(p + q) == BeforeCreation(p)
    ensures MarketRun(None, p).None? ==> BeforeCreation(p + q) == p + BeforeCreation(q)
    decreases |p|
  {
    if p == [] {
      assert p + q == q;
    } else {
      hide BookStep, Touches;
      assert (p + q)[0] == p[0] && (p + q)[1..] == p[1..] + q;
      assert p[0] in p && forall e :: e in p[1..] ==> e in p;
      if Creates(p[0]) {
        RowStays(MarketStep(None, p[0]).value, p[1..], h);
      } else {
        CreatedWithout(p[1..], q, h);
        assert p + BeforeCreation(q) == [p[0]] + (p[1..] + BeforeCreation(q));
      }
    }
  }

  lemma {:induction false} BeforeIsAmong(events: seq<Event>)
    ensures forall e :: e in BeforeCreation(events) ==> e in events
  {
    if events != [] && !Creates(events[0]) { BeforeIsAmong(events[1..]); }
  }

  /** Row `h` is as it was at first, or as a fresh market has it. */
  ghost predicate Kept(first: Option<Book>, now: Option<Book>, all: seq<Event>, h: Holder, n: nat) {
    && Count(now, all) == n && (first.Some? ==> now.Some?)
    && (now.Some? ==>
          if first.Some? then SameRow(now.value, first.value, h)
          else h !in now.value.held && Untouching(n, BeforeCreation(all), h))
  }

  lemma DeathKeepsRow(first: Option<Book>, now: Option<Book>, p: seq<Event>, q: seq<Event>, cut: Option<Event>,
                      writes: nat, h: Holder, n: nat)
    requires TradingPhase(p + q) && RunOk(now, p) && Kept(first, now, p + q, h, n)
    requires cut.Some? ==> q != [] && q[0] == cut.value
    requires Untouching(n, p, h) && (cut.Some? && writes > 0 ==> !Touches(n, cut.value, h))
    ensures Kept(first, Stopped(now, p, cut, writes), p + q, h, n)
  {
    hide BookStep, PartBook, Touches, Base;
    assert TradingPhase(p) by { assert forall e :: e in p ==> e in p + q; }
    assert cut.Some? ==> cut.value in p + q;
    DeathShifts(now, p, q, cut, writes, Pot, n);
    if now.Some? {
      RowStays(now.value, p, h);
    } else {
      CreatedWithout(p, q, h);
      BeforeIsAmong(p);
    }
    var mid := MarketRun(now, p);
    if cut.Some? && mid.Some? {
      UntouchedByPart(mid.value, cut.value, writes, h);
    }
  }

  /** None of the attempts got to a trade of this row. */
  ghost predicate Spared(n: nat, logs: seq<Log>, deaths: seq<Death>, k: MarketKey, h: Holder) {
    forall d :: d in deaths ==>
      && d.done <= |logs| && Untouching(n, Events(logs[..d.done], k), h)
      && (CutShort(logs, d, k).Some? && d.writes > 0 ==> !Touches(n, CutShort(logs, d, k).value, h))
  }

  lemma {:induction false} DeathsKeepRow(first: Option<Book>, db: Db, logs: seq<Log>, deaths: seq<Death>, k: MarketKey,
                                         h: Holder, n: nat)
    requires Recovers(db, logs, deaths) && TradingPhase(Events(logs, k)) && Spared(n, logs, deaths, k, h)
    requires Kept(first, BookAt(db, k), Events(logs, k), h, n)
    ensures forall d :: d in deaths ==> d.done <= |logs|
    ensures Kept(first, BookAt(AfterDeaths(db, logs, deaths), k), Events(logs, k), h, n)
    decreases |deaths|
  {
    hide AfterDeath, Kept, Stopped, Run, Untouching, Touches;
    DeathsFit(db, logs, deaths);
    if deaths != [] {
      var d := deaths[0];
      assert d in deaths;
      var q := DeathProjects(db, logs, d, k);
      DeathKeepsRow(first, BookAt(db, k), Events(logs[..d.done], k), q, CutShort(logs, d, k), d.writes, h, n);
      DeathsKeepRow(first, AfterDeath(db, logs, d), logs, deaths[1..], k, h, n);
    }
  }

  /** A position that no dead attempt traded comes out of the re-scans exactly as it should. */
  lemma SparedRowIsRight(db: Db, logs: seq<Log>, deaths: seq<Death>, k: MarketKey, h: Holder)
    requires Run(db, logs).ok && Recovers(db, logs, deaths) && TradingPhase(Events(logs, k))
    requires k in Run(db, logs).db.books
    requires Spared(|Run(db, logs).db.books[k].shares|, logs, deaths, k, h)
    ensures forall d :: d in deaths ==> d.done <= |logs|
    ensures var again := Run(AfterDeaths(db, logs, deaths), logs).db;
            k in again.books && SameRow(again.books[k], Run(db, logs).db.books[k], h)
  {
    var all, first := Events(logs, k), BookAt(db, k);
    RescanCountsTwice(db, logs, deaths, k, Pot);
    DeathsFit(db, logs, deaths);
    var after := AfterDeaths(db, logs, deaths);
    var now := BookAt(after, k);
    hide Run, Recovers, AfterDeaths, Spared, Untouching;
    RunProjects(db, logs, k);
    RunProjects(after, logs, k);
    RunReads(first, all, Pot);
    DeathsKeepRow(first, db, logs, deaths, k, h, Count(first, all));
    if now.Some? {
      if first.Some? {
        RowsAgree(now.value, first.value, all, h);
      } else {
        CreatedEarly(now.value, all, h);
      }
    }
  }
}
