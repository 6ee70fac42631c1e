/** What a position row's figures are made of: what was paid in, what sales took out, what they brought. */
module CostBasis {
  import opened Common
  import opened ChainOrder
  import opened Ledger
  import opened LedgerLaws
  import opened LedgerRuns
  import opened Rescan

  // ---- one trade, one row --------------------------------------------------

  /** The cost a purchase, or one leg of a short, charges to row `h`. */
  function Charged(n: nat, e: Event, h: Holder): nat {
    if !Touches(n, e, h) || e.Sold? then 0
    else if e.Shorted? then
      assert OtherOutcomes(n, e.outcome) > 0;
      ShortShare(n, e.outcome, e.cost, h.outcome)
    else e.cost
  }

  function Credited(n: nat, e: Event, h: Holder): nat {
    if !Touches(n, e, h) || e.Sold? then 0 else e.shares
  }

  predicate Sells(n: nat, e: Event, h: Holder) {
    e.Sold? && Touches(n, e, h)
  }

  function Proceeds(n: nat, e: Event, h: Holder): nat {
    if Sells(n, e, h) then e.proceeds else 0
  }

  /** The shares a sale really takes: no more than the row has. */
  function Given(b: Book, e: Event, h: Holder): nat {
    if Sells(|b.shares|, e, h) then Min(e.shares, Held(b, h).shares) else 0
  }

  /** The basis it takes: the sold fraction, rounded down. */
  function Removed(b: Book, e: Event, h: Holder): nat {
    if Given(b, e, h) == 0 then 0
    else
      DivBounds(Held(b, h).basis * Given(b, e, h), Held(b, h).shares);
      Held(b, h).basis * Given(b, e, h) / Held(b, h).shares
  }

  /**
   * A purchase raises shares and basis by what it credited and cost and leaves the realised figure
   * alone; a sale takes shares and basis out and realises the proceeds less that basis; neither
   * touches the redeemed flag.
   */
  lemma StepFigures(b: Book, e: Event, h: Holder)
    requires (IsTrade(e) || e.MarketCreated?) && BookStep(b, e).ok
    ensures var p, q := Held(b, h), Held(BookStep(b, e).book, h); var n := |b.shares|;
            && q.shares + Given(b, e, h) == p.shares + Credited(n, e, h)
            && q.basis + Removed(b, e, h) == p.basis + Charged(n, e, h)
            && q.realized + Removed(b, e, h) == p.realized + Proceeds(n, e, h)
            && q.redeemed == p.redeemed && |BookStep(b, e).book.shares| == n
  {
    StepMoves(b, e, Pot);
    if !Touches(|b.shares|, e, h) {
      UntouchedByStep(b, e, h);
    } else if e.Shorted? {
      ShortedFigures(b, e, h);
    } else if e.Sold? {
      SoldFigures(b, e, h);
    }
  }

  lemma ShortedFigures(b: Book, e: Event, h: Holder)
    requires e.Shorted? && Touches(|b.shares|, e, h)
    ensures var p, q := Held(b, h), Held(BookStep(b, e).book, h);
            && q.shares == p.shares + e.shares && q.realized == p.realized && q.redeemed == p.redeemed
            && q.basis == p.basis + Charged(|b.shares|, e, h)
  {
    hide ShortShare, PriceWad;
    LegsAt(|b.shares|, e.outcome);
    ShortIsOk(b, e);
    TradeReplays(b, LogOf(e));
    hide BookStep;
    var t := TradeRow(LogOf(e));
    assert HeldIn(ViewOf(b), h) == Held(b, h);
    assert h == Holder(t.account, h.outcome) && h in ShortedRows(ViewOf(b), t);
  }

  lemma SoldFigures(b: Book, e: Event, h: Holder)
    requires Sells(|b.shares|, e, h)
    ensures var p, q := Held(b, h), Held(BookStep(b, e).book, h);
            && q.shares == p.shares - Given(b, e, h) && q.basis == p.basis - Removed(b, e, h)
            && q.realized == p.realized + e.proceeds - Removed(b, e, h) && q.redeemed == p.redeemed
  {
    var p := Held(b, h);
    assert h == Holder(Lower(e.account), e.outcome);
    assert Held(BookStep(b, e).book, h) == SellPosition(p, e.shares, e.proceeds);
    if p.shares > 0 && e.shares == 0 { assert p.basis * 0 / p.shares == 0; }
  }

  // ---- a trading history ---------------------------------------------------

  /** Sums over the events that find the market there. */
  function ChargedTotal(ob: Option<Book>, events: seq<Event>, h: Holder): nat
    decreases |events|
  {
    if events == [] then 0
    else
      (if ob.Some? then Charged(|ob.value.shares|, events[0], h) else 0)
      + ChargedTotal(MarketStep(ob, events[0]), events[1..], h)
  }

  function CreditedTotal(ob: Option<Book>, events: seq<Event>, h: Holder): nat
    decreases |events|
  {
    if events == [] then 0
    else
      (if ob.Some? then Credited(|ob.value.shares|, events[0], h) else 0)
      + CreditedTotal(MarketStep(ob, events[0]), events[1..], h)
  }

  function ProceedsTotal(ob: Option<Book>, events: seq<Event>, h: Holder): nat
    decreases |events|
  {
    if events == [] then 0
    else
      (if ob.Some? then Proceeds(|ob.value.shares|, events[0], h) else 0)
      + ProceedsTotal(MarketStep(ob, events[0]), events[1..], h)
  }

  function GivenTotal(ob: Option<Book>, events: seq<Event>, h: Holder): nat
    decreases |events|
  {
    if events == [] then 0
    else
      (if ob.Some? then Given(ob.value, events[0], h) else 0)
      + GivenTotal(MarketStep(ob, events[0]), events[1..], h)
  }

  function RemovedTotal(ob: Option<Book>, events: seq<Event>, h: Holder): nat
    decreases |events|
  {
    if events == [] then 0
    else
      (if ob.Some? then Removed(ob.value, events[0], h) else 0)
      + RemovedTotal(MarketStep(ob, events[0]), events[1..], h)
  }

  /** A row before the market exists, or before its first trade. */
  function Start(ob: Option<Book>, h: Holder): Position {
    if ob.Some? then Held(ob.value, h) else NO_POSITION
  }

  /**
   * Over any trading history: the basis left and all that sales took out make up all that was
   * charged; what was realised is the proceeds less the basis taken out; and the shares left and
   * given up make up those credited.
   */
  lemma {:induction false} FiguresAddUp(ob: Option<Book>, events: seq<Event>, h: Holder)
    requires TradingPhase(events) && RunOk(ob, events) && MarketRun(ob, events).Some?
    ensures var p, q := Start(ob, h), Held(MarketRun(ob, events).value, h);
            && q.shares + GivenTotal(ob, events, h) == p.shares + CreditedTotal(ob, events, h)
            && q.basis + RemovedTotal(ob, events, h) == p.basis + ChargedTotal(ob, events, h)
            && q.realized + RemovedTotal(ob, events, h) == p.realized + ProceedsTotal(ob, events, h)
            && q.redeemed == p.redeemed
    decreases |events|
  {
    if events != [] {
      var e := events[0];
      assert e in events;
      hide Charged, Credited, Proceeds, Given, Removed;
      if ob.Some? { StepFigures(ob.value, e, h); }
      if ob.None? && MarketStep(ob, e).Some? { assert h !in MarketStep(ob, e).value.held; }
      hide BookStep;
      FiguresAddUp(MarketStep(ob, e), events[1..], h);
    }
  }

  ghost predicate NeverSold(events: seq<Event>, h: Holder) {
    forall e :: e in events ==> !(e.Sold? && h == Holder(Lower(e.account), e.outcome))
  }

  lemma {:induction false} NothingTakenOut(ob: Option<Book>, events: seq<Event>, h: Holder)
    requires NeverSold(events, h)
    ensures RemovedTotal(ob, events, h) == 0 && ProceedsTotal(ob, events, h) == 0 && GivenTotal(ob, events, h) == 0
    decreases |events|
  {
    if events != [] {
      hide BookStep;
      assert events[0] in events;
      NothingTakenOut(MarketStep(ob, events[0]), events[1..], h);
    }
  }

  /** A position never sold from has realised nothing, and its basis is what its purchases and short legs cost. */
  lemma BasisIsWhatWasPaid(events: seq<Event>, h: Holder)
    requires TradingPhase(events) && RunOk(None, events) && MarketRun(None, events).Some? && NeverSold(events, h)
    ensures var q := Held(MarketRun(None, events).value, h);
            && q.realized == 0 && !q.redeemed
            && q.basis == ChargedTotal(None, events, h) && q.shares == CreditedTotal(None, events, h)
  {
    FiguresAddUp(None, events, h);
    NothingTakenOut(None, events, h);
  }
}
