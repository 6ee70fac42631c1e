/** What every history of trades keeps: cash, shares and cost basis. */
module LedgerLaws {
  import opened Common
  import opened ChainOrder
  import opened Ledger

  // ---- totals over a market's position rows --------------------------------

  ghost function CashColumn(held: map<Holder, Position>): map<Holder, int> {
    map h | h in held :: held[h].basis - held[h].realized
  }

  ghost function ShareColumn(held: map<Holder, Position>, i: nat): map<Holder, int> {
    map h | h in held && h.outcome == i :: held[h].shares
  }

  /** Collateral the positions account for: cost still at risk minus what has been realised. */
  ghost function NetCash(b: Book): int {
    Sum(CashColumn(b.held))
  }

  ghost function SharesHeld(b: Book, i: nat): int {
    Sum(ShareColumn(b.held, i))
  }

  lemma WriteRow(b: Book, h: Holder, p: Position)
    ensures var b' := b.(held := b.held[h := p]);
            && NetCash(b') == NetCash(b) + (p.basis - p.realized) - (Held(b, h).basis - Held(b, h).realized)
            && SharesHeld(b', h.outcome) == SharesHeld(b, h.outcome) + p.shares - Held(b, h).shares
            && forall i :: i != h.outcome ==> SharesHeld(b', i) == SharesHeld(b, i)
  {
    WriteCash(b, h, p);
    forall i: nat
      ensures SharesHeld(b.(held := b.held[h := p]), i) ==
                SharesHeld(b, i) + if i == h.outcome then p.shares - Held(b, h).shares else 0
    {
      WriteShares(b, h, p, i);
    }
  }

  lemma WriteCash(b: Book, h: Holder, p: Position)
    ensures NetCash(b.(held := b.held[h := p]))
              == NetCash(b) + (p.basis - p.realized) - (Held(b, h).basis - Held(b, h).realized)
  {
    assert CashColumn(b.held[h := p]) == CashColumn(b.held)[h := p.basis - p.realized];
    SumUpdate(CashColumn(b.held), h, p.basis - p.realized);
  }

  lemma WriteShares(b: Book, h: Holder, p: Position, i: nat)
    ensures SharesHeld(b.(held := b.held[h := p]), i)
              == SharesHeld(b, i) + if i == h.outcome then p.shares - Held(b, h).shares else 0
  {
    if i == h.outcome {
      assert ShareColumn(b.held[h := p], i) == ShareColumn(b.held, i)[h := p.shares];
      SumUpdate(ShareColumn(b.held, i), h, p.shares);
    } else {
      assert ShareColumn(b.held[h := p], i) == ShareColumn(b.held, i);
    }
  }

  // ---- one trade -----------------------------------------------------------

  function Amount(e: Event): nat
    requires IsTrade(e)
  {
    match e
    case Bought(_, _, _, cost) => cost
    case Sold(_, _, _, proceeds) => proceeds
    case Shorted(_, _, _, cost) => cost
  }

  /** Shares sold beyond what the account's row holds of outcome `i`. */
  function Oversold(b: Book, e: Event, i: nat): nat {
    if e.Sold? && e.outcome == i && e.shares > Held(b, Holder(Lower(e.account), i)).shares
    then e.shares - Held(b, Holder(Lower(e.account), i)).shares else 0
  }

  /** How far the position rows of outcome `i` run ahead of its outstanding stock. */
  ghost function Excess(b: Book, i: nat): int
    requires i < |b.shares|
  {
    SharesHeld(b, i) - (b.shares[i] - b.seed)
  }

  /** The sums read the position rows and nothing else. */
  lemma SharesAlone(b: Book, c: Book)
    requires c.held == b.held
    ensures NetCash(c) == NetCash(b) && forall i: nat :: SharesHeld(c, i) == SharesHeld(b, i)
  {
  }

  lemma LegConserves(b: Book, h: Holder, shares: nat, basis: nat)
    requires h.outcome < |b.shares|
    ensures var b' := CreditLeg(b, h, shares, basis);
            && NetCash(b') == NetCash(b) + basis
            && forall i :: 0 <= i < |b.shares| ==> Excess(b', i) == Excess(b, i)
  {
    hide NetCash, SharesHeld;
    var stocked := b.(shares := b.shares[h.outcome := b.shares[h.outcome] + shares]);
    SharesAlone(b, stocked);
    WriteRow(stocked, h, BuyPosition(Held(stocked, h), shares, basis));
  }

  /** Every leg but the last pays the floor of an equal share; the last pays what is left. */
  lemma SplitSoFar(cost: nat, legs: nat, n: nat)
    requires 0 < n <= legs
    ensures (if n == legs then cost else cost / legs * n) == cost / legs * (n - 1) + LegBasis(cost, legs, n - 1)
  {
    var each := cost / legs;
    assert each * n == each * (n - 1) + each;
  }

  lemma {:induction false} LegsConserve(b: Book, account: string, legs: seq<nat>, shares: nat, cost: nat, n: nat)
    requires n <= |legs| && forall k :: 0 <= k < |legs| ==> legs[k] < |b.shares|
    ensures var b' := FillLegs(b, account, legs, shares, cost, n);
            && NetCash(b') == NetCash(b) + (if n == 0 then 0 else if n == |legs| then cost else cost / |legs| * n)
            && (forall i :: 0 <= i < |b.shares| ==> Excess(b', i) == Excess(b, i))
            && b'.pot == b.pot && b'.seed == b.seed && b'.status == b.status
  {
    if n > 0 {
      hide NetCash, Excess, CreditLeg, LegBasis;
      LegsConserve(b, account, legs, shares, cost, n - 1);
      LegConserves(FillLegs(b, account, legs, shares, cost, n - 1), Holder(account, legs[n - 1]), shares,
                   LegBasis(cost, |legs|, n - 1));
      SplitSoFar(cost, |legs|, n);
    }
  }

  /**
   * Every trade moves the pot and the position rows by the same cash, and moves an outcome's stock
   * and its position rows by the same shares except for what was oversold. A handler that throws
   * half-way (an outcome the market does not have) has moved the pot alone.
   */
  lemma TradeConserves(b: Book, e: Event)
    requires IsTrade(e)
    ensures var r := BookStep(b, e); var b' := r.book;
            && (b'.pot - NetCash(b') == b.pot - NetCash(b) <==> r.ok || Amount(e) == 0)
            && |b'.shares| == |b.shares| && b'.seed == b.seed && b'.status == b.status
            && (r.ok ==> forall i :: 0 <= i < |b.shares| ==> Excess(b', i) == Excess(b, i) + Oversold(b, e, i))
  {
    var b' := BookStep(b, e).book;
    if !e.Shorted? {
      if e.outcome < |b.shares| {
        var h := Holder(Lower(e.account), e.outcome);
        WriteRow(b, h, b'.held[h]);
      }
    } else {
      var legs := Legs(|b.shares|, e.outcome);
      LegsConserve(b, Lower(e.account), legs, e.shares, e.cost, |legs|);
      if legs == [] {
        assert b' == b;
      }
    }
  }

  // ---- one market's history ------------------------------------------------

  function MarketStep(ob: Option<Book>, e: Event): Option<Book> {
    match ob
    case Some(b) => Some(BookStep(b, e).book)
    case None =>
      if e.MarketCreated? && e.outcomeCount > 0 then Some(Genesis(e.outcomeCount, e.seedPerOutcome, e.seedCost))
      else None
  }

  predicate StepOk(ob: Option<Book>, e: Event) {
    if e.MarketCreated? then e.outcomeCount > 0 else ob.Some? ==> BookStep(ob.value, e).ok
  }

  /** A market's book after its own events, oldest first. */
  function MarketRun(ob: Option<Book>, events: seq<Event>): Option<Book>
    decreases |events|
  {
    if events == [] then ob else MarketRun(MarketStep(ob, events[0]), events[1..])
  }

  predicate RunOk(ob: Option<Book>, events: seq<Event>)
    decreases |events|
  {
    events == [] || (StepOk(ob, events[0]) && RunOk(MarketStep(ob, events[0]), events[1..]))
  }

  function OversoldTotal(ob: Option<Book>, events: seq<Event>, i: nat): nat
    decreases |events|
  {
    if events == [] then 0
    else
      (if ob.Some? then Oversold(ob.value, events[0], i) else 0)
      + OversoldTotal(MarketStep(ob, events[0]), events[1..], i)
  }

  ghost predicate TradingPhase(events: seq<Event>) {
    forall e :: e in events ==> IsTrade(e) || e.MarketCreated?
  }

  lemma {:induction false} TradesConserve(b: Book, events: seq<Event>)
    requires TradingPhase(events) && RunOk(Some(b), events)
    ensures var r := MarketRun(Some(b), events);
            && r.Some? && |r.value.shares| == |b.shares| && r.value.seed == b.seed && r.value.status == b.status
            && r.value.pot - NetCash(r.value) == b.pot - NetCash(b)
            && forall i :: 0 <= i < |b.shares| ==> Excess(r.value, i) == Excess(b, i) + OversoldTotal(Some(b), events, i)
    decreases |events|
  {
    if events != [] {
      var e := events[0];
      assert e in events;
      if IsTrade(e) {
        TradeConserves(b, e);
      }
      TradesConserve(BookStep(b, e).book, events[1..]);
    }
  }

  /** The event that brought the market into being: the first creation, later ones change nothing. */
  function Creation(events: seq<Event>): Option<Event> {
    if events == [] then None
    else if events[0].MarketCreated? && events[0].outcomeCount > 0 then Some(events[0])
    else Creation(events[1..])
  }

  lemma {:induction false} GenesisBalances(count: nat, seed: nat, seedCost: nat)
    ensures var g := Genesis(count, seed, seedCost);
            NetCash(g) == 0 && forall i :: 0 <= i < count ==> Excess(g, i) == 0
  {
    var g := Genesis(count, seed, seedCost);
    assert CashColumn(g.held) == map[];
    forall i | 0 <= i < count
      ensures Excess(g, i) == 0
    {
      assert ShareColumn(g.held, i) == map[];
    }
  }

  /**
   * Trading-phase conservation over a market's whole life so far: the pot above the creator's seed
   * cost is exactly what the position rows have put in and not yet taken out, and the position rows
   * of each outcome exceed its traded stock by exactly what was oversold.
   */
  lemma {:induction false} Conservation(events: seq<Event>)
    requires TradingPhase(events) && RunOk(None, events)
    ensures var r := MarketRun(None, events); var c := Creation(events);
            && (r.Some? <==> c.Some?)
            && (r.Some? ==>
                  && c.value.MarketCreated? && r.value.seed == c.value.seedPerOutcome
                  && |r.value.shares| == c.value.outcomeCount && r.value.status == Trading
                  && r.value.pot - c.value.seedCost == NetCash(r.value)
                  && forall i :: 0 <= i < |r.value.shares| ==>
                       r.value.shares[i] - r.value.seed == SharesHeld(r.value, i) - OversoldTotal(None, events, i))
    decreases |events|
  {
    if events != [] {
      var e := events[0];
      assert e in events;
      if e.MarketCreated? && e.outcomeCount > 0 {
        GenesisBalances(e.outcomeCount, e.seedPerOutcome, e.seedCost);
        TradesConserve(Genesis(e.outcomeCount, e.seedPerOutcome, e.seedCost), events[1..]);
      } else {
        Conservation(events[1..]);
      }
    }
  }

  // ---- cost basis ----------------------------------------------------------

  /** A run of sales out of one position row. */
  function SellAll(p: Position, sales: seq<(nat, nat)>): Position {
    if sales == [] then p
    else
      var n := |sales| - 1;
      SellPosition(SellAll(p, sales[..n]), sales[n].0, sales[n].1)
  }

  /** `q.basis` lies in [start.basis * q.shares / start.shares, that + k), with equality for k = 0. */
  ghost predicate ProRata(start: Position, q: Position, k: nat) {
    && q.shares <= start.shares
    && start.basis * q.shares <= q.basis * start.shares
    && q.basis * start.shares <= start.basis * q.shares + k * start.shares
    && (k > 0 ==> q.basis * start.shares < start.basis * q.shares + k * start.shares)
  }

  lemma Cancel(s: nat, x: nat, y: nat)
    requires 0 < s
    ensures s * x <= s * y ==> x <= y
    ensures s * x < s * y ==> x < y
  {
    MulMono(y, x, s);
    MulMono(x, y, s);
  }

  lemma SaleKeepsProRata(start: Position, q: Position, k: nat, shares: nat, proceeds: nat)
    requires 0 < start.shares && ProRata(start, q, k)
    ensures ProRata(start, SellPosition(q, shares, proceeds), k + 1)
  {
    var C, S := start.basis, start.shares;
    var b, s := q.basis, q.shares;
    var q' := SellPosition(q, shares, proceeds);
    var b', s' := q'.basis, q'.shares;
    assert (k + 1) * S == k * S + S;
    if s > 0 {
      var f := b - b';
      DivBounds(b * (s - s'), s);
      assert f * s <= b * (s - s') < f * s + s;
      Remainder(b, b', s, s');
      LowerSide(C, S, b, s, b', s');
      UpperSide(C, S, b, s, b', s', k);
    }
  }

  lemma Remainder(b: nat, b': nat, s: nat, s': nat)
    requires b' <= b && s' <= s
    requires (b - b') * s <= b * (s - s') < (b - b') * s + s
    ensures b * s' <= b' * s < b * s' + s
  {
    assert (b - b') * s == b * s - b' * s;
    assert b * (s - s') == b * s - b * s';
  }

  lemma LowerSide(C: nat, S: nat, b: nat, s: nat, b': nat, s': nat)
    requires 0 < s && C * s <= b * S && b * s' <= b' * s
    ensures C * s' <= b' * S
  {
    MulMono(b * s', b' * s, S);
    MulMono(C * s, b * S, s');
    assert s * (C * s') == (C * s) * s';
    assert (b * S) * s' == (b * s') * S;
    assert (b' * s) * S == s * (b' * S);
    Cancel(s, C * s', b' * S);
  }

  lemma UpperSide(C: nat, S: nat, b: nat, s: nat, b': nat, s': nat, k: nat)
    requires 0 < s && 0 < S && s' <= s && b * S <= C * s + k * S && b' * s < b * s' + s
    ensures b' * S < C * s' + (k + 1) * S
  {
    UpperLeft(S, b, s, b', s');
    UpperRight(C, S, b, s, s', k);
    assert s * (C * s' + (k + 1) * S) == s * (C * s') + s * (k * S) + s * S by { Spread(s, C * s', k, S); }
    Cancel(s, b' * S, C * s' + (k + 1) * S);
  }

  lemma Spread(s: nat, x: nat, k: nat, S: nat)
    ensures s * (x + (k + 1) * S) == s * x + s * (k * S) + s * S
  {
    assert (k + 1) * S == k * S + S;
  }

  lemma UpperLeft(S: nat, b: nat, s: nat, b': nat, s': nat)
    requires 0 < S && b' * s < b * s' + s
    ensures s * (b' * S) < (b * S) * s' + s * S
  {
    MulMono(b' * s, b * s' + s, S);
    assert (b' * s) * S == s * (b' * S);
    assert (b * s' + s) * S == (b * S) * s' + s * S;
  }

  lemma UpperRight(C: nat, S: nat, b: nat, s: nat, s': nat, k: nat)
    requires s' <= s && b * S <= C * s + k * S
    ensures (b * S) * s' <= s * (C * s') + s * (k * S)
  {
    MulMono(b * S, C * s + k * S, s');
    MulMono(s', s, k * S);
    assert (C * s + k * S) * s' == s * (C * s') + s' * (k * S);
  }

  /**
   * Rounding never compounds: after `k` sales of any sizes the basis left is the exact pro-rata
   * share of the original, rounded up by less than one unit a sale.
   */
  lemma {:induction false} BasisRounding(p: Position, sales: seq<(nat, nat)>)
    requires 0 < p.shares
    ensures ProRata(p, SellAll(p, sales), |sales|)
  {
    if sales != [] {
      var n := |sales| - 1;
      BasisRounding(p, sales[..n]);
      SaleKeepsProRata(p, SellAll(p, sales[..n]), n, sales[n].0, sales[n].1);
    }
  }

  /** No row keeps a cost basis after its last share has gone. */
  ghost predicate NoBasisWithoutShares(b: Book) {
    forall h :: h in b.held && b.held[h].shares == 0 ==> b.held[h].basis == 0
  }

  /** Purchases that credit at least one share, and sales of any size. */
  ghost predicate BuysCredit(events: seq<Event>) {
    forall e :: e in events ==> (e.Bought? || e.Shorted? ==> e.shares > 0)
  }

  lemma {:induction false} LegsCredit(b: Book, account: string, legs: seq<nat>, shares: nat, cost: nat, n: nat)
    requires n <= |legs| && forall k :: 0 <= k < |legs| ==> legs[k] < |b.shares|
    requires NoBasisWithoutShares(b) && shares > 0
    ensures NoBasisWithoutShares(FillLegs(b, account, legs, shares, cost, n))
  {
    if n > 0 {
      LegsCredit(b, account, legs, shares, cost, n - 1);
    }
  }

  lemma EventClosesOut(b: Book, e: Event)
    requires NoBasisWithoutShares(b) && (e.Bought? || e.Shorted? ==> e.shares > 0)
    ensures NoBasisWithoutShares(BookStep(b, e).book)
  {
    match e
    case Shorted(account, i, shares, cost) =>
      var legs := Legs(|b.shares|, i);
      LegsCredit(b, Lower(account), legs, shares, cost, |legs|);
    case Sold(account, i, shares, proceeds) =>
      var p := Held(b, Holder(Lower(account), i));
      if shares >= p.shares > 0 {
        ShareOfBasis(p.basis, p.shares, p.shares);
      }
    case _ =>
  }

  /** A position sold down to nothing has exactly zero basis, whatever else the market has done. */
  lemma {:induction false} ClosedOutIsZero(ob: Option<Book>, events: seq<Event>)
    requires BuysCredit(events) && (ob.Some? ==> NoBasisWithoutShares(ob.value))
    ensures var r := MarketRun(ob, events); r.Some? ==> NoBasisWithoutShares(r.value)
    decreases |events|
  {
    if events != [] {
      assert events[0] in events;
      if ob.Some? {
        EventClosesOut(ob.value, events[0]);
      }
      ClosedOutIsZero(MarketStep(ob, events[0]), events[1..]);
    }
  }
}
