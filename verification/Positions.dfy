/** What the portfolio screen says positions are worth, tied to the ledger's totals. */
module Positions {
  import opened Common
  import opened Ledger
  import opened LedgerLaws

  /** `markToMarket`; `prices` are the live prices (WAD) of the market's outcome rows. */
  function MarkToMarket(b: Book, prices: seq<nat>, outcome: nat, p: Position): Option<nat> {
    if p.shares == 0 then Some(0)
    else match b.status
      case Resolved => Some(if b.winner == Some(outcome) then p.shares else 0)
      case Invalid => Some(p.basis)
      case Trading => if outcome < |prices| then Some(p.shares * prices[outcome] / WAD) else None
  }

  /** The figure shown for each position of a settled market. */
  ghost function MarkColumn(b: Book): map<Holder, int>
    requires !b.status.Trading?
  {
    map h | h in b.held :: MarkToMarket(b, [], h.outcome, b.held[h]).value
  }

  ghost predicate ClaimsOnly(events: seq<Event>) {
    forall e :: e in events ==> e.Redeemed? || e.SeedRedeemed?
  }

  /** Claiming moves cash and flags; it never touches shares, basis, stock or the settled status. */
  lemma {:induction false} ClaimsKeepShares(b: Book, events: seq<Event>)
    requires ClaimsOnly(events)
    ensures var r := MarketRun(Some(b), events);
            && r.Some? && r.value.shares == b.shares && r.value.seed == b.seed
            && r.value.status == b.status && r.value.winner == b.winner
            && r.value.held.Keys == b.held.Keys
            && forall h :: h in b.held ==>
                 r.value.held[h].shares == b.held[h].shares && r.value.held[h].basis == b.held[h].basis
    decreases |events|
  {
    if events != [] {
      assert events[0] in events;
      ClaimsKeepShares(BookStep(b, events[0]).book, events[1..]);
    }
  }

  lemma {:induction false} RunOfConcat(ob: Option<Book>, a: seq<Event>, b: seq<Event>)
    ensures MarketRun(ob, a + b) == MarketRun(MarketRun(ob, a), b)
    decreases |a|
  {
    if a == [] {
      assert a + b == b;
    } else {
      assert (a + b)[0] == a[0] && (a + b)[1..] == a[1..] + b;
      RunOfConcat(MarketStep(ob, a[0]), a[1..], b);
    }
  }

  /**
   * Everything the portfolio shows as won on a resolved market adds up to the winning outcome's
   * traded stock, plus whatever was oversold of it; claims in between change nothing.
   */
  lemma WinningsAddUp(trading: seq<Event>, winner: nat, owed: nat, surplus: nat, claims: seq<Event>)
    requires TradingPhase(trading) && RunOk(None, trading) && ClaimsOnly(claims)
    requires MarketRun(None, trading).Some? && winner < |MarketRun(None, trading).value.shares|
    ensures var r := MarketRun(None, trading + [MarketResolved(winner, owed, surplus)] + claims);
            && r.Some? && r.value.status == Resolved && winner < |r.value.shares|
            && Sum(MarkColumn(r.value)) == r.value.shares[winner] - r.value.seed + OversoldTotal(None, trading, winner)
  {
    var settle := [MarketResolved(winner, owed, surplus)];
    RunOfConcat(None, trading + settle, claims);
    RunOfConcat(None, trading, settle);
    Conservation(trading);
    var b := MarketRun(None, trading).value;
    var s := BookStep(b, settle[0]).book;
    assert MarketRun(Some(b), settle) == Some(s);
    ClaimsKeepShares(s, claims);
    var r := MarketRun(Some(s), claims).value;
    assert ShareColumn(r.held, winner) == ShareColumn(b.held, winner);
    SumSkipsZeros(MarkColumn(r), ShareColumn(r.held, winner));
  }

  ghost function BasisColumn(b: Book): map<Holder, int> {
    map h | h in b.held :: b.held[h].basis
  }

  /**
   * A voided market refunds the whole cost basis on screen, although a row without shares is always
   * shown as zero: no such row has any basis left while every purchase credits a share.
   */
  lemma RefundsAddUp(trading: seq<Event>, surplus: nat, claims: seq<Event>)
    requires TradingPhase(trading) && BuysCredit(trading) && ClaimsOnly(claims)
    requires MarketRun(None, trading).Some?
    ensures var r := MarketRun(None, trading + [MarketInvalidated(surplus)] + claims);
            && r.Some? && r.value.status == Invalid
            && Sum(MarkColumn(r.value)) == Sum(BasisColumn(r.value))
            && BasisColumn(r.value) == BasisColumn(MarketRun(None, trading).value)
  {
    var void := [MarketInvalidated(surplus)];
    RunOfConcat(None, trading + void, claims);
    RunOfConcat(None, trading, void);
    ClosedOutIsZero(None, trading);
    var b := MarketRun(None, trading).value;
    var s := BookStep(b, void[0]).book;
    assert MarketRun(Some(b), void) == Some(s);
    ClaimsKeepShares(s, claims);
    var r := MarketRun(Some(s), claims).value;
    assert MarkColumn(r) == BasisColumn(r);
  }

  // ---- single figures ------------------------------------------------------

  /** While trading, a position is shown at its shares times the live price, rounded down to a unit. */
  lemma MarkIsFloor(b: Book, prices: seq<nat>, outcome: nat, p: Position)
    requires b.status.Trading? && p.shares > 0
    ensures MarkToMarket(b, prices, outcome, p).None? <==> outcome >= |prices|
    ensures outcome < |prices| ==>
              var v := MarkToMarket(b, prices, outcome, p).value;
              v * 1_000_000_000_000_000_000 <= p.shares * prices[outcome] < (v + 1) * 1_000_000_000_000_000_000
  {
    if outcome < |prices| {
      DivBounds(p.shares * prices[outcome], WAD);
    }
  }

  /** An empty row is worth nothing; a settled one its winning shares, or its refund. */
  lemma SettledMark(b: Book, prices: seq<nat>, outcome: nat, p: Position)
    ensures p.shares == 0 ==> MarkToMarket(b, prices, outcome, p) == Some(0)
    ensures p.shares > 0 && b.status.Resolved? && b.winner == Some(outcome) ==>
              MarkToMarket(b, prices, outcome, p) == Some(p.shares)
    ensures b.status.Resolved? && b.winner != Some(outcome) ==> MarkToMarket(b, prices, outcome, p) == Some(0)
    ensures p.shares > 0 && b.status.Invalid? ==> MarkToMarket(b, prices, outcome, p) == Some(p.basis)
  {
  }

  /** What a run of claims pays out in all, and to one account. */
  function PaidOut(events: seq<Event>): nat {
    if events == [] then 0
    else
      (if events[0].Redeemed? || events[0].SeedRedeemed? then events[0].amount else 0) + PaidOut(events[1..])
  }

  function PaidTo(events: seq<Event>, account: string): nat {
    if events == [] then 0
    else
      (if events[0].Redeemed? && Lower(events[0].account) == account then events[0].amount else 0)
      + PaidTo(events[1..], account)
  }

  predicate HasClaimed(events: seq<Event>, account: string) {
    exists i :: 0 <= i < |events| && events[i].Redeemed? && Lower(events[i].account) == account
  }

  /** Claims lower the pot by what they pay, and credit an account's payouts to every one of its rows. */
  lemma {:induction false} ClaimsPay(b: Book, claims: seq<Event>)
    requires ClaimsOnly(claims)
    ensures var r := MarketRun(Some(b), claims);
            && r.Some? && r.value.pot == b.pot - PaidOut(claims) && r.value.surplus == b.surplus
            && r.value.held.Keys == b.held.Keys
            && forall h :: h in b.held ==>
                 && r.value.held[h].realized == b.held[h].realized + PaidTo(claims, h.account)
                 && (r.value.held[h].redeemed <==> b.held[h].redeemed || HasClaimed(claims, h.account))
    decreases |claims|
  {
    if claims != [] {
      var e := claims[0];
      assert e in claims;
      var c := BookStep(b, e).book;
      ClaimsPay(c, claims[1..]);
      forall h | h in b.held
        ensures HasClaimed(claims, h.account) <==> (e.Redeemed? && Lower(e.account) == h.account) || HasClaimed(claims[1..], h.account)
      {
        OneMoreClaim(claims, h.account);
      }
      hide HasClaimed;
    }
  }

  lemma OneMoreClaim(claims: seq<Event>, account: string)
    requires claims != []
    ensures HasClaimed(claims, account) <==>
            (claims[0].Redeemed? && Lower(claims[0].account) == account) || HasClaimed(claims[1..], account)
  {
    hide Lower;
    if i :| 0 <= i < |claims| && claims[i].Redeemed? && Lower(claims[i].account) == account {
      if i > 0 { assert claims[1..][i - 1] == claims[i]; }
    }
    if i :| 0 <= i < |claims[1..]| && claims[1..][i].Redeemed? && Lower(claims[1..][i].account) == account {
      assert claims[i + 1] == claims[1..][i];
    }
  }

  /**
   * After a resolution the pot is what the event says is owed, less what has been claimed since; after
   * an invalidation, what it was, less that. Winner and surplus are the event's.
   */
  lemma SettledFigures(b: Book, settle: Event, claims: seq<Event>)
    requires (settle.MarketResolved? || settle.MarketInvalidated?) && ClaimsOnly(claims)
    ensures var r := MarketRun(Some(b), [settle] + claims);
            && r.Some? && r.value.surplus == Some(settle.surplus)
            && (settle.MarketResolved? ==>
                  r.value.status == Resolved && r.value.winner == Some(settle.winner) && r.value.pot == settle.owed - PaidOut(claims))
            && (settle.MarketInvalidated? ==>
                  r.value.status == Invalid && r.value.winner == b.winner && r.value.pot == b.pot - PaidOut(claims))
            && r.value.held.Keys == b.held.Keys
            && forall h :: h in b.held ==>
                 && r.value.held[h].shares == b.held[h].shares && r.value.held[h].basis == b.held[h].basis
                 && r.value.held[h].realized == b.held[h].realized + PaidTo(claims, h.account)
  {
    var s := BookStep(b, settle).book;
    assert ([settle] + claims)[1..] == claims;
    ClaimsKeepShares(s, claims);
    ClaimsPay(s, claims);
  }
}
