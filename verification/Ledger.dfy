/**
 * The market ledger as values: what each engine event does to one market's book.
 *
 * A book is the market row, its outcome rows and its position rows (the position table's unique key
 * starts with the market, so its rows are grouped by market here).
 */
module Ledger {
  import opened Common
  import opened ChainOrder

  const WAD: nat := 1_000_000_000_000_000_000

  datatype MarketKey = MarketKey(address: string, id: nat)

  datatype Status = Trading | Resolved | Invalid

  /** One position row's key inside its market. `account` is always lower case. */
  datatype Holder = Holder(account: string, outcome: nat)

  datatype Position = Position(shares: nat, basis: nat, realized: int, redeemed: bool)

  datatype Book = Book(
    seed: nat, pot: int, shares: seq<int>, held: map<Holder, Position>,
    status: Status, winner: Option<nat>, surplus: Option<nat>)

  datatype Side = Buy | Sell | Short

  datatype Event =
    | MarketCreated(outcomeCount: nat, seedPerOutcome: nat, seedCost: nat)
    | Bought(account: string, outcome: nat, shares: nat, cost: nat)
    | Sold(account: string, outcome: nat, shares: nat, proceeds: nat)
    | Shorted(account: string, outcome: nat, shares: nat, cost: nat)
    | MarketResolved(winner: nat, owed: nat, surplus: nat)
    | MarketInvalidated(surplus: nat)
    | Redeemed(account: string, amount: nat)
    | SeedRedeemed(amount: nat)

  predicate IsTrade(e: Event) {
    e.Bought? || e.Sold? || e.Shorted?
  }

  // ---- one position --------------------------------------------------------

  const NO_POSITION := Position(0, 0, 0, false)

  function Held(b: Book, h: Holder): Position {
    if h in b.held then b.held[h] else NO_POSITION
  }

  lemma ShareOfBasis(basis: nat, sold: nat, shares: nat)
    requires 0 < shares && sold <= shares
    ensures 0 <= basis * sold / shares <= basis
    ensures sold == shares ==> basis * sold / shares == basis
  {
    MulMono(sold, shares, basis);
    DivExact(basis, shares);
    DivMono(basis * sold, basis * shares, shares);
  }

  /** The basis a sale takes out: the sold fraction of it, rounded down. */
  function BasisRemoved(p: Position, sold: nat): (removed: nat)
    requires sold <= p.shares
    ensures removed <= p.basis
  {
    if p.shares == 0 then 0 else
      ShareOfBasis(p.basis, sold, p.shares);
      p.basis * sold / p.shares
  }

  function SellPosition(p: Position, shares: nat, proceeds: nat): Position {
    var sold := if shares > p.shares then p.shares else shares;
    var removed := BasisRemoved(p, sold);
    p.(shares := p.shares - sold, basis := p.basis - removed, realized := p.realized + (proceeds - removed))
  }

  function BuyPosition(p: Position, shares: nat, cost: nat): Position {
    p.(shares := p.shares + shares, basis := p.basis + cost)
  }

  // ---- one market ----------------------------------------------------------

  function Genesis(outcomeCount: nat, seed: nat, seedCost: nat): Book {
    Book(seed, seedCost, seq(outcomeCount, _ => seed), map[], Trading, None, None)
  }

  function BuyInto(b: Book, h: Holder, shares: nat, cost: nat): Book {
    b.(held := b.held[h := BuyPosition(Held(b, h), shares, cost)])
  }

  /** The outcomes a short credits: every one except the outcome bet against. */
  function Legs(count: nat, shorted: nat): (legs: seq<nat>)
    ensures forall k :: 0 <= k < |legs| ==> legs[k] < count && legs[k] != shorted
    ensures forall i :: 0 <= i < count && i != shorted ==> i in legs
    ensures forall j, k :: 0 <= j < k < |legs| ==> legs[j] < legs[k]
  {
    if count == 0 then []
    else if count - 1 == shorted then Legs(count - 1, shorted)
    else Legs(count - 1, shorted) + [count - 1]
  }

  /** The part of a short's cost charged to leg `k`; the last leg takes the remainder. */
  function LegBasis(cost: nat, legs: nat, k: nat): nat
    requires k < legs
  {
    PerLeg(cost, legs);
    if k == legs - 1 then cost - cost / legs * (legs - 1) else cost / legs
  }

  lemma PerLeg(cost: nat, legs: nat)
    requires 0 < legs
    ensures 0 <= cost / legs * (legs - 1) <= cost
  {
    DivBounds(cost, legs);
    MulMono(legs - 1, legs, cost / legs);
  }

  function CreditLeg(b: Book, h: Holder, shares: nat, basis: nat): Book
    requires h.outcome < |b.shares|
  {
    BuyInto(b.(shares := b.shares[h.outcome := b.shares[h.outcome] + shares]), h, shares, basis)
  }

  /** The first `n` iterations of the leg loop. */
  function FillLegs(b: Book, account: string, legs: seq<nat>, shares: nat, cost: nat, n: nat): Book
    requires n <= |legs| && forall k :: 0 <= k < |legs| ==> legs[k] < |b.shares|
    ensures |FillLegs(b, account, legs, shares, cost, n).shares| == |b.shares|
  {
    if n == 0 then b else
      var done := FillLegs(b, account, legs, shares, cost, n - 1);
      CreditLeg(done, Holder(account, legs[n - 1]), shares, LegBasis(cost, |legs|, n - 1))
  }

  /** The rows touched by an event, and whether its handler ran to the end or threw. */
  datatype Booked = Booked(book: Book, ok: bool)

  /**
   * What the handlers do to an existing market. An outcome index the market does not have makes the
   * outcome update throw after the pot has already moved.
   */
  function BookStep(b: Book, e: Event): Booked {
    match e
    case MarketCreated(count, _, _) => Booked(b, count > 0)
    case Bought(account, i, shares, cost) =>
      var paid := b.(pot := b.pot + cost);
      if i >= |b.shares| then Booked(paid, false)
      else Booked(BuyInto(paid.(shares := b.shares[i := b.shares[i] + shares]),
                          Holder(Lower(account), i), shares, cost), true)
    case Sold(account, i, shares, proceeds) =>
      var paid := b.(pot := b.pot - proceeds);
      if i >= |b.shares| then Booked(paid, false)
      else
        var h := Holder(Lower(account), i);
        Booked(paid.(shares := b.shares[i := b.shares[i] - shares],
                     held := b.held[h := SellPosition(Held(b, h), shares, proceeds)]), true)
    case Shorted(account, i, shares, cost) =>
      var legs := Legs(|b.shares|, i);
      if legs == [] then Booked(b, true)
      else
        var filled := FillLegs(b, Lower(account), legs, shares, cost, |legs|);
        Booked(filled.(pot := filled.pot + cost), true)
    case MarketResolved(winner, owed, surplus) =>
      Booked(b.(status := Resolved, winner := Some(winner), pot := owed, surplus := Some(surplus)), true)
    case MarketInvalidated(surplus) =>
      Booked(b.(status := Invalid, surplus := Some(surplus)), true)
    case Redeemed(account, amount) =>
      Booked(b.(pot := b.pot - amount, held := RedeemAll(b.held, Lower(account), amount)), true)
    case SeedRedeemed(amount) =>
      Booked(b.(pot := b.pot - amount), true)
  }

  /** `updateMany`: the payout is added to every position row of the account, whatever its outcome. */
  function RedeemAll(held: map<Holder, Position>, account: string, amount: nat): map<Holder, Position> {
    map h | h in held ::
      if h.account == account then held[h].(redeemed := true, realized := held[h].realized + amount)
      else held[h]
  }

  // ---- the whole ledger ----------------------------------------------------

  datatype Log = Log(address: string, marketId: nat, pos: Pos, tx: string, spreadWad: nat, event: Event)

  datatype TradeKey = TradeKey(tx: string, logIndex: nat)

  /** A row of the public trade tape. */
  datatype Trade = Trade(
    market: MarketKey, account: string, side: Side, outcome: nat, shares: nat, amount: nat,
    spreadWad: nat, priceWad: nat, pos: Pos, tx: string)

  datatype Db = Db(books: map<MarketKey, Book>, trades: map<TradeKey, Trade>)

  datatype Applied = Applied(db: Db, ok: bool)

  const EMPTY := Db(map[], map[])

  function KeyOf(l: Log): MarketKey {
    MarketKey(Lower(l.address), l.marketId)
  }

  function TradeKeyOf(l: Log): TradeKey {
    TradeKey(l.tx, l.pos.logIndex)
  }

  function PriceWad(shares: nat, amount: nat): nat {
    if shares > 0 then amount * WAD / shares else 0
  }

  function TradeRow(l: Log): Trade
    requires IsTrade(l.event)
  {
    var k := KeyOf(l);
    match l.event
    case Bought(a, i, s, c) => Trade(k, Lower(a), Buy, i, s, c, l.spreadWad, PriceWad(s, c), l.pos, l.tx)
    case Sold(a, i, s, p) => Trade(k, Lower(a), Sell, i, s, p, l.spreadWad, PriceWad(s, p), l.pos, l.tx)
    case Shorted(a, i, s, c) => Trade(k, Lower(a), Short, i, s, c, l.spreadWad, PriceWad(s, c), l.pos, l.tx)
  }

  /** Whether the handler of this log writes a trade row: a short with no other outcome returns early. */
  predicate Taped(b: Book, e: Event) {
    IsTrade(e) && (e.Shorted? ==> Legs(|b.shares|, e.outcome) != [])
  }

  /** `upsert` with an empty update: a trade already on the tape is left as it is. */
  function InsertTrade(trades: map<TradeKey, Trade>, l: Log): map<TradeKey, Trade>
    requires IsTrade(l.event)
  {
    if TradeKeyOf(l) in trades then trades else trades[TradeKeyOf(l) := TradeRow(l)]
  }

  function Step(db: Db, l: Log): Applied {
    var k := KeyOf(l);
    if l.event.MarketCreated? then
      if l.event.outcomeCount == 0 then Applied(db, false)
      else if k in db.books then Applied(db, true)
      else
        var e := l.event;
        Applied(db.(books := db.books[k := Genesis(e.outcomeCount, e.seedPerOutcome, e.seedCost)]), true)
    else if k !in db.books then Applied(db, true)
    else
      var b := db.books[k];
      var r := BookStep(b, l.event);
      Applied(Db(db.books[k := r.book], if Taped(b, l.event) then InsertTrade(db.trades, l) else db.trades), r.ok)
  }

  /** `processBatch`: in order, stopping at the first handler that throws. */
  function Run(db: Db, logs: seq<Log>): Applied
    decreases |logs|
  {
    if logs == [] then Applied(db, true)
    else
      var a := Step(db, logs[0]);
      if a.ok then Run(a.db, logs[1..]) else a
  }
}
