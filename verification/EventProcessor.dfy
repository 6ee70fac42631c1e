/** The event processor: tables updated in place, one decoded log after another. */
module EventProcessor {
  import opened Common
  import opened ChainOrder
  import opened Ledger
  import opened Json
  import opened Metadata
  import opened Resolution

  datatype StreamKind = LsLmsr | OptimisticResolver | TradingBlocklist

  const SOME_LOG := Log("", 0, Pos(0, 0), "", 0, MarketInvalidated(0))

  /** `MarketCreated` carries more than the ledger reads, so it is a log of its own. */
  type CreationLog = l: Log | l.event.MarketCreated? witness SOME_LOG.(event := MarketCreated(0, 0, 0))

  type EngineLog = l: Log | !l.event.MarketCreated? witness SOME_LOG

  datatype ChainLog =
    | Engine(log: EngineLog)
    | Created(creation: CreationLog, metadataHash: string, category: Option<Text>)
    | Published(address: string, marketId: nat, metadata: Text, metadataHash: string, pos: Pos)
    | Resolver(ruling: ResolverLog, pos: Pos)
    | Other(kind: StreamKind, pos: Pos)

  function KindOf(l: ChainLog): StreamKind {
    match l
    case Resolver(_, _) => OptimisticResolver
    case Other(kind, _) => kind
    case _ => LsLmsr
  }

  function PosOf(l: ChainLog): Pos {
    match l
    case Engine(log) => log.pos
    case Created(log, _, _) => log.pos
    case Published(_, _, _, _, pos) => pos
    case Resolver(_, pos) => pos
    case Other(_, pos) => pos
  }

  type Drafts = map<string, CanonicalMetadata>

  datatype Tables = Tables(db: Db, rows: Table, copies: map<MarketKey, Copy>)

  datatype Outcome = Outcome(tables: Tables, ok: bool)

  const NO_TABLES := Tables(EMPTY, map[], map[])

  /** The copy a market starts with: an adopted draft, or nothing. */
  function FirstCopy(drafts: Drafts, metadataHash: string, category: Option<Text>, count: nat): Copy {
    if metadataHash in drafts then
      var d := drafts[metadataHash];
      Copy(d.title, d.description, d.resolutionRules, d.imageUrl,
           seq(count, i requires 0 <= i < count => if i < |d.outcomeLabels| then d.outcomeLabels[i] else []), category)
    else Copy([], [], [], None, seq(count, _ => []), category)
  }

  /** The effect of one log on all the tables. */
  function ApplyLog(hash: Text -> string, drafts: Drafts, t: Tables, l: ChainLog): Outcome {
    match l
    case Engine(log) =>
      var a := Step(t.db, log);
      Outcome(t.(db := a.db), a.ok)
    case Created(log, metadataHash, category) =>
      var a := Step(t.db, log);
      var k := KeyOf(log);
      Outcome(t.(db := a.db,
                 copies := if a.ok && k !in t.db.books
                           then t.copies[k := FirstCopy(drafts, metadataHash, category, log.event.outcomeCount)]
                           else t.copies), a.ok)
    case Published(address, id, metadata, metadataHash, _) =>
      var k := MarketKey(Lower(address), id);
      var m := Accepted(hash, metadata, metadataHash);
      if k in t.db.books && k in t.copies && m.Some? then
        Outcome(t.(copies := t.copies[k := Adopt(t.copies[k], m.value)]), true)
      else Outcome(t, true)
    case Resolver(ruling, _) =>
      Outcome(t.(rows := TableStep(t.rows, ruling, ResolutionKey(ruling) in t.db.books)), true)
    case Other(_, _) => Outcome(t, true)
  }

  function ApplyAll(hash: Text -> string, drafts: Drafts, t: Tables, logs: seq<ChainLog>): Outcome
    decreases |logs|
  {
    if logs == [] then Outcome(t, true)
    else
      var a := ApplyLog(hash, drafts, t, logs[0]);
      if a.ok then ApplyAll(hash, drafts, a.tables, logs[1..]) else a
  }

  // ---- what the whole tables inherit from the ledger -----------------------

  function EngineLogs(logs: seq<ChainLog>): seq<Log> {
    if logs == [] then []
    else if logs[0].Engine? then [logs[0].log] + EngineLogs(logs[1..])
    else if logs[0].Created? then [logs[0].creation] + EngineLogs(logs[1..])
    else EngineLogs(logs[1..])
  }

  /** Resolution and metadata logs leave the books alone: the ledger sees its own logs only. */
  lemma {:induction false} LedgerPart(hash: Text -> string, drafts: Drafts, t: Tables, logs: seq<ChainLog>)
    ensures var a := ApplyAll(hash, drafts, t, logs);
            a.ok == Run(t.db, EngineLogs(logs)).ok && a.tables.db == Run(t.db, EngineLogs(logs)).db
    decreases |logs|
  {
    if logs != [] {
      var a := ApplyLog(hash, drafts, t, logs[0]);
      if a.ok {
        LedgerPart(hash, drafts, a.tables, logs[1..]);
      }
      if EngineLogs(logs) != EngineLogs(logs[1..]) {
        assert EngineLogs(logs)[1..] == EngineLogs(logs[1..]);
      }
    }
  }

  lemma {:induction false} ApplyAppend(hash: Text -> string, drafts: Drafts, t: Tables, a: seq<ChainLog>, b: seq<ChainLog>)
    ensures var first := ApplyAll(hash, drafts, t, a);
            ApplyAll(hash, drafts, t, a + b) == if first.ok then ApplyAll(hash, drafts, first.tables, b) else first
    decreases |a|
  {
    if a == [] {
      assert a + b == b;
    } else {
      assert (a + b)[0] == a[0] && (a + b)[1..] == a[1..] + b;
      var x := ApplyLog(hash, drafts, t, a[0]);
      if x.ok {
        ApplyAppend(hash, drafts, x.tables, a[1..], b);
      }
    }
  }

  // ---- the service ---------------------------------------------------------

  class Processor {
    const hash: Text -> string
    const drafts: Drafts
    var books: map<MarketKey, Book>
    var trades: map<TradeKey, Trade>
    var rows: Table
    var copies: map<MarketKey, Copy>
    /** Markets already looked up; never consulted for one that is not in the table. */
    var refCache: set<MarketKey>

    ghost function State(): Tables
      reads this
    {
      Tables(Db(books, trades), rows, copies)
    }

    ghost predicate Valid()
      reads this
    {
      refCache <= books.Keys && copies.Keys == books.Keys
    }

    constructor (hash: Text -> string, drafts: Drafts)
      ensures Valid() && State() == NO_TABLES && this.hash == hash && this.drafts == drafts
    {
      this.hash, this.drafts := hash, drafts;
      books, trades, rows, copies, refCache := map[], map[], map[], map[], {};
    }

    method MarketRef(rawAddress: string, id: nat) returns (ref: Option<MarketKey>)
      requires Valid()
      modifies this`refCache
      ensures Valid()
      ensures ref == if MarketKey(Lower(rawAddress), id) in books then Some(MarketKey(Lower(rawAddress), id)) else None
    {
      var key := MarketKey(Lower(rawAddress), id);
      if key in refCache { return Some(key); }
      if key !in books { return None; }
      refCache := refCache + {key};
      return Some(key);
    }

    method CreateMarket(log: CreationLog, metadataHash: string, category: Option<Text>) returns (ok: bool)
      requires Valid()
      modifies this
      ensures Valid()
      ensures Outcome(State(), ok) == ApplyLog(hash, drafts, old(State()), Created(log, metadataHash, category))
    {
      var e := log.event;
      if e.outcomeCount == 0 { return false; }  // the uniform price divides by the outcome count
      var key := KeyOf(log);
      if key !in books {
        books := books[key := Genesis(e.outcomeCount, e.seedPerOutcome, e.seedCost)];
        copies := copies[key := FirstCopy(drafts, metadataHash, category, e.outcomeCount)];
      }
      refCache := refCache + {key};
      return true;
    }

    method OnMetadataPublished(address: string, id: nat, metadata: Text, metadataHash: string, pos: Pos)
      requires Valid()
      modifies this
      ensures Valid()
      ensures State() == ApplyLog(hash, drafts, old(State()), Published(address, id, metadata, metadataHash, pos)).tables
    {
      var ref := MarketRef(address, id);
      if ref.None? { return; }
      var parsed := ParseCanonical(hash, metadata, metadataHash);
      if parsed.None? { return; }
      var m := parsed.value;
      var copy := copies[ref.value];
      var labels := copy.labels;
      var i := 0;
      while i < |m.outcomeLabels| && i < |copy.labels|
        invariant 0 <= i <= |m.outcomeLabels| && i <= |labels| == |copy.labels|
        invariant forall j :: 0 <= j < |labels| ==> labels[j] == if j < i then m.outcomeLabels[j] else copy.labels[j]
      {
        labels := labels[i := m.outcomeLabels[i]];
        i := i + 1;
      }
      copies := copies[ref.value := Copy(m.title, m.description, m.resolutionRules, m.imageUrl, labels, m.categoryKey)];
      assert copies[ref.value] == Adopt(copy, m);
    }

    method AddTrade(log: Log)
      requires Valid() && IsTrade(log.event)
      modifies this`trades
      ensures Valid() && trades == InsertTrade(old(trades), log)
    {
      var key := TradeKeyOf(log);
      if key !in trades {
        trades := trades[key := TradeRow(log)];
      }
    }

    method UpdatePosition(ref: MarketKey, rawAccount: string, outcome: nat, side: Side, shares: nat, amount: nat)
      requires Valid() && ref in books && !side.Short?
      modifies this`books
      ensures Valid()
      ensures var b := old(books)[ref]; var h := Holder(Lower(rawAccount), outcome);
              books == old(books)[ref := b.(held := b.held[h :=
                if side.Sell? then SellPosition(Held(b, h), shares, amount) else BuyPosition(Held(b, h), shares, amount)])]
    {
      var b := books[ref];
      var h := Holder(Lower(rawAccount), outcome);
      var existing := if h in b.held then Some(b.held[h]) else None;
      var row: Position;
      if side.Sell? {
        var oldShares := if existing.Some? then existing.value.shares else 0;
        var oldCost := if existing.Some? then existing.value.basis else 0;
        var sold := if shares > oldShares then oldShares else shares;
        var costRemoved := BasisRemoved(Position(oldShares, oldCost, 0, false), sold);
        var realized := amount - costRemoved;
        if existing.None? {
          row := Position(0, 0, realized, false);
        } else {
          var p := existing.value;
          row := Position(p.shares - sold, p.basis - costRemoved, p.realized + realized, p.redeemed);
        }
      } else if existing.None? {
        row := Position(shares, amount, 0, false);
      } else {
        var p := existing.value;
        row := Position(p.shares + shares, p.basis + amount, p.realized, p.redeemed);
      }
      books := books[ref := b.(held := b.held[h := row])];
    }

    method OnTrade(log: Log, side: Side) returns (ok: bool)
      requires Valid()
      requires (side.Buy? && log.event.Bought?) || (side.Sell? && log.event.Sold?)
      modifies this
      ensures Valid() && rows == old(rows) && copies == old(copies)
      ensures Applied(Db(books, trades), ok) == Step(old(Db(books, trades)), log)
    {
      hide SellPosition, BuyPosition, TradeRow, Legs, FillLegs, RedeemAll;
      var ref := MarketRef(log.address, log.marketId);
      if ref.None? { return true; }
      var key, e := ref.value, log.event;
      var amount := if side.Buy? then e.cost else e.proceeds;
      AddTrade(log);
      var potDelta: int := if side.Buy? then amount else -amount;
      var shareDelta: int := if side.Buy? then e.shares else 0 - e.shares;
      var b := books[key];
      b := b.(pot := b.pot + potDelta);
      books := books[key := b];
      if e.outcome >= |b.shares| { return false; }  // no such outcome row to update
      b := b.(shares := b.shares[e.outcome := b.shares[e.outcome] + shareDelta]);
      books := books[key := b];
      UpdatePosition(key, e.account, e.outcome, side, e.shares, amount);
      return true;
    }

    /** The outcomes a short credits, in index order. */
    method ShortLegs(count: nat, shorted: nat) returns (legs: seq<nat>)
      ensures legs == Legs(count, shorted)
    {
      legs := [];
      var i := 0;
      while i < count
        invariant 0 <= i <= count && legs == Legs(i, shorted)
      {
        if i != shorted {
          legs := legs + [i];
        }
        i := i + 1;
      }
    }

    method FillEveryLeg(key: MarketKey, account: string, legs: seq<nat>, shares: nat, cost: nat)
      requires Valid() && key in books && legs != [] && Lower(account) == account
      requires forall k :: 0 <= k < |legs| ==> legs[k] < |books[key].shares|
      modifies this`books
      ensures Valid()
      ensures books == old(books)[key := FillLegs(old(books)[key], account, legs, shares, cost, |legs|)]
    {
      hide BuyPosition, SellPosition;
      ghost var start := books[key];
      var perLeg := cost / |legs|;
      PerLeg(cost, |legs|);
      var k := 0;
      while k < |legs|
        invariant 0 <= k <= |legs| && Valid() && key in books
        invariant books == old(books)[key := FillLegs(start, account, legs, shares, cost, k)]
      {
        var basis := if k == |legs| - 1 then cost - perLeg * (|legs| - 1) else perLeg;
        assert basis == LegBasis(cost, |legs|, k);
        var b := books[key];
        books := books[key := b.(shares := b.shares[legs[k] := b.shares[legs[k]] + shares])];
        UpdatePosition(key, account, legs[k], Buy, shares, basis);
        assert books[key] == CreditLeg(b, Holder(account, legs[k]), shares, basis);
        k := k + 1;
      }
    }

    method OnShort(log: Log)
      requires Valid() && log.event.Shorted?
      modifies this
      ensures Valid() && rows == old(rows) && copies == old(copies)
      ensures Applied(Db(books, trades), true) == Step(old(Db(books, trades)), log)
    {
      hide FillLegs, TradeRow;
      var ref := MarketRef(log.address, log.marketId);
      if ref.None? { return; }
      var key, e := ref.value, log.event;
      var legs := ShortLegs(|books[key].shares|, e.outcome);
      if |legs| == 0 {
        assert books[key := books[key]] == books;
        return;
      }
      AddTrade(log);
      LowerTwice(e.account);
      FillEveryLeg(key, Lower(e.account), legs, e.shares, e.cost);
      books := books[key := books[key].(pot := books[key].pot + e.cost)];
    }

    /** `MarketResolved`, `MarketInvalidated`, `Redeemed` and `SeedRedeemed`. */
    method OnSettlement(log: Log)
      requires Valid()
      requires log.event.MarketResolved? || log.event.MarketInvalidated? || log.event.Redeemed? || log.event.SeedRedeemed?
      modifies this
      ensures Valid() && rows == old(rows) && copies == old(copies)
      ensures Applied(Db(books, trades), true) == Step(old(Db(books, trades)), log)
    {
      var ref := MarketRef(log.address, log.marketId);
      if ref.None? { return; }
      var key := ref.value;
      var b := books[key];
      match log.event {
        case MarketResolved(winner, owed, surplus) =>
          b := b.(status := Status.Resolved, winner := Some(winner), pot := owed, surplus := Some(surplus));
        case MarketInvalidated(surplus) =>
          b := b.(status := Status.Invalid, surplus := Some(surplus));
        case Redeemed(account, amount) =>
          b := b.(held := RedeemAll(b.held, Lower(account), amount));
          b := b.(pot := b.pot - amount);
        case SeedRedeemed(amount) =>
          if amount != 0 {
            b := b.(pot := b.pot - amount);
          }
      }
      books := books[key := b];
    }

    /** `resolutionKey`: the row's key, and whether the market is indexed by now. */
    method KeyOfRuling(l: ResolverLog) returns (key: MarketKey, known: bool)
      ensures key == ResolutionKey(l) && (known <==> key in books)
    {
      key := MarketKey(Lower(l.market), l.marketId);
      known := key in books;
    }

    /**
     * An upsert over one set of columns. On a row left by an earlier attempt every column is written
     * again, so nothing of that attempt survives.
     */
    method OnProposed(l: ResolverLog)
      requires Valid() && l.ruling.Proposed?
      modifies this`rows
      ensures Valid() && rows == TableStep(old(rows), l, ResolutionKey(l) in books)
    {
      var e := l.ruling;
      var key, known := KeyOfRuling(l);
      var outcome := if e.outcome == INVALID_OUTCOME then None else Some(e.outcome);
      var deadline := e.deadlineSeconds * 1000;
      if key !in rows {
        rows := rows[key := Row(known, Proposing, Some(Lower(e.proposer)), outcome, e.bonded, e.bond, Some(deadline),
                                None, None, 0, None, None, None, 0, 0, None, None, None, l.tx)];
        return;
      }
      var r := rows[key];
      r := r.(linked := known, phase := Proposing);
      r := r.(proposer := Some(Lower(e.proposer)), proposedOutcome := outcome);
      r := r.(proposerBonded := e.bonded, proposerBond := e.bond, disputeDeadline := Some(deadline));
      r := r.(disputer := None, counterOutcome := None, disputerBond := 0, arbitrationDeadline := None);
      r := r.(route := None, settledOutcome := None, reward := 0, forfeited := 0, loser := None);
      r := r.(settledAt := None, settledTx := None, proposedTx := l.tx);
      rows := rows[key := r];
    }

    method OnDisputed(l: ResolverLog)
      requires Valid() && l.ruling.Disputed?
      modifies this`rows
      ensures Valid() && rows == TableStep(old(rows), l, ResolutionKey(l) in books)
    {
      var e := l.ruling;
      var key, known := KeyOfRuling(l);
      if key !in rows { return; }  // `updateMany` matches nothing
      var r := rows[key];
      r := r.(phase := Disputing, disputer := Some(Lower(e.disputer)));
      r := r.(counterOutcome := if e.counterOutcome == INVALID_OUTCOME then None else Some(e.counterOutcome));
      r := r.(disputerBond := e.bond, arbitrationDeadline := Some(e.deadlineSeconds * 1000));
      rows := rows[key := r];
    }

    method OnFinalized(l: ResolverLog)
      requires Valid() && l.ruling.Finalized?
      modifies this`rows
      ensures Valid() && rows == TableStep(old(rows), l, ResolutionKey(l) in books)
    {
      var e := l.ruling;
      var key, known := KeyOfRuling(l);
      if key !in rows { return; }
      var r := rows[key];
      r := r.(phase := Settled, route := Some(Finalised));
      r := r.(settledOutcome := if e.outcome == INVALID_OUTCOME then None else Some(e.outcome), reward := e.reward);
      r := r.(settledAt := Some(l.time), settledTx := Some(l.tx));
      rows := rows[key := r];
    }

    /** Leaves `settledAt` and `settledTx` to the slashing that follows. */
    method OnArbitrated(l: ResolverLog)
      requires Valid() && l.ruling.Arbitrated?
      modifies this`rows
      ensures Valid() && rows == TableStep(old(rows), l, ResolutionKey(l) in books)
    {
      var e := l.ruling;
      var key, known := KeyOfRuling(l);
      var loser := Lower(e.loser);
      if key !in rows { return; }
      var r := rows[key];
      r := r.(phase := Settled, route := Some(Arbitration));
      r := r.(settledOutcome := if e.outcome == INVALID_OUTCOME then None else Some(e.outcome));
      r := r.(reward := e.reward, forfeited := e.forfeited);
      r := r.(loser := if loser == ZERO_ADDRESS then None else Some(loser));
      rows := rows[key := r];
    }

    method OnSlashed(l: ResolverLog)
      requires Valid() && l.ruling.Slashed?
      modifies this`rows
      ensures Valid() && rows == TableStep(old(rows), l, ResolutionKey(l) in books)
    {
      var e := l.ruling;
      var key, known := KeyOfRuling(l);
      if key !in rows { return; }
      var r := rows[key];
      r := r.(loser := Some(Lower(e.account)), forfeited := e.amount);
      r := r.(settledAt := Some(l.time), settledTx := Some(l.tx));
      rows := rows[key := r];
    }

    /** An abandoned proposal or a reset dispute: the settlement columns are left as they are. */
    method OnResolutionCleared(l: ResolverLog)
      requires Valid() && l.ruling.Cleared?
      modifies this`rows
      ensures Valid() && rows == TableStep(old(rows), l, ResolutionKey(l) in books)
    {
      var key, known := KeyOfRuling(l);
      if key !in rows { return; }
      var r := rows[key];
      r := r.(phase := NotProposed, proposer := None, proposedOutcome := None);
      r := r.(proposerBonded := false, proposerBond := 0, disputeDeadline := None);
      r := r.(disputer := None, counterOutcome := None, disputerBond := 0, arbitrationDeadline := None);
      rows := rows[key := r];
    }

    method OnRuling(l: ResolverLog)
      requires Valid()
      modifies this`rows
      ensures Valid() && rows == TableStep(old(rows), l, ResolutionKey(l) in books)
    {
      match l.ruling
      case Proposed(_, _, _, _, _) => OnProposed(l);
      case Disputed(_, _, _, _) => OnDisputed(l);
      case Finalized(_, _) => OnFinalized(l);
      case Arbitrated(_, _, _, _) => OnArbitrated(l);
      case Slashed(_, _) => OnSlashed(l);
      case Cleared => OnResolutionCleared(l);
    }

    method Apply(l: ChainLog) returns (ok: bool)
      requires Valid()
      modifies this
      ensures Valid()
      ensures Outcome(State(), ok) == ApplyLog(hash, drafts, old(State()), l)
    {
      ok := true;
      match l {
        case Engine(log) =>
          if log.event.Bought? {
            ok := OnTrade(log, Buy);
          } else if log.event.Sold? {
            ok := OnTrade(log, Sell);
          } else if log.event.Shorted? {
            OnShort(log);
          } else {
            OnSettlement(log);
          }
        case Created(log, metadataHash, category) =>
          ok := CreateMarket(log, metadataHash, category);
        case Published(address, id, metadata, metadataHash, pos) =>
          OnMetadataPublished(address, id, metadata, metadataHash, pos);
        case Resolver(ruling, pos) =>
          OnRuling(ruling);
        case Other(_, _) =>
      }
    }

    /** Apply a batch in order; the first handler that throws ends it and leaves what was done. */
    method ProcessBatch(logs: seq<ChainLog>) returns (ok: bool)
      requires Valid()
      modifies this
      ensures Valid()
      ensures Outcome(State(), ok) == ApplyAll(hash, drafts, old(State()), logs)
    {
      var i := 0;
      while i < |logs|
        invariant 0 <= i <= |logs| && Valid()
        invariant ApplyAll(hash, drafts, old(State()), logs) == ApplyAll(hash, drafts, State(), logs[i..])
      {
        ok := Apply(logs[i]);
        if !ok { return; }
        assert logs[i..][1..] == logs[i + 1..];
        i := i + 1;
      }
      return true;
    }
  }

  lemma LowerTwice(s: string)
    ensures Lower(Lower(s)) == Lower(s)
  {
  }
}
