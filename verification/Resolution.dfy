/** The resolution row of a market, and the three readers that decide from it. */
module Resolution {
  import opened Common
  import opened Ledger

  datatype Phase = NotProposed | Proposing | Disputing | Settled

  datatype Route = Finalised | Arbitration

  /** Milliseconds since the epoch. */
  type Millis = nat

  /** `linked` says whether `marketRef` is set; when set it is always this row's own market. */
  datatype Row = Row(
    linked: bool, phase: Phase,
    proposer: Option<string>, proposedOutcome: Option<nat>, proposerBonded: bool, proposerBond: nat,
    disputeDeadline: Option<Millis>,
    disputer: Option<string>, counterOutcome: Option<nat>, disputerBond: nat, arbitrationDeadline: Option<Millis>,
    route: Option<Route>, settledOutcome: Option<nat>, reward: nat, forfeited: nat, loser: Option<string>,
    settledAt: Option<Millis>, settledTx: Option<string>, proposedTx: string)

  datatype Ruling =
    | Proposed(proposer: string, outcome: nat, bonded: bool, bond: nat, deadlineSeconds: nat)
    | Disputed(disputer: string, counterOutcome: nat, bond: nat, deadlineSeconds: nat)
    | Finalized(outcome: nat, reward: nat)
    | Arbitrated(outcome: nat, reward: nat, forfeited: nat, loser: string)
    | Slashed(account: string, amount: nat)
    | Cleared  // ProposalAbandoned or DisputeReset

  datatype ResolverLog = ResolverLog(market: string, marketId: nat, ruling: Ruling, time: Millis, tx: string)

  const INVALID_OUTCOME: nat := 4_294_967_295

  const ZERO_ADDRESS := "0x0000000000000000000000000000000000000000"

  function OutcomeOrVoid(raw: nat): Option<nat> {
    if raw == INVALID_OUTCOME then None else Some(raw)
  }

  function ResolutionKey(l: ResolverLog): MarketKey {
    MarketKey(Lower(l.market), l.marketId)
  }

  function ProposedRow(l: ResolverLog, known: bool): Row
    requires l.ruling.Proposed?
  {
    var e := l.ruling;
    Row(known, Proposing, Some(Lower(e.proposer)), OutcomeOrVoid(e.outcome), e.bonded, e.bond,
        Some(e.deadlineSeconds * 1000), None, None, 0, None, None, None, 0, 0, None, None, None, l.tx)
  }

  /**
   * One event on one row. Only a proposal creates the row, or says whether it is linked to a market
   * the indexer knows; `updateMany` on a missing row does nothing.
   */
  function RowStep(row: Option<Row>, l: ResolverLog, known: bool): Option<Row> {
    if l.ruling.Proposed? then Some(ProposedRow(l, known))
    else if row.None? then None
    else
      var r := row.value;
      match l.ruling
      case Disputed(disputer, counter, bond, deadline) =>
        Some(r.(phase := Disputing, disputer := Some(Lower(disputer)), counterOutcome := OutcomeOrVoid(counter),
                disputerBond := bond, arbitrationDeadline := Some(deadline * 1000)))
      case Finalized(outcome, reward) =>
        Some(r.(phase := Settled, route := Some(Finalised), settledOutcome := OutcomeOrVoid(outcome),
                reward := reward, settledAt := Some(l.time), settledTx := Some(l.tx)))
      case Arbitrated(outcome, reward, forfeited, loser) =>
        Some(r.(phase := Settled, route := Some(Arbitration), settledOutcome := OutcomeOrVoid(outcome),
                reward := reward, forfeited := forfeited,
                loser := if Lower(loser) == ZERO_ADDRESS then None else Some(Lower(loser))))
      case Slashed(account, amount) =>
        Some(r.(loser := Some(Lower(account)), forfeited := amount, settledAt := Some(l.time), settledTx := Some(l.tx)))
      case Cleared =>
        Some(r.(phase := NotProposed, proposer := None, proposedOutcome := None, proposerBonded := false,
                proposerBond := 0, disputeDeadline := None, disputer := None, counterOutcome := None,
                disputerBond := 0, arbitrationDeadline := None))
  }

  type Table = map<MarketKey, Row>

  function RowAt(t: Table, k: MarketKey): Option<Row> {
    if k in t then Some(t[k]) else None
  }

  function TableStep(t: Table, l: ResolverLog, known: bool): Table {
    var k := ResolutionKey(l);
    var r := RowStep(RowAt(t, k), l, known);
    if r.Some? then t[k := r.value] else t
  }

  // ---- any history ---------------------------------------------------------

  /** A resolver log as it was handled: whether its market was indexed at that moment. */
  datatype Handled = Handled(log: ResolverLog, known: bool)

  function TableRun(t: Table, h: seq<Handled>): Table
    decreases |h|
  {
    if h == [] then t else TableRun(TableStep(t, h[0].log, h[0].known), h[1..])
  }

  function RowRun(row: Option<Row>, h: seq<Handled>): Option<Row>
    decreases |h|
  {
    if h == [] then row else RowRun(RowStep(row, h[0].log, h[0].known), h[1..])
  }

  function Of(h: seq<Handled>, k: MarketKey): seq<Handled> {
    if h == [] then []
    else if ResolutionKey(h[0].log) == k then [h[0]] + Of(h[1..], k)
    else Of(h[1..], k)
  }

  /** From the last proposal on, or nothing when there never was one. */
  function FromLastProposal(h: seq<Handled>): (r: seq<Handled>)
    ensures r != [] ==> r[0].log.ruling.Proposed?
  {
    if h == [] then []
    else
      var later := FromLastProposal(h[1..]);
      if later != [] then later else if h[0].log.ruling.Proposed? then h else []
  }

  lemma {:induction false} TableProjects(t: Table, h: seq<Handled>, k: MarketKey)
    ensures RowAt(TableRun(t, h), k) == RowRun(RowAt(t, k), Of(h, k))
    decreases |h|
  {
    if h != [] {
      var t' := TableStep(t, h[0].log, h[0].known);
      TableProjects(t', h[1..], k);
      if ResolutionKey(h[0].log) == k {
        assert Of(h, k)[1..] == Of(h[1..], k);
        assert RowAt(t', k) == RowStep(RowAt(t, k), h[0].log, h[0].known);
      } else {
        assert RowAt(t', k) == RowAt(t, k);
      }
    }
  }

  lemma {:induction false} RowForgets(row: Option<Row>, h: seq<Handled>)
    ensures var s := FromLastProposal(h);
            && (s != [] ==> RowRun(row, h) == RowRun(None, s) && RowRun(row, h).Some?
                            && RowRun(row, h).value.linked == s[0].known)
            && (s == [] && row.None? ==> RowRun(row, h).None?)
    decreases |h|
  {
    if h != [] {
      var row' := RowStep(row, h[0].log, h[0].known);
      RowForgets(row', h[1..]);
      if FromLastProposal(h[1..]) == [] && h[0].log.ruling.Proposed? {
        Persists(row'.value, h[1..]);
      }
    }
  }

  lemma {:induction false} Persists(row: Row, h: seq<Handled>)
    requires FromLastProposal(h) == []
    ensures RowRun(Some(row), h).Some? && RowRun(Some(row), h).value.linked == row.linked
    decreases |h|
  {
    if h != [] {
      Persists(RowStep(Some(row), h[0].log, h[0].known).value, h[1..]);
    }
  }

  /**
   * After any history of any markets a row describes the current attempt alone: it is what its own
   * events from the last proposal on make of an empty table, it exists exactly when there was a
   * proposal, and its market link is still the one that proposal found.
   */
  lemma OnlyTheCurrentProposal(h: seq<Handled>, k: MarketKey)
    ensures var s := FromLastProposal(Of(h, k));
            && RowAt(TableRun(map[], h), k) == RowRun(None, s)
            && (k in TableRun(map[], h) <==> s != [])
            && (s != [] ==> TableRun(map[], h)[k].linked == s[0].known)
  {
    TableProjects(map[], h, k);
    RowForgets(None, Of(h, k));
    assert RowAt(map[], k) == None;
  }

  // ---- what every reachable row keeps --------------------------------------

  ghost predicate Coherent(r: Row) {
    && (r.phase.Proposing? ==> r.disputeDeadline.Some? && r.proposer.Some? && r.disputer.None? && r.route.None?)
    && (r.phase.Disputing? ==> r.disputer.Some? && r.arbitrationDeadline.Some?)
    && (r.phase.Settled? ==> r.route.Some?)
    && (r.phase.NotProposed? ==> r.proposer.None? && r.disputer.None? && r.disputeDeadline.None?)
  }

  lemma {:induction false} RowsStayCoherent(row: Option<Row>, h: seq<Handled>)
    requires row.Some? ==> Coherent(row.value)
    ensures RowRun(row, h).Some? ==> Coherent(RowRun(row, h).value)
    decreases |h|
  {
    if h != [] {
      RowsStayCoherent(RowStep(row, h[0].log, h[0].known), h[1..]);
    }
  }

  lemma EveryRowCoherent(h: seq<Handled>, k: MarketKey)
    requires k in TableRun(map[], h)
    ensures Coherent(TableRun(map[], h)[k])
  {
    TableProjects(map[], h, k);
    RowsStayCoherent(None, Of(h, k));
    assert RowAt(map[], k) == None;
  }

  // ---- the readers ---------------------------------------------------------

  function DeadlineOrZero(r: Row): Millis {
    if r.disputeDeadline.Some? then r.disputeDeadline.value else 0
  }

  /** `MarketSerializer.resolution`: the two booleans the UI is given. */
  predicate Disputable(r: Row, now: Millis) {
    r.phase.Proposing? && now <= DeadlineOrZero(r)
  }

  predicate Finalizable(r: Row, now: Millis) {
    r.phase.Proposing? && now > DeadlineOrZero(r)
  }

  /** The settlement service's query: a null deadline is excluded. */
  predicate SettlementDue(r: Row, now: Millis) {
    r.phase.Proposing? && r.disputeDeadline.Some? && r.disputeDeadline.value < now
  }

  /** The operations queue's filter. */
  predicate QueuedFinalizable(r: Row, now: Millis) {
    r.phase.Proposing? && DeadlineOrZero(r) < now
  }

  /** The three readers part only over a proposal that has no deadline. */
  lemma ReadersAgreeIff(r: Row, now: Millis)
    ensures (Finalizable(r, now) == QueuedFinalizable(r, now) == SettlementDue(r, now))
         <==> !(r.phase.Proposing? && r.disputeDeadline.None? && now > 0)
    ensures r.phase.Proposing? <==> (Disputable(r, now) != Finalizable(r, now))
    ensures !(Disputable(r, now) && Finalizable(r, now))
  {
  }

  /** No event history produces such a row, so at every instant all three say the same. */
  lemma ReadersAgree(h: seq<Handled>, k: MarketKey, now: Millis)
    requires k in TableRun(map[], h)
    ensures var r := TableRun(map[], h)[k];
            && Finalizable(r, now) == QueuedFinalizable(r, now) == SettlementDue(r, now)
            && (r.phase.Proposing? <==> (Disputable(r, now) != Finalizable(r, now)))
  {
    EveryRowCoherent(h, k);
    ReadersAgreeIff(TableRun(map[], h)[k], now);
  }

  // ---- the market side -----------------------------------------------------

  /** The columns of a market row the clock is compared with. */
  datatype Clock = Clock(status: Status, startTime: Millis, closeTime: Millis)

  predicate IsTradingOpen(m: Clock, now: Millis) {
    m.status.Trading? && m.startTime <= now && m.closeTime > now
  }

  predicate IsNotOpenYet(m: Clock, now: Millis) {
    m.status.Trading? && m.startTime > now
  }

  /** The market's `resolution` relation: its row, when the row is linked to it. */
  function Related(t: Table, k: MarketKey): Option<Row> {
    if k in t && t[k].linked then Some(t[k]) else None
  }

  predicate Unproposed(r: Option<Row>) {
    r.None? || r.value.phase.NotProposed?
  }

  predicate IsAwaitingProposal(m: Clock, r: Option<Row>, now: Millis) {
    m.status.Trading? && m.closeTime <= now && Unproposed(r)
  }

  /** The operations queue's first query. */
  predicate QueuedAwaiting(m: Clock, r: Option<Row>, now: Millis) {
    m.status.Trading? && m.closeTime < now && Unproposed(r)
  }

  /** The queue's second query: a live proposal or dispute. */
  predicate QueuedLive(t: Table, k: MarketKey) {
    k in t && (t[k].phase.Proposing? || t[k].phase.Disputing?)
  }

  /** The two readers of "awaiting" differ in one instant: the closing one. */
  lemma AwaitingAgreesIff(m: Clock, r: Option<Row>, now: Millis)
    ensures (IsAwaitingProposal(m, r, now) <==> QueuedAwaiting(m, r, now))
         <==> !(m.status.Trading? && Unproposed(r) && m.closeTime == now)
  {
  }

  /** A trading market is in exactly one of its three clock states unless it closes before it opens. */
  lemma OneClockState(m: Clock, now: Millis)
    requires m.status.Trading?
    ensures !(IsNotOpenYet(m, now) && IsTradingOpen(m, now))
    ensures IsNotOpenYet(m, now) || IsTradingOpen(m, now) || IsAwaitingProposal(m, None, now)
    ensures (IsAwaitingProposal(m, None, now) && (IsNotOpenYet(m, now) || IsTradingOpen(m, now)))
         <==> m.closeTime <= now < m.startTime
  {
  }

  /** A market listed both as awaiting a proposal and as having a live one. */
  predicate QueuedTwice(t: Table, k: MarketKey, m: Clock, now: Millis) {
    QueuedAwaiting(m, Related(t, k), now) && QueuedLive(t, k)
  }

  /**
   * That happens exactly when the live proposal was handled before its market was indexed; nothing
   * that follows repairs the link.
   */
  lemma QueuedTwiceIff(h: seq<Handled>, k: MarketKey, m: Clock, now: Millis)
    requires QueuedLive(TableRun(map[], h), k) && m.status.Trading? && m.closeTime < now
    ensures FromLastProposal(Of(h, k)) != []
    ensures QueuedTwice(TableRun(map[], h), k, m, now) <==> !FromLastProposal(Of(h, k))[0].known
  {
    OnlyTheCurrentProposal(h, k);
  }
}
