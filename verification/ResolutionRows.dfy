/** What every column of a resolution row holds, in the fields of the events that put it there. */
module ResolutionRows {
  import opened Common
  import opened ChainOrder
  import opened Ledger
  import opened Json
  import opened Metadata
  import opened Resolution
  import opened EventProcessor

  // ---- the last event of a kind --------------------------------------------

  datatype Kind = Clearing | Dispute | Phasing | Settling | Forfeiting | Closing

  /** The events that write a group of columns. */
  predicate Writes(kind: Kind, e: Ruling) {
    match kind
    case Clearing => e.Cleared?
    case Dispute => e.Disputed? || e.Cleared?
    case Phasing => !e.Slashed?
    case Settling => e.Finalized? || e.Arbitrated?
    case Forfeiting => e.Arbitrated? || e.Slashed?
    case Closing => e.Finalized? || e.Slashed?
  }

  function LastOf(h: seq<Handled>, kind: Kind): Option<ResolverLog>
    decreases |h|
  {
    if h == [] then None
    else
      var n := |h| - 1;
      if Writes(kind, h[n].log.ruling) then Some(h[n].log) else LastOf(h[..n], kind)
  }

  /** The outcome a raw index stands for; the greatest 32-bit number means that the market is void. */
  function OutcomeOf(raw: nat): Option<nat> {
    if raw < 0x1_0000_0000 - 1 || raw > 0x1_0000_0000 - 1 then Some(raw) else None
  }

  // ---- a row and the events it is made of ----------------------------------

  /** The proposal's columns: the proposal's values until it is cleared, then nothing. */
  predicate ShowsProposal(r: Row, s: seq<Handled>)
    requires s != [] && s[0].log.ruling.Proposed?
  {
    var e := s[0].log.ruling;
    && r.proposedTx == s[0].log.tx && r.linked == s[0].known
    && if LastOf(s, Clearing).Some? then
         r.proposer == None && r.proposedOutcome == None && !r.proposerBonded && r.proposerBond == 0 && r.disputeDeadline == None
       else
         && r.proposer == Some(Lower(e.proposer)) && r.proposedOutcome == OutcomeOf(e.outcome)
         && r.proposerBonded == e.bonded && r.proposerBond == e.bond
         && r.disputeDeadline == Some(1000 * e.deadlineSeconds)
  }

  predicate ShowsDispute(r: Row, s: seq<Handled>) {
    match LastOf(s, Dispute)
    case Some(ResolverLog(_, _, Disputed(disputer, counter, bond, deadline), _, _)) =>
      && r.disputer == Some(Lower(disputer)) && r.counterOutcome == OutcomeOf(counter)
      && r.disputerBond == bond && r.arbitrationDeadline == Some(1000 * deadline)
    case _ => r.disputer == None && r.counterOutcome == None && r.disputerBond == 0 && r.arbitrationDeadline == None
  }

  predicate ShowsPhase(r: Row, s: seq<Handled>) {
    match LastOf(s, Phasing)
    case Some(l) =>
      (match l.ruling
       case Proposed(_, _, _, _, _) => r.phase == Proposing
       case Disputed(_, _, _, _) => r.phase == Disputing
       case Cleared => r.phase == NotProposed
       case _ => r.phase == Settled)
    case None => false
  }

  predicate ShowsSettlement(r: Row, s: seq<Handled>) {
    match LastOf(s, Settling)
    case Some(ResolverLog(_, _, Finalized(outcome, reward), _, _)) =>
      r.route == Some(Finalised) && r.settledOutcome == OutcomeOf(outcome) && r.reward == reward
    case Some(ResolverLog(_, _, Arbitrated(outcome, reward, _, _), _, _)) =>
      r.route == Some(Arbitration) && r.settledOutcome == OutcomeOf(outcome) && r.reward == reward
    case _ => r.route == None && r.settledOutcome == None && r.reward == 0
  }

  predicate ShowsForfeit(r: Row, s: seq<Handled>) {
    match LastOf(s, Forfeiting)
    case Some(ResolverLog(_, _, Arbitrated(_, _, forfeited, loser), _, _)) =>
      && r.forfeited == forfeited
      && r.loser == if Lower(loser) == ZERO_ADDRESS then None else Some(Lower(loser))
    case Some(ResolverLog(_, _, Slashed(account, amount), _, _)) => r.forfeited == amount && r.loser == Some(Lower(account))
    case _ => r.forfeited == 0 && r.loser == None
  }

  predicate ShowsClosing(r: Row, s: seq<Handled>) {
    match LastOf(s, Closing)
    case Some(l) => r.settledAt == Some(l.time) && r.settledTx == Some(l.tx)
    case None => r.settledAt == None && r.settledTx == None
  }

  /** Every column of the row, from the current proposal's events. */
  predicate Shows(r: Row, s: seq<Handled>)
    requires s != [] && s[0].log.ruling.Proposed?
  {
    && ShowsProposal(r, s) && ShowsDispute(r, s) && ShowsPhase(r, s)
    && ShowsSettlement(r, s) && ShowsForfeit(r, s) && ShowsClosing(r, s)
  }

  ghost predicate OneProposal(s: seq<Handled>) {
    s != [] && s[0].log.ruling.Proposed? && forall i :: 0 < i < |s| ==> !s[i].log.ruling.Proposed?
  }

  lemma {:induction false} SuffixHasOneProposal(h: seq<Handled>)
    ensures FromLastProposal(h) != [] ==> OneProposal(FromLastProposal(h))
    ensures FromLastProposal(h) == [] ==> forall i :: 0 <= i < |h| ==> !h[i].log.ruling.Proposed?
  {
    if h != [] {
      SuffixHasOneProposal(h[1..]);
      assert forall i :: 0 < i < |h| ==> h[i] == h[1..][i - 1];
    }
  }

  lemma {:induction false} RowRunOneMore(row: Option<Row>, h: seq<Handled>, x: Handled)
    ensures RowRun(row, h + [x]) == RowStep(RowRun(row, h), x.log, x.known)
    decreases |h|
  {
    if h == [] {
      assert h + [x] == [x] && [x][1..] == [];
    } else {
      hide RowStep;
      assert (h + [x])[0] == h[0] && (h + [x])[1..] == h[1..] + [x];
      RowRunOneMore(RowStep(row, h[0].log, h[0].known), h[1..], x);
    }
  }

  lemma ProposalShows(x: Handled)
    requires x.log.ruling.Proposed?
    ensures RowRun(None, [x]).Some? && Shows(RowRun(None, [x]).value, [x])
  {
    assert [x] == [] + [x];
    RowRunOneMore(None, [], x);
    OneMore([], x, Clearing);
    OneMore([], x, Dispute);
    OneMore([], x, Phasing);
    OneMore([], x, Settling);
    OneMore([], x, Forfeiting);
    OneMore([], x, Closing);
    hide RowRun, LastOf, Shows;
    FreshShows(ProposedRow(x.log, x.known), x);
  }

  lemma FreshShows(r: Row, x: Handled)
    requires x.log.ruling.Proposed? && r == ProposedRow(x.log, x.known)
    requires LastOf([x], Phasing) == Some(x.log) && LastOf([x], Clearing) == LastOf([x], Dispute) == None
    requires LastOf([x], Settling) == LastOf([x], Forfeiting) == LastOf([x], Closing) == None
    ensures Shows(r, [x])
  {
    hide LastOf, Lower;
  }

  lemma OneMore(s: seq<Handled>, x: Handled, kind: Kind)
    ensures LastOf(s + [x], kind) == if Writes(kind, x.log.ruling) then Some(x.log) else LastOf(s, kind)
  {
    assert (s + [x])[..|s|] == s;
  }

  lemma StepShows(r: Row, s: seq<Handled>, x: Handled)
    requires s != [] && s[0].log.ruling.Proposed? && Shows(r, s) && !x.log.ruling.Proposed?
    ensures RowStep(Some(r), x.log, x.known).Some?
    ensures Shows(RowStep(Some(r), x.log, x.known).value, s + [x])
  {
    hide RowStep, LastOf, ShowsProposal, ShowsDispute, ShowsPhase, ShowsSettlement, ShowsForfeit, ShowsClosing;
    StepProposal(r, s, x);
    StepDispute(r, s, x);
    StepPhase(r, s, x);
    StepSettlement(r, s, x);
    StepForfeit(r, s, x);
    StepClosing(r, s, x);
  }

  lemma StepProposal(r: Row, s: seq<Handled>, x: Handled)
    requires s != [] && s[0].log.ruling.Proposed? && ShowsProposal(r, s) && !x.log.ruling.Proposed?
    ensures RowStep(Some(r), x.log, x.known).Some?
    ensures ShowsProposal(RowStep(Some(r), x.log, x.known).value, s + [x])
  {
    OneMore(s, x, Clearing);
    hide Lower, LastOf;
  }

  lemma StepDispute(r: Row, s: seq<Handled>, x: Handled)
    requires ShowsDispute(r, s) && !x.log.ruling.Proposed?
    ensures RowStep(Some(r), x.log, x.known).Some?
    ensures ShowsDispute(RowStep(Some(r), x.log, x.known).value, s + [x])
  {
    OneMore(s, x, Dispute);
    hide Lower, LastOf;
  }

  lemma StepPhase(r: Row, s: seq<Handled>, x: Handled)
    requires ShowsPhase(r, s) && !x.log.ruling.Proposed?
    ensures RowStep(Some(r), x.log, x.known).Some?
    ensures ShowsPhase(RowStep(Some(r), x.log, x.known).value, s + [x])
  {
    OneMore(s, x, Phasing);
    hide Lower, LastOf;
  }

  lemma StepSettlement(r: Row, s: seq<Handled>, x: Handled)
    requires ShowsSettlement(r, s) && !x.log.ruling.Proposed?
    ensures RowStep(Some(r), x.log, x.known).Some?
    ensures ShowsSettlement(RowStep(Some(r), x.log, x.known).value, s + [x])
  {
    OneMore(s, x, Settling);
    hide Lower, LastOf;
  }

  lemma StepForfeit(r: Row, s: seq<Handled>, x: Handled)
    requires ShowsForfeit(r, s) && !x.log.ruling.Proposed?
    ensures RowStep(Some(r), x.log, x.known).Some?
    ensures ShowsForfeit(RowStep(Some(r), x.log, x.known).value, s + [x])
  {
    OneMore(s, x, Forfeiting);
    hide Lower, LastOf;
  }

  lemma StepClosing(r: Row, s: seq<Handled>, x: Handled)
    requires ShowsClosing(r, s) && !x.log.ruling.Proposed?
    ensures RowStep(Some(r), x.log, x.known).Some?
    ensures ShowsClosing(RowStep(Some(r), x.log, x.known).value, s + [x])
  {
    OneMore(s, x, Closing);
    hide Lower, LastOf;
  }

  lemma {:induction false} RunShows(s: seq<Handled>)
    requires OneProposal(s)
    ensures RowRun(None, s).Some? && Shows(RowRun(None, s).value, s)
    decreases |s|
  {
    var n := |s| - 1;
    if n == 0 {
      assert s == [s[0]];
      ProposalShows(s[0]);
    } else {
      hide Shows;
      RunShows(s[..n]);
      assert s == s[..n] + [s[n]];
      RowRunOneMore(None, s[..n], s[n]);
      StepShows(RowRun(None, s[..n]).value, s[..n], s[n]);
    }
  }

  // ---- the processor's own table -------------------------------------------

  /** The resolver's logs among those of a run, each with whether its market was indexed by then. */
  function HandledIn(hash: Text -> string, drafts: Drafts, t: Tables, logs: seq<ChainLog>): seq<Handled>
    decreases |logs|
  {
    if logs == [] then []
    else
      var rest := HandledIn(hash, drafts, ApplyLog(hash, drafts, t, logs[0]).tables, logs[1..]);
      match logs[0]
      case Resolver(l, _) => [Handled(l, MarketKey(Lower(l.market), l.marketId) in t.db.books)] + rest
      case _ => rest
  }

  /** The resolution table of a run is made by the resolver's logs alone. */
  lemma {:induction false} RowsPart(hash: Text -> string, drafts: Drafts, t: Tables, logs: seq<ChainLog>)
    requires ApplyAll(hash, drafts, t, logs).ok
    ensures ApplyAll(hash, drafts, t, logs).tables.rows == TableRun(t.rows, HandledIn(hash, drafts, t, logs))
    decreases |logs|
  {
    if logs != [] {
      hide RowStep, Step, Accepted, Adopt, FirstCopy;
      RowsPart(hash, drafts, ApplyLog(hash, drafts, t, logs[0]).tables, logs[1..]);
      var h := HandledIn(hash, drafts, t, logs);
      if logs[0].Resolver? {
        assert h[1..] == HandledIn(hash, drafts, ApplyLog(hash, drafts, t, logs[0]).tables, logs[1..]);
      }
    }
  }

  /**
   * Every row the processor has, after any logs, shows the events of its current proposal, column by
   * column; a market without a proposal has no row.
   */
  lemma RowsShowTheirEvents(hash: Text -> string, drafts: Drafts, logs: seq<ChainLog>, k: MarketKey)
    requires ApplyAll(hash, drafts, NO_TABLES, logs).ok
    ensures var s := FromLastProposal(Of(HandledIn(hash, drafts, NO_TABLES, logs), k));
            var rows := ApplyAll(hash, drafts, NO_TABLES, logs).tables.rows;
            && (k in rows <==> s != [])
            && (k in rows ==> Shows(rows[k], s))
  {
    hide Shows, ApplyAll, RowRun;
    var h := HandledIn(hash, drafts, NO_TABLES, logs);
    RowsPart(hash, drafts, NO_TABLES, logs);
    OnlyTheCurrentProposal(h, k);
    SuffixHasOneProposal(Of(h, k));
    if FromLastProposal(Of(h, k)) != [] { RunShows(FromLastProposal(Of(h, k))); }
  }

  /** Still proposed means that nothing but a slashing has followed the proposal. */
  lemma {:induction false} StillProposed(s: seq<Handled>)
    requires OneProposal(s) && LastOf(s, Phasing).Some? && LastOf(s, Phasing).value.ruling.Proposed?
    ensures LastOf(s, Clearing) == None
    decreases |s|
  {
    var n := |s| - 1;
    if n > 0 {
      StillProposed(s[..n]);
    } else {
      assert s[..0] == [];
    }
  }

  /**
   * While a proposal stands, it can be disputed up to and including the second its event named, and
   * settled from then on; the same for every reader of the row.
   */
  lemma WindowIsTheEvents(hash: Text -> string, drafts: Drafts, logs: seq<ChainLog>, k: MarketKey, now: Millis)
    requires ApplyAll(hash, drafts, NO_TABLES, logs).ok
    requires k in ApplyAll(hash, drafts, NO_TABLES, logs).tables.rows
    requires ApplyAll(hash, drafts, NO_TABLES, logs).tables.rows[k].phase.Proposing?
    ensures var s := FromLastProposal(Of(HandledIn(hash, drafts, NO_TABLES, logs), k));
            var r := ApplyAll(hash, drafts, NO_TABLES, logs).tables.rows[k];
            && s != [] && s[0].log.ruling.Proposed?
            && (Disputable(r, now) <==> now <= 1000 * s[0].log.ruling.deadlineSeconds)
            && (Finalizable(r, now) <==> now > 1000 * s[0].log.ruling.deadlineSeconds)
            && (SettlementDue(r, now) <==> now > 1000 * s[0].log.ruling.deadlineSeconds)
            && (QueuedFinalizable(r, now) <==> now > 1000 * s[0].log.ruling.deadlineSeconds)
  {
    RowsShowTheirEvents(hash, drafts, logs, k);
    var h := HandledIn(hash, drafts, NO_TABLES, logs);
    SuffixHasOneProposal(Of(h, k));
    hide ApplyAll, LastOf;
    StillProposed(FromLastProposal(Of(h, k)));
  }
}
