/** The market indexer: planned ranges, concurrent fetches, and a cursor written after each batch. */
module Indexer {
  import opened Common
  import opened ChainOrder
  import opened EventProcessor
  import Ledger

  const MAX_LOG_REQUESTS_IN_FLIGHT: nat := 14

  datatype Config = Config(width: nat, confirmations: nat, startBlock: nat, streams: seq<StreamKind>)

  ghost predicate Configured(c: Config) {
    && c.width > 0 && c.streams != []
    && forall i, j :: 0 <= i < j < |c.streams| ==> c.streams[i] != c.streams[j]
  }

  datatype Range = Range(from: nat, to: nat)

  function SafeHead(c: Config, head: nat): nat {
    if head > c.confirmations then head - c.confirmations else 0
  }

  function MaxRanges(c: Config): nat
    requires c.streams != []
  {
    Max(1, MAX_LOG_REQUESTS_IN_FLIGHT / |c.streams|)
  }

  /** The last block of the span a tick covers. */
  function PlannedEnd(c: Config, from: nat, safeHead: nat): nat
    requires c.streams != [] && c.width > 0
  {
    Min(from + MaxRanges(c) * c.width - 1, safeHead)
  }

  /** The safe head is the last block with enough others on it, and block 0 when there is none. */
  lemma SafeHeadIs(c: Config, head: nat)
    ensures head >= c.confirmations ==> SafeHead(c, head) + c.confirmations == head
    ensures head < c.confirmations ==> SafeHead(c, head) == 0
  {
  }

  /** A tick fetches as many ranges as the request budget allows, and covers all their blocks up to the safe head. */
  lemma BudgetIsUsed(c: Config, from: nat, safeHead: nat)
    requires Configured(c) && from <= safeHead
    ensures MaxRanges(c) >= 1 && (MaxRanges(c) + 1) * |c.streams| > 14
    ensures MaxRanges(c) * |c.streams| <= Max(14, |c.streams|)
    ensures PlannedEnd(c, from, safeHead) == safeHead || PlannedEnd(c, from, safeHead) == from + MaxRanges(c) * c.width - 1
    ensures from <= PlannedEnd(c, from, safeHead) <= safeHead
  {
    DivBounds(14, |c.streams|);
    Budget(MaxRanges(c), |c.streams|);
    MulMono(14 / |c.streams|, MaxRanges(c), |c.streams|);
    MulAtLeast(MaxRanges(c), c.width);
    assert (MaxRanges(c) + 1) * |c.streams| == MaxRanges(c) * |c.streams| + |c.streams|;
  }

  /** What a plan must be: back to back, whole batches but for the last, ending where the tick ends. */
  ghost predicate Plans(c: Config, from: nat, safeHead: nat, ranges: seq<Range>) {
    && Configured(c) && 0 < |ranges| <= MaxRanges(c)
    && ranges[0].from == from && ranges[|ranges| - 1].to == PlannedEnd(c, from, safeHead)
    && (forall i :: 0 <= i < |ranges| ==> ranges[i].from <= ranges[i].to <= safeHead)
    && (forall i :: 0 <= i < |ranges| - 1 ==>
          ranges[i + 1].from == ranges[i].to + 1 && ranges[i].to == ranges[i].from + c.width - 1)
    && ranges[|ranges| - 1].to < ranges[|ranges| - 1].from + c.width
    && |ranges| * |c.streams| <= Max(MAX_LOG_REQUESTS_IN_FLIGHT, |c.streams|)
  }

  /** The request budget holds for any number of ranges the stream count allows. */
  lemma Budget(ranges: nat, streams: nat)
    requires 0 < streams && ranges <= Max(1, MAX_LOG_REQUESTS_IN_FLIGHT / streams)
    ensures ranges * streams <= Max(MAX_LOG_REQUESTS_IN_FLIGHT, streams)
  {
    MulMono(ranges, Max(1, MAX_LOG_REQUESTS_IN_FLIGHT / streams), streams);
    DivBounds(MAX_LOG_REQUESTS_IN_FLIGHT, streams);
  }

  /** The `i`-th cut of the blocks from `from` on into batches, stopped at the safe head. */
  function NthRange(width: nat, from: nat, safeHead: nat, i: nat): Range
    requires width > 0
  {
    Range(from + i * width, Max(0, Min(from + i * width + width - 1, safeHead)))
  }

  /** Where the next range begins and ends, and where the one after it will. */
  lemma NextCut(width: nat, from: nat, safeHead: nat, i: nat)
    requires width > 0 && from + i * width <= safeHead
    ensures NthRange(width, from, safeHead, i) == Range(from + i * width, Min(from + i * width + width - 1, safeHead))
    ensures from + (i + 1) * width == from + i * width + width
  {
    assert (i + 1) * width == i * width + width;
  }

  lemma CutsAreAPlan(c: Config, from: nat, safeHead: nat, ranges: seq<Range>)
    requires Configured(c) && from <= safeHead && 0 < |ranges| <= MaxRanges(c)
    requires forall i :: 0 <= i < |ranges| ==> ranges[i] == NthRange(c.width, from, safeHead, i)
    requires from + (|ranges| - 1) * c.width <= safeHead
    requires |ranges| == MaxRanges(c) || from + |ranges| * c.width > safeHead
    ensures Plans(c, from, safeHead, ranges)
  {
    hide NthRange, MaxRanges;
    var n := |ranges|;
    RequestBudget(c, n);
    LastCut(c.width, from, safeHead, n, MaxRanges(c));
    assert ranges[n - 1] == NthRange(c.width, from, safeHead, n - 1);
    CutsLineUp(c.width, from, safeHead, ranges);
  }

  lemma RequestBudget(c: Config, n: nat)
    requires Configured(c) && n <= MaxRanges(c)
    ensures n * |c.streams| <= Max(MAX_LOG_REQUESTS_IN_FLIGHT, |c.streams|)
  {
    Budget(n, |c.streams|);
  }

  lemma CutsLineUp(width: nat, from: nat, safeHead: nat, ranges: seq<Range>)
    requires width > 0 && ranges != [] && from + (|ranges| - 1) * width <= safeHead
    requires forall i :: 0 <= i < |ranges| ==> ranges[i] == NthRange(width, from, safeHead, i)
    ensures ranges[0].from == from
    ensures forall i :: 0 <= i < |ranges| ==> ranges[i].from <= ranges[i].to <= safeHead
    ensures forall i :: 0 <= i < |ranges| - 1 ==>
              ranges[i + 1].from == ranges[i].to + 1 && ranges[i].to == ranges[i].from + width - 1
  {
    hide NthRange;
    forall i | 0 <= i < |ranges|
      ensures ranges[i].from <= ranges[i].to <= safeHead && (i == 0 ==> ranges[i].from == from)
    {
      CutAt(width, from, safeHead, |ranges|, i);
    }
    forall i | 0 <= i < |ranges| - 1
      ensures ranges[i + 1].from == ranges[i].to + 1 && ranges[i].to == ranges[i].from + width - 1
    {
      CutAt(width, from, safeHead, |ranges|, i);
      assert ranges[i + 1] == NthRange(width, from, safeHead, i + 1);
    }
  }

  lemma CutAt(width: nat, from: nat, safeHead: nat, n: nat, i: nat)
    requires width > 0 && i < n && from + (n - 1) * width <= safeHead
    ensures var r := NthRange(width, from, safeHead, i);
            && r.from <= r.to <= safeHead && r.to < r.from + width && (i == 0 ==> r.from == from)
            && (i < n - 1 ==>
                  NthRange(width, from, safeHead, i + 1).from == r.to + 1 && r.to == r.from + width - 1)
  {
    assert (i + 1) * width == i * width + width;
    MulMono(i, n - 1, width);
    MulMono(i + 1, n - 1, width);
  }

  lemma LastCut(width: nat, from: nat, safeHead: nat, n: nat, most: nat)
    requires width > 0 && 0 < n <= most && from + (n - 1) * width <= safeHead
    requires n == most || from + n * width > safeHead
    ensures NthRange(width, from, safeHead, n - 1).to == Min(from + most * width - 1, safeHead)
    ensures NthRange(width, from, safeHead, n - 1).to < NthRange(width, from, safeHead, n - 1).from + width
  {
    assert n * width == (n - 1) * width + width;
    MulMono(n, most, width);
  }

  // ---- the chain and the node ----------------------------------------------

  const POS: ChainLog -> Pos := (l: ChainLog) => PosOf(l)

  function OfStreams(kinds: seq<StreamKind>): ChainLog -> bool {
    l => KindOf(l) in kinds
  }

  function InStreams(kinds: seq<StreamKind>, lo: nat, hi: nat): ChainLog -> bool {
    l => KindOf(l) in kinds && lo <= PosOf(l).block < hi
  }

  function OnStream(k: StreamKind, lo: nat, hi: nat): ChainLog -> bool {
    l => KindOf(l) == k && lo <= PosOf(l).block <= hi
  }

  /** The logs of the configured streams in blocks `lo` up to but excluding `hi`. */
  function Logs(c: Config, chain: seq<ChainLog>, lo: nat, hi: nat): seq<ChainLog> {
    Span(Filter(chain, OfStreams(c.streams)), POS, lo, hi)
  }

  /** `getLogs` on one stream over an inclusive range; `None` is a failed request. */
  type Node = (StreamKind, nat, nat) -> Option<seq<ChainLog>>

  /** Below the safe head a node that answers gives every log once, in whatever order. */
  ghost predicate Truthful(node: Node, chain: seq<ChainLog>, safeHead: nat) {
    forall k: StreamKind, lo: nat, hi: nat :: hi <= safeHead && node(k, lo, hi).Some? ==>
      multiset(node(k, lo, hi).value) == multiset(Filter(chain, OnStream(k, lo, hi)))
  }

  /** Some configured stream fails over this range. */
  ghost predicate RangeFails(c: Config, node: Node, r: Range) {
    exists k :: k in c.streams && node(k, r.from, r.to).None?
  }

  /** The `i`-th cut is one of those a tick from `from` fetches. */
  predicate InPlan(c: Config, from: nat, safeHead: nat, i: nat)
    requires Configured(c)
  {
    from + i * c.width <= PlannedEnd(c, from, safeHead)
  }

  /** One of the requests the tick makes fails. */
  ghost predicate RequestFails(c: Config, node: Node, from: nat, safeHead: nat)
    requires Configured(c)
  {
    exists i: nat :: InPlan(c, from, safeHead, i) && RangeFails(c, node, NthRange(c.width, from, safeHead, i))
  }

  /** The ranges of a plan are its cuts, no more and no fewer. */
  ghost predicate AllCuts(c: Config, from: nat, safeHead: nat, ranges: seq<Range>)
    requires Configured(c)
  {
    && (forall i: nat :: i < |ranges| <==> InPlan(c, from, safeHead, i))
    && (forall i :: 0 <= i < |ranges| ==> ranges[i] == NthRange(c.width, from, safeHead, i))
  }

  lemma CutsInPlan(c: Config, from: nat, safeHead: nat, n: nat, i: nat)
    requires Configured(c) && from <= safeHead && 0 < n <= MaxRanges(c) && from + (n - 1) * c.width <= safeHead
    requires n == MaxRanges(c) || from + n * c.width > safeHead
    ensures i < n <==> InPlan(c, from, safeHead, i)
  {
    hide MaxRanges;
    CutFacts(c.width, n, MaxRanges(c), i);
    WithinPlan(from, safeHead, c.width, (n - 1) * c.width, n * c.width, MaxRanges(c) * c.width, i * c.width,
               n == MaxRanges(c), i < n);
  }

  lemma CutFacts(w: nat, n: nat, most: nat, i: nat)
    requires 0 < n <= most
    ensures n * w == (n - 1) * w + w <= most * w && (n == most ==> n * w == most * w)
    ensures if i < n then i * w <= (n - 1) * w else n * w <= i * w
  {
    assert n * w == (n - 1) * w + w;
    MulMono(n, most, w);
    MulMono(i, n - 1, w);
    MulMono(n, i, w);
  }

  /** The same with the products named, so that nothing is left to multiply. */
  lemma WithinPlan(from: nat, safeHead: nat, w: nat, before: nat, upTo: nat, most: nat, at: nat, full: bool, earlier: bool)
    requires w > 0 && from + before <= safeHead && upTo == before + w <= most
    requires if full then upTo == most else from + upTo > safeHead
    requires if earlier then at <= before else upTo <= at
    ensures earlier <==> from + at <= Min(from + most - 1, safeHead)
  {
  }

  function Fetched(kinds: seq<StreamKind>, chain: seq<ChainLog>, lo: nat, hi: nat): seq<ChainLog> {
    Filter(chain, InStreams(kinds, lo, hi))
  }

  lemma NoStreams(c: Config, chain: seq<ChainLog>, range: Range)
    ensures Fetched(c.streams[..0], chain, range.from, range.to + 1) == []
  {
    FilterNone(chain, InStreams(c.streams[..0], range.from, range.to + 1));
  }

  lemma Answer(node: Node, chain: seq<ChainLog>, safeHead: nat, k: StreamKind, range: Range)
    requires Truthful(node, chain, safeHead) && range.to <= safeHead && node(k, range.from, range.to).Some?
    ensures multiset(node(k, range.from, range.to).value) == multiset(Filter(chain, OnStream(k, range.from, range.to)))
  {
  }

  lemma OneMoreStream(kinds: seq<StreamKind>, k: StreamKind, chain: seq<ChainLog>, lo: nat, hi: nat)
    requires k !in kinds
    ensures multiset(Fetched(kinds + [k], chain, lo, hi + 1))
              == multiset(Fetched(kinds, chain, lo, hi + 1))
               + multiset(Filter(chain, OnStream(k, lo, hi)))
  {
    FilterSplit(chain, InStreams(kinds, lo, hi + 1), OnStream(k, lo, hi), InStreams(kinds + [k], lo, hi + 1));
  }

  lemma AllStreams(c: Config, chain: seq<ChainLog>, lo: nat, hi: nat)
    ensures Fetched(c.streams, chain, lo, hi) == Logs(c, chain, lo, hi)
  {
    FilterTwice(chain, OfStreams(c.streams), InBlocks(POS, lo, hi), InStreams(c.streams, lo, hi));
  }

  // ---- runs ----------------------------------------------------------------

  /**
   * The indexer's progress: the cursor, the batches of its successful ticks laid end to end, and
   * whether every log handed to the processor so far came from a tick that also saved its cursor.
   */
  datatype Index = Index(cursor: Option<nat>, delivered: seq<ChainLog>, clean: bool)

  const FRESH := Index(None, [], true)

  function NextFrom(c: Config, s: Index): nat {
    if s.cursor.Some? then s.cursor.value + 1 else c.startBlock
  }

  /** One tick at a given head: idle, failed before or after applying something, or done. */
  ghost predicate TickStep(c: Config, chain: seq<ChainLog>, head: nat, s: Index, s': Index)
    requires Configured(c)
  {
    var safe, from := SafeHead(c, head), NextFrom(c, s);
    || s' == s
    || (from <= safe && s' == s.(clean := false))
    || (from <= safe
        && var to := PlannedEnd(c, from, safe);
           s' == Index(Some(to), s.delivered + Logs(c, chain, from, to + 1), s.clean))
  }

  ghost predicate ChainOk(chain: seq<ChainLog>) {
    StrictlyOrdered(chain, POS)
  }

  /** The batches delivered so far are exactly the chain's logs from the start block to the cursor. */
  ghost predicate Exact(c: Config, chain: seq<ChainLog>, s: Index) {
    && NextFrom(c, s) >= c.startBlock
    && s.delivered == Logs(c, chain, c.startBlock, NextFrom(c, s))
  }

  lemma LogsJoin(c: Config, chain: seq<ChainLog>, lo: nat, mid: nat, hi: nat)
    requires ChainOk(chain) && lo <= mid <= hi
    ensures Logs(c, chain, lo, mid) + Logs(c, chain, mid, hi) == Logs(c, chain, lo, hi)
  {
    var mine := Filter(chain, OfStreams(c.streams));
    FilterOrdered(chain, OfStreams(c.streams), POS);
    SpanJoin(mine, POS, lo, mid, hi);
  }

  lemma RangeJoins(c: Config, chain: seq<ChainLog>, from: nat, r: Range, flat: seq<ChainLog>, logs: seq<ChainLog>)
    requires ChainOk(chain) && from <= r.from <= r.to
    requires multiset(flat) == multiset(Logs(c, chain, from, r.from))
    requires multiset(logs) == multiset(Logs(c, chain, r.from, r.to + 1))
    ensures multiset(flat + logs) == multiset(Logs(c, chain, from, r.to + 1))
  {
    LogsJoin(c, chain, from, r.from, r.to + 1);
  }

  lemma LogsOrdered(c: Config, chain: seq<ChainLog>, lo: nat, hi: nat)
    requires ChainOk(chain)
    ensures StrictlyOrdered(Logs(c, chain, lo, hi), POS)
  {
    var mine := Filter(chain, OfStreams(c.streams));
    FilterOrdered(chain, OfStreams(c.streams), POS);
    FilterOrdered(mine, InBlocks(POS, lo, hi), POS);
  }

  lemma NoLogs(c: Config, chain: seq<ChainLog>, from: nat)
    ensures Logs(c, chain, from, from) == []
  {
    SpanEmpty(Filter(chain, OfStreams(c.streams)), POS, from);
  }

  lemma FreshExact(c: Config, chain: seq<ChainLog>)
    ensures Exact(c, chain, FRESH)
  {
    NoLogs(c, chain, c.startBlock);
  }

  /**
   * A tick keeps the delivered logs exact and never moves the cursor back; what it covers is confirmed
   * exactly when the chain is at least as long as the confirmation depth.
   */
  lemma TickKeepsExact(c: Config, chain: seq<ChainLog>, head: nat, s: Index, s': Index)
    requires Configured(c) && ChainOk(chain) && Exact(c, chain, s) && TickStep(c, chain, head, s, s')
    ensures Exact(c, chain, s') && NextFrom(c, s) <= NextFrom(c, s')
    ensures s'.cursor != s.cursor ==> (s'.cursor.value + c.confirmations <= head <==> head >= c.confirmations)
  {
    if s'.cursor != s.cursor {
      var from, to := NextFrom(c, s), PlannedEnd(c, NextFrom(c, s), SafeHead(c, head));
      MulAtLeast(MaxRanges(c), c.width);
      LogsJoin(c, chain, c.startBlock, from, to + 1);
    }
  }

  lemma MulAtLeast(n: nat, w: nat)
    requires n >= 1
    ensures n * w >= w
  {
    MulMono(1, n, w);
  }

  /** A sequence of ticks at the given heads, from a fresh start. */
  ghost predicate IsRun(c: Config, chain: seq<ChainLog>, heads: seq<nat>, states: seq<Index>)
    requires Configured(c)
  {
    && |states| == |heads| + 1 && states[0] == FRESH
    && forall i :: 0 <= i < |heads| ==> TickStep(c, chain, heads[i], states[i], states[i + 1])
  }

  lemma {:induction false} RunExact(c: Config, chain: seq<ChainLog>, heads: seq<nat>, states: seq<Index>, n: nat)
    requires Configured(c) && ChainOk(chain) && IsRun(c, chain, heads, states) && n < |states|
    ensures Exact(c, chain, states[n])
    ensures forall m :: 0 <= m <= n ==> NextFrom(c, states[m]) <= NextFrom(c, states[n])
  {
    if n == 0 {
      FreshExact(c, chain);
    } else {
      RunExact(c, chain, heads, states, n - 1);
      TickKeepsExact(c, chain, heads[n - 1], states[n - 1], states[n]);
    }
  }

  /**
   * Confluence: two indexers on the same streams that have reached the same block have delivered the
   * same logs in the same order, whatever their batch widths, confirmations, heads, failures and
   * timing were.
   */
  lemma Confluence(c1: Config, c2: Config, chain: seq<ChainLog>,
                   heads1: seq<nat>, states1: seq<Index>, heads2: seq<nat>, states2: seq<Index>, n1: nat, n2: nat)
    requires Configured(c1) && Configured(c2) && ChainOk(chain)
    requires c1.startBlock == c2.startBlock && forall k :: k in c1.streams <==> k in c2.streams
    requires IsRun(c1, chain, heads1, states1) && n1 < |states1|
    requires IsRun(c2, chain, heads2, states2) && n2 < |states2|
    requires NextFrom(c1, states1[n1]) == NextFrom(c2, states2[n2])
    ensures states1[n1].delivered == states2[n2].delivered
  {
    RunExact(c1, chain, heads1, states1, n1);
    RunExact(c2, chain, heads2, states2, n2);
    SameFilter(chain, OfStreams(c1.streams), OfStreams(c2.streams));
  }

  lemma {:induction false} SameFilter(s: seq<ChainLog>, f: ChainLog -> bool, g: ChainLog -> bool)
    requires forall l :: f(l) == g(l)
    ensures Filter(s, f) == Filter(s, g)
  {
    if s != [] {
      SameFilter(s[1..], f, g);
    }
  }

  // ---- the service ---------------------------------------------------------

  /** What goes wrong in a tick after its logs were fetched. */
  datatype Fault = NoFault | DiesAfter(logs: nat) | CursorNotSaved

  /** Whether the fault happens in a tick with these logs: a crash needs a log to crash on. */
  predicate Strikes(fault: Fault, logs: seq<ChainLog>) {
    match fault
    case NoFault => false
    case DiesAfter(n) => logs != [] && n <= |logs|
    case CursorNotSaved => true
  }

  /** The logs of the span a tick covers. */
  function Due(c: Config, chain: seq<ChainLog>, head: nat, s: Index): seq<ChainLog>
    requires Configured(c)
  {
    Logs(c, chain, NextFrom(c, s), PlannedEnd(c, NextFrom(c, s), SafeHead(c, head)) + 1)
  }

  class Service {
    const c: Config
    const processor: Processor
    ghost const chain: seq<ChainLog>
    var cursor: Option<nat>
    ghost var index: Index

    /**
     * The cursor is exact, and unless a tick has died with work half done the tables are what one
     * uninterrupted pass over the chain's logs up to the cursor produces.
     */
    ghost predicate Valid()
      reads this, processor
    {
      && Configured(c) && ChainOk(chain) && processor.Valid()
      && index.cursor == cursor && Exact(c, chain, index)
      && (index.clean ==>
            Outcome(processor.State(), true)
              == ApplyAll(processor.hash, processor.drafts, NO_TABLES, index.delivered))
    }

    constructor (c: Config, processor: Processor, ghost chain: seq<ChainLog>)
      requires Configured(c) && ChainOk(chain) && processor.Valid() && processor.State() == NO_TABLES
      ensures Valid() && index == FRESH && this.c == c && this.processor == processor && this.chain == chain
    {
      this.c, this.processor, this.chain := c, processor, chain;
      cursor, index := None, FRESH;
      new;
      FreshExact(c, chain);
    }

    /** Until a tick dies half-way, the books are one pass over the chain's own engine logs. */
    lemma BooksAreTheChain()
      requires Valid() && index.clean
      ensures var logs := EngineLogs(Logs(c, chain, c.startBlock, NextFrom(c, index)));
              Ledger.Run(Ledger.EMPTY, logs).ok && processor.State().db == Ledger.Run(Ledger.EMPTY, logs).db
    {
      LedgerPart(processor.hash, processor.drafts, NO_TABLES, index.delivered);
    }

    method NextFromBlock() returns (from: nat)
      requires Valid()
      ensures from == NextFrom(c, index)
    {
      if cursor.None? { return c.startBlock; }
      return cursor.value + 1;
    }

    method SaveCursor(lastBlock: nat)
      modifies this`cursor
      ensures cursor == Some(lastBlock)
    {
      cursor := Some(lastBlock);
    }

    method Plan(from: nat, safeHead: nat) returns (ranges: seq<Range>)
      requires Configured(c) && from <= safeHead
      ensures Plans(c, from, safeHead, ranges) && AllCuts(c, from, safeHead, ranges)
    {
      hide NthRange, Plans;
      ranges := [];
      var next := from;
      var maxRanges := Max(1, MAX_LOG_REQUESTS_IN_FLIGHT / |c.streams|);
      while next <= safeHead && |ranges| < maxRanges
        invariant |ranges| <= maxRanges
        invariant next == Min(from + |ranges| * c.width, safeHead + 1)
        invariant |ranges| > 0 ==> from + (|ranges| - 1) * c.width <= safeHead
        invariant forall i :: 0 <= i < |ranges| ==> ranges[i] == NthRange(c.width, from, safeHead, i)
        decreases maxRanges - |ranges|
      {
        var end := if next + c.width - 1 < safeHead then next + c.width - 1 else safeHead;
        NextCut(c.width, from, safeHead, |ranges|);
        ranges := ranges + [Range(next, end)];
        next := end + 1;
      }
      CutsAreAPlan(c, from, safeHead, ranges);
      forall i: nat ensures i < |ranges| <==> InPlan(c, from, safeHead, i) {
        CutsInPlan(c, from, safeHead, |ranges|, i);
      }
    }

    /** One range on every stream, in chain order; a single failed request fails them all. */
    method CollectLogs(node: Node, range: Range, ghost safeHead: nat) returns (r: Option<seq<ChainLog>>)
      requires Configured(c) && ChainOk(chain) && Truthful(node, chain, safeHead) && range.from <= range.to <= safeHead
      ensures r.Some? ==> multiset(r.value) == multiset(Logs(c, chain, range.from, range.to + 1))
      ensures r.None? <==> RangeFails(c, node, range)
    {
      hide Truthful, Fetched, Logs, Sort, ChainOk;
      var flat: seq<ChainLog> := [];
      var i := 0;
      NoStreams(c, chain, range);
      while i < |c.streams|
        invariant 0 <= i <= |c.streams|
        invariant multiset(flat) == multiset(Fetched(c.streams[..i], chain, range.from, range.to + 1))
        invariant forall j :: 0 <= j < i ==> node(c.streams[j], range.from, range.to).Some?
      {
        var raw := node(c.streams[i], range.from, range.to);
        if raw.None? { return None; }
        assert c.streams[..i + 1] == c.streams[..i] + [c.streams[i]];
        OneMoreStream(c.streams[..i], c.streams[i], chain, range.from, range.to);
        Answer(node, chain, safeHead, c.streams[i], range);
        flat := flat + raw.value;
        i := i + 1;
      }
      assert c.streams[..i] == c.streams;
      AllStreams(c, chain, range.from, range.to + 1);
      SortSorts(flat, POS);
      return Some(Sort(flat, POS));
    }

    method Fetch(node: Node, ranges: seq<Range>, ghost from: nat, ghost safeHead: nat) returns (r: Option<seq<ChainLog>>)
      requires ChainOk(chain) && Truthful(node, chain, safeHead)
      requires Plans(c, from, safeHead, ranges) && AllCuts(c, from, safeHead, ranges)
      ensures r.Some? ==> r.value == Logs(c, chain, from, PlannedEnd(c, from, safeHead) + 1)
      ensures r.None? <==> RequestFails(c, node, from, safeHead)
    {
      hide Truthful, Logs, PlannedEnd, Sort, ChainOk, RangeFails, InPlan, NthRange;
      var flat: seq<ChainLog> := [];
      var i := 0;
      NoLogs(c, chain, from);
      while i < |ranges|
        invariant 0 <= i <= |ranges|
        invariant i < |ranges| ==> from <= ranges[i].from
        invariant i > 0 ==> multiset(flat) == multiset(Logs(c, chain, from, ranges[i - 1].to + 1))
        invariant i < |ranges| ==> multiset(flat) == multiset(Logs(c, chain, from, ranges[i].from))
        invariant forall j :: 0 <= j < i ==> !RangeFails(c, node, ranges[j])
      {
        var logs := CollectLogs(node, ranges[i], safeHead);
        if logs.None? { return None; }
        RangeJoins(c, chain, from, ranges[i], flat, logs.value);
        flat := flat + logs.value;
        i := i + 1;
      }
      LogsOrdered(c, chain, from, PlannedEnd(c, from, safeHead) + 1);
      SortRecovers(flat, Logs(c, chain, from, PlannedEnd(c, from, safeHead) + 1), POS);
      return Some(Sort(flat, POS));
    }

    /** One indexing step. `failed` is the exception the loop catches. */
    method Tick(node: Node, head: nat, fault: Fault) returns (caughtUp: bool, failed: bool)
      requires Valid() && Truthful(node, chain, SafeHead(c, head))
      modifies this`cursor, this`index, processor
      ensures Valid() && TickStep(c, chain, head, old(index), index)
      ensures failed ==> cursor == old(cursor)
      ensures failed <==>
                && NextFrom(c, old(index)) <= SafeHead(c, head)
                && (|| RequestFails(c, node, NextFrom(c, old(index)), SafeHead(c, head))
                    || Strikes(fault, Due(c, chain, head, old(index)))
                    || !ApplyAll(processor.hash, processor.drafts, old(processor.State()), Due(c, chain, head, old(index))).ok)
      ensures !failed ==> cursor == if NextFrom(c, old(index)) > SafeHead(c, head) then old(cursor)
                                    else Some(PlannedEnd(c, NextFrom(c, old(index)), SafeHead(c, head)))
      ensures !failed ==> (caughtUp <==> NextFrom(c, index) > SafeHead(c, head)) && index.clean == old(index).clean
    {
      hide Logs, Truthful, ChainOk, RequestFails, ApplyLog, InPlan, AllCuts, NthRange;
      var safeHead := SafeHead(c, head);
      var from := NextFromBlock();
      if from > safeHead { return true, false; }
      var ranges := Plan(from, safeHead);
      var to := ranges[|ranges| - 1].to;
      var fetched := Fetch(node, ranges, from, safeHead);
      if fetched.None? { return false, true; }
      var logs := fetched.value;
      var ok := true;
      if |logs| > 0 {
        if fault.DiesAfter? && fault.logs <= |logs| {
          var done := processor.ProcessBatch(logs[..fault.logs]);
          index := index.(clean := false);
          return false, true;
        }
        ok := processor.ProcessBatch(logs);
      }
      if !ok || fault.CursorNotSaved? {
        if |logs| > 0 {
          index := index.(clean := false);
        }
        return false, true;
      }
      SaveCursor(to);
      ApplyAppend(processor.hash, processor.drafts, NO_TABLES, index.delivered, logs);
      index := Index(Some(to), index.delivered + logs, index.clean);
      TickKeepsExact(c, chain, head, old(index), index);
      return to >= safeHead, false;
    }
  }
}
