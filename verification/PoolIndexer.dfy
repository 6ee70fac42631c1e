/** The mirror of the pool's state tree: leaves and cursor committed together. */
module PoolIndexer {
  import opened Common
  import opened ChainOrder
  import opened PoolTree

  datatype PoolEvent =
    | Deposited(commitment: nat, aspLabel: nat, value: nat, precommitment: nat)
    | Withdrawn(value: nat, spentNullifier: nat, newCommitment: nat)
    | Unmirrored

  datatype PoolLog = PoolLog(event: PoolEvent, pos: Pos, tx: string)

  datatype LeafKey = LeafKey(tx: string, logIndex: nat)

  const LOG_POS: PoolLog -> Pos := (l: PoolLog) => l.pos

  const LEAF_POS: Leaf -> Pos := (l: Leaf) => l.pos

  function KeyOf(l: Leaf): LeafKey {
    LeafKey(l.tx, l.pos.logIndex)
  }

  /** One decoded log into a row, or nothing for an event that is not mirrored. */
  function ToLeaf(l: PoolLog): Option<Leaf> {
    match l.event
    case Deposited(commitment, aspLabel, value, precommitment) =>
      Some(Leaf(Deposit, commitment, Some(aspLabel), value, Some(precommitment), None, l.pos, Lower(l.tx)))
    case Withdrawn(value, spentNullifier, newCommitment) =>
      Some(Leaf(Change, newCommitment, None, value, None, Some(spentNullifier), l.pos, Lower(l.tx)))
    case Unmirrored => None
  }

  function ToLeaves(logs: seq<PoolLog>): seq<Leaf> {
    if logs == [] then []
    else if ToLeaf(logs[0]).Some? then [ToLeaf(logs[0]).value] + ToLeaves(logs[1..])
    else ToLeaves(logs[1..])
  }

  /** The leaves the chain inserted in blocks `lo` up to but excluding `hi`, in order. */
  function LeafSeq(chain: seq<PoolLog>, lo: nat, hi: nat): seq<Leaf> {
    ToLeaves(Span(chain, LOG_POS, lo, hi))
  }

  /** Chain order, and a (transaction, log index) names one log. */
  ghost predicate ChainOk(chain: seq<PoolLog>) {
    && StrictlyOrdered(chain, LOG_POS)
    && forall i, j :: 0 <= i < j < |chain| ==>
         !(Lower(chain[i].tx) == Lower(chain[j].tx) && chain[i].pos.logIndex == chain[j].pos.logIndex)
  }

  lemma {:induction false} ToLeavesJoin(a: seq<PoolLog>, b: seq<PoolLog>)
    ensures ToLeaves(a + b) == ToLeaves(a) + ToLeaves(b)
  {
    if a == [] {
      assert a + b == b;
    } else {
      assert (a + b)[0] == a[0] && (a + b)[1..] == a[1..] + b;
      ToLeavesJoin(a[1..], b);
    }
  }

  lemma TakeOut(a: seq<PoolLog>, b: seq<PoolLog>) returns (front: seq<PoolLog>, back: seq<PoolLog>)
    requires a != [] && multiset(a) == multiset(b)
    ensures b == front + ([a[0]] + back) && multiset(a[1..]) == multiset(front + back)
  {
    assert a[0] in multiset(a);
    var i :| 0 <= i < |b| && b[i] == a[0];
    front, back := b[..i], b[i + 1..];
    assert b == front + ([a[0]] + back);
    Without(front, a[0], back);
    Without([], a[0], a[1..]);
    assert a == [] + ([a[0]] + a[1..]) && a[1..] == [] + a[1..];
  }

  lemma Without<T(!new)>(front: seq<T>, x: T, back: seq<T>)
    ensures multiset(front + back) == multiset(front + ([x] + back)) - multiset{x}
  {
    assert multiset(front + ([x] + back)) == multiset(front) + (multiset([x]) + multiset(back));
    assert multiset(front + back) == multiset(front) + multiset(back);
  }

  lemma {:induction false} ToLeavesMultiset(a: seq<PoolLog>, b: seq<PoolLog>)
    requires multiset(a) == multiset(b)
    ensures multiset(ToLeaves(a)) == multiset(ToLeaves(b))
    decreases |a|
  {
    if a == [] {
      assert |multiset(b)| == |b|;
    } else {
      hide ToLeaves;
      var front, back := TakeOut(a, b);
      ToLeavesMultiset(a[1..], front + back);
      MovedToFront(a[0], a[1..], front, back);
      assert a == [a[0]] + a[1..];
    }
  }

  lemma MovedToFront(x: PoolLog, rest: seq<PoolLog>, front: seq<PoolLog>, back: seq<PoolLog>)
    requires multiset(ToLeaves(rest)) == multiset(ToLeaves(front + back))
    ensures multiset(ToLeaves([x] + rest)) == multiset(ToLeaves(front + ([x] + back)))
  {
    hide ToLeaves;
    ToLeavesJoin([x], rest);
    ToLeavesJoin(front, [x] + back);
    ToLeavesJoin([x], back);
    ToLeavesJoin(front, back);
  }

  lemma LeafSeqJoin(chain: seq<PoolLog>, lo: nat, mid: nat, hi: nat)
    requires ChainOk(chain) && lo <= mid <= hi
    ensures LeafSeq(chain, lo, mid) + LeafSeq(chain, mid, hi) == LeafSeq(chain, lo, hi)
  {
    SpanJoin(chain, LOG_POS, lo, mid, hi);
    ToLeavesJoin(Span(chain, LOG_POS, lo, mid), Span(chain, LOG_POS, mid, hi));
  }

  lemma {:induction false} SourceOf(logs: seq<PoolLog>, x: Leaf) returns (l: PoolLog)
    requires x in ToLeaves(logs)
    ensures l in logs && ToLeaf(l) == Some(x)
  {
    if ToLeaf(logs[0]) == Some(x) {
      l := logs[0];
    } else {
      l := SourceOf(logs[1..], x);
    }
  }

  lemma {:induction false} LeavesOrdered(logs: seq<PoolLog>)
    requires StrictlyOrdered(logs, LOG_POS)
    ensures StrictlyOrdered(ToLeaves(logs), LEAF_POS)
  {
    if logs != [] {
      var rest := logs[1..];
      LeavesOrdered(rest);
      forall x | x in ToLeaves(rest)
        ensures Before(logs[0].pos, x.pos)
      {
        var l := SourceOf(rest, x);
        var i :| 0 <= i < |rest| && rest[i] == l;
        assert Before(LOG_POS(logs[0]), LOG_POS(logs[i + 1]));
      }
    }
  }

  /** Two logs of the chain that would share a row are the same log. */
  lemma KeysAreUnique(chain: seq<PoolLog>, l: PoolLog, m: PoolLog)
    requires ChainOk(chain) && l in chain && m in chain
    requires Lower(l.tx) == Lower(m.tx) && l.pos.logIndex == m.pos.logIndex
    ensures l == m
  {
    hide Lower;
    var i :| 0 <= i < |chain| && chain[i] == l;
    var j :| 0 <= j < |chain| && chain[j] == m;
    assert i == j;
  }

  ghost predicate DistinctKeys(s: seq<Leaf>) {
    forall x, y :: x in s && y in s && KeyOf(x) == KeyOf(y) ==> x == y
  }

  lemma SpanOfChain(chain: seq<PoolLog>, lo: nat, hi: nat)
    requires ChainOk(chain)
    ensures StrictlyOrdered(LeafSeq(chain, lo, hi), LEAF_POS)
    ensures DistinctKeys(LeafSeq(chain, lo, hi))
  {
    hide Lower;
    var logs := Span(chain, LOG_POS, lo, hi);
    FilterOrdered(chain, InBlocks(LOG_POS, lo, hi), LOG_POS);
    FilterElements(chain, InBlocks(LOG_POS, lo, hi));
    LeavesOrdered(logs);
    forall x, y | x in LeafSeq(chain, lo, hi) && y in LeafSeq(chain, lo, hi) && KeyOf(x) == KeyOf(y)
      ensures x == y
    {
      var l := SourceOf(logs, x);
      var m := SourceOf(logs, y);
      KeysAreUnique(chain, l, m);
    }
  }

  // ---- the mirror in the chain's own terms ---------------------------------

  /** What the pool's tree was given, read straight off its events. */
  function TreeInserts(logs: seq<PoolLog>): seq<nat> {
    if logs == [] then []
    else match logs[0].event
      case Deposited(commitment, _, _, _) => [commitment] + TreeInserts(logs[1..])
      case Withdrawn(_, _, newCommitment) => [newCommitment] + TreeInserts(logs[1..])
      case Unmirrored => TreeInserts(logs[1..])
  }

  /** The labels of the deposits, read straight off the events. */
  function DepositLabels(logs: seq<PoolLog>): seq<nat> {
    if logs == [] then []
    else if logs[0].event.Deposited? then [logs[0].event.aspLabel] + DepositLabels(logs[1..])
    else DepositLabels(logs[1..])
  }

  /** A row records a log: every column holds the value the event carries for it, or is empty. */
  predicate Records(r: Leaf, l: PoolLog) {
    && r.pos == l.pos && r.tx == Lower(l.tx) && !l.event.Unmirrored?
    && (l.event.Deposited? ==>
          && r.kind == Deposit && r.commitment == l.event.commitment && r.value == l.event.value
          && r.aspLabel == Some(l.event.aspLabel) && r.precommitment == Some(l.event.precommitment)
          && r.spentNullifier == None)
    && (l.event.Withdrawn? ==>
          && r.kind == Change && r.commitment == l.event.newCommitment && r.value == l.event.value
          && r.spentNullifier == Some(l.event.spentNullifier)
          && r.aspLabel == None && r.precommitment == None)
  }

  predicate Mirrored(l: PoolLog) {
    !l.event.Unmirrored?
  }

  /** The rows record the mirrored logs one for one, in their order. */
  ghost predicate RecordsAll(rows: seq<Leaf>, logs: seq<PoolLog>)
    decreases |logs|
  {
    if logs == [] then rows == []
    else if !Mirrored(logs[0]) then RecordsAll(rows, logs[1..])
    else rows != [] && Records(rows[0], logs[0]) && RecordsAll(rows[1..], logs[1..])
  }

  lemma {:induction false} LeavesRecord(logs: seq<PoolLog>)
    ensures RecordsAll(ToLeaves(logs), logs)
  {
    if logs != [] {
      hide Lower;
      LeavesRecord(logs[1..]);
      if Mirrored(logs[0]) {
        assert ToLeaves(logs)[1..] == ToLeaves(logs[1..]);
      }
    }
  }

  /** Rows that record the logs feed both trees what the events say. */
  lemma {:induction false} RecordedTrees(rows: seq<Leaf>, logs: seq<PoolLog>)
    requires RecordsAll(rows, logs)
    ensures Commitments(rows) == TreeInserts(logs)
    ensures Labels(rows) == DepositLabels(logs)
    decreases |logs|
  {
    if logs != [] {
      hide Lower;
      if Mirrored(logs[0]) {
        RecordedTrees(rows[1..], logs[1..]);
        assert rows == [rows[0]] + rows[1..];
        LabelsGrow([rows[0]], rows[1..]);
        OneLabel(rows[0]);
        assert Commitments(rows) == [rows[0].commitment] + Commitments(rows[1..]);
      } else {
        RecordedTrees(rows, logs[1..]);
      }
    } else {
      assert rows == [];
    }
  }

  lemma OneLabel(r: Leaf)
    ensures Labels([r]) == if Labelled(r) then [r.aspLabel.value] else []
  {
    assert [r][..0] == [];
  }

  /** Every mirrored log has its row. */
  lemma {:induction false} RowOfLog(rows: seq<Leaf>, logs: seq<PoolLog>, l: PoolLog) returns (i: nat)
    requires RecordsAll(rows, logs) && l in logs && Mirrored(l)
    ensures i < |rows| && Records(rows[i], l)
    decreases |logs|
  {
    hide Records;
    if Mirrored(logs[0]) {
      if l == logs[0] { return 0; }
      i := RowOfLog(rows[1..], logs[1..], l);
      i := i + 1;
    } else {
      i := RowOfLog(rows, logs[1..], l);
    }
  }

  /** And every row its log. */
  lemma {:induction false} LogOfRow(rows: seq<Leaf>, logs: seq<PoolLog>, i: nat) returns (l: PoolLog)
    requires RecordsAll(rows, logs) && i < |rows|
    ensures l in logs && Mirrored(l) && Records(rows[i], l)
    decreases |logs|
  {
    hide Records, Mirrored;
    if Mirrored(logs[0]) {
      if i == 0 { return logs[0]; }
      l := LogOfRow(rows[1..], logs[1..], i - 1);
    } else {
      l := LogOfRow(rows, logs[1..], i);
    }
  }

  // ---- the table -----------------------------------------------------------

  type Table = map<LeafKey, Leaf>

  function Upsert(t: Table, rows: seq<Leaf>): Table
    decreases |rows|
  {
    if rows == [] then t else Upsert(t[KeyOf(rows[0]) := rows[0]], rows[1..])
  }

  /** The table holds exactly the leaves of `s`, each under its own key. */
  ghost predicate Mirrors(t: Table, s: seq<Leaf>) {
    && (forall x :: x in s ==> KeyOf(x) in t && t[KeyOf(x)] == x)
    && (forall k :: k in t ==> t[k] in s && KeyOf(t[k]) == k)
  }

  lemma {:induction false} UpsertMirrors(t: Table, s: seq<Leaf>, rows: seq<Leaf>)
    requires Mirrors(t, s)
    requires DistinctKeys(s + rows)
    ensures Mirrors(Upsert(t, rows), s + rows)
    decreases |rows|
  {
    if rows == [] {
      assert s + rows == s;
    } else {
      assert rows[0] in s + rows;
      assert (s + [rows[0]]) + rows[1..] == s + rows;
      UpsertMirrors(t[KeyOf(rows[0]) := rows[0]], s + [rows[0]], rows[1..]);
    }
  }

  /** What `findMany` ordered by block and log index may return. */
  ghost predicate ReadOf(t: Table, rows: seq<Leaf>) {
    Ordered(rows, LEAF_POS) && multiset(rows) == multiset(set k | k in t :: t[k])
  }

  /** A mirrored table is read back as the chain's own sequence. */
  lemma ReadIsTheChain(t: Table, s: seq<Leaf>, rows: seq<Leaf>)
    requires Mirrors(t, s) && StrictlyOrdered(s, LEAF_POS) && ReadOf(t, rows)
    ensures rows == s
  {
    StrictListsOnce(s, LEAF_POS);
    assert (set k | k in t :: t[k]) == set x | x in s;
    OrderIsUnique(rows, s, LEAF_POS);
  }

  lemma RowsOfSpan(chain: seq<PoolLog>, logs: seq<PoolLog>, from: nat, to: nat)
    requires ChainOk(chain) && multiset(logs) == multiset(Span(chain, LOG_POS, from, to + 1))
    ensures Sort(ToLeaves(logs), LEAF_POS) == LeafSeq(chain, from, to + 1)
  {
    SpanOfChain(chain, from, to + 1);
    ToLeavesMultiset(logs, Span(chain, LOG_POS, from, to + 1));
    SortRecovers(ToLeaves(logs), LeafSeq(chain, from, to + 1), LEAF_POS);
  }

  /** Committing a span's rows, in whatever order the node returned them, extends the mirror by it. */
  lemma CommitMirrors(chain: seq<PoolLog>, t: Table, logs: seq<PoolLog>, start: nat, from: nat, to: nat)
    requires ChainOk(chain) && start <= from <= to + 1
    requires Mirrors(t, LeafSeq(chain, start, from))
    requires multiset(logs) == multiset(Span(chain, LOG_POS, from, to + 1))
    ensures Mirrors(Upsert(t, Sort(ToLeaves(logs), LEAF_POS)), LeafSeq(chain, start, to + 1))
  {
    hide LeafSeq, Mirrors, Upsert, ChainOk, Sort, ToLeaves, DistinctKeys;
    RowsOfSpan(chain, logs, from, to);
    SpanOfChain(chain, start, to + 1);
    LeafSeqJoin(chain, start, from, to + 1);
    UpsertMirrors(t, LeafSeq(chain, start, from), LeafSeq(chain, from, to + 1));
  }

  // ---- the service ---------------------------------------------------------

  datatype Config = Config(width: nat, confirmations: nat, startBlock: nat)

  function SafeHead(c: Config, head: nat): nat {
    if head > c.confirmations then head - c.confirmations else 0
  }

  /** The last block of the span one tick asks for. */
  function PlannedEnd(c: Config, from: nat, head: nat): nat
    requires c.width > 0
  {
    Min(from + c.width - 1, SafeHead(c, head))
  }

  /** One batch, stopped at the last block with enough others on it. */
  lemma PlannedEndIs(c: Config, from: nat, head: nat)
    requires c.width > 0
    ensures head >= c.confirmations ==> SafeHead(c, head) + c.confirmations == head
    ensures head < c.confirmations ==> SafeHead(c, head) == 0
    ensures from <= SafeHead(c, head) ==>
              && from <= PlannedEnd(c, from, head) < from + c.width && PlannedEnd(c, from, head) <= SafeHead(c, head)
              && (PlannedEnd(c, from, head) == SafeHead(c, head) || PlannedEnd(c, from, head) + 1 == from + c.width)
  {
  }

  type Node = (nat, nat) -> Option<seq<PoolLog>>

  ghost predicate Truthful(node: Node, chain: seq<PoolLog>, safeHead: nat) {
    forall lo: nat, hi: nat :: hi <= safeHead && node(lo, hi).Some? ==>
      multiset(node(lo, hi).value) == multiset(Span(chain, LOG_POS, lo, hi + 1))
  }

  /** How the transaction that writes leaves and cursor ends. */
  datatype Commit = Committed | RolledBack | CommittedThenLost

  class Service {
    const c: Config
    ghost const chain: seq<PoolLog>
    var table: Table
    var cursor: Option<nat>
    var caughtUp: bool

    ghost function Next(): nat
      reads this
    {
      if cursor.Some? then cursor.value + 1 else c.startBlock
    }

    /** The mirror is exactly the chain's leaves from the start block through the cursor. */
    ghost predicate Valid()
      reads this
    {
      && c.width > 0 && ChainOk(chain) && c.startBlock <= Next()
      && Mirrors(table, LeafSeq(chain, c.startBlock, Next()))
    }

    constructor (c: Config, ghost chain: seq<PoolLog>)
      requires c.width > 0 && ChainOk(chain)
      ensures Valid() && cursor == None && !caughtUp && this.c == c && this.chain == chain
    {
      this.c, this.chain := c, chain;
      table, cursor, caughtUp := map[], None, false;
      new;
      SpanEmpty(chain, LOG_POS, c.startBlock);
    }

    /** A new process: the database survives, the flag does not. */
    method Restart()
      requires Valid()
      modifies this`caughtUp
      ensures Valid() && !caughtUp
    {
      caughtUp := false;
    }

    method NextFromBlock() returns (from: nat)
      ensures from == Next()
    {
      if cursor.None? { return c.startBlock; }
      return cursor.value + 1;
    }

    /**
     * One step. Whatever fails, at whatever point, the leaves and the cursor move together or not at
     * all; `caughtUp` is set by reaching the safe head and by nothing else, and stays set.
     */
    method Tick(node: Node, head: nat, commit: Commit) returns (done: bool, failed: bool)
      requires Valid() && Truthful(node, chain, SafeHead(c, head))
      modifies this
      ensures Valid() && old(Next()) <= Next()
      ensures failed <==> old(Next()) <= SafeHead(c, head) &&
                          (node(old(Next()), PlannedEnd(c, old(Next()), head)).None? || commit != Committed)
      ensures Next() == if old(Next()) > SafeHead(c, head) || commit == RolledBack
                           || node(old(Next()), PlannedEnd(c, old(Next()), head)).None?
                        then old(Next()) else PlannedEnd(c, old(Next()), head) + 1
      ensures failed && commit != CommittedThenLost ==> cursor == old(cursor) && table == old(table)
      ensures !failed ==> (done <==> Next() > SafeHead(c, head))
      ensures caughtUp <==> old(caughtUp) || (done && !failed)
    {
      hide LeafSeq, Mirrors, DistinctKeys, Upsert, ChainOk, Sort, ToLeaves;
      var safeHead := SafeHead(c, head);
      var from := NextFromBlock();
      if from > safeHead {
        caughtUp := true;
        return true, false;
      }
      var to := if from + c.width - 1 < safeHead then from + c.width - 1 else safeHead;
      var logs := node(from, to);
      if logs.None? { return false, true; }
      var rows := Sort(ToLeaves(logs.value), LEAF_POS);
      if commit.RolledBack? { return false, true; }
      CommitMirrors(chain, table, logs.value, c.startBlock, from, to);
      table, cursor := Upsert(table, rows), Some(to);
      if commit.CommittedThenLost? { return false, true; }
      done := to >= safeHead;
      if done { caughtUp := true; }
      return done, false;
    }

    /** `leaves()`: the rows in chain order are the chain's leaves, none missing and none extra. */
    method Leaves() returns (rows: seq<Leaf>)
      requires Valid()
      ensures ReadOf(table, rows)
      ensures rows == LeafSeq(chain, c.startBlock, Next())
      ensures RecordsAll(rows, Span(chain, LOG_POS, c.startBlock, Next())) && StrictlyOrdered(rows, LEAF_POS)
      ensures Commitments(rows) == TreeInserts(Span(chain, LOG_POS, c.startBlock, Next()))
      ensures Labels(rows) == DepositLabels(Span(chain, LOG_POS, c.startBlock, Next()))
    {
      var keys := table.Keys;
      var found: seq<Leaf> := [];
      while keys != {}
        invariant keys <= table.Keys
        invariant multiset(found) == multiset(set k | k in table && k !in keys :: table[k])
        decreases keys
      {
        var key :| key in keys;
        ghost var seen := set k | k in table && k !in keys :: table[k];
        assert table[key] !in seen;
        assert (set k | k in table && k !in keys - {key} :: table[k]) == seen + {table[key]};
        found := found + [table[key]];
        keys := keys - {key};
      }
      assert (set k | k in table && k !in keys :: table[k]) == set k | k in table :: table[k];
      rows := Sort(found, LEAF_POS);
      SortSorts(found, LEAF_POS);
      SpanOfChain(chain, c.startBlock, Next());
      ReadIsTheChain(table, LeafSeq(chain, c.startBlock, Next()), rows);
      LeavesRecord(Span(chain, LOG_POS, c.startBlock, Next()));
      RecordedTrees(rows, Span(chain, LOG_POS, c.startBlock, Next()));
    }
  }

  // ---- what a reader may rely on -------------------------------------------

  /** Reads taken at two cursors: the earlier one is a prefix of the later one. */
  lemma ReadsArePrefixes(chain: seq<PoolLog>, start: nat, next1: nat, next2: nat)
    requires ChainOk(chain) && start <= next1 <= next2
    ensures LeafSeq(chain, start, next1) <= LeafSeq(chain, start, next2)
  {
    LeafSeqJoin(chain, start, next1, next2);
  }

  lemma {:induction false} InsertsJoin(a: seq<PoolLog>, b: seq<PoolLog>)
    ensures TreeInserts(a + b) == TreeInserts(a) + TreeInserts(b)
  {
    if a == [] {
      assert a + b == b;
    } else {
      assert (a + b)[0] == a[0] && (a + b)[1..] == a[1..] + b;
      InsertsJoin(a[1..], b);
    }
  }

  /**
   * The tree built from the mirror is given what the chain's own tree was given up to the cursor, by
   * the events themselves, exactly when none was inserted before the configured start block.
   */
  lemma StateTreeIff(chain: seq<PoolLog>, start: nat, next: nat)
    requires ChainOk(chain) && start <= next
    ensures Commitments(LeafSeq(chain, start, next)) == TreeInserts(Span(chain, LOG_POS, 0, next))
       <==> TreeInserts(Span(chain, LOG_POS, 0, start)) == []
  {
    var before, since := Span(chain, LOG_POS, 0, start), Span(chain, LOG_POS, start, next);
    SpanJoin(chain, LOG_POS, 0, start, next);
    InsertsJoin(before, since);
    LeavesRecord(since);
    RecordedTrees(ToLeaves(since), since);
    if TreeInserts(since) == TreeInserts(before) + TreeInserts(since) {
      assert |TreeInserts(before)| == 0;
    }
  }
}
