/** What one send may cost, and what a day of sends may cost. */
module RelaySpend {
  import opened Common

  const GWEI: nat := 1_000_000_000

  const MAX_HEADROOM: nat := 200_000

  datatype Config = Config(maxGas: nat, maxFeePerGas: nat, dailyCapWei: nat)

  /** What the node suggests; either figure may be missing. */
  datatype Fees = Fees(maxFeePerGas: Option<nat>, maxPriorityFeePerGas: Option<nat>)

  datatype Gas = Gas(limit: nat, maxFeePerGas: nat, maxPriorityFeePerGas: nat)

  function Else(o: Option<nat>, d: nat): nat {
    if o.Some? then o.value else d
  }

  /** Refuses rather than clamps. */
  function GasFor(c: Config, estimate: nat, fees: Fees): Option<Gas> {
    var limit := estimate + Min(estimate / 10, MAX_HEADROOM);
    if limit > c.maxGas then None
    else
      var maxFee := Min(Else(fees.maxFeePerGas, c.maxFeePerGas), c.maxFeePerGas);
      Some(Gas(limit, maxFee, Min(Else(fees.maxPriorityFeePerGas, GWEI), maxFee)))
  }

  /** The most one send can be billed: Monad bills the limit. */
  function Worst(c: Config): nat {
    c.maxGas * c.maxFeePerGas
  }

  /**
   * Accepted exactly when the estimate with its margin fits, never with less gas than estimated and
   * never dearer than the configured worst; a tip never exceeds the fee that carries it.
   */
  lemma GasIsBounded(c: Config, estimate: nat, fees: Fees)
    ensures GasFor(c, estimate, fees).Some? <==>
            11 * estimate < 10 * (c.maxGas + 1) || estimate + MAX_HEADROOM <= c.maxGas
    ensures GasFor(c, estimate, fees).Some? ==>
              var g := GasFor(c, estimate, fees).value;
              && estimate <= g.limit <= Min(c.maxGas, estimate + MAX_HEADROOM)
              && 10 * g.limit <= 11 * estimate
              && g.maxPriorityFeePerGas <= g.maxFeePerGas <= c.maxFeePerGas
              && g.limit * g.maxFeePerGas <= Worst(c)
  {
    DivBounds(estimate, 10);
    var r := GasFor(c, estimate, fees);
    if r.Some? {
      var g := r.value;
      MulMono(g.limit, c.maxGas, g.maxFeePerGas);
      MulMono(g.maxFeePerGas, c.maxFeePerGas, c.maxGas);
    }
  }

  /**
   * And nothing less: the limit is the most its two margins allow, the fee the most that neither the
   * configuration nor the node's own figure forbids, and the tip the most that neither that fee nor
   * the node's tip does, one gwei standing in for a tip the node does not give.
   */
  lemma GasIsGreatest(c: Config, estimate: nat, fees: Fees, limit: nat, fee: nat, tip: nat)
    requires GasFor(c, estimate, fees).Some?
    ensures var g := GasFor(c, estimate, fees).value;
            && (limit <= estimate + 200_000 && 10 * limit <= 11 * estimate ==> limit <= g.limit)
            && (fee <= c.maxFeePerGas && (fees.maxFeePerGas.Some? ==> fee <= fees.maxFeePerGas.value) ==>
                  fee <= g.maxFeePerGas)
            && (tip <= g.maxFeePerGas
                && (fees.maxPriorityFeePerGas.Some? ==> tip <= fees.maxPriorityFeePerGas.value)
                && (fees.maxPriorityFeePerGas.None? ==> tip <= 1_000_000_000) ==>
                  tip <= g.maxPriorityFeePerGas)
    ensures var g := GasFor(c, estimate, fees).value;
            && g.limit <= estimate + 200_000 && 10 * g.limit <= 11 * estimate
            && g.maxFeePerGas <= c.maxFeePerGas
            && (fees.maxFeePerGas.Some? ==> g.maxFeePerGas <= fees.maxFeePerGas.value)
            && g.maxPriorityFeePerGas <= g.maxFeePerGas
            && (fees.maxPriorityFeePerGas.Some? ==> g.maxPriorityFeePerGas <= fees.maxPriorityFeePerGas.value)
            && (fees.maxPriorityFeePerGas.None? ==> g.maxPriorityFeePerGas <= 1_000_000_000)
  {
    DivBounds(estimate, 10);
  }

  // ---- the day's ledger ----------------------------------------------------

  function At(m: map<nat, nat>, day: nat): nat {
    if day in m then m[day] else 0
  }

  function Plus(m: map<nat, nat>, day: nat, n: nat): map<nat, nat> {
    m[day := At(m, day) + n]
  }

  /** The service's own use of the counters, in gwei, one per day. */
  class Ledger {
    const c: Config
    var spent: map<nat, nat>

    constructor (c: Config)
      ensures this.c == c && spent == map[]
    {
      this.c, spent := c, map[];
    }

    method SpentTodayWei(day: nat) returns (wei: nat)
      ensures wei == At(spent, day) * GWEI
    {
      var gwei := if day in spent then spent[day] else 0;
      wei := gwei * GWEI;
    }

    /** True when the request may go on. */
    method EnforceDailyCap(day: nat) returns (ok: bool)
      ensures ok <==> At(spent, day) * GWEI < c.dailyCapWei
    {
      var wei := SpentTodayWei(day);
      ok := !(wei >= c.dailyCapWei);
    }

    method RecordSpend(day: nat, wei: nat)
      modifies this`spent
      ensures spent == Plus(old(spent), day, wei / GWEI)
    {
      var before := if day in spent then spent[day] else 0;
      spent := spent[day := before + wei / GWEI];
    }
  }

  /**
   * Many requests at once. `open` have passed the cap and are neither recorded nor failed, `peak` is
   * the most that ever were. Per day: gwei recorded, wei really authorised, sends recorded, and wei
   * whose recording failed.
   */
  datatype State = State(
    day: nat, spent: map<nat, nat>, open: nat, peak: nat,
    authorised: map<nat, nat>, sends: map<nat, nat>, lost: map<nat, nat>)

  datatype Action =
    | Check                    // a request asks, and goes on if there is room
    | Fail                     // an admitted one ends without a transaction
    | Record(wei: nat)         // an admitted one is broadcast and booked, on the day it is booked
    | Lose(wei: nat)           // broadcast, and the booking fails
    | Midnight

  const INITIAL := State(0, map[], 0, 0, map[], map[], map[])

  predicate Enabled(c: Config, s: State, a: Action) {
    match a
    case Check => true
    case Fail => s.open > 0
    case Record(wei) => s.open > 0 && wei <= Worst(c)
    case Lose(wei) => s.open > 0 && wei <= Worst(c)
    case Midnight => true
  }

  function Next(c: Config, s: State, a: Action): State
    requires Enabled(c, s, a)
  {
    match a
    case Check =>
      if At(s.spent, s.day) * GWEI < c.dailyCapWei then s.(open := s.open + 1, peak := Max(s.peak, s.open + 1))
      else s
    case Fail => s.(open := s.open - 1)
    case Record(wei) =>
      s.(open := s.open - 1, spent := Plus(s.spent, s.day, wei / GWEI),
         authorised := Plus(s.authorised, s.day, wei), sends := Plus(s.sends, s.day, 1))
    case Lose(wei) =>
      s.(open := s.open - 1, authorised := Plus(s.authorised, s.day, wei), lost := Plus(s.lost, s.day, wei))
    case Midnight => s.(day := s.day + 1)
  }

  ghost predicate Runs(c: Config, actions: seq<Action>, from: State, to: State)
    decreases |actions|
  {
    if actions == [] then to == from else
      Enabled(c, from, actions[0]) && Runs(c, actions[1..], Next(c, from, actions[0]), to)
  }

  /** Room is left for everything still open, except that a cap of zero admits nothing at all. */
  ghost predicate TodayFits(c: Config, s: State) {
    && s.open <= s.peak
    && if c.dailyCapWei == 0 then s.open == 0
       else At(s.spent, s.day) * GWEI + s.open * Worst(c) < c.dailyCapWei + s.peak * Worst(c)
  }

  ghost predicate Capped(c: Config, s: State, day: nat) {
    At(s.spent, day) == 0 || At(s.spent, day) * GWEI < c.dailyCapWei + s.peak * Worst(c)
  }

  /** What is recorded falls short of what was authorised by less than a gwei a send. */
  ghost predicate FloorsOnly(s: State, day: nat) {
    && At(s.spent, day) * GWEI + At(s.lost, day) <= At(s.authorised, day)
    && At(s.authorised, day) <= At(s.spent, day) * GWEI + At(s.lost, day) + At(s.sends, day) * (GWEI - 1)
  }

  ghost predicate Inv(c: Config, s: State) {
    && TodayFits(c, s)
    && (forall d :: d > s.day ==> d !in s.spent)
    && (forall d :: Capped(c, s, d)) && (forall d :: FloorsOnly(s, d))
  }

  lemma TodayStaysFit(c: Config, s: State, a: Action)
    requires Inv(c, s) && Enabled(c, s, a)
    ensures TodayFits(c, Next(c, s, a)) && s.peak <= Next(c, s, a).peak
  {
    hide Capped, FloorsOnly, Worst;
    var t := Next(c, s, a);
    var m := Worst(c);
    MulMono(s.open, s.peak, m);
    match a
    case Check =>
      MulMono(t.open, t.peak, m);
    case Fail => assert t.open * m == s.open * m - m;
    case Record(wei) =>
      DivBounds(wei, GWEI);
      assert t.open * m == s.open * m - m;
      if c.dailyCapWei == 0 { assert false; }
    case Lose(wei) => assert t.open * m == s.open * m - m;
    case Midnight => assert At(t.spent, t.day) == 0;
  }

  lemma DayStaysCapped(c: Config, s: State, a: Action, d: nat)
    requires Inv(c, s) && Enabled(c, s, a)
    requires TodayFits(c, Next(c, s, a)) && s.peak <= Next(c, s, a).peak
    ensures Capped(c, Next(c, s, a), d)
  {
    hide FloorsOnly;
    var t := Next(c, s, a);
    assert Capped(c, s, d);
    MulMono(s.peak, t.peak, Worst(c));
    MulMono(0, t.open, Worst(c));
  }

  lemma FloorsStayFloors(c: Config, s: State, a: Action, d: nat)
    requires Inv(c, s) && Enabled(c, s, a)
    ensures FloorsOnly(Next(c, s, a), d)
  {
    hide Capped, TodayFits, Worst;
    assert FloorsOnly(s, d);
    if a.Record? { DivBounds(a.wei, GWEI); }
  }

  lemma {:induction false} AlwaysInv(c: Config, actions: seq<Action>, from: State, to: State)
    requires Inv(c, from) && Runs(c, actions, from, to)
    ensures Inv(c, to)
    decreases |actions|
  {
    if actions != [] {
      hide Capped, FloorsOnly, TodayFits;
      var t := Next(c, from, actions[0]);
      TodayStaysFit(c, from, actions[0]);
      forall d: nat ensures Capped(c, t, d) { DayStaysCapped(c, from, actions[0], d); }
      forall d: nat ensures FloorsOnly(t, d) { FloorsStayFloors(c, from, actions[0], d); }
      AlwaysInv(c, actions[1..], t, to);
    }
  }

  /**
   * The ceiling, on every day of every run: the check sits outside the queue, so what it misses is
   * at most the requests open at once, each at its worst; midnight forgives nothing more.
   */
  lemma DailyCeiling(c: Config, actions: seq<Action>, s: State, day: nat)
    requires Runs(c, actions, INITIAL, s)
    ensures At(s.spent, day) > 0 ==> At(s.spent, day) * GWEI < c.dailyCapWei + s.peak * Worst(c)
    ensures At(s.spent, day) * GWEI + At(s.lost, day) <= At(s.authorised, day)
    ensures At(s.authorised, day) <= At(s.spent, day) * GWEI + At(s.lost, day) + At(s.sends, day) * (GWEI - 1)
  {
    AlwaysInv(c, actions, INITIAL, s);
    hide Runs;
    assert Capped(c, s, day) && FloorsOnly(s, day);
  }

  // ---- the ceiling is reached ----------------------------------------------

  lemma {:induction false} RunsThen(c: Config, actions: seq<Action>, from: State, mid: State, a: Action)
    requires Runs(c, actions, from, mid) && Enabled(c, mid, a)
    ensures Runs(c, actions + [a], from, Next(c, mid, a))
    decreases |actions|
  {
    if actions != [] {
      RunsThen(c, actions[1..], Next(c, from, actions[0]), mid, a);
      assert (actions + [a])[1..] == actions[1..] + [a];
    }
  }

  lemma Then(c: Config, actions: seq<Action>, s: State, a: Action) returns (longer: seq<Action>, t: State)
    requires Runs(c, actions, INITIAL, s) && Enabled(c, s, a)
    ensures Runs(c, longer, INITIAL, t) && t == Next(c, s, a)
  {
    RunsThen(c, actions, INITIAL, s, a);
    longer, t := actions + [a], Next(c, s, a);
  }

  /** One request at a time, each booking one gwei. */
  lemma {:induction false} FillUp(c: Config, n: nat) returns (actions: seq<Action>, s: State)
    requires Worst(c) >= GWEI && n * GWEI < c.dailyCapWei
    ensures Runs(c, actions, INITIAL, s)
    ensures s.day == 0 && At(s.spent, 0) == n && s.open == 0 && s.peak <= 1
  {
    if n == 0 {
      actions, s := [], INITIAL;
    } else {
      actions, s := FillUp(c, n - 1);
      hide Runs, Worst;
      actions, s := Then(c, actions, s, Check);
      actions, s := Then(c, actions, s, Record(GWEI));
    }
  }

  lemma {:induction false} AdmitTogether(c: Config, n: nat, k: nat) returns (actions: seq<Action>, s: State)
    requires Worst(c) >= GWEI && n * GWEI < c.dailyCapWei
    ensures Runs(c, actions, INITIAL, s)
    ensures s.day == 0 && At(s.spent, 0) == n && s.open == k && (k > 0 ==> s.peak == k) && s.peak <= Max(1, k)
  {
    if k == 0 {
      actions, s := FillUp(c, n);
    } else {
      actions, s := AdmitTogether(c, n, k - 1);
      hide Runs, Worst;
      actions, s := Then(c, actions, s, Check);
    }
  }

  lemma {:induction false} RecordTogether(c: Config, n: nat, k: nat, done: nat) returns (actions: seq<Action>, s: State)
    requires Worst(c) >= GWEI && n * GWEI < c.dailyCapWei && done <= k && k > 0
    ensures Runs(c, actions, INITIAL, s)
    ensures s.day == 0 && s.open == k - done && s.peak == k && At(s.spent, 0) == n + done * (Worst(c) / GWEI)
  {
    if done == 0 {
      actions, s := AdmitTogether(c, n, k);
    } else {
      actions, s := RecordTogether(c, n, k, done - 1);
      hide Runs, Worst;
      actions, s := Then(c, actions, s, Record(Worst(c)));
      assert done * (Worst(c) / GWEI) == (done - 1) * (Worst(c) / GWEI) + Worst(c) / GWEI;
    }
  }

  /**
   * The ceiling is tight for every cap a configuration can have, a whole number of gwei: filled to one
   * gwei below the cap, `k` requests admitted together take it to the last gwei below the ceiling.
   */
  lemma CeilingIsReached(c: Config, k: nat) returns (actions: seq<Action>, s: State)
    requires c.dailyCapWei > 0 && c.dailyCapWei % GWEI == 0 && Worst(c) >= GWEI && k > 0
    ensures Runs(c, actions, INITIAL, s) && s.peak == k
    ensures At(s.spent, 0) * GWEI == c.dailyCapWei + k * (Worst(c) / GWEI * GWEI) - GWEI
  {
    var n := c.dailyCapWei / GWEI - 1;
    assert c.dailyCapWei == (n + 1) * GWEI;
    actions, s := RecordTogether(c, n, k, k);
    var q := Worst(c) / GWEI;
    assert (n + k * q) * GWEI == n * GWEI + k * (q * GWEI);
  }
}
