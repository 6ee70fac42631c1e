/** The unattended settler: which proposals a pass looks at, and how attempts on one are spaced. */
module Settlement {
  import opened Common

  type Key = string

  const COOLDOWN: nat := 60_000
  const BASE_BACKOFF: nat := 60_000
  const MAX_BACKOFF: nat := 1_800_000
  const BATCH: nat := 10

  function Pow2(n: nat): (p: nat)
    ensures n < p
  {
    if n == 0 then 1 else 2 * Pow2(n - 1)
  }

  /** After the n-th failure in a row. */
  function Delay(n: nat): (d: nat)
    requires n > 0
    ensures COOLDOWN <= d <= MAX_BACKOFF
  {
    Min(BASE_BACKOFF * Pow2(n - 1), MAX_BACKOFF)
  }

  /** `TimedOut` and `Unreadable` are one `null` to the caller: the wait ran out, or the read failed. */
  datatype Receipt = Success | Reverted | TimedOut | Unreadable

  const RECEIPT_WAIT: nat := 60_000

  /** How a send ends, and when the service reads its clock again. */
  datatype Reply = SendFails(seenAt: nat) | SendOk(sentAt: nat, receipt: Receipt, seenAt: nat)

  /** One attempt: booked at `at`, before anything is sent. */
  datatype Entry = Entry(key: Key, at: nat, reply: Reply)

  predicate Timely(at: nat, reply: Reply) {
    && at <= reply.seenAt
    && (reply.SendOk? ==>
          && at <= reply.sentAt <= reply.seenAt
          && (reply.receipt.TimedOut? ==> reply.sentAt + RECEIPT_WAIT <= reply.seenAt))
  }

  datatype State = State(next: map<Key, nat>, attempts: map<Key, nat>, trace: seq<Entry>)

  const INITIAL := State(map[], map[], [])

  function Get(m: map<Key, nat>, key: Key): nat {
    if key in m then m[key] else 0
  }

  function BackedOff(s: State, key: Key, now: nat): State {
    var n := Get(s.attempts, key) + 1;
    s.(attempts := s.attempts[key := n], next := s.next[key := now + Delay(n)])
  }

  function Attempt(s: State, key: Key, at: nat, reply: Reply): State {
    var booked := State(s.next[key := at + COOLDOWN], s.attempts, s.trace + [Entry(key, at, reply)]);
    match reply
    case SendFails(seenAt) => BackedOff(booked, key, seenAt)
    case SendOk(_, receipt, seenAt) =>
      var sent := booked.(attempts := booked.attempts - {key});
      if receipt.Reverted? then BackedOff(sent, key, seenAt) else sent
  }

  /** One row of a pass: skipped while its next attempt lies beyond the pass's own `now`. */
  function Visit(s: State, key: Key, now: nat, at: nat, reply: Reply): State {
    if Get(s.next, key) > now then s else Attempt(s, key, at, reply)
  }

  datatype Turn = Turn(key: Key, at: nat, reply: Reply)

  function Pass(s: State, now: nat, turns: seq<Turn>): State
    decreases |turns|
  {
    if turns == [] then s
    else Pass(Visit(s, turns[0].key, now, turns[0].at, turns[0].reply), now, turns[1..])
  }

  class Service {
    var nextAttempt: map<Key, nat>
    var attempts: map<Key, nat>
    ghost var trace: seq<Entry>

    ghost function Value(): State
      reads this
    {
      State(nextAttempt, attempts, trace)
    }

    constructor ()
      ensures Value() == INITIAL
    {
      nextAttempt, attempts, trace := map[], map[], [];
    }

    method BackOff(key: Key, now: nat)
      modifies this`nextAttempt, this`attempts
      ensures Value() == BackedOff(old(Value()), key, now)
    {
      var n := (if key in attempts then attempts[key] else 0) + 1;
      attempts := attempts[key := n];
      var delay := Min(BASE_BACKOFF * Pow2(n - 1), MAX_BACKOFF);
      nextAttempt := nextAttempt[key := now + delay];
    }

    method Finalize(key: Key, at: nat, reply: Reply)
      modifies this
      ensures Value() == Attempt(old(Value()), key, at, reply)
    {
      nextAttempt := nextAttempt[key := at + COOLDOWN];
      trace := trace + [Entry(key, at, reply)];
      if reply.SendFails? {
        BackOff(key, reply.seenAt);
        return;
      }
      attempts := attempts - {key};
      if reply.receipt.Reverted? {
        BackOff(key, reply.seenAt);
      }
    }

    /** One pass over the due rows, with one `now` for the whole of it. */
    method SettleDue(due: seq<Turn>, now: nat)
      modifies this
      ensures Value() == Pass(old(Value()), now, due)
    {
      var i := 0;
      while i < |due|
        invariant i <= |due|
        invariant Pass(Value(), now, due[i..]) == Pass(old(Value()), now, due)
      {
        assert due[i..][1..] == due[i + 1..];
        var next := if due[i].key in nextAttempt then nextAttempt[due[i].key] else 0;
        if next <= now {
          Finalize(due[i].key, due[i].at, due[i].reply);
        }
        i := i + 1;
      }
    }
  }

  // ---- the spacing of attempts ---------------------------------------------

  /** Failures in a row, read off the attempts themselves; a send that goes out starts the count over. */
  function Streak(trace: seq<Entry>, key: Key): nat
    decreases |trace|
  {
    if trace == [] then 0 else
      var n := |trace| - 1;
      if trace[n].key != key then Streak(trace[..n], key)
      else match trace[n].reply
           case SendFails(_) => Streak(trace[..n], key) + 1
           case SendOk(_, receipt, _) => if receipt.Reverted? then 1 else 0
  }

  predicate Failed(reply: Reply) {
    reply.SendFails? || reply.receipt.Reverted?
  }

  lemma StreakOfFailure(trace: seq<Entry>, i: nat)
    requires i < |trace|
    ensures Failed(trace[i].reply) <==> Streak(trace[..i + 1], trace[i].key) > 0
  {
  }

  /** The soonest the next attempt on the same proposal may be booked. */
  function ReadyAt(trace: seq<Entry>, i: nat): nat
    requires i < |trace|
  {
    StreakOfFailure(trace, i);
    if Failed(trace[i].reply) then trace[i].reply.seenAt + Delay(Streak(trace[..i + 1], trace[i].key))
    else trace[i].at + COOLDOWN
  }

  lemma ReadyAtOfPrefix(trace: seq<Entry>, more: seq<Entry>, i: nat)
    requires i < |trace|
    ensures ReadyAt(trace + more, i) == ReadyAt(trace, i)
  {
    assert (trace + more)[..i + 1] == trace[..i + 1];
  }

  ghost predicate Paced(trace: seq<Entry>) {
    forall i, j :: 0 <= i < j < |trace| && trace[i].key == trace[j].key ==>
      && trace[i].at + COOLDOWN <= trace[j].at
      && ReadyAt(trace, i) <= trace[j].at
      && trace[i].reply.seenAt <= trace[j].at
  }

  ghost predicate Remembered(s: State) {
    && (forall i :: 0 <= i < |s.trace| ==>
          && Timely(s.trace[i].at, s.trace[i].reply)
          && s.trace[i].key in s.next && s.trace[i].at + COOLDOWN <= s.next[s.trace[i].key]
          && ReadyAt(s.trace, i) <= s.next[s.trace[i].key])
    && (forall key :: Get(s.attempts, key) == Streak(s.trace, key))
  }

  ghost predicate Inv(s: State, clock: nat) {
    && Paced(s.trace) && Remembered(s)
    && forall i :: 0 <= i < |s.trace| ==> s.trace[i].reply.seenAt <= clock
  }

  /** The counter is the streak: what `attempts` holds is what the trace shows. */
  lemma AttemptCounts(s: State, key: Key, at: nat, reply: Reply, other: Key)
    requires forall k :: Get(s.attempts, k) == Streak(s.trace, k)
    ensures Get(Attempt(s, key, at, reply).attempts, other) == Streak(Attempt(s, key, at, reply).trace, other)
  {
    var t := Attempt(s, key, at, reply);
    assert t.trace[..|t.trace| - 1] == s.trace;
    assert Get(s.attempts, other) == Streak(s.trace, other);
  }

  /** What an attempt books is exactly when it may be tried again. */
  lemma AttemptBooks(s: State, key: Key, at: nat, reply: Reply)
    requires forall k :: Get(s.attempts, k) == Streak(s.trace, k)
    ensures Attempt(s, key, at, reply).trace == s.trace + [Entry(key, at, reply)]
    ensures Attempt(s, key, at, reply).next == s.next[key := ReadyAt(s.trace + [Entry(key, at, reply)], |s.trace|)]
  {
    var t := s.trace + [Entry(key, at, reply)];
    assert t[..|s.trace| + 1] == t && t[..|t| - 1] == s.trace;
    assert Get(s.attempts, key) == Streak(s.trace, key);
  }

  lemma AttemptKeeps(s: State, key: Key, at: nat, reply: Reply, clock: nat)
    requires Inv(s, clock) && Get(s.next, key) <= at && clock <= at && Timely(at, reply)
    ensures Inv(Attempt(s, key, at, reply), reply.seenAt)
  {
    var t := Attempt(s, key, at, reply);
    hide Paced;
    AttemptBooks(s, key, at, reply);
    forall other ensures Get(t.attempts, other) == Streak(t.trace, other) {
      AttemptCounts(s, key, at, reply, other);
    }
    forall i: nat | i < |s.trace| ensures ReadyAt(t.trace, i) == ReadyAt(s.trace, i) {
      ReadyAtOfPrefix(s.trace, [Entry(key, at, reply)], i);
    }
    hide Attempt, ReadyAt, Streak, Delay;
    StaysPaced(s, t, key, at, reply);
    StaysRemembered(s, t, key, at, reply);
  }

  lemma StaysRemembered(s: State, t: State, key: Key, at: nat, reply: Reply)
    requires Remembered(s) && Get(s.next, key) <= at && Timely(at, reply)
    requires t.trace == s.trace + [Entry(key, at, reply)] && t.next == s.next[key := ReadyAt(t.trace, |s.trace|)]
    requires forall i: nat :: i < |s.trace| ==> ReadyAt(t.trace, i) == ReadyAt(s.trace, i)
    requires forall k :: Get(t.attempts, k) == Streak(t.trace, k)
    ensures Remembered(t)
  {
    LastReady(t.trace);
    hide ReadyAt, Streak;
    assert t.trace[|s.trace|] == Entry(key, at, reply);
    forall i: nat | i < |s.trace|
      ensures t.trace[i] == s.trace[i] && t.trace[i].at + COOLDOWN <= Get(t.next, t.trace[i].key)
      ensures ReadyAt(t.trace, i) <= Get(t.next, t.trace[i].key)
    {
      assert s.trace[i].key in s.next && s.trace[i].at + COOLDOWN <= s.next[s.trace[i].key];
    }
  }

  lemma LastReady(trace: seq<Entry>)
    requires trace != [] && Timely(trace[|trace| - 1].at, trace[|trace| - 1].reply)
    ensures trace[|trace| - 1].at + COOLDOWN <= ReadyAt(trace, |trace| - 1)
  {
  }

  lemma StaysPaced(s: State, t: State, key: Key, at: nat, reply: Reply)
    requires Paced(s.trace) && Remembered(s) && Get(s.next, key) <= at
    requires forall i :: 0 <= i < |s.trace| ==> s.trace[i].reply.seenAt <= at
    requires t.trace == s.trace + [Entry(key, at, reply)]
    requires forall i: nat :: i < |s.trace| ==> ReadyAt(t.trace, i) == ReadyAt(s.trace, i)
    ensures Paced(t.trace)
  {
    hide ReadyAt, Streak;
    forall i, j | 0 <= i < j < |t.trace| && t.trace[i].key == t.trace[j].key
      ensures t.trace[i].at + COOLDOWN <= t.trace[j].at && ReadyAt(t.trace, i) <= t.trace[j].at
      ensures t.trace[i].reply.seenAt <= t.trace[j].at
    {
      assert t.trace[i] == s.trace[i];
      if j < |s.trace| { assert t.trace[j] == s.trace[j]; }
    }
  }

  // ---- runs ----------------------------------------------------------------

  /** One pass: the clock read once for the comparison, then once per row that is tried. */
  datatype Tick = Tick(now: nat, turns: seq<Turn>)

  ghost predicate InTime(clock: nat, turns: seq<Turn>)
    decreases |turns|
  {
    turns == [] ||
    (clock <= turns[0].at && Timely(turns[0].at, turns[0].reply) && InTime(turns[0].reply.seenAt, turns[1..]))
  }

  function Clock(clock: nat, turns: seq<Turn>): nat {
    if turns == [] then clock else turns[|turns| - 1].reply.seenAt
  }

  ghost predicate IsRun(clock: nat, ticks: seq<Tick>)
    decreases |ticks|
  {
    ticks == [] ||
    (clock <= ticks[0].now && InTime(ticks[0].now, ticks[0].turns)
     && IsRun(Clock(ticks[0].now, ticks[0].turns), ticks[1..]))
  }

  function Run(s: State, ticks: seq<Tick>): State
    decreases |ticks|
  {
    if ticks == [] then s else Run(Pass(s, ticks[0].now, ticks[0].turns), ticks[1..])
  }

  lemma {:induction false} PassKeeps(s: State, now: nat, turns: seq<Turn>, clock: nat)
    requires Inv(s, clock) && now <= clock && InTime(clock, turns)
    ensures Inv(Pass(s, now, turns), Clock(clock, turns)) && clock <= Clock(clock, turns)
    decreases |turns|
  {
    hide Attempt, Inv;
    if turns != [] {
      var turn := turns[0];
      if Get(s.next, turn.key) <= now {
        AttemptKeeps(s, turn.key, turn.at, turn.reply, clock);
      } else {
        LaterIsFine(s, clock, turn.reply.seenAt);
      }
      PassKeeps(Visit(s, turn.key, now, turn.at, turn.reply), now, turns[1..], turn.reply.seenAt);
    }
  }

  lemma LaterIsFine(s: State, clock: nat, later: nat)
    requires Inv(s, clock) && clock <= later
    ensures Inv(s, later)
  {
  }

  lemma {:induction false} RunKeeps(s: State, ticks: seq<Tick>, clock: nat) returns (end: nat)
    requires Inv(s, clock) && IsRun(clock, ticks)
    ensures Inv(Run(s, ticks), end)
    decreases |ticks|
  {
    hide Inv, Pass, InTime;
    end := clock;
    if ticks != [] {
      LaterIsFine(s, clock, ticks[0].now);
      PassKeeps(s, ticks[0].now, ticks[0].turns, ticks[0].now);
      end := RunKeeps(Pass(s, ticks[0].now, ticks[0].turns), ticks[1..], Clock(ticks[0].now, ticks[0].turns));
    }
  }

  /**
   * Over a process's whole life, two attempts on one proposal are booked at least a minute apart,
   * and after the n-th failure in a row at least the n-th backoff after that failure.
   */
  lemma AttemptsArePaced(ticks: seq<Tick>, i: nat, j: nat)
    requires IsRun(0, ticks) && i < j < |Run(INITIAL, ticks).trace|
    requires Run(INITIAL, ticks).trace[i].key == Run(INITIAL, ticks).trace[j].key
    ensures var t := Run(INITIAL, ticks).trace;
            && t[j].at >= t[i].at + 60_000
            && (Failed(t[i].reply) ==>
                  var n := Streak(t[..i + 1], t[i].key);
                  n > 0 && t[j].at >= t[i].reply.seenAt + Min(60_000 * Pow2(n - 1), 1_800_000))
  {
    var end := RunKeeps(INITIAL, ticks, 0);
    hide Run, IsRun;
    var t := Run(INITIAL, ticks).trace;
    StreakOfFailure(t, i);
    assert ReadyAt(t, i) <= t[j].at;
  }

  // ---- and no further apart than that --------------------------------------

  /** 60, 120, 240, 480 and 960 seconds, and half an hour from the sixth failure on. */
  lemma Delays(n: nat)
    requires n > 0
    ensures Delay(1) == 60_000 && Delay(2) == 120_000 && Delay(3) == 240_000 && Delay(4) == 480_000 && Delay(5) == 960_000
    ensures n >= 6 ==> Delay(n) == 1_800_000
  {
    assert Pow2(0) == 1 && Pow2(1) == 2 && Pow2(2) == 4 && Pow2(3) == 8 && Pow2(4) == 16;
    if n >= 6 { PowGrows(n - 1); }
  }

  lemma {:induction false} PowGrows(n: nat)
    requires n >= 5
    ensures Pow2(n) >= 32
  {
    if n == 5 {
      assert Pow2(1) == 2 && Pow2(2) == 4 && Pow2(3) == 8 && Pow2(4) == 16;
    } else {
      PowGrows(n - 1);
    }
  }

  /** The last attempt on a proposal, if there has been one. */
  function LastAttempt(trace: seq<Entry>, key: Key): Option<nat>
    decreases |trace|
  {
    if trace == [] then None
    else if trace[|trace| - 1].key == key then Some(|trace| - 1)
    else LastAttempt(trace[..|trace| - 1], key)
  }

  lemma {:induction false} LastAttemptIs(trace: seq<Entry>, key: Key)
    ensures LastAttempt(trace, key).Some? ==>
              LastAttempt(trace, key).value < |trace| && trace[LastAttempt(trace, key).value].key == key
    decreases |trace|
  {
    if trace != [] { LastAttemptIs(trace[..|trace| - 1], key); }
  }

  /** What is booked for a proposal is exactly the instant its last attempt allows the next at. */
  ghost predicate BookedFor(s: State, key: Key) {
    match LastAttempt(s.trace, key)
    case None => key !in s.next
    case Some(i) => i < |s.trace| && key in s.next && s.next[key] == ReadyAt(s.trace, i)
  }

  ghost predicate BookedExactly(s: State) {
    (forall k :: Get(s.attempts, k) == Streak(s.trace, k)) && (forall key :: BookedFor(s, key))
  }

  lemma LastOfLonger(trace: seq<Entry>, e: Entry, key: Key)
    ensures LastAttempt(trace + [e], key) == if e.key == key then Some(|trace|) else LastAttempt(trace, key)
  {
    assert (trace + [e])[..|trace|] == trace;
  }

  lemma AttemptBooksExactly(s: State, key: Key, at: nat, reply: Reply)
    requires BookedExactly(s)
    ensures BookedExactly(Attempt(s, key, at, reply))
  {
    var t, e := Attempt(s, key, at, reply), Entry(key, at, reply);
    AttemptBooks(s, key, at, reply);
    hide Attempt, Streak, ReadyAt, LastAttempt;
    forall other ensures Get(t.attempts, other) == Streak(t.trace, other) {
      AttemptCounts(s, key, at, reply, other);
    }
    forall other ensures BookedFor(t, other) {
      assert BookedFor(s, other);
      LastOfLonger(s.trace, e, other);
      if other != key && LastAttempt(s.trace, other).Some? {
        ReadyAtOfPrefix(s.trace, [e], LastAttempt(s.trace, other).value);
      }
    }
  }

  lemma {:induction false} PassBooksExactly(s: State, now: nat, turns: seq<Turn>)
    requires BookedExactly(s)
    ensures BookedExactly(Pass(s, now, turns))
    decreases |turns|
  {
    if turns != [] {
      hide BookedExactly, Attempt;
      if Get(s.next, turns[0].key) <= now { AttemptBooksExactly(s, turns[0].key, turns[0].at, turns[0].reply); }
      PassBooksExactly(Visit(s, turns[0].key, now, turns[0].at, turns[0].reply), now, turns[1..]);
    }
  }

  lemma {:induction false} RunBooksExactly(s: State, ticks: seq<Tick>)
    requires BookedExactly(s)
    ensures BookedExactly(Run(s, ticks))
    decreases |ticks|
  {
    if ticks != [] {
      hide BookedExactly, Pass;
      PassBooksExactly(s, ticks[0].now, ticks[0].turns);
      RunBooksExactly(Pass(s, ticks[0].now, ticks[0].turns), ticks[1..]);
    }
  }

  /**
   * After any run, a due row is tried in its turn exactly when it never was before, or its last
   * attempt's cooldown or backoff is over by the pass's own reading of the clock.
   */
  lemma TriedIff(ticks: seq<Tick>, turn: Turn, now: nat)
    ensures var s := Run(INITIAL, ticks); var last := LastAttempt(s.trace, turn.key);
            && (last.Some? ==> last.value < |s.trace|)
            && (Visit(s, turn.key, now, turn.at, turn.reply).trace == s.trace + [Entry(turn.key, turn.at, turn.reply)]
                <==> (last.Some? ==> ReadyAt(s.trace, last.value) <= now))
            && (Visit(s, turn.key, now, turn.at, turn.reply).trace == s.trace
                <==> (last.Some? && ReadyAt(s.trace, last.value) > now))
  {
    assert BookedExactly(INITIAL);
    RunBooksExactly(INITIAL, ticks);
    var s := Run(INITIAL, ticks);
    hide Run, ReadyAt, Streak;
    LastAttemptIs(s.trace, turn.key);
    assert BookedFor(s, turn.key);
    hide LastAttempt;
    assert |s.trace + [Entry(turn.key, turn.at, turn.reply)]| == |s.trace| + 1;
  }

  /** The instant itself, in figures: a minute after booking, or the n-th backoff after the n-th failure in a row. */
  lemma ReadyAtIs(trace: seq<Entry>, i: nat)
    requires i < |trace|
    ensures var n := Streak(trace[..i + 1], trace[i].key);
            && (!Failed(trace[i].reply) ==> ReadyAt(trace, i) == trace[i].at + 60_000)
            && (Failed(trace[i].reply) ==> n > 0 && ReadyAt(trace, i) == trace[i].reply.seenAt + Delay(n))
  {
    StreakOfFailure(trace, i);
  }

  // ---- attempts in a stretch of time ---------------------------------------

  function Booked(trace: seq<Entry>, key: Key, lo: nat, hi: nat): nat
    decreases |trace|
  {
    if trace == [] then 0 else
      var n := |trace| - 1;
      Booked(trace[..n], key, lo, hi) + (if trace[n].key == key && lo <= trace[n].at <= hi then 1 else 0)
  }

  /** The last of `m` attempts in a stretch comes `m - 1` cooldowns after its beginning. */
  lemma {:induction false} LastBooked(trace: seq<Entry>, key: Key, lo: nat, hi: nat, last: int)
    requires forall i, j :: 0 <= i < j < |trace| && trace[i].key == trace[j].key ==> trace[i].at + COOLDOWN <= trace[j].at
    requires forall i :: 0 <= i < |trace| && trace[i].key == key && lo <= trace[i].at <= hi ==> trace[i].at <= last
    requires Booked(trace, key, lo, hi) > 0
    ensures lo + COOLDOWN * (Booked(trace, key, lo, hi) - 1) <= last
    decreases |trace|
  {
    var n := |trace| - 1;
    var here := trace[n].key == key && lo <= trace[n].at <= hi;
    if !here || Booked(trace[..n], key, lo, hi) > 0 {
      LastBooked(trace[..n], key, lo, hi, if here then trace[n].at - COOLDOWN else last);
    }
  }

  lemma AttemptsInAnyStretch(ticks: seq<Tick>, key: Key, lo: nat, length: nat)
    requires IsRun(0, ticks)
    ensures Booked(Run(INITIAL, ticks).trace, key, lo, lo + length) <= 1 + length / 60_000
  {
    var end := RunKeeps(INITIAL, ticks, 0);
    var t := Run(INITIAL, ticks).trace;
    hide Run, IsRun;
    var m := Booked(t, key, lo, lo + length);
    if m > 0 {
      LastBooked(t, key, lo, lo + length, lo + length);
      DivExact(m - 1, 60_000);
      DivMono(60_000 * (m - 1), length, 60_000);
    }
  }

  // ---- broadcasts ----------------------------------------------------------

  predicate Settled(reply: Reply) {
    reply.SendOk? && reply.receipt.Success?
  }

  /** A settled proposal is refused in simulation: nothing is broadcast for it again. */
  ghost predicate SettlesOnce(trace: seq<Entry>) {
    forall i, j :: 0 <= i < j < |trace| && trace[i].key == trace[j].key && Settled(trace[i].reply) ==>
      !trace[j].reply.SendOk?
  }

  /** Two broadcasts for one proposal, `e` the earlier. */
  ghost predicate Rebroadcast(ticks: seq<Tick>, e: Entry, i: nat, j: nat) {
    && IsRun(0, ticks) && SettlesOnce(Run(INITIAL, ticks).trace)
    && i < j < |Run(INITIAL, ticks).trace| && Run(INITIAL, ticks).trace[i] == e
    && Run(INITIAL, ticks).trace[j].key == e.key
    && e.reply.SendOk? && Run(INITIAL, ticks).trace[j].reply.SendOk?
  }

  function SecondSentAt(ticks: seq<Tick>, j: nat): nat
    requires j < |Run(INITIAL, ticks).trace| && Run(INITIAL, ticks).trace[j].reply.SendOk?
  {
    Run(INITIAL, ticks).trace[j].reply.sentAt
  }

  /** Only an unreadable receipt lets the next attempt come before the first broadcast is a minute old. */
  predicate Spaces(e: Entry)
    requires e.reply.SendOk?
  {
    !e.reply.receipt.Unreadable? || e.reply.sentAt == e.at || e.reply.seenAt >= e.reply.sentAt + 60_000
  }

  lemma BroadcastGap(ticks: seq<Tick>, e: Entry, i: nat, j: nat)
    requires Rebroadcast(ticks, e, i, j)
    ensures e.reply.sentAt <= SecondSentAt(ticks, j)
    ensures Spaces(e) ==> SecondSentAt(ticks, j) - e.reply.sentAt >= 60_000
    ensures SecondSentAt(ticks, j) >= Max(e.at + 60_000, e.reply.seenAt)
  {
    var end := RunKeeps(INITIAL, ticks, 0);
    hide Run, IsRun;
    var t := Run(INITIAL, ticks).trace;
    StreakOfFailure(t, i);
    assert ReadyAt(t, i) <= t[j].at;
    assert Timely(t[j].at, t[j].reply);
  }

  /** After a receipt read that failed at `e.reply.seenAt`, a second broadcast as early as that allows. */
  lemma UnreadableReceipt(e: Entry) returns (ticks: seq<Tick>)
    requires e.reply.SendOk? && e.reply.receipt.Unreadable? && Timely(e.at, e.reply)
    ensures Rebroadcast(ticks, e, 0, 1)
    ensures SecondSentAt(ticks, 1) == Max(e.at + 60_000, e.reply.seenAt)
  {
    var again := Max(e.at + 60_000, e.reply.seenAt);
    var first := Turn(e.key, e.at, e.reply);
    var second := Turn(e.key, again, SendOk(again, Success, again));
    ticks := [Tick(e.at, [first]), Tick(again, [second])];
    assert ticks[1..] == [Tick(again, [second])];
    OneTurn(INITIAL, e.at, first);
    var s := Attempt(INITIAL, e.key, e.at, e.reply);
    OneTurn(s, again, second);
    var t := Attempt(s, e.key, again, second.reply);
    assert Run(s, ticks[1..]) == t;
    assert t.trace == [e, Entry(e.key, again, second.reply)];
  }

  /**
   * Broadcasts after `e` are at least a minute from it, in every run, exactly when its receipt was
   * read, or was waited for in full, or its transaction went out at the moment it was booked.
   */
  lemma BroadcastsAreSpacedIff(e: Entry)
    requires e.reply.SendOk? && Timely(e.at, e.reply)
    ensures (forall ticks, i, j :: Rebroadcast(ticks, e, i, j) ==> SecondSentAt(ticks, j) - e.reply.sentAt >= 60_000)
       <==> Spaces(e)
  {
    forall ticks, i, j | Rebroadcast(ticks, e, i, j) && Spaces(e)
      ensures SecondSentAt(ticks, j) - e.reply.sentAt >= 60_000
    {
      BroadcastGap(ticks, e, i, j);
    }
    if !Spaces(e) {
      var ticks := UnreadableReceipt(e);
      assert Rebroadcast(ticks, e, 0, 1);
    }
  }

  lemma OneTurn(s: State, now: nat, turn: Turn)
    ensures Pass(s, now, [turn]) == Visit(s, turn.key, now, turn.at, turn.reply)
    ensures forall clock: nat :: clock <= turn.at && Timely(turn.at, turn.reply) ==> InTime(clock, [turn])
  {
    assert [turn][1..] == [];
  }

  // ---- which rows a pass looks at ------------------------------------------

  datatype DueRow = DueRow(key: Key, deadline: nat)

  /**
   * What the query may return of the rows due: ten at most, the earliest deadlines first. Rows in
   * backoff are due like any other.
   */
  ghost predicate QueryOf(due: set<DueRow>, batch: set<DueRow>) {
    && batch <= due && |batch| == Min(BATCH, |due|)
    && forall r, x :: r in batch && x in due && x !in batch ==> r.deadline <= x.deadline
  }

  ghost function Earlier(due: set<DueRow>, x: DueRow): set<DueRow> {
    set r | r in due && r.deadline < x.deadline
  }

  ghost function NotLater(due: set<DueRow>, x: DueRow): set<DueRow> {
    set r | r in due && r != x && r.deadline <= x.deadline
  }

  lemma SmallerSet<T(!new)>(a: set<T>, b: set<T>)
    requires a <= b
    ensures |a| <= |b|
  {
    assert b == a + (b - a);
  }

  /**
   * A due row is looked at when fewer than ten others are as early, and never while ten are earlier,
   * however long those ten have been failing.
   */
  lemma LookedAt(due: set<DueRow>, batch: set<DueRow>, x: DueRow)
    requires QueryOf(due, batch) && x in due
    ensures |NotLater(due, x)| < BATCH ==> x in batch
    ensures |Earlier(due, x)| >= BATCH ==> x !in batch
  {
    if x in batch {
      assert forall r :: r in Earlier(due, x) ==> !(x.deadline <= r.deadline);
      assert Earlier(due, x) <= batch - {x};
      SmallerSet(Earlier(due, x), batch - {x});
    } else {
      assert batch <= NotLater(due, x);
      SmallerSet(batch, NotLater(due, x));
      SmallerSet(batch + {x}, due);
    }
  }
}
