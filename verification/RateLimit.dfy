/** The per-account rate: a counter that expires, and what that really bounds. */
module RateLimit {
  import opened Common

  /** `limit` requests to a window of `window` seconds. */
  datatype Config = Config(limit: nat, window: nat)

  /**
   * One account's key. `expiry` is unset from the `INCR` that made the key until the `EXPIRE` that
   * follows it; `since` is when the key was made.
   */
  datatype Key = Absent | Present(count: nat, expiry: Option<nat>, since: nat)

  /** What `GET` would find at `now`. */
  function Alive(k: Key, now: nat): Key {
    if k.Present? && k.expiry.Some? && k.expiry.value <= now then Absent else k
  }

  function Incr(k: Key, now: nat): Key {
    match Alive(k, now)
    case Absent => Present(1, None, now)
    case Present(count, expiry, since) => Present(count + 1, expiry, since)
  }

  function Expire(k: Key, now: nat, c: Config): Key {
    match Alive(k, now)
    case Absent => Absent
    case Present(count, _, since) => Present(count, Some(now + c.window), since)
  }

  class Limiter {
    const c: Config
    var keys: map<string, Key>

    constructor (c: Config)
      ensures this.c == c && keys == map[]
    {
      this.c, keys := c, map[];
    }

    ghost function Of(account: string): Key
      reads this
    {
      if Lower(account) in keys then keys[Lower(account)] else Absent
    }

    /**
     * `enforceAccountRate`, with the second command answered at `later`, or lost. Every spelling of
     * an address shares one key, and no other account's is touched.
     */
    method Enforce(account: string, now: nat, later: nat, lost: bool) returns (ok: bool)
      requires now <= later
      modifies this`keys
      ensures Of(account) == (if Incr(old(Of(account)), now).count == 1 && !lost
                              then Expire(Incr(old(Of(account)), now), later, c)
                              else Incr(old(Of(account)), now))
      ensures ok <==> Incr(old(Of(account)), now).count <= c.limit
      ensures forall other: string :: Lower(other) != Lower(account) ==> Of(other) == old(Of(other))
    {
      var name := Lower(account);
      var key := Incr(if name in keys then keys[name] else Absent, now);
      keys := keys[name := key];
      if key.count == 1 && !lost { keys := keys[name := Expire(key, later, c)]; }
      ok := !(key.count > c.limit);
    }
  }

  // ---- a history of one key ------------------------------------------------

  /** The two commands, as the server sees them; the second follows the `INCR` that returned one. */
  datatype Command = DoIncr(at: nat) | DoExpire(at: nat)

  datatype State = State(key: Key, owed: bool, now: nat)

  const INITIAL := State(Absent, false, 0)

  predicate Enabled(s: State, a: Command) {
    s.now <= a.at && (a.DoExpire? ==> s.owed)
  }

  function Next(c: Config, s: State, a: Command): State {
    match a
    case DoIncr(at) =>
      var k := Incr(s.key, at);
      State(k, s.owed || (k.Present? && k.count == 1), at)
    case DoExpire(at) => State(Expire(s.key, at, c), false, at)
  }

  predicate Admits(c: Config, s: State, a: Command) {
    a.DoIncr? && Incr(s.key, a.at).Present? && Incr(s.key, a.at).count <= c.limit
  }

  ghost predicate IsHistory(c: Config, s: State, h: seq<Command>)
    decreases |h|
  {
    h == [] || (Enabled(s, h[0]) && IsHistory(c, Next(c, s, h[0]), h[1..]))
  }

  /** How many requests arriving in `[lo, hi]` were let through. */
  function Admitted(c: Config, s: State, h: seq<Command>, lo: nat, hi: nat): nat
    decreases |h|
  {
    if h == [] then 0 else
      (if Admits(c, s, h[0]) && lo <= h[0].at <= hi then 1 else 0)
      + Admitted(c, Next(c, s, h[0]), h[1..], lo, hi)
  }

  /** A key lives at least one window, and owes its `EXPIRE` exactly while it has no expiry. */
  predicate WellTimed(c: Config, s: State) {
    match s.key
    case Absent => !s.owed
    case Present(count, expiry, since) =>
      && count >= 1 && since <= s.now && (s.owed <==> expiry.None?)
      && (expiry.Some? ==> since + c.window <= expiry.value && s.now < expiry.value)
  }

  lemma StaysWellTimed(c: Config, s: State, a: Command)
    requires c.window > 0 && WellTimed(c, s) && Enabled(s, a)
    ensures WellTimed(c, Next(c, s, a))
  {
  }

  /** The most that can have been let through in `[lo, hi]` by now, from when the present key was made. */
  function SoFar(c: Config, s: State, lo: nat, hi: nat): nat {
    if s.key.Absent? || s.now < lo then 0
    else if s.key.since <= lo then Min(s.key.count, c.limit)
    else if s.key.since <= hi then c.limit + Min(s.key.count, c.limit)
    else 2 * c.limit
  }

  lemma StepFits(c: Config, s: State, a: Command, lo: nat, hi: nat)
    requires c.window > 0 && WellTimed(c, s) && Enabled(s, a) && lo <= hi <= lo + c.window
    ensures SoFar(c, s, lo, hi) + (if Admits(c, s, a) && lo <= a.at <= hi then 1 else 0)
            <= SoFar(c, Next(c, s, a), lo, hi) <= 2 * c.limit
  {
  }

  lemma {:induction false} AdmittedFits(c: Config, s: State, h: seq<Command>, lo: nat, hi: nat)
    requires c.window > 0 && WellTimed(c, s) && IsHistory(c, s, h) && lo <= hi <= lo + c.window
    ensures SoFar(c, s, lo, hi) + Admitted(c, s, h, lo, hi) <= 2 * c.limit
    decreases |h|
  {
    if h != [] {
      StepFits(c, s, h[0], lo, hi);
      StaysWellTimed(c, s, h[0]);
      AdmittedFits(c, Next(c, s, h[0]), h[1..], lo, hi);
    }
  }

  /**
   * No stretch of time as long as the window lets more than twice the limit through, however
   * requests arrive, and even when `EXPIRE` is answered late or never.
   */
  lemma TwiceTheLimit(c: Config, h: seq<Command>, lo: nat, hi: nat)
    requires c.window > 0 && IsHistory(c, INITIAL, h) && lo <= hi <= lo + c.window
    ensures Admitted(c, INITIAL, h, lo, hi) <= 2 * c.limit
  {
    AdmittedFits(c, INITIAL, h, lo, hi);
  }

  // ---- both edges ----------------------------------------------------------

  function Burst(n: nat, at: nat): seq<Command> {
    seq(n, i => DoIncr(at))
  }

  lemma {:induction false} BurstIsAdmitted(c: Config, s: State, n: nat, rest: seq<Command>, at: nat, hi: nat)
    requires s.key.Present? && s.key.count >= 1 && s.key.expiry == Some(at + c.window) && c.window > 0
    requires s.now == at <= hi && s.key.count + n <= c.limit
    requires IsHistory(c, State(Present(s.key.count + n, s.key.expiry, s.key.since), s.owed, at), rest)
    ensures IsHistory(c, s, Burst(n, at) + rest)
    ensures Admitted(c, s, Burst(n, at) + rest, 0, hi)
         == n + Admitted(c, State(Present(s.key.count + n, s.key.expiry, s.key.since), s.owed, at), rest, 0, hi)
    decreases n
  {
    var h := Burst(n, at) + rest;
    if n == 0 {
      assert h == rest;
    } else {
      assert h[0] == DoIncr(at) && h[1..] == Burst(n - 1, at) + rest;
      BurstIsAdmitted(c, Next(c, s, h[0]), n - 1, rest, at, hi);
    }
  }

  /** A key made at `at` and filled at once. */
  lemma WindowIsFilled(c: Config, s: State, rest: seq<Command>, at: nat, hi: nat)
    requires c.window > 0 && c.limit > 0 && s.now <= at <= hi && Alive(s.key, at).Absent?
    requires IsHistory(c, State(Present(c.limit, Some(at + c.window), at), false, at), rest)
    ensures IsHistory(c, s, [DoIncr(at), DoExpire(at)] + (Burst(c.limit - 1, at) + rest))
    ensures Admitted(c, s, [DoIncr(at), DoExpire(at)] + (Burst(c.limit - 1, at) + rest), 0, hi)
         == c.limit + Admitted(c, State(Present(c.limit, Some(at + c.window), at), false, at), rest, 0, hi)
  {
    var tail := Burst(c.limit - 1, at) + rest;
    var h := [DoIncr(at), DoExpire(at)] + tail;
    var s1 := Next(c, s, DoIncr(at));
    var s2 := Next(c, s1, DoExpire(at));
    assert s2 == State(Present(1, Some(at + c.window), at), false, at);
    BurstIsAdmitted(c, s2, c.limit - 1, rest, at, hi);
    assert h[0] == DoIncr(at) && h[1..][0] == DoExpire(at) && h[1..][1..] == tail;
  }

  /** The bound is met: a full window, and another the moment it expires. */
  lemma TwiceIsReached(c: Config) returns (h: seq<Command>)
    requires c.window > 0 && c.limit > 0
    ensures IsHistory(c, INITIAL, h) && Admitted(c, INITIAL, h, 0, c.window) == 2 * c.limit
  {
    var w := c.window;
    var full := State(Present(c.limit, Some(w), 0), false, 0);
    WindowIsFilled(c, full, [], w, w);
    var second := [DoIncr(w), DoExpire(w)] + (Burst(c.limit - 1, w) + []);
    WindowIsFilled(c, INITIAL, second, 0, w);
    h := [DoIncr(0), DoExpire(0)] + (Burst(c.limit - 1, 0) + second);
  }

  /** If the `EXPIRE` never comes, an account that has used its limit is refused for good. */
  lemma {:induction false} LostExpireBlocks(c: Config, s: State, h: seq<Command>, lo: nat, hi: nat)
    requires s.key.Present? && s.key.expiry.None? && s.key.count >= c.limit
    requires IsHistory(c, s, h) && forall i :: 0 <= i < |h| ==> h[i].DoIncr?
    ensures Admitted(c, s, h, lo, hi) == 0
    decreases |h|
  {
    if h != [] {
      LostExpireBlocks(c, Next(c, s, h[0]), h[1..], lo, hi);
    }
  }
}
