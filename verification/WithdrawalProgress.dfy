/** Nothing the two nested queues do can stop a withdrawal from ending, if every call returns. */
module WithdrawalProgress {
  import opened Common
  import opened Withdrawal

  /** What is left to wait for: turns of the lock, steps of the holder, steps of what it waits on. */
  datatype Left = Left(turns: nat, steps: nat, waits: nat)

  ghost predicate Before(a: Left, b: Left) {
    || a.turns < b.turns
    || (a.turns == b.turns && (a.steps < b.steps || (a.steps == b.steps && a.waits < b.waits)))
  }

  function StepsLeft(pc: Pc): nat {
    match pc
    case Waiting => 7
    case Reading => 6
    case Capping(call) => if call.RelayProof? then 2 else 5
    case Queued(call, _) => if call.RelayProof? then 1 else 4
    case Awaiting(_) => 3
    case Done(_) => 0
  }

  function WaitsLeft(s: State, pc: Pc): nat {
    match pc
    case Queued(_, job) =>
      if s.head <= job then 3 * (job - s.head) + (if s.stage.Idle? then 2 else if s.stage.Simulated? then 1 else 0)
      else 0
    case Awaiting(tx) => if |s.results| <= tx then tx + 1 - |s.results| else 0
    case _ => 0
  }

  ghost function LeftFor(s: State, w: nat): Left {
    if Holding(s) && s.turn <= w then
      Left(w - s.turn + 1, StepsLeft(Holder(s).pc), WaitsLeft(s, Holder(s).pc))
    else Left(0, 0, 0)
  }

  /** The step, good or bad, that whoever has the lock is waiting for. */
  ghost predicate Returns(s: State, a: Action) {
    Holding(s) &&
    match Holder(s).pc
    case Waiting => a == Acquire
    case Reading => a == Read || a == ReadFails
    case Capping(_) => a == Enqueue || a == Refuse
    case Queued(_, _) => a.Simulate? || a == Abandon || a == Broadcast || a == Return || a == LoseResult
    case Awaiting(tx) => a == Timeout || (if tx < |s.results| then a == Receipt else a.Execute?)
    case Done(_) => false
  }

  ghost predicate Ended(s: State, w: nat) {
    w < |s.procs| && s.procs[w].pc.Done?
  }

  /** Whoever waits, something they wait for can happen, without any fault. */
  lemma NeverStuck(s: State) returns (a: Action)
    requires InStep(s) && Holding(s)
    ensures Enabled(s, a) && Returns(s, a) && a != LoseResult && a != Timeout
    ensures a.Simulate? ==> (a.ok <==> Passes(s.jobs[s.head].call, s.root))
    ensures a.Execute? ==> (a.ok <==> Passes(s.txs[|s.results|], s.root))
  {
    match Holder(s).pc
    case Waiting => a := Acquire;
    case Reading => a := Read;
    case Capping(_) => a := Enqueue;
    case Queued(_, _) =>
      a := if s.stage.Idle? then Simulate(Passes(s.jobs[s.head].call, s.root))
           else if s.stage.Simulated? then Broadcast else Return;
    case Awaiting(tx) =>
      a := if tx < |s.results| then Receipt else Execute(Passes(s.txs[|s.results|], s.root));
  }

  ghost predicate Advances(s: State, a: Action, w: nat)
    requires Enabled(s, a)
  {
    && w < |Next(s, a).procs|
    && (LeftFor(Next(s, a), w) == LeftFor(s, w) || Before(LeftFor(Next(s, a), w), LeftFor(s, w)))
    && (Returns(s, a) ==> Before(LeftFor(Next(s, a), w), LeftFor(s, w)))
  }

  predicate MovesHead(a: Action) {
    a.Simulate? || a == Abandon || a == Broadcast || a == Return || a == LoseResult
  }

  lemma HeadAdvances(s: State, a: Action, w: nat)
    requires InStep(s) && Enabled(s, a) && s.turn <= w < |s.procs| && MovesHead(a)
    ensures Advances(s, a, w)
  {
    if EndsHead(a) { HeadEndAdvances(s, a, w); } else { HeadStageAdvances(s, a, w); }
  }

  lemma HeadEndAdvances(s: State, a: Action, w: nat)
    requires InStep(s) && Enabled(s, a) && s.turn <= w < |s.procs| && EndsHead(a)
    ensures Advances(s, a, w)
  {
    hide OneHolder, SentInOrder, OwnCall, Passes;
    var t := Next(s, a);
    if s.jobs[s.head].owner.None? { OthersJobMoves(s, a); } else { OwnJobMoves(s, a); }
    hide Next, OneJob;
  }

  /** Somebody else's head job ends: the queue moves on, and the holder is where it was. */
  lemma OthersJobMoves(s: State, a: Action)
    requires InStep(s) && Enabled(s, a) && Holding(s) && EndsHead(a) && s.jobs[s.head].owner.None?
    ensures var t := Next(s, a);
            && t.head == s.head + 1 && t.stage.Idle? && t.results == s.results && t.procs == s.procs && t.turn == s.turn
            && (Holder(s).pc.Queued? ==> Holder(s).pc.job > s.head)
  {
    hide OneHolder, SentInOrder, OwnCall, Passes;
  }

  /** The holder's own job ends: it is done, or waits for its receipt. */
  lemma OwnJobMoves(s: State, a: Action)
    requires InStep(s) && Enabled(s, a) && Holding(s) && EndsHead(a) && s.jobs[s.head].owner.Some?
    ensures var t := Next(s, a);
            && t.head == s.head + 1 && t.stage.Idle? && t.results == s.results && |t.procs| == |s.procs|
            && Holder(s).pc == Queued(s.jobs[s.head].call, s.head)
            && (t.turn == s.turn + 1 || (t.turn == s.turn && Holder(s).pc.call.UpdateRoot? && Holder(t).pc.Awaiting?))
  {
    hide OneHolder, SentInOrder, OwnCall, Passes;
  }

  lemma HeadStageAdvances(s: State, a: Action, w: nat)
    requires InStep(s) && Enabled(s, a) && s.turn <= w < |s.procs| && (a == Simulate(true) || a == Broadcast)
    ensures Advances(s, a, w)
  {
    hide OneHolder, SentInOrder, OwnCall, Passes;
  }

  lemma HolderAdvances(s: State, a: Action, w: nat)
    requires InStep(s) && Enabled(s, a) && s.turn <= w < |s.procs|
    requires MovesHolder(a) || a == Enqueue
    ensures Advances(s, a, w)
  {
    hide OneJob, SentInOrder, Passes;
  }

  lemma OthersAdvance(s: State, a: Action, w: nat)
    requires InStep(s) && Enabled(s, a) && s.turn <= w < |s.procs|
    requires a.Admit? || a == EnqueueOther || a.Execute?
    ensures Advances(s, a, w)
  {
    hide OneHolder, OneJob, SentInOrder, OwnCall, Passes;
  }

  /** No step, of any sender or of the chain, puts a withdrawal further back. */
  lemma NothingGoesBack(s: State, a: Action, w: nat)
    requires InStep(s) && Enabled(s, a) && w < |s.procs| && !Ended(s, w)
    ensures w < |Next(s, a).procs|
    ensures LeftFor(Next(s, a), w) == LeftFor(s, w) || Before(LeftFor(Next(s, a), w), LeftFor(s, w))
    ensures Returns(s, a) ==> Before(LeftFor(Next(s, a), w), LeftFor(s, w))
  {
    hide LeftFor, Returns, Enabled, Next, Before;
    assert s.turn <= w;
    if MovesHead(a) {
      HeadAdvances(s, a, w);
    } else if MovesHolder(a) || a == Enqueue {
      HolderAdvances(s, a, w);
    } else {
      OthersAdvance(s, a, w);
    }
  }

  // ---- whole runs ----------------------------------------------------------

  ghost predicate IsRun(run: nat -> State, act: nat -> Action, root: nat) {
    && run(0) == Initial(root)
    && forall n: nat :: Enabled(run(n), act(n)) && run(n + 1) == Next(run(n), act(n))
  }

  /** Every call made on behalf of the holder returns, well or badly, some time. */
  ghost predicate CallsReturn(run: nat -> State, act: nat -> Action) {
    forall n: nat :: ReturnsAfter(run, act, n)
  }

  ghost predicate ReturnsAfter(run: nat -> State, act: nat -> Action, n: nat) {
    exists m: nat :: n <= m && (!Holding(run(m)) || Returns(run(m), act(m)))
  }

  lemma {:induction false} RunInStep(run: nat -> State, act: nat -> Action, root: nat, n: nat)
    requires IsRun(run, act, root)
    ensures InStep(run(n))
  {
    if n == 0 {
      SafeAtStart(root);
    } else {
      RunInStep(run, act, root, n - 1);
      hide InStep, Enabled, Next;
      assert Enabled(run(n - 1), act(n - 1)) && run(n - 1 + 1) == Next(run(n - 1), act(n - 1));
      StaysInStep(run(n - 1), act(n - 1));
    }
  }

  /** From `n` to `k` either it has ended on the way or it is no further back. */
  lemma {:induction false} NoFurtherBack(run: nat -> State, act: nat -> Action, root: nat, n: nat, k: nat, w: nat)
    returns (m: nat)
    requires IsRun(run, act, root) && n <= k && w < |run(n).procs|
    ensures n <= m <= k && w < |run(m).procs| && (m == k || Ended(run(m), w))
    ensures !Ended(run(m), w) ==> LeftFor(run(m), w) == LeftFor(run(n), w) || Before(LeftFor(run(m), w), LeftFor(run(n), w))
    decreases k - n
  {
    hide InStep, Enabled, Next, LeftFor, Ended;
    if n == k || Ended(run(n), w) {
      m := n;
    } else {
      RunInStep(run, act, root, n);
      assert Enabled(run(n), act(n)) && run(n + 1) == Next(run(n), act(n));
      NothingGoesBack(run(n), act(n), w);
      m := NoFurtherBack(run, act, root, n + 1, k, w);
    }
  }

  /**
   * Every withdrawal that takes its place in the lock's chain ends, whatever other senders do, in
   * every run in which each call the holder waits on returns.
   */
  lemma {:induction false} EveryWithdrawalEnds(run: nat -> State, act: nat -> Action, root: nat, n: nat, w: nat)
    returns (m: nat)
    requires IsRun(run, act, root) && CallsReturn(run, act) && w < |run(n).procs|
    ensures n <= m && Ended(run(m), w)
    decreases LeftFor(run(n), w).turns, LeftFor(run(n), w).steps, LeftFor(run(n), w).waits
  {
    assert ReturnsAfter(run, act, n);
    var k: nat :| n <= k && (!Holding(run(k)) || Returns(run(k), act(k)));
    m := NoFurtherBack(run, act, root, n, k, w);
    if !Ended(run(m), w) {
      RunInStep(run, act, root, k);
      assert Holding(run(k));
      hide InStep, Enabled, Next, LeftFor;
      assert Enabled(run(k), act(k)) && run(k + 1) == Next(run(k), act(k));
      NothingGoesBack(run(k), act(k), w);
      m := EveryWithdrawalEnds(run, act, root, k + 1, w);
    }
  }

  // ---- how they end --------------------------------------------------------

  function FirstStates(run: nat -> State, n: nat): seq<State> {
    seq(n + 1, i requires 0 <= i <= n => run(i))
  }

  function FirstActions(act: nat -> Action, n: nat): seq<Action> {
    seq(n, i requires 0 <= i < n => act(i))
  }

  lemma FirstSteps(run: nat -> State, act: nat -> Action, root: nat, n: nat)
    requires IsRun(run, act, root)
    ensures Withdrawal.IsRun(root, FirstActions(act, n), FirstStates(run, n))
  {
    hide Enabled, Next;
    forall i | 0 <= i < n
      ensures Follows(FirstStates(run, n)[i], FirstActions(act, n)[i], FirstStates(run, n)[i + 1])
    {
      assert Enabled(run(i), act(i)) && run(i + 1) == Next(run(i), act(i));
    }
  }

  /**
   * A withdrawal none of whose own steps ever fails, in a run in which every call returns, ends well:
   * exactly one relay has been broadcast for it, carrying the root it was admitted with.
   */
  lemma UnfailedWithdrawalRelays(run: nat -> State, act: nat -> Action, root: nat, n: nat, w: nat) returns (m: nat)
    requires IsRun(run, act, root) && CallsReturn(run, act) && w < |run(n).procs|
    requires forall k: nat :: !FailsAt(run(k), act(k), w)
    ensures n <= m && EndedWith(run(m), w, true) && TrueAnswer(run(m), w)
    ensures exists i :: SentFor(run(m), w, i)
    ensures w < |AdmittedPins(FirstActions(act, m))| && run(m).procs[w].pin == AdmittedPins(FirstActions(act, m))[w]
  {
    m := EveryWithdrawalEnds(run, act, root, n, w);
    hide IsRun, CallsReturn, Enabled, Next, FailsAt, SucceedsAt;
    var actions, states := FirstActions(act, m), FirstStates(run, m);
    FirstSteps(run, act, root, m);
    assert states[m] == run(m);
    EndsAsItsStepsDo(root, actions, states, m, w);
    assert forall k :: 0 <= k < m ==> states[k] == run(k) && actions[k] == act(k);
    assert EndedWith(run(m), w, true);
    AnswersAreTrue(root, actions, states, m, w);
    AlwaysAccounted(root, actions, states, m);
    LostIsNotOk(run(m), w);
    PinsAreTheCallers(root, actions, states, m);
    assert actions[..m] == actions;
  }

  lemma LostIsNotOk(s: State, w: nat)
    requires Accounted(s) && EndedWith(s, w, true)
    ensures w !in s.lost
  {
  }
}
