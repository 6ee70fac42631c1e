/**
 * Withdrawals: under one lock, publish the association root a proof was built against and relay the
 * proof, while every other sender of the process shares the nonce queue underneath.
 *
 * Both the lock and the queue are promise chains, so each is first-in first-out (see PromiseChain).
 */
module Withdrawal {
  import opened Common

  /** A call this process signs. Only a withdrawal publishes a root. */
  datatype Call = UpdateRoot(w: nat, root: nat) | RelayProof(w: nat, pin: nat) | Other

  /** A job of the nonce queue, and the withdrawal that awaits its result. */
  datatype Job = Job(owner: Option<nat>, call: Call)

  /** Where one withdrawal stands. */
  datatype Pc =
    | Waiting                        // in the lock's chain
    | Reading                        // asking for `latestRoot`
    | Capping(call: Call)            // `sendFromRelayer`, before the queue
    | Queued(call: Call, job: nat)
    | Awaiting(tx: nat)              // the receipt of its own `updateRoot`
    | Done(ok: bool)

  datatype Proc = Proc(pin: nat, pc: Pc)

  /** How far the job at the head of the queue has come. */
  datatype Stage = Idle | Simulated | Sent(tx: nat)

  /**
   * `procs` in the order they took their place in the lock's chain, `turn` the one whose turn it
   * is; `jobs` likewise with `head`. `txs` in nonce order, `results` those the chain has executed.
   * `clean`: the withdrawals that got the lock with no root pending; `lost`: those whose proof was
   * broadcast and whose caller was told otherwise.
   */
  datatype State = State(
    procs: seq<Proc>, turn: nat,
    jobs: seq<Job>, head: nat, stage: Stage,
    txs: seq<Call>, results: seq<bool>, root: nat,
    clean: set<nat>, lost: set<nat>)

  datatype Action =
    | Admit(pin: nat)
    | Acquire
    | Read | ReadFails
    | Enqueue | Refuse               // past the daily cap, or stopped by it
    | EnqueueOther                   // a trade, a shield, a finalize, a permit
    | Simulate(ok: bool)
    | Abandon                        // gas policy or the send itself fails before broadcast
    | Broadcast
    | Return
    | LoseResult                     // a failure between broadcast and return
    | Receipt
    | Timeout                        // no receipt within the wait
    | Execute(ok: bool)              // the chain runs the next nonce

  function Initial(root: nat): State {
    State([], 0, [], 0, Idle, [], [], root, {}, {})
  }

  /** What the entrypoint checks of the latest root; anything else about a call may fail it too. */
  predicate Passes(call: Call, root: nat) {
    match call
    case UpdateRoot(_, r) => r != root
    case RelayProof(_, pin) => pin == root
    case Other => true
  }

  function RootAfter(call: Call, ok: bool, root: nat): nat {
    if ok && call.UpdateRoot? then call.root else root
  }

  predicate Holding(s: State) {
    s.turn < |s.procs|
  }

  function Holder(s: State): Proc
    requires Holding(s)
  {
    s.procs[s.turn]
  }

  ghost predicate Pending(s: State, i: nat) {
    |s.results| <= i < |s.txs|
  }

  ghost predicate NoRootPending(s: State) {
    forall i: nat :: Pending(s, i) ==> !s.txs[i].UpdateRoot?
  }

  ghost predicate Enabled(s: State, a: Action) {
    match a
    case Admit(_) => true
    case EnqueueOther => true
    case Acquire => Holding(s) && Holder(s).pc.Waiting?
    case Read => Holding(s) && Holder(s).pc.Reading?
    case ReadFails => Holding(s) && Holder(s).pc.Reading?
    case Enqueue => Holding(s) && Holder(s).pc.Capping?
    case Refuse => Holding(s) && Holder(s).pc.Capping?
    case Simulate(ok) => s.head < |s.jobs| && s.stage.Idle? && (ok ==> Passes(s.jobs[s.head].call, s.root))
    case Abandon => s.head < |s.jobs| && s.stage.Simulated?
    case Broadcast => s.head < |s.jobs| && s.stage.Simulated?
    case Return => s.head < |s.jobs| && s.stage.Sent?
    case LoseResult => s.head < |s.jobs| && s.stage.Sent?
    case Receipt => Holding(s) && Holder(s).pc.Awaiting? && Holder(s).pc.tx < |s.results|
    case Timeout => Holding(s) && Holder(s).pc.Awaiting?
    case Execute(ok) => |s.results| < |s.txs| && (ok ==> Passes(s.txs[|s.results|], s.root))
  }

  /** The withdrawal whose turn it is moves on. */
  function Move(s: State, pc: Pc): State
    requires Holding(s)
  {
    s.(procs := s.procs[s.turn := Holder(s).(pc := pc)])
  }

  /** It ends, well or badly, and the lock passes to the next. */
  function Release(s: State, ok: bool): State
    requires Holding(s)
  {
    Move(s, Done(ok)).(turn := s.turn + 1)
  }

  /** The head job ends without a transaction: whoever awaits it fails. */
  function Fail(s: State): State
    requires s.head < |s.jobs|
  {
    var popped := s.(head := s.head + 1, stage := Idle);
    if s.jobs[s.head].owner == Some(s.turn) && Holding(s) then Release(popped, false) else popped
  }

  /** The head job hands back the hash of its transaction. */
  function Deliver(s: State): State
    requires s.head < |s.jobs| && s.stage.Sent?
  {
    var popped := s.(head := s.head + 1, stage := Idle);
    if s.jobs[s.head].owner == Some(s.turn) && Holding(s) then
      if s.jobs[s.head].call.UpdateRoot? then Move(popped, Awaiting(s.stage.tx)) else Release(popped, true)
    else popped
  }

  function AfterRead(s: State): State
    requires Holding(s)
  {
    if s.root == Holder(s).pin then Move(s, Capping(RelayProof(s.turn, Holder(s).pin)))
    else Move(s, Capping(UpdateRoot(s.turn, Holder(s).pin)))
  }

  ghost function Next(s: State, a: Action): State
    requires Enabled(s, a)
  {
    match a
    case Admit(pin) => s.(procs := s.procs + [Proc(pin, Waiting)])
    case EnqueueOther => s.(jobs := s.jobs + [Job(None, Other)])
    case Acquire => Move(s, Reading).(clean := if NoRootPending(s) then s.clean + {s.turn} else s.clean)
    case Read => AfterRead(s)
    case ReadFails => Release(s, false)
    case Enqueue =>
      Move(s, Queued(Holder(s).pc.call, |s.jobs|)).(jobs := s.jobs + [Job(Some(s.turn), Holder(s).pc.call)])
    case Refuse => Release(s, false)
    case Simulate(ok) => if ok then s.(stage := Simulated) else Fail(s)
    case Abandon => Fail(s)
    case Broadcast => s.(txs := s.txs + [s.jobs[s.head].call], stage := Sent(|s.txs|))
    case Return => Deliver(s)
    case LoseResult =>
      var call := s.jobs[s.head].call;
      Fail(s).(lost := if call.RelayProof? then s.lost + {call.w} else s.lost)
    case Receipt =>
      if s.results[Holder(s).pc.tx] then Move(s, Capping(RelayProof(s.turn, Holder(s).pin))) else Release(s, false)
    case Timeout => Release(s, false)
    case Execute(ok) =>
      s.(results := s.results + [ok], root := RootAfter(s.txs[|s.results|], ok, s.root))
  }

  /** A run and every state it goes through. */
  ghost predicate IsRun(root: nat, actions: seq<Action>, states: seq<State>) {
    && |states| == |actions| + 1 && states[0] == Initial(root)
    && forall n :: 0 <= n < |actions| ==> Follows(states[n], actions[n], states[n + 1])
  }

  ghost predicate Follows(s: State, a: Action, t: State) {
    Enabled(s, a) && t == Next(s, a)
  }

  // ---- the two queues stay in step, faults or none -------------------------

  ghost predicate OneHolder(s: State) {
    && s.turn <= |s.procs|
    && (forall w :: 0 <= w < s.turn ==> s.procs[w].pc.Done?)
    && (forall w :: s.turn < w < |s.procs| ==> s.procs[w].pc.Waiting?)
    && (Holding(s) ==> !Holder(s).pc.Done?)
  }

  /** The only job a withdrawal has in the queue is the one its holder waits on. */
  ghost predicate OneJob(s: State) {
    && s.head <= |s.jobs|
    && (s.head == |s.jobs| ==> s.stage.Idle?)
    && (forall j :: s.head <= j < |s.jobs| ==>
          if s.jobs[j].owner.None? then s.jobs[j].call == Other else
            && s.jobs[j].owner == Some(s.turn) && Holding(s)
            && Holder(s).pc == Queued(s.jobs[j].call, j))
    && (Holding(s) && Holder(s).pc.Queued? ==>
          && s.head <= Holder(s).pc.job < |s.jobs|
          && s.jobs[Holder(s).pc.job] == Job(Some(s.turn), Holder(s).pc.call))
  }

  /** The call a withdrawal is busy with is one of its own two. */
  ghost predicate OwnCall(s: State) {
    Holding(s) ==>
      && (Holder(s).pc.Capping? || Holder(s).pc.Queued? ==>
            Holder(s).pc.call == UpdateRoot(s.turn, Holder(s).pin) || Holder(s).pc.call == RelayProof(s.turn, Holder(s).pin))
      && (Holder(s).pc.Awaiting? ==>
            Holder(s).pc.tx < |s.txs| && s.txs[Holder(s).pc.tx] == UpdateRoot(s.turn, Holder(s).pin))
  }

  ghost predicate SentInOrder(s: State) {
    && |s.results| <= |s.txs|
    && (s.stage.Sent? && s.head < |s.jobs| ==> s.stage.tx < |s.txs| && s.txs[s.stage.tx] == s.jobs[s.head].call)
  }

  ghost predicate InStep(s: State) {
    OneHolder(s) && OneJob(s) && OwnCall(s) && SentInOrder(s)
  }

  lemma StaysInStep(s: State, a: Action)
    requires InStep(s) && Enabled(s, a)
    ensures InStep(Next(s, a))
  {
    hide OneHolder, OneJob, OwnCall, SentInOrder, Enabled, Next;
    KeepsOneHolder(s, a);
    KeepsOneJob(s, a);
    KeepsOwnCall(s, a);
    KeepsSentInOrder(s, a);
  }

  predicate EndsHead(a: Action) {
    a == Return || a == LoseResult || a == Abandon || a == Simulate(false)
  }

  lemma KeepsOneHolder(s: State, a: Action)
    requires InStep(s) && Enabled(s, a)
    ensures OneHolder(Next(s, a))
  {
    if EndsHead(a) { HeadEndKeepsOneHolder(s, a); } else { OtherKeepsOneHolder(s, a); }
  }

  lemma HeadEndKeepsOneHolder(s: State, a: Action)
    requires InStep(s) && Enabled(s, a) && EndsHead(a)
    ensures OneHolder(Next(s, a))
  {
    hide OneJob, SentInOrder, OwnCall, Passes;
  }

  lemma OtherKeepsOneHolder(s: State, a: Action)
    requires InStep(s) && Enabled(s, a) && !EndsHead(a)
    ensures OneHolder(Next(s, a))
  {
    hide OneJob, SentInOrder, OwnCall, Passes;
  }

  lemma KeepsOneJob(s: State, a: Action)
    requires InStep(s) && Enabled(s, a)
    ensures OneJob(Next(s, a))
  {
    if EndsHead(a) { HeadEndKeepsOneJob(s, a); } else { OtherKeepsOneJob(s, a); }
  }

  lemma HeadEndKeepsOneJob(s: State, a: Action)
    requires InStep(s) && Enabled(s, a) && EndsHead(a)
    ensures OneJob(Next(s, a))
  {
    hide SentInOrder, OwnCall, Passes;
    if s.jobs[s.head].owner.None? {
      OthersJobEnds(s, a);
    } else {
      assert forall j :: s.head < j < |s.jobs| ==> s.jobs[j].owner.None?;
    }
  }

  lemma OthersJobEnds(s: State, a: Action)
    requires InStep(s) && Enabled(s, a) && EndsHead(a) && s.jobs[s.head].owner.None?
    ensures OneJob(Next(s, a))
  {
    hide SentInOrder, OwnCall, Passes, OneHolder;
    var t := Next(s, a);
    assert t.procs == s.procs && t.turn == s.turn && t.jobs == s.jobs && t.head == s.head + 1 && t.stage.Idle?;
  }

  lemma OtherKeepsOneJob(s: State, a: Action)
    requires InStep(s) && Enabled(s, a) && !EndsHead(a)
    ensures OneJob(Next(s, a))
  {
    hide SentInOrder, OwnCall, Passes;
  }

  lemma KeepsOwnCall(s: State, a: Action)
    requires InStep(s) && Enabled(s, a)
    ensures OwnCall(Next(s, a))
  {
    if EndsHead(a) { HeadEndKeepsOwnCall(s, a); } else { OtherKeepsOwnCall(s, a); }
  }

  lemma HeadEndKeepsOwnCall(s: State, a: Action)
    requires InStep(s) && Enabled(s, a) && EndsHead(a)
    ensures OwnCall(Next(s, a))
  {
    hide Passes;
  }

  lemma OtherKeepsOwnCall(s: State, a: Action)
    requires InStep(s) && Enabled(s, a) && !EndsHead(a)
    ensures OwnCall(Next(s, a))
  {
    hide Passes, OneJob, SentInOrder;
  }

  lemma KeepsSentInOrder(s: State, a: Action)
    requires InStep(s) && Enabled(s, a)
    ensures SentInOrder(Next(s, a))
  {
    hide OneHolder, OwnCall, Passes;
  }

  // ---- a proof only ever meets the root it pins ----------------------------

  predicate Relaying(pc: Pc) {
    (pc.Capping? || pc.Queued?) && pc.call.RelayProof?
  }

  predicate Publishing(pc: Pc) {
    (pc.Capping? || pc.Queued?) && pc.call.UpdateRoot?
  }

  /** The transaction of the holder's own `updateRoot`, once broadcast. */
  ghost predicate InFlight(s: State, i: nat) {
    && Holding(s)
    && (Holder(s).pc == Awaiting(i) ||
        (Publishing(Holder(s).pc) && Holder(s).pc.Queued? && Holder(s).pc.job == s.head && s.stage == Sent(i)))
  }

  /** Whoever is marked clean has the lock or had it. */
  ghost predicate CleanHeld(s: State) {
    forall w :: w in s.clean ==> w < |s.procs| && w <= s.turn && (w == s.turn ==> !Holder(s).pc.Waiting?)
  }

  /** A clean withdrawal's unexecuted proof has its root on chain and goes before any pending root. */
  ghost predicate ProofsFirst(s: State)
    requires SentInOrder(s)
  {
    && (forall i: nat :: Pending(s, i) && s.txs[i].RelayProof? && s.txs[i].w in s.clean ==> s.txs[i].pin == s.root)
    && (forall i: nat, j: nat ::
          Pending(s, i) && Pending(s, j) && s.txs[i].RelayProof? && s.txs[i].w in s.clean && s.txs[j].UpdateRoot? ==> i < j)
  }

  predicate Unsent(s: State, pc: Pc) {
    Publishing(pc) && !(pc.Queued? && pc.job == s.head && s.stage.Sent?)
  }

  /** While a clean holder has the lock, the only root pending is its own, and it knows the root on chain. */
  ghost predicate HolderKnows(s: State)
    requires SentInOrder(s)
  {
    Holding(s) && s.turn in s.clean ==>
      && (forall i: nat :: Pending(s, i) && s.txs[i].UpdateRoot? ==> InFlight(s, i))
      && (Relaying(Holder(s).pc) ==> s.root == Holder(s).pin)
      && (Unsent(s, Holder(s).pc) ==> s.root != Holder(s).pin)
      && (forall i: nat :: InFlight(s, i) && i < |s.results| && s.results[i] ==> s.root == Holder(s).pin)
  }

  /** No proof is sent for a withdrawal that has not had the lock. */
  ghost predicate SentInTurn(s: State) {
    forall i: nat :: i < |s.txs| && s.txs[i].RelayProof? ==>
      s.txs[i].w < s.turn || (s.txs[i].w == s.turn && Holding(s) && !Holder(s).pc.Waiting?)
  }

  ghost predicate Orderly(s: State) {
    SentInOrder(s) && SentInTurn(s) && CleanHeld(s) && ProofsFirst(s) && HolderKnows(s)
  }

  ghost predicate Safe(s: State) {
    InStep(s) && Orderly(s)
  }

  lemma StaysSafe(s: State, a: Action)
    requires Safe(s) && Enabled(s, a)
    ensures Safe(Next(s, a))
  {
    StaysInStep(s, a);
    match a
    case Execute(ok) => ExecuteKeeps(s, ok);
    case Broadcast => BroadcastKeeps(s);
    case Return => ReturnKeeps(s);
    case LoseResult => FailKeeps(s, a);
    case Abandon => FailKeeps(s, a);
    case Simulate(ok) => if ok { StageKeeps(s, a); } else { FailKeeps(s, a); }
    case Enqueue => StageKeeps(s, a);
    case EnqueueOther => StageKeeps(s, a);
    case Admit(_) => StageKeeps(s, a);
    case _ => HolderKeeps(s, a);
  }

  lemma ExecuteKeeps(s: State, ok: bool)
    requires InStep(s) && Orderly(s) && Enabled(s, Execute(ok))
    ensures Orderly(Next(s, Execute(ok)))
  {
  }

  lemma BroadcastKeeps(s: State)
    requires InStep(s) && Orderly(s) && Enabled(s, Broadcast)
    ensures Orderly(Next(s, Broadcast))
  {
  }

  lemma ReturnKeeps(s: State)
    requires InStep(s) && Orderly(s) && Enabled(s, Return)
    ensures Orderly(Next(s, Return))
  {
    KeepsSentInOrder(s, Return);
  }

  lemma FailKeeps(s: State, a: Action)
    requires InStep(s) && Orderly(s) && Enabled(s, a)
    requires a == LoseResult || a == Abandon || a == Simulate(false)
    ensures Orderly(Next(s, a))
  {
  }

  predicate MovesHolder(a: Action) {
    a == Acquire || a == Read || a == ReadFails || a == Refuse || a == Receipt || a == Timeout
  }

  lemma HolderKeeps(s: State, a: Action)
    requires InStep(s) && Orderly(s) && Enabled(s, a) && MovesHolder(a)
    ensures Orderly(Next(s, a))
  {
  }

  lemma StageKeeps(s: State, a: Action)
    requires InStep(s) && Orderly(s) && Enabled(s, a)
    requires a == Simulate(true) || a == Enqueue || a == EnqueueOther || a.Admit?
    ensures Orderly(Next(s, a))
  {
  }

  lemma {:induction false} AlwaysSafe(root: nat, actions: seq<Action>, states: seq<State>, n: nat)
    requires IsRun(root, actions, states) && n < |states|
    ensures Safe(states[n])
  {
    hide Safe, Enabled, Next;
    if n == 0 {
      SafeAtStart(root);
    } else {
      AlwaysSafe(root, actions, states, n - 1);
      assert Follows(states[n - 1], actions[n - 1], states[n - 1 + 1]);
      StaysSafe(states[n - 1], actions[n - 1]);
    }
  }

  lemma SafeAtStart(root: nat)
    ensures Safe(Initial(root))
  {
  }

  /** A clean withdrawal's proof, at the head of the queue or sent and not yet executed, is on its root. */
  ghost predicate OnItsRoot(s: State) {
    && (s.head < |s.jobs| && s.jobs[s.head].call.RelayProof? && s.jobs[s.head].call.w in s.clean ==>
          s.jobs[s.head].call.pin == s.root)
    && (forall i :: |s.results| <= i < |s.txs| && s.txs[i].RelayProof? && s.txs[i].w in s.clean ==>
          s.txs[i].pin == s.root)
  }

  /**
   * The protocol's promise, to every withdrawal that gets the lock with no abandoned root pending,
   * whatever went wrong before and goes wrong after: from the moment its proof's job reaches the head
   * of the queue until the chain has executed its transaction, the entrypoint's latest root is the
   * one the proof pins.
   */
  lemma ProofsMeetTheirRoot(root: nat, actions: seq<Action>, states: seq<State>, n: nat)
    requires IsRun(root, actions, states) && n < |states|
    ensures OnItsRoot(states[n])
  {
    AlwaysSafe(root, actions, states, n);
    hide IsRun;
    var s := states[n];
    forall i | |s.results| <= i < |s.txs| && s.txs[i].RelayProof? && s.txs[i].w in s.clean
      ensures s.txs[i].pin == s.root
    {
      assert Pending(s, i);
    }
  }

  /** A clean withdrawal publishes only a root that changes something, so the chain's no-op check never stops it. */
  lemma PublishingIsNeeded(root: nat, actions: seq<Action>, states: seq<State>, n: nat)
    requires IsRun(root, actions, states) && n < |states|
    requires states[n].head < |states[n].jobs| && states[n].jobs[states[n].head].call.UpdateRoot?
    requires states[n].jobs[states[n].head].call.w in states[n].clean && !states[n].stage.Sent?
    ensures Passes(states[n].jobs[states[n].head].call, states[n].root)
  {
    AlwaysSafe(root, actions, states, n);
    hide IsRun;
    var s := states[n];
    assert OneJob(s);
  }

  // ---- who is clean --------------------------------------------------------

  ghost predicate GotLockClean(actions: seq<Action>, states: seq<State>, m: nat, w: nat)
    requires m < |actions| <= |states|
  {
    actions[m] == Acquire && states[m].turn == w && NoRootPending(states[m])
  }

  lemma CleanStep(s: State, a: Action, w: nat)
    requires Enabled(s, a)
    ensures w in Next(s, a).clean <==> w in s.clean || (a == Acquire && s.turn == w && NoRootPending(s))
  {
    hide NoRootPending;
  }

  /** The mark means what it says. */
  lemma {:induction false} CleanMeans(root: nat, actions: seq<Action>, states: seq<State>, n: nat, w: nat)
    requires IsRun(root, actions, states) && n < |states|
    ensures w in states[n].clean <==> exists m :: 0 <= m < n && GotLockClean(actions, states, m, w)
  {
    if n > 0 {
      CleanMeans(root, actions, states, n - 1, w);
      hide Enabled, Next, NoRootPending;
      assert Follows(states[n - 1], actions[n - 1], states[n - 1 + 1]);
      CleanStep(states[n - 1], actions[n - 1], w);
      if w in states[n].clean && w !in states[n - 1].clean {
        assert GotLockClean(actions, states, n - 1, w);
      }
    }
  }

  /** A root is pending that nobody waits for any more. */
  ghost predicate Stray(s: State) {
    exists i: nat :: Pending(s, i) && s.txs[i].UpdateRoot? && !InFlight(s, i)
  }

  /** A publication is given up on while it may still land. */
  ghost predicate Abandons(s: State, a: Action)
    requires Enabled(s, a)
  {
    a == Timeout || (a == LoseResult && s.jobs[s.head].call.UpdateRoot?)
  }

  lemma OnlyAbandoningStrays(s: State, a: Action)
    requires InStep(s) && !Stray(s) && Enabled(s, a) && !Abandons(s, a)
    ensures !Stray(Next(s, a))
  {
    hide OneHolder, Passes;
    var t := Next(s, a);
    StaysInStep(s, a);
    forall i: nat | Pending(t, i) && t.txs[i].UpdateRoot?
      ensures InFlight(t, i)
    {
      if i < |s.txs| { assert Pending(s, i) && InFlight(s, i); }
    }
  }

  /** Once everything sent has been executed, no root is astray, whatever was given up on before. */
  lemma ExecutedIsNotStray(s: State)
    requires |s.results| == |s.txs|
    ensures !Stray(s) && NoRootPending(s)
  {
  }

  ghost predicate AllClean(s: State) {
    forall w: nat :: w < |s.procs| && !s.procs[w].pc.Waiting? ==> w in s.clean
  }

  lemma StaysAllClean(s: State, a: Action)
    requires InStep(s) && !Stray(s) && AllClean(s) && Enabled(s, a)
    ensures AllClean(Next(s, a))
  {
    hide Passes, OwnCall, SentInOrder;
  }

  /** In a run in which nothing was ever given up on, everyone who got the lock got it clean. */
  lemma {:induction false} FaultFreeIsClean(root: nat, actions: seq<Action>, states: seq<State>, n: nat)
    requires IsRun(root, actions, states) && n < |states|
    requires forall m :: 0 <= m < n ==> Enabled(states[m], actions[m]) && !Abandons(states[m], actions[m])
    ensures AllClean(states[n]) && !Stray(states[n])
  {
    hide AllClean, Stray, Enabled, Next, Safe;
    if n == 0 {
      CleanAtStart(root);
    } else {
      FaultFreeIsClean(root, actions, states, n - 1);
      AlwaysSafe(root, actions, states, n - 1);
      assert Follows(states[n - 1], actions[n - 1], states[n - 1 + 1]);
      SafeIsInStep(states[n - 1]);
      OnlyAbandoningStrays(states[n - 1], actions[n - 1]);
      StaysAllClean(states[n - 1], actions[n - 1]);
    }
  }

  /** So in such a run every proof meets its root. */
  lemma FaultFreeProofs(root: nat, actions: seq<Action>, states: seq<State>, n: nat)
    requires IsRun(root, actions, states) && n < |states|
    requires forall m :: 0 <= m < n ==> Enabled(states[m], actions[m]) && !Abandons(states[m], actions[m])
    ensures var s := states[n];
            && (s.head < |s.jobs| && s.jobs[s.head].call.RelayProof? ==> s.jobs[s.head].call.pin == s.root)
            && (forall i :: |s.results| <= i < |s.txs| && s.txs[i].RelayProof? ==> s.txs[i].pin == s.root)
  {
    FaultFreeIsClean(root, actions, states, n);
    AlwaysSafe(root, actions, states, n);
    ProofsMeetTheirRoot(root, actions, states, n);
    hide IsRun, Stray, Enabled, Abandons, Next;
    EveryoneIsClean(states[n]);
  }

  lemma EveryoneIsClean(s: State)
    requires Safe(s) && AllClean(s)
    ensures s.head < |s.jobs| && s.jobs[s.head].call.RelayProof? ==> s.jobs[s.head].call.w in s.clean
    ensures forall i :: 0 <= i < |s.txs| && s.txs[i].RelayProof? ==> s.txs[i].w in s.clean
  {
    hide ProofsFirst, HolderKnows;
  }

  lemma CleanAtStart(root: nat)
    ensures AllClean(Initial(root)) && !Stray(Initial(root))
  {
  }

  lemma SafeIsInStep(s: State)
    requires Safe(s)
    ensures InStep(s)
  {
  }

  // ---- what a withdrawal's answer means ------------------------------------

  /** A proof in flight belongs to the holder and is the head job's own. */
  ghost predicate BeingSent(s: State, w: nat, i: nat) {
    && w == s.turn && Holding(s) && s.stage == Sent(i)
    && Holder(s).pc.Queued? && Holder(s).pc.call.RelayProof? && Holder(s).pc.job == s.head
  }

  ghost predicate Accounted(s: State) {
    && (forall i: nat :: i < |s.txs| && s.txs[i].RelayProof? ==>
          && s.txs[i].w < |s.procs| && s.txs[i].pin == s.procs[s.txs[i].w].pin
          && (s.procs[s.txs[i].w].pc == Done(s.txs[i].w !in s.lost) || BeingSent(s, s.txs[i].w, i)))
    && (forall i: nat, j: nat :: i < j < |s.txs| && s.txs[i].RelayProof? && s.txs[j].RelayProof? ==>
          s.txs[i].w != s.txs[j].w)
    && (forall w: nat :: w < |s.procs| && s.procs[w].pc == Done(true) ==> RelayProof(w, s.procs[w].pin) in s.txs)
    && (forall w :: w in s.lost ==>
          w < s.turn && w < |s.procs| && s.procs[w].pc == Done(false) && RelayProof(w, s.procs[w].pin) in s.txs)
  }

  lemma KeepsAccounted(s: State, a: Action)
    requires InStep(s) && Accounted(s) && Enabled(s, a)
    ensures Accounted(Next(s, a))
  {
    match a
    case Broadcast => BroadcastAccounted(s);
    case Return => ReturnAccounted(s);
    case LoseResult => LossAccounted(s);
    case Abandon => FailAccounted(s, a);
    case Simulate(ok) => if ok { OtherAccounted(s, a); } else { FailAccounted(s, a); }
    case _ => if MovesHolder(a) { HolderAccounted(s, a); } else { OtherAccounted(s, a); }
  }

  lemma BroadcastAccounted(s: State)
    requires InStep(s) && Accounted(s) && Enabled(s, Broadcast)
    ensures Accounted(Next(s, Broadcast))
  {
    hide OneHolder, Passes;
  }

  lemma ReturnAccounted(s: State)
    requires InStep(s) && Accounted(s) && Enabled(s, Return)
    ensures Accounted(Next(s, Return))
  {
    hide Passes;
  }

  lemma LossAccounted(s: State)
    requires InStep(s) && Accounted(s) && Enabled(s, LoseResult)
    ensures Accounted(Next(s, LoseResult))
  {
    hide Passes;
  }

  lemma FailAccounted(s: State, a: Action)
    requires InStep(s) && Accounted(s) && Enabled(s, a)
    requires a == Abandon || a == Simulate(false)
    ensures Accounted(Next(s, a))
  {
    hide Passes;
  }

  /** Short of success, the holder may be put anywhere. */
  lemma MoveAccounted(s: State, pc: Pc, clean: set<nat>)
    requires InStep(s) && Accounted(s) && Holding(s) && !Holder(s).pc.Queued? && pc != Done(true)
    ensures Accounted(Move(s, pc).(clean := clean)) && Accounted(Move(s, pc).(turn := s.turn + 1, clean := clean))
  {
    hide OneJob, OwnCall, Passes;
  }

  lemma HolderAccounted(s: State, a: Action)
    requires InStep(s) && Accounted(s) && Enabled(s, a) && MovesHolder(a)
    ensures Accounted(Next(s, a))
  {
    var t := Next(s, a);
    assert t.procs == s.procs[s.turn := t.procs[s.turn]];
    MoveAccounted(s, t.procs[s.turn].pc, t.clean);
  }

  lemma OtherAccounted(s: State, a: Action)
    requires InStep(s) && Accounted(s) && Enabled(s, a)
    requires a == Enqueue || a == EnqueueOther || a == Simulate(true) || a.Admit? || a.Execute?
    ensures Accounted(Next(s, a))
  {
    hide OwnCall, Passes;
  }

  lemma {:induction false} AlwaysAccounted(root: nat, actions: seq<Action>, states: seq<State>, n: nat)
    requires IsRun(root, actions, states) && n < |states|
    ensures InStep(states[n]) && Accounted(states[n])
  {
    hide InStep, Accounted, Enabled, Next, Safe;
    AlwaysSafe(root, actions, states, n);
    SafeIsInStep(states[n]);
    if n == 0 {
      AccountedAtStart(root);
    } else {
      assert Follows(states[n - 1], actions[n - 1], states[n - 1 + 1]);
      AlwaysAccounted(root, actions, states, n - 1);
      KeepsAccounted(states[n - 1], actions[n - 1]);
    }
  }

  lemma AccountedAtStart(root: nat)
    ensures Accounted(Initial(root))
  {
  }

  ghost predicate SentFor(s: State, w: nat, i: nat) {
    i < |s.txs| && s.txs[i].RelayProof? && s.txs[i].w == w
  }

  /** Success with exactly one relay transaction, carrying its own pin; or failure with none. */
  ghost predicate TrueAnswer(s: State, w: nat)
    requires w < |s.procs| && s.procs[w].pc.Done?
  {
    && (s.procs[w].pc.ok <==> exists i: nat :: SentFor(s, w, i))
    && (forall i: nat :: SentFor(s, w, i) ==> s.txs[i].pin == s.procs[w].pin)
    && (forall i: nat, j: nat :: SentFor(s, w, i) && SentFor(s, w, j) ==> i == j)
  }

  /**
   * A withdrawal's answer is what became of its proof exactly when that proof's own broadcast was not
   * lost before it returned, whatever happened to anyone else's.
   */
  lemma AnswersAreTrue(root: nat, actions: seq<Action>, states: seq<State>, n: nat, w: nat)
    requires IsRun(root, actions, states) && n < |states|
    requires w < |states[n].procs| && states[n].procs[w].pc.Done?
    ensures TrueAnswer(states[n], w) <==> w !in states[n].lost
  {
    AlwaysAccounted(root, actions, states, n);
    hide IsRun;
    var s := states[n];
    if s.procs[w].pc.ok || w in s.lost {
      var i :| 0 <= i < |s.txs| && s.txs[i] == RelayProof(w, s.procs[w].pin);
      assert SentFor(s, w, i);
    }
  }

  /** The head job's proof is broadcast and its result never comes back. */
  ghost predicate ProofLost(actions: seq<Action>, states: seq<State>, m: nat, w: nat)
    requires m < |actions| <= |states|
  {
    && actions[m] == LoseResult && states[m].head < |states[m].jobs|
    && states[m].jobs[states[m].head].call.RelayProof? && states[m].jobs[states[m].head].call.w == w
  }

  lemma LostStep(s: State, a: Action, w: nat)
    requires Enabled(s, a)
    ensures w in Next(s, a).lost <==>
            w in s.lost || (a == LoseResult && s.jobs[s.head].call.RelayProof? && s.jobs[s.head].call.w == w)
  {
    hide NoRootPending;
  }

  lemma {:induction false} LostMeans(root: nat, actions: seq<Action>, states: seq<State>, n: nat, w: nat)
    requires IsRun(root, actions, states) && n < |states|
    ensures w in states[n].lost <==> exists m :: 0 <= m < n && ProofLost(actions, states, m, w)
  {
    if n > 0 {
      LostMeans(root, actions, states, n - 1, w);
      assert Follows(states[n - 1], actions[n - 1], states[n - 1 + 1]);
      LostStep(states[n - 1], actions[n - 1], w);
      hide Next;
      if w in states[n].lost && w !in states[n - 1].lost {
        assert ProofLost(actions, states, n - 1, w);
      }
    }
  }

  // ---- when a withdrawal succeeds ------------------------------------------

  /** The step at which withdrawal `w` itself fails: something it waits for goes wrong. */
  ghost predicate FailsAt(s: State, a: Action, w: nat) {
    && Holding(s) && s.turn == w
    && (|| a == ReadFails || a == Refuse || a == Timeout
        || ((a == Simulate(false) || a == Abandon || a == LoseResult)
            && s.head < |s.jobs| && s.jobs[s.head].owner == Some(w))
        || (a == Receipt && Holder(s).pc.Awaiting? && Holder(s).pc.tx < |s.results| && !s.results[Holder(s).pc.tx]))
  }

  /** The step at which it succeeds: the hash of its own relay comes back. */
  ghost predicate SucceedsAt(s: State, a: Action, w: nat) {
    && Holding(s) && s.turn == w && a == Return
    && s.head < |s.jobs| && s.jobs[s.head].owner == Some(w) && s.jobs[s.head].call == RelayProof(w, Holder(s).pin)
  }

  ghost predicate EndedWith(s: State, w: nat, ok: bool) {
    w < |s.procs| && s.procs[w].pc == Done(ok)
  }

  lemma EndingStep(s: State, a: Action, w: nat)
    requires InStep(s) && Enabled(s, a)
    ensures EndedWith(Next(s, a), w, false) <==> EndedWith(s, w, false) || FailsAt(s, a, w)
    ensures EndedWith(Next(s, a), w, true) <==> EndedWith(s, w, true) || SucceedsAt(s, a, w)
  {
    if EndsHead(a) { HeadEnding(s, a, w); } else { OtherEnding(s, a, w); }
  }

  lemma HeadEnding(s: State, a: Action, w: nat)
    requires InStep(s) && Enabled(s, a) && EndsHead(a)
    ensures EndedWith(Next(s, a), w, false) <==> EndedWith(s, w, false) || FailsAt(s, a, w)
    ensures EndedWith(Next(s, a), w, true) <==> EndedWith(s, w, true) || SucceedsAt(s, a, w)
  {
    hide SentInOrder, Passes;
  }

  lemma OtherEnding(s: State, a: Action, w: nat)
    requires InStep(s) && Enabled(s, a) && !EndsHead(a)
    ensures EndedWith(Next(s, a), w, false) <==> EndedWith(s, w, false) || FailsAt(s, a, w)
    ensures EndedWith(Next(s, a), w, true) <==> EndedWith(s, w, true) || SucceedsAt(s, a, w)
  {
    hide SentInOrder, Passes, OneJob, OwnCall;
  }

  /**
   * A withdrawal ends badly exactly when a step of its own failed: the read, the daily cap, the wait
   * for its receipt, a reverted receipt, or one of its own jobs. It ends well exactly when the hash of
   * its relay came back. Nothing anyone else does ends it either way.
   */
  lemma {:induction false} EndsAsItsStepsDo(root: nat, actions: seq<Action>, states: seq<State>, n: nat, w: nat)
    requires IsRun(root, actions, states) && n < |states|
    ensures EndedWith(states[n], w, false) <==> exists m :: 0 <= m < n && FailsAt(states[m], actions[m], w)
    ensures EndedWith(states[n], w, true) <==> exists m :: 0 <= m < n && SucceedsAt(states[m], actions[m], w)
  {
    hide Enabled, Next, InStep, Safe, EndedWith, FailsAt, SucceedsAt;
    if n == 0 {
      NobodyEnded(root, w);
    } else {
      var s, a := states[n - 1], actions[n - 1];
      EndsAsItsStepsDo(root, actions, states, n - 1, w);
      assert Follows(s, a, states[n - 1 + 1]);
      AlwaysSafe(root, actions, states, n - 1);
      SafeIsInStep(s);
      EndingStep(s, a, w);
    }
  }

  lemma NobodyEnded(root: nat, w: nat)
    ensures !EndedWith(Initial(root), w, false) && !EndedWith(Initial(root), w, true)
  {
  }

  /** The roots the callers asked for, in the order they were admitted. */
  function AdmittedPins(actions: seq<Action>): seq<nat>
    decreases |actions|
  {
    if actions == [] then []
    else
      var n := |actions| - 1;
      AdmittedPins(actions[..n]) + if actions[n].Admit? then [actions[n].pin] else []
  }

  ghost predicate HoldsPins(s: State, pins: seq<nat>) {
    |s.procs| == |pins| && forall w :: 0 <= w < |pins| ==> s.procs[w].pin == pins[w]
  }

  lemma PinStep(s: State, a: Action, pins: seq<nat>)
    requires Enabled(s, a) && HoldsPins(s, pins)
    ensures HoldsPins(Next(s, a), pins + if a.Admit? then [a.pin] else [])
  {
    hide Passes, NoRootPending;
  }

  /** Each withdrawal works for the root its caller proved against. */
  lemma {:induction false} PinsAreTheCallers(root: nat, actions: seq<Action>, states: seq<State>, n: nat)
    requires IsRun(root, actions, states) && n < |states|
    ensures HoldsPins(states[n], AdmittedPins(actions[..n]))
  {
    if n > 0 {
      PinsAreTheCallers(root, actions, states, n - 1);
      hide Enabled, Next, HoldsPins;
      assert Follows(states[n - 1], actions[n - 1], states[n - 1 + 1]);
      assert actions[..n][..n - 1] == actions[..n - 1];
      PinStep(states[n - 1], actions[n - 1], AdmittedPins(actions[..n - 1]));
    }
  }

  // ---- what a failed withdrawal may have cost ------------------------------

  /** A transaction publishing `w`'s root has been broadcast. */
  ghost predicate PaidForRoot(s: State, w: nat) {
    exists i :: 0 <= i < |s.txs| && s.txs[i].UpdateRoot? && s.txs[i].w == w
  }

  ghost predicate FoundOther(actions: seq<Action>, states: seq<State>, m: nat, w: nat)
    requires m < |actions| <= |states|
  {
    actions[m] == Read && states[m].turn == w && Holding(states[m]) && states[m].root != Holder(states[m]).pin
  }

  ghost predicate RootBroadcast(actions: seq<Action>, states: seq<State>, m: nat, w: nat)
    requires m < |actions| <= |states|
  {
    && actions[m] == Broadcast && states[m].head < |states[m].jobs|
    && states[m].jobs[states[m].head].call.UpdateRoot? && states[m].jobs[states[m].head].call.w == w
  }

  ghost predicate IsPublishing(s: State, w: nat) {
    Holding(s) && s.turn == w && Publishing(Holder(s).pc)
  }

  lemma PublishingStep(s: State, a: Action, w: nat)
    requires InStep(s) && Enabled(s, a) && IsPublishing(Next(s, a), w)
    ensures s.turn == w && Holding(s)
    ensures IsPublishing(s, w) || (a == Read && s.root != Holder(s).pin)
  {
    hide SentInOrder, Passes, OwnCall;
  }

  lemma {:induction false} PublishingFound(root: nat, actions: seq<Action>, states: seq<State>, n: nat, w: nat) returns (m: nat)
    requires IsRun(root, actions, states) && n < |states| && IsPublishing(states[n], w)
    ensures m < n && FoundOther(actions, states, m, w)
  {
    hide Enabled, Next, Safe, InStep;
    if n > 0 {
      assert Follows(states[n - 1], actions[n - 1], states[n - 1 + 1]);
      AlwaysSafe(root, actions, states, n - 1);
      SafeIsInStep(states[n - 1]);
      PublishingStep(states[n - 1], actions[n - 1], w);
      if IsPublishing(states[n - 1], w) {
        m := PublishingFound(root, actions, states, n - 1, w);
      } else {
        m := n - 1;
      }
    }
  }

  lemma PaymentStep(s: State, a: Action, w: nat)
    requires InStep(s) && Enabled(s, a)
    ensures PaidForRoot(s, w) ==> PaidForRoot(Next(s, a), w)
    ensures PaidForRoot(Next(s, a), w) && !PaidForRoot(s, w) ==>
              && a == Broadcast && s.jobs[s.head].call.UpdateRoot? && s.jobs[s.head].call.w == w && IsPublishing(s, w)
    ensures a == Broadcast && s.jobs[s.head].call.UpdateRoot? && s.jobs[s.head].call.w == w ==> PaidForRoot(Next(s, a), w)
  {
    hide OneHolder, Passes;
    var t := Next(s, a);
    if a == Broadcast {
      assert t.txs[|s.txs|] == s.jobs[s.head].call;
      assert forall i :: 0 <= i < |s.txs| ==> t.txs[i] == s.txs[i];
    } else {
      assert t.txs == s.txs;
    }
  }

  /**
   * A withdrawal has paid for a root exactly when its read found another one on chain and the job that
   * followed was broadcast; whatever it is answered.
   */
  lemma {:induction false} RootPaidForIff(root: nat, actions: seq<Action>, states: seq<State>, n: nat, w: nat)
    requires IsRun(root, actions, states) && n < |states|
    ensures PaidForRoot(states[n], w) <==>
            exists m, r :: 0 <= m < r < n && FoundOther(actions, states, m, w) && RootBroadcast(actions, states, r, w)
  {
    hide Enabled, Next, Safe, InStep, PaidForRoot;
    if n == 0 {
      NothingPaid(root, w);
    } else {
      var s, a := states[n - 1], actions[n - 1];
      RootPaidForIff(root, actions, states, n - 1, w);
      assert Follows(s, a, states[n - 1 + 1]);
      AlwaysSafe(root, actions, states, n - 1);
      SafeIsInStep(s);
      PaymentStep(s, a, w);
      BroadcastNeedsJob(s, a);
      if PaidForRoot(states[n], w) && !PaidForRoot(s, w) {
        var m := PublishingFound(root, actions, states, n - 1, w);
        assert FoundOther(actions, states, m, w) && RootBroadcast(actions, states, n - 1, w);
      }
    }
  }

  lemma NothingPaid(root: nat, w: nat)
    ensures !PaidForRoot(Initial(root), w)
  {
  }

  lemma BroadcastNeedsJob(s: State, a: Action)
    requires Enabled(s, a)
    ensures a == Broadcast ==> s.head < |s.jobs|
  {
  }

  // ---- exactly when a proof may be relayed ---------------------------------

  /** The chain executes `calls` in nonce order with these results. */
  ghost predicate CanExecute(calls: seq<Call>, oks: seq<bool>, root: nat)
    decreases |calls|
  {
    && |oks| == |calls|
    && (calls != [] ==>
          && (oks[0] ==> Passes(calls[0], root))
          && CanExecute(calls[1..], oks[1..], RootAfter(calls[0], oks[0], root)))
  }

  ghost function RootAfterAll(calls: seq<Call>, oks: seq<bool>, root: nat): nat
    requires |oks| == |calls|
    decreases |calls|
  {
    if calls == [] then root else RootAfterAll(calls[1..], oks[1..], RootAfter(calls[0], oks[0], root))
  }

  ghost predicate NoOtherRoot(calls: seq<Call>, pin: nat) {
    forall i :: 0 <= i < |calls| && calls[i].UpdateRoot? ==> calls[i].root == pin
  }

  ghost predicate AlwaysEndsAt(calls: seq<Call>, root: nat, pin: nat) {
    forall oks :: CanExecute(calls, oks, root) ==> RootAfterAll(calls, oks, root) == pin
  }

  /** A schedule under which at most the first call for another root goes through. */
  lemma {:induction false} WorstCase(calls: seq<Call>, root: nat, pin: nat) returns (oks: seq<bool>)
    ensures CanExecute(calls, oks, root)
    ensures RootAfterAll(calls, oks, root) == pin ==> root == pin && NoOtherRoot(calls, pin)
    decreases |calls|
  {
    if calls == [] {
      oks := [];
    } else {
      var first := root == pin && calls[0].UpdateRoot? && calls[0].root != pin;
      var rest := WorstCase(calls[1..], RootAfter(calls[0], first, root), pin);
      oks := [first] + rest;
      assert oks[1..] == rest;
      assert forall i :: 0 < i < |calls| ==> calls[i] == calls[1..][i - 1];
    }
  }

  lemma {:induction false} OnlyThisRoot(calls: seq<Call>, oks: seq<bool>, pin: nat)
    requires CanExecute(calls, oks, pin) && NoOtherRoot(calls, pin)
    ensures RootAfterAll(calls, oks, pin) == pin
    decreases |calls|
  {
    if calls != [] {
      OnlyThisRoot(calls[1..], oks[1..], pin);
    }
  }

  /**
   * A proof broadcast behind `pending` meets its root however those fare exactly when the root is
   * already there and no other root is pending. The code checks the first half; the second is what
   * waiting for every receipt is for.
   */
  lemma SafeToRelayIff(pending: seq<Call>, root: nat, pin: nat)
    ensures AlwaysEndsAt(pending, root, pin) <==> root == pin && NoOtherRoot(pending, pin)
  {
    if root == pin && NoOtherRoot(pending, pin) {
      forall oks | CanExecute(pending, oks, root)
        ensures RootAfterAll(pending, oks, root) == pin
      {
        OnlyThisRoot(pending, oks, pin);
      }
    } else {
      var oks := WorstCase(pending, root, pin);
    }
  }

  /** So of any state in which a proof is about to be broadcast. */
  lemma BroadcastIsSafeIff(s: State)
    requires InStep(s) && Enabled(s, Broadcast) && s.jobs[s.head].call.RelayProof?
    ensures var pin := s.jobs[s.head].call.pin; var pending := s.txs[|s.results|..];
            && Next(s, Broadcast).txs[|s.results|..] == pending + [RelayProof(s.turn, pin)]
            && (AlwaysEndsAt(pending, s.root, pin) <==>
                  s.root == pin && forall i: nat :: Pending(s, i) && s.txs[i].UpdateRoot? ==> s.txs[i].root == pin)
  {
    hide OneHolder, AlwaysEndsAt;
    var pin, pending := s.jobs[s.head].call.pin, s.txs[|s.results|..];
    SafeToRelayIff(pending, s.root, pin);
    assert forall i: nat :: Pending(s, i) ==> s.txs[i] == pending[i - |s.results|];
    assert forall i :: 0 <= i < |pending| ==> pending[i] == s.txs[|s.results| + i] && Pending(s, |s.results| + i);
  }

  // ---- the run that a timed-out receipt allows -----------------------------

  ghost predicate Reachable(s: State) {
    exists actions, states :: IsRun(0, actions, states) && states[|actions|] == s
  }

  lemma Start()
    ensures Reachable(Initial(0))
  {
    assert IsRun(0, [], [Initial(0)]);
  }

  lemma Then(s: State, a: Action)
    requires Reachable(s) && Enabled(s, a)
    ensures Reachable(Next(s, a))
  {
    hide Enabled, Next;
    var actions, states :| IsRun(0, actions, states) && states[|actions|] == s;
    var longer := states + [Next(s, a)];
    forall n | 0 <= n < |actions + [a]|
      ensures Follows(longer[n], (actions + [a])[n], longer[n + 1])
    {
      if n < |actions| { assert Follows(states[n], actions[n], states[n + 1]); }
    }
    assert IsRun(0, actions + [a], longer);
  }

  const PUBLISH_ONE := Job(Some(0), UpdateRoot(0, 1))
  const RELAY_ZERO := Job(Some(1), RelayProof(1, 0))

  const ONE_SENT :=
    State([Proc(1, Awaiting(0)), Proc(0, Waiting)], 0, [PUBLISH_ONE], 1, Idle, [UpdateRoot(0, 1)], [], 0, {0}, {})

  const ZERO_QUEUED :=
    State([Proc(1, Done(false)), Proc(0, Queued(RelayProof(1, 0), 1))], 1, [PUBLISH_ONE, RELAY_ZERO], 1, Idle,
          [UpdateRoot(0, 1)], [], 0, {0}, {})

  lemma FirstGivesUp()
    ensures Reachable(ONE_SENT)
  {
    Start();
    hide Reachable, Passes;
    var s := Initial(0);
    Then(s, Admit(1)); s := Next(s, Admit(1));
    Then(s, Admit(0)); s := Next(s, Admit(0));
    Then(s, Acquire); s := Next(s, Acquire);
    Then(s, Read); s := Next(s, Read);
    assert s == State([Proc(1, Capping(UpdateRoot(0, 1))), Proc(0, Waiting)], 0, [], 0, Idle, [], [], 0, {0}, {});
    SendHead(s);
  }

  lemma SendHead(s: State)
    requires Reachable(s)
    requires s == State([Proc(1, Capping(UpdateRoot(0, 1))), Proc(0, Waiting)], 0, [], 0, Idle, [], [], 0, {0}, {})
    ensures Reachable(ONE_SENT)
  {
    hide Reachable;
    var t := s;
    Then(t, Enqueue); t := Next(t, Enqueue);
    Then(t, Simulate(true)); t := Next(t, Simulate(true));
    Then(t, Broadcast); t := Next(t, Broadcast);
    Then(t, Return); t := Next(t, Return);
    assert t == ONE_SENT;
  }

  lemma SecondIsQueued()
    requires Reachable(ONE_SENT)
    ensures Reachable(ZERO_QUEUED)
  {
    hide Reachable, Passes;
    var t := ONE_SENT;
    Then(t, Timeout); t := Next(t, Timeout);
    assert Pending(t, 0);
    Then(t, Acquire); t := Next(t, Acquire);
    Then(t, Read); t := Next(t, Read);
    Then(t, Enqueue); t := Next(t, Enqueue);
    assert t == ZERO_QUEUED;
  }

  const WRONG_ROOT :=
    State([Proc(1, Done(false)), Proc(0, Done(true))], 2, [PUBLISH_ONE, RELAY_ZERO], 2, Idle,
          [UpdateRoot(0, 1), RelayProof(1, 0)], [true], 1, {0}, {})

  lemma SecondIsSent()
    requires Reachable(ZERO_QUEUED)
    ensures Reachable(WRONG_ROOT)
  {
    hide Reachable;
    var t := ZERO_QUEUED;
    Then(t, Simulate(true)); t := Next(t, Simulate(true));
    Then(t, Broadcast); t := Next(t, Broadcast);
    Then(t, Return); t := Next(t, Return);
    Then(t, Execute(true)); t := Next(t, Execute(true));
    assert t == WRONG_ROOT;
  }

  /**
   * With root 0 on chain, the first withdrawal broadcasts root 1 and gives up waiting for it; the
   * second, built on root 0, reads 0, is simulated against 0 and is broadcast behind the first; then
   * root 1 lands, and the proof for 0 is next.
   */
  lemma StrayRootBreaksIt()
    ensures Reachable(WRONG_ROOT)
    ensures WRONG_ROOT.txs[|WRONG_ROOT.results|] == RelayProof(1, 0) && !Passes(RelayProof(1, 0), WRONG_ROOT.root)
  {
    hide Reachable;
    FirstGivesUp();
    SecondIsQueued();
    SecondIsSent();
  }

  const PAID_AND_FAILED :=
    State([Proc(1, Done(false)), Proc(0, Waiting)], 1, [PUBLISH_ONE], 1, Idle, [UpdateRoot(0, 1)], [], 0, {0}, {})

  /** A withdrawal told that nothing was spent, truthfully as to its proof, after a root was paid for. */
  lemma FailedAfterPaying()
    ensures Reachable(PAID_AND_FAILED)
    ensures PAID_AND_FAILED.procs[0].pc == Done(false) && TrueAnswer(PAID_AND_FAILED, 0) && PaidForRoot(PAID_AND_FAILED, 0)
  {
    FirstGivesUp();
    hide Reachable, Passes;
    Then(ONE_SENT, Timeout);
    assert Next(ONE_SENT, Timeout) == PAID_AND_FAILED;
    assert PAID_AND_FAILED.txs[0].UpdateRoot?;
  }
}
