/** The promise chain behind both the nonce queue and the withdrawal lock. */
module PromiseChain {
  import opened Common

  type Task = nat

  datatype Outcome = Fulfilled(value: int) | Rejected(error: int)

  const UNDEFINED := Fulfilled(0)

  /** What a `then` was given: run a task, ignore the outcome, or (absent) pass the outcome on. */
  datatype Handler = Call(task: Task) | Ignore

  datatype Status = Pending | Running | Settled(outcome: Outcome)

  datatype Promise =
    Promise(parent: nat, onFulfilled: Option<Handler>, onRejected: Option<Handler>, status: Status)

  datatype Event = Started(task: Task) | Ended(task: Task, outcome: Outcome)

  /** Every promise made so far, the one the chain's field holds, and what was seen from outside. */
  datatype State = State(table: seq<Promise>, queue: nat, submitted: seq<Task>, log: seq<Event>)

  /** `Promise.resolve()`. */
  const ROOT := Promise(0, None, None, Settled(UNDEFINED))

  const INITIAL := State([ROOT], 0, [], [])

  /** `run = queue.then(fn, fn); queue = run.then(ignore, ignore)`. */
  function Submit(s: State, task: Task): State {
    var run := Promise(s.queue, Some(Call(task)), Some(Call(task)), Pending);
    var tail := Promise(|s.table|, Some(Ignore), Some(Ignore), Pending);
    State(s.table + [run, tail], |s.table| + 1, s.submitted + [task], s.log)
  }

  /** The service's side: the field is reassigned on every call, the caller keeps `run`. */
  class Chain {
    var table: seq<Promise>
    var queue: nat
    ghost var submitted: seq<Task>
    ghost var log: seq<Event>

    ghost function Value(): State
      reads this
    {
      State(table, queue, submitted, log)
    }

    constructor ()
      ensures Value() == INITIAL
    {
      table, queue, submitted, log := [ROOT], 0, [], [];
    }

    method Then(parent: nat, onFulfilled: Option<Handler>, onRejected: Option<Handler>) returns (p: nat)
      modifies this`table
      ensures p == |old(table)| && table == old(table) + [Promise(parent, onFulfilled, onRejected, Pending)]
    {
      p := |table|;
      table := table + [Promise(parent, onFulfilled, onRejected, Pending)];
    }

    method Enqueue(fn: Task) returns (run: nat)
      modifies this
      ensures run == |old(table)| && Value() == Submit(old(Value()), fn)
    {
      run := Then(queue, Some(Call(fn)), Some(Call(fn)));
      queue := Then(run, Some(Ignore), Some(Ignore));
      submitted := submitted + [fn];
    }
  }

  // ---- the event loop ------------------------------------------------------

  /** A submission, a reaction to a settled parent, or a running task's own end. */
  datatype Step = Enqueue(task: Task) | React(p: nat) | End(p: nat, outcome: Outcome)

  function Reaction(parent: Outcome, p: Promise): Option<Handler> {
    if parent.Fulfilled? then p.onFulfilled else p.onRejected
  }

  ghost predicate Enabled(s: State, step: Step) {
    match step
    case Enqueue(_) => true
    case React(p) =>
      && p < |s.table| && s.table[p].status.Pending?
      && s.table[p].parent < |s.table| && s.table[s.table[p].parent].status.Settled?
    case End(p, _) =>
      && p < |s.table| && s.table[p].status.Running?
      && s.table[p].onFulfilled.Some? && s.table[p].onFulfilled.value.Call?
  }

  ghost function Next(s: State, step: Step): State
    requires Enabled(s, step)
  {
    match step
    case Enqueue(task) => Submit(s, task)
    case React(p) =>
      var parent := s.table[s.table[p].parent].status.outcome;
      (match Reaction(parent, s.table[p])
       case None => s.(table := s.table[p := s.table[p].(status := Settled(parent))])
       case Some(Ignore) => s.(table := s.table[p := s.table[p].(status := Settled(UNDEFINED))])
       case Some(Call(t)) =>
         s.(table := s.table[p := s.table[p].(status := Running)], log := s.log + [Started(t)]))
    case End(p, outcome) =>
      s.(table := s.table[p := s.table[p].(status := Settled(outcome))],
         log := s.log + [Ended(s.table[p].onFulfilled.value.task, outcome)])
  }

  /** `s` is reached by these steps from a fresh chain. */
  ghost predicate Reaches(steps: seq<Step>, s: State)
    decreases |steps|
  {
    if steps == [] then s == INITIAL else
      var front, last := steps[..|steps| - 1], steps[|steps| - 1];
      exists before :: Reaches(front, before) && Enabled(before, last) && s == Next(before, last)
  }

  // ---- what every reachable state looks like -------------------------------

  /** One task after another: start, end with its own outcome, then the next. */
  ghost function Trace(tasks: seq<Task>, outs: seq<Outcome>): seq<Event>
    requires |outs| <= |tasks|
    decreases |outs|
  {
    if outs == [] then [] else
      var n := |outs| - 1;
      Trace(tasks, outs[..n]) + [Started(tasks[n]), Ended(tasks[n], outs[n])]
  }

  ghost predicate Linked(s: State) {
    && |s.table| == 1 + 2 * |s.submitted| && s.queue == 2 * |s.submitted|
    && s.table[0] == ROOT
    && forall p :: 0 < p < |s.table| ==>
         && s.table[p].parent == p - 1 && s.table[p].onFulfilled == s.table[p].onRejected
         && s.table[p].onFulfilled == Some(if p % 2 == 1 then Call(s.submitted[p / 2]) else Ignore)
  }

  /** A single front: settled before it, pending after it; only a task's promise is ever running. */
  ghost predicate OneFront(s: State, k: nat) {
    && 1 <= k <= |s.table|
    && (forall p :: 0 <= p < k ==> s.table[p].status.Settled?)
    && (forall p :: k < p < |s.table| ==> s.table[p].status.Pending?)
    && (k < |s.table| ==> !s.table[k].status.Settled? && (s.table[k].status.Running? ==> k % 2 == 1))
    && (forall p :: 0 <= p < k && p % 2 == 0 ==> s.table[p].status.outcome == UNDEFINED)
  }

  ghost predicate Active(s: State, k: nat) {
    k < |s.table| && s.table[k].status.Running?
  }

  ghost predicate Logged(s: State, k: nat, outs: seq<Outcome>)
    requires Linked(s) && OneFront(s, k)
  {
    && |outs| == k / 2
    && (forall i :: 0 <= i < |outs| ==> s.table[2 * i + 1].status == Settled(outs[i]))
    && s.log == Trace(s.submitted, outs) + (if Active(s, k) then [Started(s.submitted[k / 2])] else [])
  }

  ghost predicate Inv(s: State, k: nat, outs: seq<Outcome>) {
    Linked(s) && OneFront(s, k) && Logged(s, k, outs)
  }

  lemma {:induction false} TraceOfPrefix(tasks: seq<Task>, more: seq<Task>, outs: seq<Outcome>)
    requires |outs| <= |tasks|
    ensures Trace(tasks + more, outs) == Trace(tasks, outs)
    decreases |outs|
  {
    if outs != [] {
      TraceOfPrefix(tasks, more, outs[..|outs| - 1]);
    }
  }

  lemma {:induction false} TraceLength(tasks: seq<Task>, outs: seq<Outcome>)
    requires |outs| <= |tasks|
    ensures |Trace(tasks, outs)| == 2 * |outs|
    decreases |outs|
  {
    if outs != [] { TraceLength(tasks, outs[..|outs| - 1]); }
  }

  lemma {:induction false} TraceAt(tasks: seq<Task>, outs: seq<Outcome>, i: nat)
    requires |outs| <= |tasks| && i < |outs|
    ensures |Trace(tasks, outs)| == 2 * |outs|
    ensures Trace(tasks, outs)[2 * i] == Started(tasks[i])
    ensures Trace(tasks, outs)[2 * i + 1] == Ended(tasks[i], outs[i])
    decreases |outs|
  {
    var n := |outs| - 1;
    TraceLength(tasks, outs);
    TraceLength(tasks, outs[..n]);
    if i < n { TraceAt(tasks, outs[..n], i); }
  }

  lemma SubmitKeeps(s: State, task: Task, k: nat, outs: seq<Outcome>)
    requires Inv(s, k, outs)
    ensures Inv(Submit(s, task), k, outs)
  {
    hide Trace;
    TraceOfPrefix(s.submitted, [task], outs);
  }

  /** Only the front can react; a tail settles as undefined whatever its parent did. */
  lemma ReactKeeps(s: State, p: nat, k: nat, outs: seq<Outcome>)
    requires Inv(s, k, outs) && Enabled(s, React(p))
    ensures p == k
    ensures k % 2 == 0 ==> Inv(Next(s, React(p)), k + 1, outs)
    ensures k % 2 == 1 ==> Inv(Next(s, React(p)), k, outs) && Active(Next(s, React(p)), k)
  {
    hide Trace;
    assert p != 0;
    assert s.table[p - 1].status.Settled?;
  }

  lemma EndKeeps(s: State, p: nat, outcome: Outcome, k: nat, outs: seq<Outcome>)
    requires Inv(s, k, outs) && Enabled(s, End(p, outcome))
    ensures p == k && Inv(Next(s, End(p, outcome)), k + 1, outs + [outcome])
  {
    hide Trace;
    var o, task := outs + [outcome], s.submitted[k / 2];
    TraceGrows(s.submitted, outs, outcome);
    assert s.log + [Ended(task, outcome)] == Trace(s.submitted, outs) + [Started(task), Ended(task, outcome)];
  }

  lemma TraceGrows(tasks: seq<Task>, outs: seq<Outcome>, outcome: Outcome)
    requires |outs| < |tasks|
    ensures Trace(tasks, outs + [outcome])
         == Trace(tasks, outs) + [Started(tasks[|outs|]), Ended(tasks[|outs|], outcome)]
  {
    assert (outs + [outcome])[..|outs|] == outs;
  }

  lemma SubmitIsNext(s: State, task: Task)
    ensures Enabled(s, Enqueue(task)) && Next(s, Enqueue(task)) == Submit(s, task)
  {
  }

  lemma StepKeeps(s: State, step: Step, k: nat, outs: seq<Outcome>) returns (j: nat, o: seq<Outcome>)
    requires Inv(s, k, outs) && Enabled(s, step)
    ensures Inv(Next(s, step), j, o)
  {
    hide Inv, Enabled, Next;
    match step
    case Enqueue(task) =>
      SubmitKeeps(s, task, k, outs);
      SubmitIsNext(s, task);
      j, o := k, outs;
    case React(p) =>
      ReactKeeps(s, p, k, outs);
      j, o := if k % 2 == 0 then k + 1 else k, outs;
    case End(p, outcome) =>
      EndKeeps(s, p, outcome, k, outs);
      j, o := k + 1, outs + [outcome];
  }

  lemma InvAtStart()
    ensures Inv(INITIAL, 1, [])
  {
  }

  /** Every reachable state: each task so far started once, in order, after the one before it ended. */
  lemma {:induction false} InOrderOneAtATime(steps: seq<Step>, s: State) returns (k: nat, outs: seq<Outcome>)
    requires Reaches(steps, s)
    ensures Inv(s, k, outs)
    decreases |steps|
  {
    hide Inv, Enabled, Next;
    if steps == [] {
      k, outs := 1, [];
      InvAtStart();
    } else {
      var front, last := steps[..|steps| - 1], steps[|steps| - 1];
      var before :| Reaches(front, before) && Enabled(before, last) && s == Next(before, last);
      k, outs := InOrderOneAtATime(front, before);
      k, outs := StepKeeps(before, last, k, outs);
    }
  }

  /** Never two at once. */
  lemma OneAtATime(steps: seq<Step>, s: State, p: nat, q: nat)
    requires Reaches(steps, s)
    requires p < |s.table| && q < |s.table| && s.table[p].status.Running? && s.table[q].status.Running?
    ensures p == q
  {
    var k, outs := InOrderOneAtATime(steps, s);
  }

  /**
   * What the i-th caller holds: its promise is settled exactly when its own task has ended, with
   * that task's outcome, and the log shows that task alone between the two events.
   */
  lemma CallersGetTheirOwn(steps: seq<Step>, s: State, i: nat)
    requires Reaches(steps, s) && i < |s.submitted|
    ensures |s.table| == 1 + 2 * |s.submitted|
    ensures s.table[2 * i + 1].status.Settled? <==> 2 * i + 1 < |s.log|
    ensures s.table[2 * i + 1].status.Pending? <==> |s.log| <= 2 * i
    ensures 2 * i < |s.log| ==> s.log[2 * i] == Started(s.submitted[i])
    ensures 2 * i + 1 < |s.log| ==>
              s.log[2 * i + 1] == Ended(s.submitted[i], s.table[2 * i + 1].status.outcome)
  {
    hide Reaches;
    var k, outs := InOrderOneAtATime(steps, s);
    CallerSees(s, k, outs, i);
  }

  lemma CallerSees(s: State, k: nat, outs: seq<Outcome>, i: nat)
    requires Inv(s, k, outs) && i < |s.submitted|
    ensures s.table[2 * i + 1].status.Settled? <==> 2 * i + 1 < |s.log|
    ensures s.table[2 * i + 1].status.Pending? <==> |s.log| <= 2 * i
    ensures 2 * i < |s.log| ==> s.log[2 * i] == Started(s.submitted[i])
    ensures 2 * i + 1 < |s.log| ==>
              s.log[2 * i + 1] == Ended(s.submitted[i], s.table[2 * i + 1].status.outcome)
  {
    TraceLength(s.submitted, outs);
    if i < |outs| { TraceAt(s.submitted, outs, i); }
    hide Trace;
    assert i < |outs| <==> 2 * i + 1 < k;
    assert i == |outs| ==> 2 * i + 1 == k || 2 * i == k;
    assert i < |outs| ==> s.table[2 * i + 1].status == Settled(outs[i]);
    assert i > |outs| ==> s.table[2 * i + 1].status.Pending?;
  }

  /** A task's failure reaches its own caller and nobody else: what the chain holds is never rejected. */
  lemma FailuresDoNotPoison(steps: seq<Step>, s: State)
    requires Reaches(steps, s)
    ensures s.queue < |s.table|
    ensures s.table[s.queue].status.Settled? ==> s.table[s.queue].status.outcome == UNDEFINED
    ensures forall p :: 0 < p < |s.table| && s.table[p].status.Settled? && s.table[p].status.outcome.Rejected? ==> p % 2 == 1
  {
    hide Reaches, Logged;
    var k, outs := InOrderOneAtATime(steps, s);
    forall p | 0 < p < |s.table| && p % 2 == 0 && s.table[p].status.Settled?
      ensures s.table[p].status.outcome == UNDEFINED
    {
      assert p < k;
    }
  }

  // ---- nothing is left behind ----------------------------------------------

  /** Reactions and ends still to come before everything submitted so far is settled. */
  ghost function Remaining(s: State, k: nat): nat
    requires Linked(s) && OneFront(s, k)
  {
    if k % 2 == 1 then 3 * (|s.submitted| - k / 2) - (if Active(s, k) then 1 else 0)
    else 1 + 3 * (|s.submitted| - k / 2)
  }

  /**
   * While a task is unsettled exactly one promise can move, and every step other than a submission
   * brings the end one step nearer; at zero every caller has its answer.
   */
  lemma EveryTaskIsReached(s: State, k: nat, outs: seq<Outcome>)
    requires Inv(s, k, outs)
    ensures Remaining(s, k) == 0 <==> k == |s.table|
    ensures k < |s.table| && !Active(s, k) ==> Enabled(s, React(k))
    ensures forall outcome :: Active(s, k) ==> Enabled(s, End(k, outcome))
    ensures forall p :: Enabled(s, React(p)) ==>
              p == k && exists j, o :: Inv(Next(s, React(p)), j, o) && Remaining(Next(s, React(p)), j) == Remaining(s, k) - 1
    ensures forall p, outcome :: Enabled(s, End(p, outcome)) ==>
              p == k && exists j, o :: Inv(Next(s, End(p, outcome)), j, o) && Remaining(Next(s, End(p, outcome)), j) == Remaining(s, k) - 1
  {
    hide Logged, Trace;
    forall p | Enabled(s, React(p))
      ensures p == k && exists j, o :: Inv(Next(s, React(p)), j, o) && Remaining(Next(s, React(p)), j) == Remaining(s, k) - 1
    {
      ReactKeeps(s, p, k, outs);
      var j := if k % 2 == 0 then k + 1 else k;
      assert Inv(Next(s, React(p)), j, outs);
    }
    forall p, outcome | Enabled(s, End(p, outcome))
      ensures p == k && exists j, o :: Inv(Next(s, End(p, outcome)), j, o) && Remaining(Next(s, End(p, outcome)), j) == Remaining(s, k) - 1
    {
      EndKeeps(s, p, outcome, k, outs);
      assert Inv(Next(s, End(p, outcome)), k + 1, outs + [outcome]);
    }
  }

  // ---- a first-in first-out queue is all anyone can see --------------------

  datatype Fifo = Fifo(waiting: seq<Task>, busy: bool)

  ghost function Seen(s: State, k: nat): Fifo
    requires Linked(s) && OneFront(s, k)
  {
    Fifo(s.submitted[k / 2..], Active(s, k))
  }

  /** Push at the back, start the head, finish the head, or nothing visible. */
  ghost predicate FifoStep(a: Fifo, b: Fifo) {
    || b == a
    || (exists t :: b == a.(waiting := a.waiting + [t]))
    || (!a.busy && a.waiting != [] && b == a.(busy := true))
    || (a.busy && a.waiting != [] && b == Fifo(a.waiting[1..], false))
  }

  lemma PushSeen(s: State, task: Task, k: nat, outs: seq<Outcome>)
    requires Inv(s, k, outs)
    ensures Inv(Next(s, Enqueue(task)), k, outs)
    ensures Seen(Next(s, Enqueue(task)), k) == Seen(s, k).(waiting := Seen(s, k).waiting + [task])
  {
    hide Logged;
    SubmitKeeps(s, task, k, outs);
    SubmitIsNext(s, task);
  }

  lemma ReactSeen(s: State, p: nat, k: nat, outs: seq<Outcome>)
    requires Inv(s, k, outs) && Enabled(s, React(p))
    ensures p == k
    ensures k % 2 == 0 ==>
              Inv(Next(s, React(p)), k + 1, outs) && Seen(Next(s, React(p)), k + 1) == Seen(s, k)
    ensures k % 2 == 1 ==>
              && Inv(Next(s, React(p)), k, outs) && !Seen(s, k).busy && Seen(s, k).waiting != []
              && Seen(Next(s, React(p)), k) == Seen(s, k).(busy := true)
  {
    hide Logged;
    ReactKeeps(s, p, k, outs);
    if k % 2 == 0 {
      assert (k + 1) / 2 == k / 2;
      assert k + 1 < |s.table| ==> s.table[k + 1].status.Pending?;
    }
  }

  lemma EndSeen(s: State, p: nat, outcome: Outcome, k: nat, outs: seq<Outcome>)
    requires Inv(s, k, outs) && Enabled(s, End(p, outcome))
    ensures Inv(Next(s, End(p, outcome)), k + 1, outs + [outcome])
    ensures Seen(s, k).busy && Seen(s, k).waiting != []
    ensures Seen(Next(s, End(p, outcome)), k + 1) == Fifo(Seen(s, k).waiting[1..], false)
  {
    hide Logged;
    EndKeeps(s, p, outcome, k, outs);
    assert (k + 1) / 2 == k / 2 + 1;
    assert s.table[k + 1].status.Pending?;
  }

  /** The chain is a first-in first-out queue of tasks, whatever the tasks do. */
  lemma RefinesFifo(s: State, step: Step, k: nat, outs: seq<Outcome>) returns (j: nat, o: seq<Outcome>)
    requires Inv(s, k, outs) && Enabled(s, step)
    ensures Inv(Next(s, step), j, o) && FifoStep(Seen(s, k), Seen(Next(s, step), j))
  {
    hide Inv, Enabled, Next, Seen;
    match step
    case Enqueue(task) => j, o := k, outs; PushSeen(s, task, k, outs);
    case React(p) =>
      j, o := if k % 2 == 0 then k + 1 else k, outs;
      ReactSeen(s, p, k, outs);
    case End(p, outcome) => j, o := k + 1, outs + [outcome]; EndSeen(s, p, outcome, k, outs);
  }
}
