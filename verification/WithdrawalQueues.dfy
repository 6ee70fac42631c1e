/** The lock and the nonce queue of the withdrawal protocol move only as promise chains can. */
module WithdrawalQueues {
  import opened Common
  import opened Withdrawal
  import P = PromiseChain

  function From(lo: nat, hi: nat): seq<nat> {
    if lo < hi then seq(hi - lo, i requires 0 <= i < hi - lo => lo + i) else []
  }

  /** Withdrawals still in the lock's chain, and whether the first of them is under way. */
  function Lock(s: State): P.Fifo {
    P.Fifo(From(s.turn, |s.procs|), Holding(s) && !Holder(s).pc.Waiting?)
  }

  /** Jobs still in the nonce queue, and whether the first of them has got past its simulation. */
  function Queue(s: State): P.Fifo {
    P.Fifo(From(s.head, |s.jobs|), !s.stage.Idle?)
  }

  lemma FromStep(lo: nat, hi: nat)
    requires lo <= hi
    ensures From(lo, hi + 1) == From(lo, hi) + [hi]
    ensures lo < hi ==> From(lo, hi) != [] && From(lo, hi)[1..] == From(lo + 1, hi)
  {
  }

  lemma Pushes(a: P.Fifo, b: P.Fifo, t: nat)
    requires b == a.(waiting := a.waiting + [t])
    ensures P.FifoStep(a, b)
  {
  }

  lemma Starts(a: P.Fifo, b: P.Fifo)
    requires a.waiting != [] && !a.busy && b == a.(busy := true)
    ensures P.FifoStep(a, b)
  {
  }

  lemma Finishes(a: P.Fifo, b: P.Fifo)
    requires a.waiting != [] && a.busy && b == P.Fifo(a.waiting[1..], false)
    ensures P.FifoStep(a, b)
  {
  }

  lemma Stays(a: P.Fifo)
    ensures P.FifoStep(a, a)
  {
  }

  /** Each action pushes on the lock, starts its head, finishes its head, or leaves it alone. */
  lemma LockIsAChain(s: State, a: Action)
    requires InStep(s) && Enabled(s, a)
    ensures P.FifoStep(Lock(s), Lock(Next(s, a)))
  {
    hide From, P.FifoStep, OwnCall, SentInOrder, Passes;
    FromStep(s.turn, |s.procs|);
    var before, after := Lock(s), Lock(Next(s, a));
    if a.Admit? {
      Pushes(before, after, |s.procs|);
    } else if a == Acquire {
      Starts(before, after);
    } else if Next(s, a).turn == s.turn {
      assert before == after;
      Stays(before);
    } else {
      assert after.waiting == before.waiting[1..] && before.busy && !after.busy;
      Finishes(before, after);
    }
  }

  /** Likewise the queue; a job whose simulation fails starts and finishes in one action. */
  lemma QueueIsAChain(s: State, a: Action)
    requires InStep(s) && Enabled(s, a)
    ensures P.FifoStep(Queue(s), Queue(Next(s, a))) ||
            (a == Simulate(false) && exists mid :: P.FifoStep(Queue(s), mid) && P.FifoStep(mid, Queue(Next(s, a))))
  {
    hide From, P.FifoStep, OwnCall, SentInOrder, OneHolder, Passes, NoRootPending;
    FromStep(s.head, |s.jobs|);
    var before, after := Queue(s), Queue(Next(s, a));
    if a == Enqueue || a == EnqueueOther {
      Pushes(before, after, |s.jobs|);
    } else if a == Simulate(true) {
      Starts(before, after);
    } else if a == Simulate(false) {
      var mid := before.(busy := true);
      Starts(before, mid);
      Finishes(mid, after);
    } else if EndsHead(a) {
      Finishes(before, after);
    } else {
      assert before == after;
      Stays(before);
    }
  }
}
