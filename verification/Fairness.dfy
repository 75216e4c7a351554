/** Infinite runs under a fair scheduler and a fair mutex: a stopped loop ends, and a waiter with records wakes up. */
module Fairness {
  import opened Records
  import opened MicroLogger
  import opened Liveness

  /** An infinite run: the state before each step, and the step. */
  datatype Run = Run(state: nat -> State, step: nat -> Label)

  ghost predicate Follows(cfg: Config, run: Run, n: nat) {
    run.state(n + 1) == Step(cfg, run.state(n), run.step(n))
  }

  ghost predicate IsRun(cfg: Config, run: Run) {
    Reachable(cfg, run.state(0)) && forall n: nat :: Follows(cfg, run, n)
  }

  ghost predicate ConsumerMoves(run: Run, m: nat) {
    run.step(m).Consumer? && Enabled(run.state(m), run.step(m))
  }

  ghost predicate ConsumerMovesFrom(run: Run, n: nat) {
    exists m: nat | n <= m :: ConsumerMoves(run, m)
  }

  ghost predicate ConsumerReadyFrom(run: Run, n: nat) {
    exists m: nat | n <= m :: Enabled(run.state(m), Consumer(true))
  }

  ghost predicate ProducerMovesOrRests(run: Run, p: nat, n: nat) {
    exists m: nat | n <= m :: run.step(m) == Producer(p) || !Enabled(run.state(m), Producer(p))
  }

  ghost predicate StopperMovesOrRests(run: Run, n: nat) {
    exists m: nat | n <= m :: run.step(m) == Stopper || !run.state(m).stopping
  }

  /**
   * A producer that can move from some point on moves, logger_stop completes, and a consumer that can move again and
   * again moves, that is, the lock is not withheld from it for ever.
   */
  ghost predicate Fair(run: Run) {
    && (forall p: nat, n: nat :: ProducerMovesOrRests(run, p, n))
    && (forall n: nat :: StopperMovesOrRests(run, n))
    && ((forall n: nat :: ConsumerReadyFrom(run, n)) ==> forall n: nat :: ConsumerMovesFrom(run, n))
  }

  lemma {:induction false} RunInv(cfg: Config, run: Run, n: nat)
    requires IsRun(cfg, run)
    ensures Inv(cfg, run.state(n))
  {
    if n == 0 {
      ReachableInv(cfg, run.state(0));
    } else {
      RunInv(cfg, run, n - 1);
      assert Follows(cfg, run, n - 1);
      StepInv(cfg, run.state(n - 1), run.step(n - 1));
    }
  }

  // ---- While the consumer does not move ----

  /** The consumer does not move from step n up to step k. */
  ghost predicate Rests(run: Run, n: nat, k: nat) {
    forall i: nat | n <= i < k :: !ConsumerMoves(run, i)
  }

  /** What the other threads keep while the consumer is somewhere in logger_start. */
  ghost predicate Keeps(s: State, t: State) {
    && t.consumer == s.consumer && t.tokens >= s.tokens
    && |t.producers| == |s.producers|
    && (s.status.Idle? ==> t.status.Idle?)
    && (s.ring.occup > 0 ==> t.ring.occup > 0)
  }

  lemma OtherStep(cfg: Config, s: State, l: Label)
    requires Inv(cfg, s) && !s.consumer.CHalted? && !(l.Consumer? && Enabled(s, l))
    ensures Keeps(s, Step(cfg, s, l))
  {
    StepInv(cfg, s, l);
  }

  lemma {:induction false} StillThere(cfg: Config, run: Run, n: nat, k: nat)
    requires IsRun(cfg, run) && !run.state(n).consumer.CHalted? && n <= k && Rests(run, n, k)
    ensures Keeps(run.state(n), run.state(k))
    decreases k
  {
    if n < k {
      StillThere(cfg, run, n, k - 1);
      RunInv(cfg, run, k - 1);
      assert !ConsumerMoves(run, k - 1) && Follows(cfg, run, k - 1);
      OtherStep(cfg, run.state(k - 1), run.step(k - 1));
    }
  }

  /** The first step of the consumer from n on. */
  lemma FirstMove(run: Run, n: nat) returns (m: nat)
    requires ConsumerMovesFrom(run, n)
    ensures n <= m && ConsumerMoves(run, m) && Rests(run, n, m)
  {
    var last: nat :| n <= last && ConsumerMoves(run, last);
    m := n;
    while !ConsumerMoves(run, m)
      invariant n <= m <= last
      invariant Rests(run, n, m)
      decreases last - m
    {
      m := m + 1;
    }
  }

  // ---- Producers under way get on ----

  /** Past its lock and before its return. */
  predicate UnderWay(pc: ProducerPc) {
    Critical(pc) || pc.PSignal?
  }

  ghost predicate At(s: State, p: nat, pc: ProducerPc) {
    p < |s.producers| && s.producers[p] == pc
  }

  lemma OtherProducerStep(cfg: Config, s: State, l: Label, p: nat, pc: ProducerPc)
    requires At(s, p, pc) && UnderWay(pc) && l != Producer(p)
    ensures At(Step(cfg, s, l), p, pc)
  {
  }

  lemma {:induction false} ProducerStays(cfg: Config, run: Run, p: nat, pc: ProducerPc, n: nat, k: nat)
    requires IsRun(cfg, run) && At(run.state(n), p, pc) && UnderWay(pc) && n <= k
    requires forall i: nat | n <= i < k :: run.step(i) != Producer(p)
    ensures At(run.state(k), p, pc)
    decreases k
  {
    if n < k {
      ProducerStays(cfg, run, p, pc, n, k - 1);
      assert run.step(k - 1) != Producer(p) && Follows(cfg, run, k - 1);
      OtherProducerStep(cfg, run.state(k - 1), run.step(k - 1), p, pc);
    }
  }

  lemma UnderWayEnabled(s: State, p: nat, pc: ProducerPc)
    requires At(s, p, pc) && UnderWay(pc)
    ensures Enabled(s, Producer(p))
  {
  }

  /** A producer under way takes its next step at some time m. */
  lemma ProducerMoves(cfg: Config, run: Run, p: nat, pc: ProducerPc, n: nat) returns (m: nat)
    requires IsRun(cfg, run) && Fair(run) && At(run.state(n), p, pc) && UnderWay(pc)
    ensures n <= m && run.step(m) == Producer(p) && At(run.state(m), p, pc)
  {
    assert ProducerMovesOrRests(run, p, n);
    var last: nat :| n <= last && (run.step(last) == Producer(p) || !Enabled(run.state(last), Producer(p)));
    m := n;
    while m < last && run.step(m) != Producer(p)
      invariant n <= m <= last
      invariant forall i: nat | n <= i < m :: run.step(i) != Producer(p)
    {
      m := m + 1;
    }
    ProducerStays(cfg, run, p, pc, n, m);
    UnderWayEnabled(run.state(m), p, pc);
  }

  // ---- The lock comes free ----

  /** The consumer waits for the lock that producer p holds, at this point of its push. */
  ghost predicate Held(s: State, p: nat, pc: ProducerPc) {
    s.owner == ByProducer(p) && At(s, p, pc) && Critical(pc)
  }

  lemma LockState(cfg: Config, s: State)
    requires Inv(cfg, s) && s.consumer.CLock?
    ensures s.owner == Free || (s.owner.ByProducer? && s.owner.p < |s.producers|
      && Held(s, s.owner.p, s.producers[s.owner.p]))
  {
    if s.owner.ByProducer? {
      assert Critical(s.producers[s.owner.p]);
    }
  }

  lemma StillHeld(cfg: Config, s: State, p: nat, pc: ProducerPc)
    requires Inv(cfg, s) && At(s, p, pc) && Critical(pc)
    ensures Held(s, p, pc) && (pc.PUnlock? || HolderRank(s) >= 2)
  {
    assert s.owner == ByProducer(p);
  }

  lemma HolderStep(cfg: Config, s: State, p: nat, pc: ProducerPc)
    requires Held(s, p, pc)
    ensures var s' := Step(cfg, s, Producer(p));
      s'.owner == Free || (s'.owner == ByProducer(p) && HolderRank(s') < HolderRank(s))
  {
  }

  lemma RankOfHolder(s: State, t: State, p: nat, pc: ProducerPc)
    requires Held(s, p, pc) && Held(t, p, pc)
    ensures HolderRank(s) == HolderRank(t)
  {
  }

  lemma {:induction false} LockComesFree(cfg: Config, run: Run, n: nat) returns (m: nat)
    requires IsRun(cfg, run) && Fair(run) && run.state(n).consumer.CLock?
    requires forall k: nat | n <= k :: !ConsumerMoves(run, k)
    ensures n <= m && Enabled(run.state(m), Consumer(true))
    decreases HolderRank(run.state(n))
  {
    RunInv(cfg, run, n);
    LockState(cfg, run.state(n));
    m := n;
    if run.state(n).owner.ByProducer? {
      var p := run.state(n).owner.p;
      var pc := run.state(n).producers[p];
      m := ProducerMoves(cfg, run, p, pc, n);
      RunInv(cfg, run, m);
      StillHeld(cfg, run.state(m), p, pc);
      RankOfHolder(run.state(n), run.state(m), p, pc);
      HolderStep(cfg, run.state(m), p, pc);
      assert Follows(cfg, run, m);
      StillThere(cfg, run, n, m + 1);
      m := LockComesFreeFrom(cfg, run, n, m + 1);
    }
  }

  lemma {:induction false} LockComesFreeFrom(cfg: Config, run: Run, before: nat, n: nat) returns (m: nat)
    requires IsRun(cfg, run) && Fair(run) && run.state(n).consumer.CLock? && before <= n
    requires forall k: nat | before <= k :: !ConsumerMoves(run, k)
    requires run.state(n).owner == Free || HolderRank(run.state(n)) < HolderRank(run.state(before))
    ensures n <= m && Enabled(run.state(m), Consumer(true))
    decreases HolderRank(run.state(before)), 0
  {
    if run.state(n).owner == Free {
      m := n;
    } else {
      m := LockComesFree(cfg, run, n);
    }
  }

  // ---- The tokens arrive ----

  lemma StopStep(cfg: Config, s: State)
    requires Inv(cfg, s) && s.consumer.CWait? && s.status.Idle? && s.tokens == 0
    ensures s.stopping && Step(cfg, s, Stopper).tokens > 0
  {
  }

  lemma StopTokenArrives(cfg: Config, run: Run, n: nat) returns (m: nat)
    requires IsRun(cfg, run) && Fair(run) && run.state(n).consumer.CWait? && run.state(n).status.Idle?
    requires forall k: nat | n <= k :: !ConsumerMoves(run, k)
    ensures n <= m && Enabled(run.state(m), Consumer(true))
  {
    assert StopperMovesOrRests(run, n);
    m :| n <= m && (run.step(m) == Stopper || !run.state(m).stopping);
    StillThere(cfg, run, n, m);
    if run.state(m).tokens == 0 {
      RunInv(cfg, run, m);
      StopStep(cfg, run.state(m));
      assert Follows(cfg, run, m);
      StillThere(cfg, run, n, m + 1);
      m := m + 1;
    }
  }

  lemma SignalStep(cfg: Config, s: State, p: nat, pc: ProducerPc)
    requires cfg.Valid() && At(s, p, pc) && Owes(pc)
    ensures var s' := Step(cfg, s, Producer(p));
      if pc.PSignal? then s'.tokens > 0 else At(s', p, PSignal)
  {
  }

  lemma SignalArrives(cfg: Config, run: Run, p: nat, n: nat) returns (m: nat)
    requires IsRun(cfg, run) && Fair(run) && run.state(n).consumer.CWait? && At(run.state(n), p, PSignal)
    requires forall k: nat | n <= k :: !ConsumerMoves(run, k)
    ensures n <= m && Enabled(run.state(m), Consumer(true))
  {
    m := ProducerMoves(cfg, run, p, PSignal, n);
    RunInv(cfg, run, m);
    SignalStep(cfg, run.state(m), p, PSignal);
    assert Follows(cfg, run, m);
    StillThere(cfg, run, n, m + 1);
    m := m + 1;
  }

  lemma OwedTokenArrives(cfg: Config, run: Run, p: nat, pc: ProducerPc, n: nat) returns (m: nat)
    requires IsRun(cfg, run) && Fair(run) && run.state(n).consumer.CWait? && At(run.state(n), p, pc) && Owes(pc)
    requires forall k: nat | n <= k :: !ConsumerMoves(run, k)
    ensures n <= m && Enabled(run.state(m), Consumer(true))
  {
    if pc.PSignal? {
      m := SignalArrives(cfg, run, p, n);
    } else {
      m := ProducerMoves(cfg, run, p, pc, n);
      RunInv(cfg, run, m);
      SignalStep(cfg, run.state(m), p, pc);
      assert Follows(cfg, run, m);
      StillThere(cfg, run, n, m + 1);
      m := SignalArrives(cfg, run, p, m + 1);
    }
  }

  // ---- The consumer moves on ----

  /** A consumer of a stopped logger can move again and again as long as it does not. */
  lemma StoppedReady(cfg: Config, run: Run, n: nat, k: nat)
    requires IsRun(cfg, run) && Fair(run) && run.state(n).status.Idle? && InLoop(run.state(n).consumer)
    requires forall i: nat | n <= i :: !ConsumerMoves(run, i)
    ensures ConsumerReadyFrom(run, k)
  {
    var from := if n < k then k else n;
    StillThere(cfg, run, n, from);
    if run.state(from).consumer.CWait? {
      var m := StopTokenArrives(cfg, run, from);
    } else if run.state(from).consumer.CLock? {
      var m := LockComesFree(cfg, run, from);
    } else {
      assert Enabled(run.state(from), Consumer(true));
    }
  }

  lemma StoppedMoves(cfg: Config, run: Run, n: nat)
    requires IsRun(cfg, run) && Fair(run) && run.state(n).status.Idle? && InLoop(run.state(n).consumer)
    ensures ConsumerMovesFrom(run, n)
  {
    if forall i: nat | n <= i :: !ConsumerMoves(run, i) {
      forall k: nat
        ensures ConsumerReadyFrom(run, k)
      {
        StoppedReady(cfg, run, n, k);
      }
      assert ConsumerMovesFrom(run, n);
    }
  }

  lemma {:induction false} StoppedLoopEnds(cfg: Config, run: Run, n: nat) returns (m: nat)
    requires IsRun(cfg, run) && Fair(run) && Stopped(run.state(n))
    ensures n <= m && run.state(m).consumer.CHalted?
    decreases Rank(run.state(n).consumer)
  {
    if run.state(n).consumer.CHalted? {
      m := n;
    } else {
      StoppedMoves(cfg, run, n);
      m := FirstMove(run, n);
      StillThere(cfg, run, n, m);
      StoppedStep(cfg, run.state(m), run.step(m));
      assert Follows(cfg, run, m);
      m := StoppedLoopEnds(cfg, run, m + 1);
    }
  }

  /** Once stopped, the loop is left in every fair run, however many calls the producers go on making. */
  lemma StopTerminates(cfg: Config, run: Run, n: nat)
    requires IsRun(cfg, run) && Fair(run) && run.state(n).status.Idle? && InLoop(run.state(n).consumer)
    ensures exists m: nat | n <= m :: run.state(m).consumer.CHalted?
  {
    var m := StoppedLoopEnds(cfg, run, n);
  }

  lemma WaiterReady(cfg: Config, run: Run, n: nat, k: nat)
    requires IsRun(cfg, run) && Fair(run) && run.state(n).consumer.CWait? && run.state(n).ring.occup > 0
    requires forall i: nat | n <= i :: !ConsumerMoves(run, i)
    ensures ConsumerReadyFrom(run, k)
  {
    var from := if n < k then k else n;
    StillThere(cfg, run, n, from);
    var t := run.state(from);
    if t.tokens > 0 {
      assert Enabled(t, Consumer(true));
    } else {
      RunInv(cfg, run, from);
      var p :| 0 <= p < |t.producers| && Owes(t.producers[p]);
      var m := OwedTokenArrives(cfg, run, p, t.producers[p], from);
    }
  }

  /** In every fair run a consumer that waits although the ring holds records leaves the wait. */
  lemma WaiterWakes(cfg: Config, run: Run, n: nat)
    requires IsRun(cfg, run) && Fair(run) && run.state(n).consumer.CWait? && run.state(n).ring.occup > 0
    ensures exists m: nat | n <= m :: run.state(m).consumer.CTestStatus?
  {
    if forall i: nat | n <= i :: !ConsumerMoves(run, i) {
      forall k: nat
        ensures ConsumerReadyFrom(run, k)
      {
        WaiterReady(cfg, run, n, k);
      }
      assert ConsumerMovesFrom(run, n);
    }
    var m := FirstMove(run, n);
    StillThere(cfg, run, n, m);
    assert Follows(cfg, run, m);
    assert run.state(m + 1).consumer.CTestStatus?;
  }
}
