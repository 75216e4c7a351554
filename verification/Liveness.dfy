/** What the micro-step logger guarantees at every interleaving: defined behaviour, wake-ups, and a loop that stops. */
module Liveness {
  import opened Sequences
  import opened Records
  import opened Ring
  import opened MicroLogger
  import Atomic = AtomicLogger
  import History
  import Refinement

  ghost predicate Reachable(cfg: Config, s: State) {
    cfg.Valid() && exists s0, schedule :: Initial(cfg, s0) && s == Exec(cfg, s0, schedule)
  }

  lemma ReachableInv(cfg: Config, s: State)
    requires Reachable(cfg, s)
    ensures Inv(cfg, s)
  {
    var s0, schedule :| Initial(cfg, s0) && s == Exec(cfg, s0, schedule);
    InitialInv(cfg, s0);
    ExecInv(cfg, s0, schedule);
  }

  /** An atomic state with the same history stands behind every reachable micro state. */
  lemma ReachableRefines(cfg: Config, s: State) returns (a: Atomic.State)
    requires Reachable(cfg, s)
    ensures History.Reachable(cfg.cap, a) && Refinement.Simulates(cfg, s, a)
  {
    var s0, schedule :| Initial(cfg, s0) && s == Exec(cfg, s0, schedule);
    Refinement.RunsRefine(cfg, s0, schedule);
    a := Atomic.Exec(cfg.cap, Atomic.INITIAL, Refinement.Abstract(cfg, s0, schedule));
  }

  lemma {:induction false} ExecCons(cfg: Config, s: State, l: Label, rest: seq<Label>)
    ensures Exec(cfg, s, [l] + rest) == Exec(cfg, Step(cfg, s, l), rest)
  {
    if rest == [] {
      assert [l] + rest == [l] && [l][..0] == [];
    } else {
      ExecCons(cfg, s, l, rest[..|rest| - 1]);
      assert ([l] + rest)[..|rest|] == [l] + rest[..|rest| - 1];
    }
  }

  // ---- Safety ----

  /** No index leaves the array, no modulus is taken by zero, no counter leaves 0..capacity, no garbage is written. */
  lemma NoUndefinedBehaviour(cfg: Config, s: State, p: nat)
    requires Reachable(cfg, s) && p < |s.producers|
    ensures s.producers[p].PStore? ==> 0 <= s.ring.tail < |s.ring.data|
    ensures s.producers[p].PTail? || s.producers[p].PHead? || s.consumer.CHead? ==> s.ring.size > 0
    ensures s.consumer.CRead? ==> 0 <= s.ring.head < |s.ring.data|
    ensures s.producers[p].POccup? ==> s.ring.occup < s.ring.size
    ensures s.consumer.COccup? ==> s.ring.occup > 0
    ensures !s.trace.garbage
  {
    ReachableInv(cfg, s);
    assert Critical(s.producers[p]) ==> s.owner == ByProducer(p);
  }

  /** At most one thread is between its lock and its unlock. */
  lemma MutualExclusion(cfg: Config, s: State, p: nat, q: nat)
    requires Reachable(cfg, s) && p < |s.producers| && q < |s.producers|
    requires Critical(s.producers[p])
    ensures Critical(s.producers[q]) ==> p == q
    ensures !InPop(s.consumer)
  {
    ReachableInv(cfg, s);
    assert s.owner == ByProducer(p);
  }

  /**
   * Whenever the lock is free and cb_init is not running, the fields are consistent and spell out the queue of an
   * atomic logger with the same history: the last `cap` records pushed in lock order, less those popped or discarded.
   */
  lemma LockFreeRing(cfg: Config, s: State)
    requires Reachable(cfg, s) && s.owner == Free && s.inited && !Initialising(s.consumer)
    ensures s.ring.size == cfg.cap == |s.ring.data| && 0 <= s.ring.head < cfg.cap && 0 <= s.ring.occup <= cfg.cap
    ensures s.ring.tail == (s.ring.head + s.ring.occup) % s.ring.size
    ensures exists a ::
      && History.Reachable(cfg.cap, a) && a.log == s.trace.log && a.written == s.trace.written
      && a.queue == Window(s.ring.data, s.ring.head, s.ring.occup)
  {
    ReachableInv(cfg, s);
    var a := ReachableRefines(cfg, s);
    SlotIsModulo(s.ring.head, s.ring.occup, cfg.cap);
    assert a.queue == Window(s.ring.data, s.ring.head, s.ring.occup);
  }

  /** The emptiness test needs no lock: once it has seen a record, the pop it leads to finds one. */
  lemma EmptinessTestSound(cfg: Config, s: State)
    requires Reachable(cfg, s)
    ensures Committed(s.consumer) ==> s.ring.occup >= 1
    ensures HoldsRecord(s.consumer) ==> s.temp.Some?
  {
    ReachableInv(cfg, s);
  }

  /** In a mid-push on a full ring the fields do break the consistency that holds while the lock is free. */
  lemma MidPushBreaksShape(cfg: Config, s: State, p: nat)
    requires Reachable(cfg, s) && 2 <= cfg.cap && p < |s.producers| && s.producers[p].PHead?
    ensures s.ring.size == cfg.cap && s.ring.tail != (s.ring.head + s.ring.occup) % s.ring.size
  {
    ReachableInv(cfg, s);
    assert s.owner == ByProducer(p);
    SlotIsModulo(s.ring.head, s.ring.occup, cfg.cap);
  }

  // ---- History ----

  /** `numbers` lists, in increasing order, which of the pushed records these writes are. */
  ghost predicate Numbers(numbers: seq<nat>, log: seq<Record>, writes: seq<Atomic.Output>, from: nat) {
    && |numbers| == |writes| && StrictlyIncreasing(numbers)
    && forall k | 0 <= k < |numbers| :: from <= numbers[k] < |log| && writes[k].record == log[numbers[k]]
  }

  /** The records handed to _write are records pushed, each at most once and in lock order. */
  lemma WrittenInLockOrder(cfg: Config, s: State)
    requires Reachable(cfg, s)
    ensures exists numbers :: Numbers(numbers, s.trace.log, s.trace.written, 0)
  {
    var a := ReachableRefines(cfg, s);
    History.WrittenInOrder(cfg.cap, a);
    assert Numbers(a.pops[..|a.written|], s.trace.log, s.trace.written, 0);
  }

  /** What the run after a cb_init writes and calls, read off the atomic logger behind it. */
  lemma RestartRefines(cfg: Config, s: State, schedule: seq<Label>) returns (atomic: Atomic.State)
    requires Reachable(cfg, s) && s.consumer.CInitOccup?
    ensures Refinement.Simulates(cfg, Exec(cfg, Step(cfg, s, Consumer(true)), schedule), atomic)
    ensures History.Reachable(cfg.cap, atomic)
    ensures s.trace.written <= atomic.written && |atomic.written| <= |atomic.pops|
    ensures forall k | |s.trace.written| <= k < |atomic.written| ::
      |s.trace.log| <= atomic.pops[k] < |atomic.log| && atomic.written[k].record == atomic.log[atomic.pops[k]]
    ensures s.trace.called + Atomic.DueCalls(atomic.written[|s.trace.written|..])
      == atomic.called + (if atomic.phase.Calling? then [atomic.phase.record] else [])
  {
    var a := ReachableRefines(cfg, s);
    var s', a' := Step(cfg, s, Consumer(true)), Atomic.Step(cfg.cap, a, Atomic.Init);
    Refinement.StepRefines(cfg, s, a, Consumer(true));
    Refinement.ExecOne(cfg.cap, a, Atomic.Init);
    Refinement.ExecRefines(cfg, s', a', schedule);
    InitReachable(cfg.cap, a);
    var labels := Refinement.Abstract(cfg, s', schedule);
    History.SessionFresh(cfg.cap, a', labels);
    atomic := Atomic.Exec(cfg.cap, a', labels);
    History.ExecReachable(cfg.cap, a', labels);
  }

  /**
   * From the moment cb_init has emptied the ring, only records pushed later are written or called back, whatever
   * head, tail and slots still hold and whatever stops and restarts follow.
   */
  lemma RestartForgets(cfg: Config, s: State, schedule: seq<Label>)
    requires Reachable(cfg, s) && s.consumer.CInitOccup?
    ensures var t := Exec(cfg, Step(cfg, s, Consumer(true)), schedule);
      && s.trace.written <= t.trace.written
      && (exists numbers ::
            Numbers(numbers, t.trace.log, t.trace.written[|s.trace.written|..], |s.trace.log|))
      && s.trace.called + Atomic.DueCalls(t.trace.written[|s.trace.written|..]) == t.trace.called + Due(t)
  {
    var atomic := RestartRefines(cfg, s, schedule);
    History.WrittenInOrder(cfg.cap, atomic);
    NumbersFrom(atomic.pops, atomic.log, atomic.written, |s.trace.written|, |s.trace.log|);
    DueAgrees(cfg, Exec(cfg, Step(cfg, s, Consumer(true)), schedule), atomic);
  }

  lemma NumbersFrom(pops: seq<nat>, log: seq<Record>, written: seq<Atomic.Output>, n: nat, from: nat)
    requires StrictlyIncreasing(pops) && n <= |written| <= |pops|
    requires forall k | n <= k < |written| :: from <= pops[k] < |log| && written[k].record == log[pops[k]]
    ensures Numbers(pops[n..|written|], log, written[n..], from)
  {
  }

  lemma DueAgrees(cfg: Config, s: State, a: Atomic.State)
    requires Refinement.Simulates(cfg, s, a)
    ensures Due(s) == if a.phase.Calling? then [a.phase.record] else []
  {
  }

  lemma InitReachable(cap: nat, a: Atomic.State)
    requires History.Reachable(cap, a)
    ensures History.Reachable(cap, Atomic.Step(cap, a, Atomic.Init))
  {
    Refinement.ExecOne(cap, a, Atomic.Init);
    History.ExecReachable(cap, a, [Atomic.Init]);
  }

  /** The record whose callback is about to run. */
  function Due(s: State): seq<Record> {
    if s.consumer.CCall? && s.temp.Some? then [s.temp.value] else []
  }

  /** Callbacks run once per successful write that has one, in the order of the writes. */
  lemma CallbacksFollowWrites(cfg: Config, s: State)
    requires Reachable(cfg, s)
    ensures Atomic.DueCalls(s.trace.written)
      == s.trace.called + Due(s)
  {
    var a := ReachableRefines(cfg, s);
    History.CallbacksOnce(cfg.cap, a);
  }

  // ---- Wake-ups ----

  /** No lost wake-up, for a counting and for a saturating semaphore. */
  lemma NoLostWakeup(cfg: Config, s: State)
    requires Reachable(cfg, s) && s.consumer.CWait? && s.ring.occup > 0
    ensures s.tokens > 0 || exists p | 0 <= p < |s.producers| :: Owes(s.producers[p])
  {
    ReachableInv(cfg, s);
  }

  /** So at most two steps of producers that already hold something let a consumer blocked on a non-empty ring go. */
  lemma WakeupArrives(cfg: Config, s: State)
    requires Reachable(cfg, s) && s.consumer.CWait? && s.ring.occup > 0
    ensures exists schedule: seq<Label> ::
      && |schedule| <= 2 && (forall l | l in schedule :: l.Producer?)
      && Enabled(Exec(cfg, s, schedule), Consumer(true))
  {
    ReachableInv(cfg, s);
    if s.tokens > 0 {
      assert Enabled(Exec(cfg, s, []), Consumer(true));
    } else {
      var p :| 0 <= p < |s.producers| && Owes(s.producers[p]);
      ReleaseThenSignal(cfg, s, p);
    }
  }

  lemma ReleaseThenSignal(cfg: Config, s: State, p: nat)
    requires Inv(cfg, s) && s.consumer.CWait? && p < |s.producers| && Owes(s.producers[p])
    ensures Enabled(Exec(cfg, s, if s.producers[p].PUnlock? then [Producer(p)] + [Producer(p)] else [Producer(p)]),
      Consumer(true))
  {
    var s' := Step(cfg, s, Producer(p));
    ExecCons(cfg, s, Producer(p), []);
    ExecCons(cfg, s', Producer(p), []);
    ExecCons(cfg, s, Producer(p), [Producer(p)]);
    assert [Producer(p)] + [] == [Producer(p)];
  }

  // ---- The loop stops ----

  predicate InLoop(pc: ConsumerPc) {
    !pc.CHalted? && !Initialising(pc) && !pc.CSetRunning?
  }

  /** Own steps the consumer still needs to leave the loop once the status is IDLE. */
  function Rank(pc: ConsumerPc): nat {
    match pc
    case CTestEmpty => 10
    case CLock => 9
    case CTestPop => 8
    case CRead => 7
    case CHead => 6
    case COccup => 5
    case CUnlock => 4
    case CWrite => 3
    case CCall => 2
    case CWait => 2
    case CTestStatus => 1
    case _ => 0
  }

  /** Stopped, with the loop still to leave or left; a schedule that begins no session stays in such states. */
  ghost predicate Stopped(s: State) {
    s.status.Idle? && (InLoop(s.consumer) || s.consumer.CHalted?)
  }

  lemma StoppedStep(cfg: Config, s: State, l: Label)
    requires Stopped(s) && (l.Start? ==> !Enabled(s, l))
    ensures Stopped(Step(cfg, s, l))
    ensures Rank(Step(cfg, s, l).consumer) + (if l.Consumer? && Enabled(s, l) then 1 else 0) <= Rank(s.consumer)
    ensures |Step(cfg, s, l).trace.written| + MayWrite(Step(cfg, s, l)) <= |s.trace.written| + MayWrite(s)
  {
  }

  /** How many labels of the schedule are steps the consumer actually takes. */
  function ConsumerSteps(cfg: Config, s: State, schedule: seq<Label>): nat {
    if schedule == [] then 0 else
      var front, last := schedule[..|schedule| - 1], schedule[|schedule| - 1];
      ConsumerSteps(cfg, s, front) + (if last.Consumer? && Enabled(Exec(cfg, s, front), last) then 1 else 0)
  }

  /** How many sessions the schedule begins. */
  function Starts(cfg: Config, s: State, schedule: seq<Label>): nat {
    if schedule == [] then 0 else
      var front, last := schedule[..|schedule| - 1], schedule[|schedule| - 1];
      Starts(cfg, s, front) + (if last.Start? && Enabled(Exec(cfg, s, front), last) then 1 else 0)
  }

  /** A write is still possible in this loop round. */
  function MayWrite(s: State): nat {
    if Rank(s.consumer) >= 3 then 1 else 0
  }

  lemma {:induction false} StoppedRun(cfg: Config, s: State, schedule: seq<Label>)
    requires Stopped(s) && Starts(cfg, s, schedule) == 0
    ensures Stopped(Exec(cfg, s, schedule))
    ensures Rank(Exec(cfg, s, schedule).consumer) + ConsumerSteps(cfg, s, schedule) <= Rank(s.consumer)
    ensures |Exec(cfg, s, schedule).trace.written| + MayWrite(Exec(cfg, s, schedule))
      <= |s.trace.written| + MayWrite(s)
  {
    if schedule != [] {
      var front, last := schedule[..|schedule| - 1], schedule[|schedule| - 1];
      StoppedRun(cfg, s, front);
      StoppedStep(cfg, Exec(cfg, s, front), last);
    }
  }

  /**
   * After a stop, whatever the other threads do, the consumer takes at most ten more steps and at most one more
   * _write returns; once it has taken ten it is out of the loop.
   */
  lemma StopEndsLoop(cfg: Config, s: State, schedule: seq<Label>)
    requires s.status.Idle? && InLoop(s.consumer) && Starts(cfg, s, schedule) == 0
    ensures ConsumerSteps(cfg, s, schedule) <= 10
    ensures |Exec(cfg, s, schedule).trace.written| <= |s.trace.written| + 1
    ensures ConsumerSteps(cfg, s, schedule) >= Rank(s.consumer) ==> Exec(cfg, s, schedule).consumer.CHalted?
  {
    StoppedRun(cfg, s, schedule);
    RankBounds(s);
    RankBounds(Exec(cfg, s, schedule));
  }

  lemma RankBounds(s: State)
    ensures Rank(s.consumer) <= 10
    ensures Stopped(s) && Rank(s.consumer) == 0 ==> s.consumer.CHalted?
  {
  }

  /** A consumer that could still block after the stop has a token to take or is owed the stopper's. */
  lemma StopTokenOwed(cfg: Config, s: State)
    requires Reachable(cfg, s) && s.status.Idle? && (s.consumer.CTestEmpty? || s.consumer.CWait?)
    ensures s.tokens > 0 || (s.stopping && Step(cfg, s, Stopper).tokens > 0)
  {
    ReachableInv(cfg, s);
  }

  /** The label that gets the consumer on: its own, the stopper's signal, or the lock holder's next action. */
  function Helper(s: State): Label {
    if s.consumer.CWait? && s.tokens == 0 then Stopper
    else if s.consumer.CLock? && s.owner.ByProducer? then Producer(s.owner.p)
    else Consumer(true)
  }

  /** Actions the lock holder needs before it releases the lock. */
  function HolderRank(s: State): nat {
    if !s.owner.ByProducer? || s.owner.p >= |s.producers| then 0
    else match s.producers[s.owner.p]
      case PStore(_) => 5
      case PTail => 4
      case PTest => 3
      case PHead => 2
      case POccup => 2
      case PUnlock => 1
      case _ => 0
  }

  function Remaining(s: State): nat {
    10 * Rank(s.consumer)
      + (if s.consumer.CLock? then HolderRank(s) else 0)
      + (if s.consumer.CWait? && s.tokens == 0 then 1 else 0)
  }

  /** The stopped loop is never stuck: some thread that already holds something can move, and each move gets nearer. */
  lemma HelperProgress(cfg: Config, s: State)
    requires Inv(cfg, s) && s.status.Idle? && InLoop(s.consumer)
    ensures Helper(s) != Start && Enabled(s, Helper(s))
    ensures Remaining(Step(cfg, s, Helper(s))) < Remaining(s)
  {
    if s.owner.ByProducer? {
      assert Critical(s.producers[s.owner.p]);
    }
  }

  /** From every reachable state after a stop the loop can be brought to its end within 106 steps, without new calls. */
  lemma {:induction false} LoopCanEnd(cfg: Config, s: State) returns (schedule: seq<Label>)
    requires Inv(cfg, s) && Stopped(s)
    ensures |schedule| <= Remaining(s)
    ensures forall l | l in schedule :: !l.Start? && !l.Call?
    ensures Exec(cfg, s, schedule).consumer.CHalted?
    decreases Remaining(s)
  {
    if s.consumer.CHalted? {
      schedule := [];
    } else {
      HelperProgress(cfg, s);
      StoppedStep(cfg, s, Helper(s));
      StepInv(cfg, s, Helper(s));
      var rest := LoopCanEnd(cfg, Step(cfg, s, Helper(s)));
      schedule := [Helper(s)] + rest;
      ExecCons(cfg, s, Helper(s), rest);
    }
  }

  lemma StoppedLoopCanEnd(cfg: Config, s: State)
    requires Reachable(cfg, s) && s.status.Idle? && InLoop(s.consumer)
    ensures exists schedule: seq<Label> ::
      && |schedule| <= 106 && (forall l | l in schedule :: !l.Start? && !l.Call?)
      && Exec(cfg, s, schedule).consumer.CHalted?
  {
    ReachableInv(cfg, s);
    var schedule := LoopCanEnd(cfg, s);
    RankBounds(s);
  }

  // ---- A stop that comes too early ----

  /** logger_stop's first line without the hypothesis that the status is RUNNING. */
  function StopNow(s: State): State {
    s.(status := Idle, stopping := true)
  }

  /** Without a stop a session once begun is starting or running, and it is the only one. */
  lemma UnstoppedStep(cfg: Config, s: State, l: Label)
    requires Inv(cfg, s) && !s.stopping && l != Stopper
    requires InLoop(s.consumer) ==> s.status.Running?
    ensures var s' := Step(cfg, s, l);
      && Inv(cfg, s') && !s'.stopping && (InLoop(s'.consumer) ==> s'.status.Running?)
      && (s'.consumer.CHalted? <==> s.consumer.CHalted? && !(l.Start? && Enabled(s, l)))
  {
    StepInv(cfg, s, l);
  }

  lemma {:induction false} UnstoppedRun(cfg: Config, s: State, schedule: seq<Label>)
    requires Inv(cfg, s) && s.consumer.CHalted? && !s.stopping && Stopper !in schedule
    ensures var t := Exec(cfg, s, schedule);
      && Inv(cfg, t) && !t.stopping && (InLoop(t.consumer) ==> t.status.Running?)
      && Starts(cfg, s, schedule) == if t.consumer.CHalted? then 0 else 1
  {
    if schedule != [] {
      var front, last := schedule[..|schedule| - 1], schedule[|schedule| - 1];
      assert last in schedule && forall l | l in front :: l in schedule;
      UnstoppedRun(cfg, s, front);
      UnstoppedStep(cfg, Exec(cfg, s, front), last);
    }
  }

  /**
   * Let the logger be halted, with all earlier stops complete, and let no stop be called in what follows. A stop that
   * is called then, at whatever point, lasts for the rest of this one session if and only if the status reads RUNNING:
   * before that, and even before logger_start is entered, line 115 can still overwrite it.
   */
  lemma StopLastsIff(cfg: Config, halted: State, schedule: seq<Label>)
    requires Reachable(cfg, halted) && halted.consumer.CHalted? && !halted.stopping && Stopper !in schedule
    ensures var s := Exec(cfg, halted, schedule);
      s.status.Running? <==>
        forall after | Starts(cfg, halted, schedule) + Starts(cfg, StopNow(s), after) <= 1 ::
          Exec(cfg, StopNow(s), after).status.Idle?
  {
    var s := Exec(cfg, halted, schedule);
    ReachableInv(cfg, halted);
    UnstoppedRun(cfg, halted, schedule);
    if s.status.Running? {
      forall after | Starts(cfg, halted, schedule) + Starts(cfg, StopNow(s), after) <= 1
        ensures Exec(cfg, StopNow(s), after).status.Idle?
      {
        StoppedRun(cfg, StopNow(s), after);
      }
    } else {
      var after := StopOverwritten(cfg, StopNow(s));
      assert !Exec(cfg, StopNow(s), after).status.Idle?;
    }
  }

  lemma {:induction false} StartsCons(cfg: Config, s: State, l: Label, rest: seq<Label>)
    ensures Starts(cfg, s, [l] + rest)
      == (if l.Start? && Enabled(s, l) then 1 else 0) + Starts(cfg, Step(cfg, s, l), rest)
  {
    if rest == [] {
      assert [l] + rest == [l] && [l][..0] == [] && Starts(cfg, s, []) == 0;
    } else {
      var front := rest[..|rest| - 1];
      StartsCons(cfg, s, l, front);
      ExecCons(cfg, s, l, front);
      assert ([l] + rest)[..|rest|] == [l] + front;
    }
  }

  /** Steps to RUNNING: release of the lock, logger_start, cb_init. */
  function StepsToRunning(s: State): nat {
    match s.consumer
    case CHalted => 5 + HolderRank(s)
    case CInitSize => 4
    case CInitOccup => 3
    case CInitHead => 2
    case CInitTail => 1
    case _ => 0
  }

  function TowardsRunning(s: State): Label {
    if !s.consumer.CHalted? then Consumer(true)
    else if s.owner.ByProducer? then Producer(s.owner.p)
    else Start
  }

  lemma StepTowardsRunning(cfg: Config, s: State)
    requires Mutex(s) && s.status.Idle? && (s.consumer.CHalted? || Initialising(s.consumer))
    ensures var l := TowardsRunning(s);
      var s' := Step(cfg, s, l);
      && Enabled(s, l) && StepsToRunning(s') < StepsToRunning(s)
      && Mutex(s') && s'.status.Idle?
      && (s'.consumer.CHalted? || Initialising(s'.consumer) || s'.consumer.CSetRunning?)
      && (s'.consumer.CHalted? <==> s.consumer.CHalted? && !l.Start?)
  {
    if s.owner.ByProducer? {
      assert Critical(s.producers[s.owner.p]);
      ProducerMutex(cfg, s, s.owner.p);
    }
    if !s.consumer.CHalted? {
      ConsumerMutex(cfg, s, true);
    }
  }

  lemma {:induction false} StopOverwritten(cfg: Config, s: State) returns (schedule: seq<Label>)
    requires Mutex(s) && s.status.Idle?
    requires s.consumer.CHalted? || Initialising(s.consumer) || s.consumer.CSetRunning?
    ensures Exec(cfg, s, schedule).status.Running?
    ensures Starts(cfg, s, schedule) == if s.consumer.CHalted? then 1 else 0
    decreases StepsToRunning(s)
  {
    if s.consumer.CSetRunning? {
      ExecCons(cfg, s, Consumer(true), []);
      StartsCons(cfg, s, Consumer(true), []);
      schedule := [Consumer(true)] + [];
    } else {
      var l := TowardsRunning(s);
      StepTowardsRunning(cfg, s);
      var rest := StopOverwritten(cfg, Step(cfg, s, l));
      ExecCons(cfg, s, l, rest);
      StartsCons(cfg, s, l, rest);
      schedule := [l] + rest;
    }
  }

  // ---- A full ring ----

  /** On the way to a push onto a full ring: cb_init under way or done, and the first producer pushing alone. */
  ghost predicate Filling(cfg: Config, s: State) {
    && Inv(cfg, s)
    && s.producers != [] && (s.owner == Free || s.owner == ByProducer(0))
    && if s.inited then s.consumer.CSetRunning?
       else s.producers[0].PReady? && !s.consumer.CSetRunning?
  }

  function NextToFill(s: State, r: Record): Label
    requires s.producers != []
  {
    if !s.inited then (if s.consumer.CHalted? then Start else Consumer(true))
    else if s.producers[0].PReady? then Call(0, r)
    else Producer(0)
  }

  function StepsToPush(pc: ProducerPc): nat {
    match pc
    case PUnlock => 8
    case PSignal => 7
    case PReady => 6
    case PLock(_) => 5
    case PStore(_) => 4
    case PTail => 3
    case PTest => 2
    case POccup => 1
    case PHead => 0
  }

  function Gap(cfg: Config, s: State): nat {
    if !s.inited || s.ring.occup >= cfg.cap then 0 else cfg.cap - s.ring.occup
  }

  lemma FillStep(cfg: Config, s: State, r: Record)
    requires Filling(cfg, s) && !s.producers[0].PHead?
    ensures var s' := Step(cfg, s, NextToFill(s, r));
      && Filling(cfg, s')
      && (if !s.inited then StepsToRunning(s') < StepsToRunning(s) else
            && s'.inited && StepsToRunning(s') <= StepsToRunning(s)
            && (Gap(cfg, s') < Gap(cfg, s) ||
                (Gap(cfg, s') == Gap(cfg, s) && StepsToPush(s'.producers[0]) < StepsToPush(s.producers[0]))))
  {
    StepInv(cfg, s, NextToFill(s, r));
    assert Critical(s.producers[0]) <==> s.owner == ByProducer(0);
  }

  lemma {:induction false} RingFills(cfg: Config, s: State, r: Record) returns (schedule: seq<Label>)
    requires Filling(cfg, s)
    ensures Exec(cfg, s, schedule).producers != [] && Exec(cfg, s, schedule).producers[0].PHead?
    decreases StepsToRunning(s), Gap(cfg, s), StepsToPush(s.producers[0])
  {
    if s.producers[0].PHead? {
      schedule := [];
    } else {
      FillStep(cfg, s, r);
      var rest := RingFills(cfg, Step(cfg, s, NextToFill(s, r)), r);
      ExecCons(cfg, s, NextToFill(s, r), rest);
      schedule := [NextToFill(s, r)] + rest;
    }
  }

  /** With at least two slots and one producer, some interleaving does reach a state in which the equation fails. */
  lemma BrokenShapeReached(cfg: Config, s0: State, r: Record)
    requires cfg.Valid() && 2 <= cfg.cap && Initial(cfg, s0) && s0.producers != []
    ensures exists s ::
      && Reachable(cfg, s) && s.inited && s.ring.size == cfg.cap
      && s.ring.tail != (s.ring.head + s.ring.occup) % s.ring.size
  {
    InitialInv(cfg, s0);
    var schedule := RingFills(cfg, s0, r);
    var s := Exec(cfg, s0, schedule);
    MidPushBreaksShape(cfg, s, 0);
    ReachableInv(cfg, s);
    assert s.owner == ByProducer(0);
  }
}
