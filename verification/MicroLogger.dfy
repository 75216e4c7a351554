/**
 * src/logger.c over inc/buffer.h, one assignment or test at a time: any number of producers in logger_write_async,
 * one consumer in logger_start, one thread calling logger_stop, a mutex behind _lock and _unlock and a semaphore
 * behind _wait and _signal.
 *
 * Labels name the thread that moves. A label that is not enabled leaves the state unchanged, so every sequence of
 * labels is a schedule and the states reached are those of all interleavings.
 */
module MicroLogger {
  import opened Sequences
  import opened Records
  import opened Ring
  import Atomic = AtomicLogger

  /** Capacity of the ring; greatest token count of the semaphore, None for one that counts without bound. */
  datatype Config = Config(cap: nat, maxTokens: Option<nat>)
  {
    predicate Valid() {
      1 <= cap && (maxTokens.Some? ==> 1 <= maxTokens.value)
    }
  }

  /** The next action of a producer: lines 79 to 83 of src/logger.c with cb_push split into its assignments. */
  datatype ProducerPc =
    | PReady
    | PLock(record: Record)
    | PStore(record: Record)
    | PTail
    | PTest
    | PHead
    | POccup
    | PUnlock
    | PSignal

  /** The next action of the consumer: lines 111 to 117, 105, and 89 to 100 with cb_init and cb_pop split. */
  datatype ConsumerPc =
    | CHalted
    | CInitSize
    | CInitOccup
    | CInitHead
    | CInitTail
    | CSetRunning
    | CTestStatus
    | CTestEmpty
    | CLock
    | CTestPop
    | CRead
    | CHead
    | COccup
    | CUnlock
    | CWrite
    | CCall
    | CWait

  datatype Owner = Free | ByProducer(p: nat) | ByConsumer

  /** The fields of the ring struct. */
  datatype Fields = Fields(data: seq<Record>, head: int, tail: int, occup: int, size: int)

  /**
   * What the outside sees: records pushed in lock order, finished _write calls, finished callbacks, and whether
   * _write was ever given an uninitialised record.
   */
  datatype Trace = Trace(log: seq<Record>, written: seq<Atomic.Output>, called: seq<Record>, garbage: bool)

  datatype State = State(
    ring: Fields,
    owner: Owner,
    tokens: nat,
    status: Status,
    producers: seq<ProducerPc>,
    consumer: ConsumerPc,
    /** The consumer's local variable, None while it is uninitialised. */
    temp: Option<Record>,
    /** logger_stop has set IDLE and still owes its signal. */
    stopping: bool,
    /** cb_init has completed at least once. */
    inited: bool,
    trace: Trace)

  datatype Label = Call(p: nat, record: Record) | Producer(p: nat) | Start | Consumer(success: bool) | Stopper

  ghost predicate Initial(cfg: Config, s: State) {
    && |s.ring.data| == cfg.cap
    && s.owner == Free
    && s.status.Idle?
    && (forall p | 0 <= p < |s.producers| :: s.producers[p].PReady?)
    && s.consumer.CHalted?
    && !s.stopping && !s.inited && !s.trace.garbage
    && s.trace.log == [] && s.trace.written == [] && s.trace.called == []
  }

  // ---- Steps ----

  /** While cb_init runs; it takes no lock, so the code relies on the producers being quiet then. */
  predicate Initialising(pc: ConsumerPc) {
    pc.CInitSize? || pc.CInitOccup? || pc.CInitHead? || pc.CInitTail?
  }

  predicate Enabled(s: State, l: Label) {
    match l
    case Call(p, _) => p < |s.producers| && s.producers[p].PReady?
    case Producer(p) =>
      && p < |s.producers|
      && !s.producers[p].PReady?
      && (s.producers[p].PLock? ==> s.owner == Free && s.inited && !Initialising(s.consumer))
    case Start => s.consumer.CHalted? && s.status.Idle? && s.owner == Free
    case Consumer(_) =>
      && !s.consumer.CHalted?
      && (s.consumer.CLock? ==> s.owner == Free)
      && (s.consumer.CWait? ==> s.tokens > 0)
    case Stopper => s.stopping || s.status.Running?
  }

  /** x % size, which C leaves undefined for size 0; NoUndefinedBehaviour shows that size is never 0 here. */
  function Wrap(x: int, size: int): int {
    if size <= 0 then x else x % size
  }

  function StoreAt(data: seq<Record>, i: int, r: Record): seq<Record> {
    if 0 <= i < |data| then data[i := r] else data
  }

  function ReadAt(data: seq<Record>, i: int): Option<Record> {
    if 0 <= i < |data| then Some(data[i]) else None
  }

  function Raise(cfg: Config, tokens: nat): nat {
    if cfg.maxTokens.Some? && tokens >= cfg.maxTokens.value then tokens else tokens + 1
  }

  /** cb_push, lines 54 to 59 of inc/buffer.h: the ring after the action at `pc`. */
  function PushRing(ring: Fields, pc: ProducerPc): Fields {
    match pc
    case PStore(r) => ring.(data := StoreAt(ring.data, ring.tail, r))
    case PTail => ring.(tail := Wrap(ring.tail + 1, ring.size))
    case PHead => ring.(head := Wrap(ring.head + 1, ring.size))
    case POccup => ring.(occup := ring.occup + 1)
    case _ => ring
  }

  function AfterProducer(ring: Fields, pc: ProducerPc): ProducerPc {
    match pc
    case PReady => PReady
    case PLock(r) => PStore(r)
    case PStore(_) => PTail
    case PTail => PTest
    case PTest => if ring.occup == ring.size then PHead else POccup
    case PHead => PUnlock
    case POccup => PUnlock
    case PUnlock => PSignal
    case PSignal => PReady
  }

  function ProducerStep(cfg: Config, s: State, p: nat): State
    requires p < |s.producers|
  {
    var pc := s.producers[p];
    s.(ring := PushRing(s.ring, pc),
       owner := if pc.PLock? then ByProducer(p) else if pc.PUnlock? then Free else s.owner,
       tokens := if pc.PSignal? then Raise(cfg, s.tokens) else s.tokens,
       producers := s.producers[p := AfterProducer(s.ring, pc)],
       trace := if pc.PStore? then s.trace.(log := s.trace.log + [pc.record]) else s.trace)
  }

  /** cb_init, lines 33 to 36, and cb_pop, lines 67 and 68 of inc/buffer.h: the ring after the action at `pc`. */
  function PopRing(cfg: Config, ring: Fields, pc: ConsumerPc): Fields {
    match pc
    case CInitSize => ring.(size := cfg.cap)
    case CInitOccup => ring.(occup := 0)
    case CInitHead => ring.(head := 0)
    case CInitTail => ring.(tail := 0)
    case CHead => ring.(head := Wrap(ring.head + 1, ring.size))
    case COccup => ring.(occup := ring.occup - 1)
    case _ => ring
  }

  /** `success` is what _write returns, should this action be the return of _write. */
  function AfterConsumer(s: State, success: bool): ConsumerPc {
    match s.consumer
    case CHalted => CHalted
    case CInitSize => CInitOccup
    case CInitOccup => CInitHead
    case CInitHead => CInitTail
    case CInitTail => CSetRunning
    case CSetRunning => CTestStatus
    case CTestStatus => if s.status.Running? then CTestEmpty else CHalted
    case CTestEmpty => if s.ring.occup == 0 then CWait else CLock
    case CLock => CTestPop
    case CTestPop => if s.ring.occup == 0 then CUnlock else CRead
    case CRead => CHead
    case CHead => COccup
    case COccup => CUnlock
    case CUnlock => CWrite
    case CWrite =>
      if success && s.temp.Some? && s.temp.value.callback != NoCallback then CCall else CTestStatus
    case CCall => CTestStatus
    case CWait => CTestStatus
  }

  function ConsumerTemp(s: State): Option<Record> {
    match s.consumer
    case CTestEmpty => None
    case CRead => ReadAt(s.ring.data, s.ring.head)
    case _ => s.temp
  }

  function ConsumerTrace(s: State, success: bool): Trace {
    if s.consumer.CWrite? then
      if s.temp.None? then s.trace.(garbage := true)
      else s.trace.(written := s.trace.written + [Atomic.Output(s.temp.value, success)])
    else if s.consumer.CCall? && s.temp.Some? then s.trace.(called := s.trace.called + [s.temp.value])
    else s.trace
  }

  function ConsumerStep(cfg: Config, s: State, success: bool): State {
    s.(ring := PopRing(cfg, s.ring, s.consumer),
       owner := if s.consumer.CLock? then ByConsumer else if s.consumer.CUnlock? then Free else s.owner,
       tokens := if s.consumer.CWait? && s.tokens > 0 then s.tokens - 1 else s.tokens,
       status := if s.consumer.CSetRunning? then Running else s.status,
       consumer := AfterConsumer(s, success),
       temp := ConsumerTemp(s),
       inited := s.inited || s.consumer.CInitTail?,
       trace := ConsumerTrace(s, success))
  }

  function Step(cfg: Config, s: State, l: Label): State {
    if !Enabled(s, l) then s else
    match l
    case Call(p, r) => s.(producers := s.producers[p := PLock(r)])
    case Producer(p) => ProducerStep(cfg, s, p)
    case Start => s.(consumer := CInitSize)
    case Consumer(success) => ConsumerStep(cfg, s, success)
    case Stopper =>
      if s.stopping then s.(tokens := Raise(cfg, s.tokens), stopping := false)
      else s.(status := Idle, stopping := true)
  }

  function Exec(cfg: Config, s: State, schedule: seq<Label>): State {
    if schedule == [] then s
    else Step(cfg, Exec(cfg, s, schedule[..|schedule| - 1]), schedule[|schedule| - 1])
  }

  // ---- The invariant ----

  predicate Critical(pc: ProducerPc) {
    pc.PStore? || pc.PTail? || pc.PTest? || pc.PHead? || pc.POccup? || pc.PUnlock?
  }

  predicate InPop(pc: ConsumerPc) {
    pc.CTestPop? || pc.CRead? || pc.CHead? || pc.COccup? || pc.CUnlock?
  }

  ghost predicate Mutex(s: State) {
    && (forall p | 0 <= p < |s.producers| :: Critical(s.producers[p]) <==> s.owner == ByProducer(p))
    && (s.owner.ByProducer? ==> s.owner.p < |s.producers|)
    && (s.owner == ByConsumer <==> InPop(s.consumer))
  }

  /** How far the holder of the lock is into its change of the ring. */
  datatype Progress = AtRest | Stored | TailMoved | HeadMoved

  function ProgressOf(s: State): Progress {
    match s.owner
    case Free => AtRest
    case ByConsumer => if s.consumer.COccup? then HeadMoved else AtRest
    case ByProducer(p) =>
      if p >= |s.producers| then AtRest
      else match s.producers[p]
        case PTail => Stored
        case PTest => TailMoved
        case PHead => TailMoved
        case POccup => TailMoved
        case _ => AtRest
  }

  ghost predicate InRange(cfg: Config, s: State) {
    && |s.ring.data| == cfg.cap == s.ring.size
    && 0 <= s.ring.head < cfg.cap
    && 0 <= s.ring.tail < cfg.cap
    && 0 <= s.ring.occup <= cfg.cap
  }

  /** At rest the tail is `occup` places after the head; in mid-push and mid-pop it is one place off. */
  ghost predicate Shape(cfg: Config, s: State)
    requires InRange(cfg, s)
  {
    match ProgressOf(s)
    case AtRest => s.ring.tail == Slot(s.ring.head, s.ring.occup, cfg.cap)
    case Stored => s.ring.tail == Slot(s.ring.head, s.ring.occup, cfg.cap)
    case TailMoved =>
      && s.ring.tail == Slot(Slot(s.ring.head, s.ring.occup, cfg.cap), 1, cfg.cap)
      && (s.producers[s.owner.p].PHead? ==> s.ring.occup == cfg.cap)
      && (s.producers[s.owner.p].POccup? ==> s.ring.occup < cfg.cap)
    case HeadMoved => s.ring.occup >= 1 && s.ring.tail == Slot(s.ring.head, s.ring.occup - 1, cfg.cap)
  }

  ghost predicate RingOk(cfg: Config, s: State) {
    && |s.ring.data| == cfg.cap
    && (Initialising(s.consumer) ==> s.owner == Free)
    && match s.consumer
      case CInitHead => s.ring.size == cfg.cap && s.ring.occup == 0
      case CInitTail => s.ring.size == cfg.cap && s.ring.occup == 0 && s.ring.head == 0
      case _ =>
        if s.inited then (!s.consumer.CInitOccup? || s.ring.size == cfg.cap) && InRange(cfg, s) && Shape(cfg, s)
        else
          && s.owner == Free
          && (s.consumer.CHalted? || s.consumer.CInitSize? || s.consumer.CInitOccup?)
          && (s.consumer.CInitOccup? ==> s.ring.size == cfg.cap)
  }

  /** The unlocked test found the ring non-empty and the pop it decided on has not finished. */
  predicate Committed(pc: ConsumerPc) {
    pc.CLock? || pc.CTestPop? || pc.CRead? || pc.CHead? || pc.COccup?
  }

  predicate HoldsRecord(pc: ConsumerPc) {
    pc.CHead? || pc.COccup? || pc.CUnlock? || pc.CWrite? || pc.CCall?
  }

  ghost predicate ConsumerOk(s: State) {
    && (Committed(s.consumer) ==> s.ring.occup >= 1)
    && (HoldsRecord(s.consumer) ==> s.temp.Some?)
    && (s.consumer.CHead? ==> ReadAt(s.ring.data, s.ring.head) == s.temp)
    && (s.consumer.CCall? ==> s.temp.value.callback != NoCallback)
    && !s.trace.garbage
    && !s.status.Uninitialized?
    && (Initialising(s.consumer) || (s.consumer.CHalted? || s.consumer.CSetRunning?) ==> s.status.Idle?)
    && (s.stopping ==> s.inited)
  }

  /** The producer has finished its push and still owes the signal for it. */
  predicate Owes(pc: ProducerPc) {
    pc.PUnlock? || pc.PSignal?
  }

  ghost predicate SomeProducerOwes(s: State) {
    exists p | 0 <= p < |s.producers| :: Owes(s.producers[p])
  }

  /** A consumer that waits on a non-empty ring has a token or is owed one. */
  ghost predicate WakeOk(s: State) {
    s.consumer.CWait? && s.ring.occup > 0 ==> s.tokens > 0 || SomeProducerOwes(s)
  }

  /** A consumer that may still block after the stop has a token or is owed one. */
  ghost predicate StopOk(s: State) {
    s.status.Idle? && (s.consumer.CTestEmpty? || s.consumer.CWait?) ==> s.tokens > 0 || s.stopping
  }

  ghost predicate Inv(cfg: Config, s: State) {
    && cfg.Valid()
    && Mutex(s)
    && RingOk(cfg, s)
    && ConsumerOk(s)
    && WakeOk(s)
    && StopOk(s)
  }

  lemma InitialInv(cfg: Config, s: State)
    requires cfg.Valid() && Initial(cfg, s)
    ensures Inv(cfg, s)
  {
  }

  lemma WrapIsSlot(x: nat, size: nat)
    requires x < size
    ensures Wrap(x + 1, size) == Slot(x, 1, size)
  {
    SlotIsModulo(x, 1, size);
  }

  lemma SlotSteps(head: nat, n: nat, size: nat)
    requires head < size && n <= size
    ensures n < size ==> Slot(Slot(head, n, size), 1, size) == Slot(head, n + 1, size)
    ensures n == size ==> Slot(Slot(head, n, size), 1, size) == Slot(Slot(head, 1, size), n, size)
    ensures n > 0 ==> Slot(Slot(head, 1, size), n - 1, size) == Slot(head, n, size)
  {
  }

  // ---- Producer steps ----

  lemma ProducerMutex(cfg: Config, s: State, p: nat)
    requires Mutex(s) && Enabled(s, Producer(p))
    ensures Mutex(Step(cfg, s, Producer(p)))
  {
  }

  /** RingOk looks at the ring, at the lock holder's progress and at how far cb_init is, and at nothing else. */
  lemma RingFrame(cfg: Config, s: State, s': State)
    requires RingOk(cfg, s) && s.inited && !Initialising(s.consumer) && !Initialising(s'.consumer) && s'.inited
    requires s'.ring == s.ring
    requires ProgressOf(s') == ProgressOf(s) || (ProgressOf(s).AtRest? && ProgressOf(s').Stored?)
    requires ProgressOf(s').TailMoved? ==> s'.owner == s.owner && s'.producers == s.producers
    ensures RingOk(cfg, s')
  {
  }

  lemma ProducerRing(cfg: Config, s: State, p: nat)
    requires Inv(cfg, s) && Enabled(s, Producer(p))
    ensures RingOk(cfg, Step(cfg, s, Producer(p)))
  {
    assert Critical(s.producers[p]) ==> s.owner == ByProducer(p);
    if s.producers[p].PTail? {
      TailRing(cfg, s, p);
    } else if s.producers[p].PTest? {
      TestRing(cfg, s, p);
    } else if s.producers[p].PHead? || s.producers[p].POccup? {
      FinishRing(cfg, s, p);
    } else if s.producers[p].PSignal? {
      SignalRing(cfg, s, p);
    } else if s.producers[p].PStore? {
      RingFrame(cfg, s.(ring := PushRing(s.ring, s.producers[p])), Step(cfg, s, Producer(p)));
    } else {
      RingFrame(cfg, s, Step(cfg, s, Producer(p)));
    }
  }

  lemma TailRing(cfg: Config, s: State, p: nat)
    requires Inv(cfg, s) && Enabled(s, Producer(p)) && s.producers[p].PTail? && s.owner == ByProducer(p)
    ensures RingOk(cfg, Step(cfg, s, Producer(p)))
  {
    WrapIsSlot(s.ring.tail, cfg.cap);
  }

  lemma TestRing(cfg: Config, s: State, p: nat)
    requires Inv(cfg, s) && Enabled(s, Producer(p)) && s.producers[p].PTest? && s.owner == ByProducer(p)
    ensures RingOk(cfg, Step(cfg, s, Producer(p)))
  {
  }

  lemma FinishRing(cfg: Config, s: State, p: nat)
    requires Inv(cfg, s) && Enabled(s, Producer(p)) && s.owner == ByProducer(p)
    requires s.producers[p].PHead? || s.producers[p].POccup?
    ensures RingOk(cfg, Step(cfg, s, Producer(p)))
  {
    WrapIsSlot(s.ring.head, cfg.cap);
    SlotSteps(s.ring.head, s.ring.occup, cfg.cap);
  }

  lemma SignalRing(cfg: Config, s: State, p: nat)
    requires Inv(cfg, s) && Enabled(s, Producer(p)) && s.producers[p].PSignal?
    ensures RingOk(cfg, Step(cfg, s, Producer(p)))
  {
    assert s.owner != ByProducer(p);
  }

  lemma ProducerRest(cfg: Config, s: State, p: nat)
    requires Inv(cfg, s) && Enabled(s, Producer(p))
    ensures ConsumerOk(Step(cfg, s, Producer(p))) && StopOk(Step(cfg, s, Producer(p)))
  {
  }

  lemma ProducerWake(cfg: Config, s: State, p: nat)
    requires Inv(cfg, s) && Enabled(s, Producer(p))
    ensures WakeOk(Step(cfg, s, Producer(p)))
  {
    var s' := Step(cfg, s, Producer(p));
    if s'.consumer.CWait? && s'.ring.occup > 0 && s'.tokens == 0 {
      if s.producers[p].POccup? || s.producers[p].PUnlock? {
        assert Owes(s'.producers[p]);
      } else {
        var q :| 0 <= q < |s.producers| && Owes(s.producers[q]);
        assert Owes(s'.producers[q]);
      }
    }
  }

  // ---- Consumer steps ----

  lemma ConsumerMutex(cfg: Config, s: State, success: bool)
    requires Mutex(s) && Enabled(s, Consumer(success))
    ensures Mutex(Step(cfg, s, Consumer(success)))
  {
    var s' := Step(cfg, s, Consumer(success));
    assert s'.producers == s.producers;
    if s.consumer.CLock? || s.consumer.CUnlock? {
      assert !s.owner.ByProducer? && !s'.owner.ByProducer?;
    } else {
      assert s'.owner == s.owner && InPop(s'.consumer) == InPop(s.consumer);
    }
  }

  lemma ConsumerRing(cfg: Config, s: State, success: bool)
    requires Inv(cfg, s) && Enabled(s, Consumer(success))
    ensures RingOk(cfg, Step(cfg, s, Consumer(success)))
  {
    if s.consumer.CHead? {
      HeadRing(cfg, s, success);
    } else if s.consumer.COccup? {
      OccupRing(cfg, s, success);
    } else if Initialising(s.consumer) {
      InitialisingRing(cfg, s, success);
    } else {
      RingFrame(cfg, s, Step(cfg, s, Consumer(success)));
    }
  }

  lemma HeadRing(cfg: Config, s: State, success: bool)
    requires Inv(cfg, s) && s.consumer.CHead?
    ensures RingOk(cfg, Step(cfg, s, Consumer(success)))
  {
    WrapIsSlot(s.ring.head, cfg.cap);
    SlotSteps(s.ring.head, s.ring.occup, cfg.cap);
  }

  lemma OccupRing(cfg: Config, s: State, success: bool)
    requires Inv(cfg, s) && s.consumer.COccup?
    ensures RingOk(cfg, Step(cfg, s, Consumer(success)))
  {
  }

  lemma InitialisingRing(cfg: Config, s: State, success: bool)
    requires Inv(cfg, s) && Initialising(s.consumer)
    ensures RingOk(cfg, Step(cfg, s, Consumer(success)))
  {
  }

  lemma ConsumerLocal(cfg: Config, s: State, success: bool)
    requires Inv(cfg, s) && Enabled(s, Consumer(success))
    ensures ConsumerOk(Step(cfg, s, Consumer(success)))
  {
    assert s.consumer.CRead? ==> ReadAt(s.ring.data, s.ring.head).Some?;
    assert s.consumer.CTestEmpty? ==> s.ring.occup >= 0;
    ConsumerLocalOnly(cfg, s, success);
  }

  lemma ConsumerLocalOnly(cfg: Config, s: State, success: bool)
    requires ConsumerOk(s) && Enabled(s, Consumer(success))
    requires s.consumer.CRead? ==> ReadAt(s.ring.data, s.ring.head).Some?
    requires s.consumer.CTestEmpty? ==> s.ring.occup >= 0
    ensures ConsumerOk(Step(cfg, s, Consumer(success)))
  {
  }

  lemma ConsumerTokens(cfg: Config, s: State, success: bool)
    requires ConsumerOk(s) && WakeOk(s) && StopOk(s) && Enabled(s, Consumer(success))
    ensures WakeOk(Step(cfg, s, Consumer(success))) && StopOk(Step(cfg, s, Consumer(success)))
  {
  }

  // ---- The other steps ----

  lemma CallInv(cfg: Config, s: State, p: nat, r: Record)
    requires Inv(cfg, s) && Enabled(s, Call(p, r))
    ensures Inv(cfg, Step(cfg, s, Call(p, r)))
  {
    var s' := Step(cfg, s, Call(p, r));
    if SomeProducerOwes(s) {
      var q :| 0 <= q < |s.producers| && Owes(s.producers[q]);
      assert Owes(s'.producers[q]);
    }
  }

  lemma StartInv(cfg: Config, s: State)
    requires Inv(cfg, s) && Enabled(s, Start)
    ensures Inv(cfg, Step(cfg, s, Start))
  {
  }

  lemma StopperInv(cfg: Config, s: State)
    requires Inv(cfg, s) && Enabled(s, Stopper)
    ensures Inv(cfg, Step(cfg, s, Stopper))
  {
  }

  lemma StepInv(cfg: Config, s: State, l: Label)
    requires Inv(cfg, s)
    ensures Inv(cfg, Step(cfg, s, l))
  {
    if Enabled(s, l) {
      match l
      case Call(p, r) => CallInv(cfg, s, p, r);
      case Producer(p) =>
        ProducerMutex(cfg, s, p);
        ProducerRing(cfg, s, p);
        ProducerRest(cfg, s, p);
        ProducerWake(cfg, s, p);
      case Start => StartInv(cfg, s);
      case Consumer(success) =>
        ConsumerMutex(cfg, s, success);
        ConsumerRing(cfg, s, success);
        ConsumerLocal(cfg, s, success);
        ConsumerTokens(cfg, s, success);
      case Stopper => StopperInv(cfg, s);
    }
  }

  lemma {:induction false} ExecInv(cfg: Config, s: State, schedule: seq<Label>)
    requires Inv(cfg, s)
    ensures Inv(cfg, Exec(cfg, s, schedule))
  {
    if schedule != [] {
      ExecInv(cfg, s, schedule[..|schedule| - 1]);
      StepInv(cfg, Exec(cfg, s, schedule[..|schedule| - 1]), schedule[|schedule| - 1]);
    }
  }
}
