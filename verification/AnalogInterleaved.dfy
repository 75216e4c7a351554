/**
 * The ADC hand-off at every interleaving of the code: the conversion callback calls logger_write_async as producer 0 of
 * the micro logger, one assignment at a time, while the DMA already fills the other half.
 */
module AnalogInterleaved {
  import opened Sequences
  import opened Records
  import opened Serial
  import opened MicroLogger
  import opened Refinement
  import Atomic = AtomicLogger
  import Analog = AnalogChannel
  import Liveness

  /**
   * `captured` is the half handed over by the last conversion, as it was then. `snapshots` holds for each pushed record
   * the half it was queued with, `payloads` what each finished _write had read, `out` what the current one has read.
   */
  datatype System = System(
    micro: State,
    memory: seq<Byte>,
    second: bool,
    out: seq<Byte>,
    captured: seq<Byte>,
    snapshots: seq<seq<Byte>>,
    payloads: seq<seq<Byte>>)

  datatype Move = Dma(sample: nat, low: Byte, high: Byte) | Converted | ReadByte | Thread(move: Label)

  /** The record at the consumer's _write, if it is an analog one. */
  predicate WritesAnalog(s: State) {
    s.consumer.CWrite? && s.temp.Some? && Analog.IsAnalog(s.temp.value)
  }

  /** Other producers do not queue pointers into this buffer, and a _write returns when it has read it all. */
  predicate Allowed(s: System, l: Label) {
    && (l.Call? ==> l.p != 0 && !Analog.IsAnalog(l.record))
    && (l.Consumer? && WritesAnalog(s.micro) ==> |s.out| == s.micro.temp.value.size)
  }

  predicate Stores(s: State, l: Label) {
    l.Producer? && Enabled(s, l) && s.producers[l.p].PStore?
  }

  predicate Moves(s: State, l: Label, pc: ConsumerPc) {
    l.Consumer? && Enabled(s, l) && s.consumer == pc
  }

  function ThreadStep(cfg: Config, s: System, l: Label): System {
    s.(micro := MicroLogger.Step(cfg, s.micro, l),
       out := if Moves(s.micro, l, CHead) then [] else s.out,
       snapshots := if Stores(s.micro, l) then s.snapshots + [if l.p == 0 then s.captured else []] else s.snapshots,
       payloads := if Moves(s.micro, l, CWrite) then s.payloads + [s.out] else s.payloads)
  }

  predicate CanConvert(s: System) {
    |s.memory| == 2 * Analog.HALF_BYTES && s.micro.producers != [] && s.micro.producers[0].PReady?
  }

  function ConvertedStep(cfg: Config, id: nat, s: System): System {
    if !CanConvert(s) then s else
      s.(micro := MicroLogger.Step(cfg, s.micro, Call(0, Analog.AnalogRecord(id, s.second))),
         captured := Analog.Half(s.memory, s.second),
         second := !s.second)
  }

  function DmaStep(s: System, sample: nat, low: Byte, high: Byte): System {
    var i := Analog.HalfStart(s.second) + Analog.SAMPLE_BYTES * sample;
    if Analog.SAMPLE_BYTES * sample < Analog.HALF_BYTES && |s.memory| == 2 * Analog.HALF_BYTES
    then s.(memory := s.memory[i := low][i + 1 := high])
    else s
  }

  function ReadStep(s: System): System {
    if WritesAnalog(s.micro) && |s.out| < s.micro.temp.value.size then
      var i := Analog.SAMPLE_BYTES * s.micro.temp.value.data.sample + |s.out|;
      if i < |s.memory| then s.(out := s.out + [s.memory[i]]) else s
    else s
  }

  function Step(cfg: Config, id: nat, s: System, m: Move): System {
    match m
    case Dma(sample, low, high) => DmaStep(s, sample, low, high)
    case Converted => ConvertedStep(cfg, id, s)
    case ReadByte => ReadStep(s)
    case Thread(l) => if Allowed(s, l) then ThreadStep(cfg, s, l) else s
  }

  function Exec(cfg: Config, id: nat, s: System, schedule: seq<Move>): System {
    if schedule == [] then s
    else Step(cfg, id, Exec(cfg, id, s, schedule[..|schedule| - 1]), schedule[|schedule| - 1])
  }

  ghost predicate Starts(cfg: Config, s: System) {
    && cfg.Valid() && Initial(cfg, s.micro) && s.micro.producers != []
    && |s.memory| == 2 * Analog.HALF_BYTES && !s.second
    && s.out == [] && s.snapshots == [] && s.payloads == []
  }

  /**
   * Some analog record is being written and not fully read, or is queued where the consumer can get at it. The push of
   * the callback comes later than the callback, so a record it overwrites can still be popped before.
   */
  ghost predicate Unread(logger: Atomic.State, out: seq<Byte>) {
    || (logger.phase.Writing? && Analog.IsAnalog(logger.phase.record) && |out| < logger.phase.record.size)
    || (Atomic.CanPop(logger) && exists j | 0 <= j < |logger.queue| :: Analog.IsAnalog(logger.queue[j]))
  }

  /** Status, consumer and queue, read off the fields. */
  ghost function View(cfg: Config, s: State): Atomic.State
    requires Inv(cfg, s)
  {
    Atomic.INITIAL.(status := s.status, phase := PhaseOf(s), queue := Contents(cfg, s))
  }

  /** If move i is a conversion, it finds no analog record unread. */
  ghost predicate TimelyAt(cfg: Config, id: nat, s: System, schedule: seq<Move>, i: nat)
    requires i < |schedule|
  {
    var before := Exec(cfg, id, s, schedule[..i]);
    schedule[i].Converted? && Inv(cfg, before.micro) ==> !Unread(View(cfg, before.micro), before.out)
  }

  // ---- The atomic system behind it ----

  predicate Carries(pc: ProducerPc) {
    pc.PLock? || pc.PStore?
  }

  /** The conversion callback has been entered and has not stored its record yet. */
  predicate Underway(s: State) {
    s.producers != [] && Carries(s.producers[0])
  }

  ghost predicate CarriesRightly(id: nat, s: State, second: bool, p: nat)
    requires p < |s.producers|
  {
    Carries(s.producers[p]) ==>
      if p == 0 then s.producers[p].record == Analog.AnalogRecord(id, second)
      else !Analog.IsAnalog(s.producers[p].record)
  }

  ghost predicate Producers(id: nat, s: State, second: bool) {
    && s.producers != []
    && forall p | 0 <= p < |s.producers| :: CarriesRightly(id, s, second, p)
  }

  /** The atomic conversion happens at the store; until then the atomic DMA stands still. */
  ghost predicate Memories(s: System, a: Analog.System) {
    && |s.memory| == |a.memory| == 2 * Analog.HALF_BYTES
    && if Underway(s.micro)
       then
         && a.second == !s.second && !Unread(a.logger, a.out)
         && Analog.Half(s.memory, a.second) == Analog.Half(a.memory, a.second) == s.captured
       else a.second == s.second && a.memory == s.memory
  }

  ghost predicate Coupled(cfg: Config, id: nat, s: System, a: Analog.System) {
    && Simulates(cfg, s.micro, a.logger)
    && Analog.Inv(cfg.cap, a)
    && Producers(id, s.micro, a.second)
    && a.out == s.out && a.snapshots == s.snapshots && a.payloads == s.payloads
    && Memories(s, a)
  }

  // ---- Steps of the logger's threads ----

  lemma ThreadProducers(cfg: Config, id: nat, s: State, second: bool, l: Label)
    requires Producers(id, s, second) && (l.Call? ==> l.p != 0 && !Analog.IsAnalog(l.record))
    ensures Producers(id, MicroLogger.Step(cfg, s, l), second)
    ensures Underway(MicroLogger.Step(cfg, s, l)) == (Underway(s) && !(Stores(s, l) && l.p == 0))
  {
    var s' := MicroLogger.Step(cfg, s, l);
    forall p | 0 <= p < |s'.producers|
      ensures CarriesRightly(id, s', second, p)
    {
      assert CarriesRightly(id, s, second, p);
    }
  }

  /** A step that stores nothing stands for at most one atomic step, not a push, with the same reading. */
  lemma OtherMatching(cfg: Config, s: State, a: Atomic.State, l: Label)
    requires Simulates(cfg, s, a) && !Stores(s, l) && Matching(s, l) != []
    ensures var step := Matching(s, l)[0];
      && !step.Push? && Atomic.Enabled(a, step)
      && (step.Pop? <==> Moves(s, l, CHead))
      && (step.WriteDone? <==> Moves(s, l, CWrite))
      && (step.WriteDone? ==> s.temp.Some? && a.phase == Atomic.Writing(s.temp.value))
  {
  }

  lemma NoMatching(s: State, l: Label)
    requires Matching(s, l) == []
    ensures !Moves(s, l, CHead) && !Moves(s, l, CWrite)
  {
  }

  /** Without analog pushes no analog record becomes unread. */
  lemma StaysRead(cap: nat, a: Atomic.State, out: seq<Byte>, step: Atomic.Label)
    requires 1 <= cap && !Unread(a, out) && Atomic.Enabled(a, step)
    requires step.Push? ==> !Analog.IsAnalog(step.record)
    ensures !Unread(Atomic.Step(cap, a, step), if step.Pop? then [] else out)
  {
    if step.Pop? {
      assert !Analog.IsAnalog(a.queue[0]);
    }
  }

  lemma QuietCoupled(cfg: Config, id: nat, s: System, a: Analog.System, l: Label)
    requires Coupled(cfg, id, s, a) && Allowed(s, l) && !Stores(s.micro, l) && Matching(s.micro, l) == []
    ensures Coupled(cfg, id, ThreadStep(cfg, s, l), a)
  {
    MatchingStep(cfg, s.micro, a.logger, l);
    ThreadProducers(cfg, id, s.micro, a.second, l);
    NoMatching(s.micro, l);
  }

  lemma ConsumerCoupled(cfg: Config, id: nat, s: System, a: Analog.System, l: Label) returns (a': Analog.System)
    requires Coupled(cfg, id, s, a) && Allowed(s, l) && !Stores(s.micro, l) && Matching(s.micro, l) != []
    ensures Coupled(cfg, id, ThreadStep(cfg, s, l), a')
  {
    var step := Matching(s.micro, l)[0];
    MatchingStep(cfg, s.micro, a.logger, l);
    ThreadProducers(cfg, id, s.micro, a.second, l);
    OtherMatching(cfg, s.micro, a.logger, l);
    Analog.ConsumerInv(cfg.cap, a, step);
    a' := Analog.LoggerStep(cfg.cap, a, step);
    LoggerStepFields(cfg.cap, a, step);
    if Underway(s.micro) {
      StaysRead(cfg.cap, a.logger, a.out, step);
    }
  }

  lemma LoggerStepFields(cap: nat, a: Analog.System, step: Atomic.Label)
    requires !step.Push? && Analog.Allowed(a, step) && Atomic.Enabled(a.logger, step)
    ensures Analog.LoggerStep(cap, a, step) == Analog.System(
      Atomic.Step(cap, a.logger, step), a.memory, a.second, if step.Pop? then [] else a.out, a.snapshots,
      if step.WriteDone? then a.payloads + [a.out] else a.payloads)
  {
  }

  lemma OtherStoreCoupled(cfg: Config, id: nat, s: System, a: Analog.System, p: nat) returns (a': Analog.System)
    requires Coupled(cfg, id, s, a) && Stores(s.micro, Producer(p)) && p != 0
    ensures Coupled(cfg, id, ThreadStep(cfg, s, Producer(p)), a')
  {
    var record := s.micro.producers[p].record;
    assert CarriesRightly(id, s.micro, a.second, p);
    MatchingStep(cfg, s.micro, a.logger, Producer(p));
    ThreadProducers(cfg, id, s.micro, a.second, Producer(p));
    Analog.OtherPushInv(cfg.cap, a, record);
    a' := Analog.PushStep(cfg.cap, a, record, []);
    if Underway(s.micro) {
      StaysRead(cfg.cap, a.logger, a.out, Atomic.Push(record));
    }
  }

  /** The store of the callback's record: the atomic conversion, after which the atomic memory catches up. */
  lemma StoreCoupled(cfg: Config, id: nat, s: System, a: Analog.System) returns (a': Analog.System)
    requires Coupled(cfg, id, s, a) && Stores(s.micro, Producer(0))
    ensures Coupled(cfg, id, ThreadStep(cfg, s, Producer(0)), a')
  {
    assert CarriesRightly(id, s.micro, a.second, 0);
    MatchingStep(cfg, s.micro, a.logger, Producer(0));
    ThreadProducers(cfg, id, s.micro, a.second, Producer(0));
    AllRead(cfg.cap, a);
    Analog.ConvertedInv(cfg.cap, id, a);
    var converted := Analog.ConvertedStep(cfg.cap, id, a);
    a' := converted.(memory := s.memory);
    CatchUp(cfg.cap, converted, s.memory);
    StoredProducers(cfg, id, s.micro, a.second);
  }

  lemma AllRead(cap: nat, a: Analog.System)
    requires !Unread(a.logger, a.out)
    ensures !Analog.Unread(cap, a)
  {
  }

  /** The half that the DMA is filling may hold anything. */
  lemma CatchUp(cap: nat, a: Analog.System, memory: seq<Byte>)
    requires Analog.Inv(cap, a) && |memory| == 2 * Analog.HALF_BYTES
    requires Analog.Half(memory, !a.second) == Analog.Half(a.memory, !a.second)
    ensures Analog.Inv(cap, a.(memory := memory))
  {
    Analog.MemoryFrame(a, a.(memory := memory));
    Analog.PayloadFrame(a, a.(memory := memory));
  }

  /** Once the callback's record is stored producer 0 carries nothing. */
  lemma StoredProducers(cfg: Config, id: nat, s: State, second: bool)
    requires Producers(id, s, second) && Stores(s, Producer(0))
    ensures Producers(id, MicroLogger.Step(cfg, s, Producer(0)), !second)
  {
    var s', other := MicroLogger.Step(cfg, s, Producer(0)), !second;
    forall p | 0 <= p < |s'.producers|
      ensures CarriesRightly(id, s', other, p)
    {
      assert CarriesRightly(id, s, second, p);
    }
  }

  lemma ThreadCoupled(cfg: Config, id: nat, s: System, a: Analog.System, l: Label) returns (a': Analog.System)
    requires Coupled(cfg, id, s, a) && Allowed(s, l)
    ensures Coupled(cfg, id, ThreadStep(cfg, s, l), a')
  {
    if Stores(s.micro, l) {
      if l.p == 0 {
        a' := StoreCoupled(cfg, id, s, a);
      } else {
        a' := OtherStoreCoupled(cfg, id, s, a, l.p);
      }
    } else if Matching(s.micro, l) == [] {
      QuietCoupled(cfg, id, s, a, l);
      a' := a;
    } else {
      a' := ConsumerCoupled(cfg, id, s, a, l);
    }
  }

  // ---- Steps of the hardware and of _write ----

  lemma CallCoupled(cfg: Config, id: nat, s: System, a: Analog.System)
    requires Coupled(cfg, id, s, a) && CanConvert(s) && !Unread(View(cfg, s.micro), s.out)
    ensures Coupled(cfg, id, ConvertedStep(cfg, id, s), a)
  {
    var record := Analog.AnalogRecord(id, s.second);
    CallRefines(cfg, s.micro, a.logger, 0, record);
    var micro := MicroLogger.Step(cfg, s.micro, Call(0, record));
    forall p | 0 <= p < |micro.producers|
      ensures CarriesRightly(id, micro, a.second, p)
    {
      assert CarriesRightly(id, s.micro, a.second, p);
    }
  }

  lemma OtherHalf(s: System, sample: nat, low: Byte, high: Byte)
    requires |s.memory| == 2 * Analog.HALF_BYTES
    ensures var memory := DmaStep(s, sample, low, high).memory;
      && |memory| == 2 * Analog.HALF_BYTES
      && Analog.Half(memory, !s.second) == Analog.Half(s.memory, !s.second)
  {
  }

  lemma DmaCoupled(cfg: Config, id: nat, s: System, a: Analog.System, sample: nat, low: Byte, high: Byte)
    returns (a': Analog.System)
    requires Coupled(cfg, id, s, a)
    ensures Coupled(cfg, id, DmaStep(s, sample, low, high), a')
  {
    OtherHalf(s, sample, low, high);
    if Underway(s.micro) {
      a' := a;
    } else {
      Analog.DmaInv(cfg.cap, a, sample, low, high);
      a' := Analog.DmaStep(a, sample, low, high);
    }
  }

  lemma ReadCoupled(cfg: Config, id: nat, s: System, a: Analog.System) returns (a': Analog.System)
    requires Coupled(cfg, id, s, a)
    ensures Coupled(cfg, id, ReadStep(s), a')
  {
    a' := a;
    if WritesAnalog(s.micro) && |s.out| < s.micro.temp.value.size {
      assert a.logger.phase == Atomic.Writing(s.micro.temp.value);
      Analog.ReadInv(cfg.cap, a);
      a' := Analog.ReadStep(a);
    }
  }

  lemma StartCoupled(cfg: Config, id: nat, s: System) returns (a: Analog.System)
    requires Starts(cfg, s)
    ensures Coupled(cfg, id, s, a)
  {
    a := Analog.System(Atomic.INITIAL, s.memory, false, [], [], []);
    InitialSimulates(cfg, s.micro);
    Atomic.InitialInv(cfg.cap);
    Analog.FreshInv(cfg.cap, a);
    StartProducers(cfg, id, s);
  }

  lemma StartProducers(cfg: Config, id: nat, s: System)
    requires Starts(cfg, s)
    ensures Producers(id, s.micro, false) && !Underway(s.micro)
  {
    forall p | 0 <= p < |s.micro.producers|
      ensures s.micro.producers[p].PReady? && CarriesRightly(id, s.micro, false, p)
    {
    }
  }

  lemma TimelyFront(cfg: Config, id: nat, s: System, front: seq<Move>, schedule: seq<Move>)
    requires |front| <= |schedule| && front == schedule[..|front|]
    requires forall i | 0 <= i < |schedule| :: TimelyAt(cfg, id, s, schedule, i)
    ensures forall i | 0 <= i < |front| :: TimelyAt(cfg, id, s, front, i)
  {
    forall i | 0 <= i < |front|
      ensures TimelyAt(cfg, id, s, front, i)
    {
      assert front[..i] == schedule[..i] && TimelyAt(cfg, id, s, schedule, i);
    }
  }

  lemma {:induction false} RunCoupled(cfg: Config, id: nat, s: System, schedule: seq<Move>)
    returns (a: Analog.System)
    requires Starts(cfg, s) && forall i | 0 <= i < |schedule| :: TimelyAt(cfg, id, s, schedule, i)
    ensures Coupled(cfg, id, Exec(cfg, id, s, schedule), a)
  {
    if schedule == [] {
      a := StartCoupled(cfg, id, s);
    } else {
      var front, last := schedule[..|schedule| - 1], schedule[|schedule| - 1];
      TimelyFront(cfg, id, s, front, schedule);
      a := RunCoupled(cfg, id, s, front);
      assert TimelyAt(cfg, id, s, schedule, |front|);
      a := MoveCoupled(cfg, id, Exec(cfg, id, s, front), a, last);
    }
  }

  lemma MoveCoupled(cfg: Config, id: nat, s: System, a: Analog.System, m: Move) returns (a': Analog.System)
    requires Coupled(cfg, id, s, a) && (m.Converted? ==> !Unread(View(cfg, s.micro), s.out))
    ensures Coupled(cfg, id, Step(cfg, id, s, m), a')
  {
    a' := a;
    match m
    case Dma(sample, low, high) => a' := DmaCoupled(cfg, id, s, a, sample, low, high);
    case Converted =>
      if CanConvert(s) {
        CallCoupled(cfg, id, s, a);
      }
    case ReadByte => a' := ReadCoupled(cfg, id, s, a);
    case Thread(l) =>
      if Allowed(s, l) {
        a' := ThreadCoupled(cfg, id, s, a, l);
      }
  }

  // ---- What holds at every interleaving ----

  /** The payloads of analog records are the halves they were queued with. */
  ghost predicate Intact(s: System, numbers: seq<nat>) {
    && Liveness.Numbers(numbers, s.micro.trace.log, s.micro.trace.written, 0)
    && |s.snapshots| == |s.micro.trace.log| && |s.payloads| == |s.micro.trace.written|
    && forall k | 0 <= k < |numbers| && Analog.IsAnalog(s.micro.trace.written[k].record) ::
         s.payloads[k] == s.snapshots[numbers[k]]
  }

  /**
   * At every interleaving of a timely run, what each finished _write has read of an analog record, byte by byte from
   * the live DMA buffer, is the half-buffer as it was when the conversion callback for that record was entered.
   */
  lemma PointersActAsCopies(cfg: Config, id: nat, s: System, schedule: seq<Move>)
    requires Starts(cfg, s) && forall i | 0 <= i < |schedule| :: TimelyAt(cfg, id, s, schedule, i)
    ensures exists numbers :: Intact(Exec(cfg, id, s, schedule), numbers)
  {
    var a := RunCoupled(cfg, id, s, schedule);
    CoupledIntact(cfg, id, Exec(cfg, id, s, schedule), a);
  }

  lemma CoupledIntact(cfg: Config, id: nat, s: System, a: Analog.System)
    requires Coupled(cfg, id, s, a)
    ensures Intact(s, a.logger.pops[..|a.logger.written|])
  {
    var numbers := a.logger.pops[..|a.logger.written|];
    Liveness.NumbersFrom(a.logger.pops, a.logger.log, a.logger.written, 0, 0);
    forall k | 0 <= k < |numbers| && Analog.IsAnalog(a.logger.written[k].record)
      ensures s.payloads[k] == s.snapshots[numbers[k]]
    {
      assert Analog.PayloadOk(a, k);
    }
  }

  /**
   * The other threads move as in the code: their producers may queue anything but pointers into the ADC buffer, and the
   * consumer's _write of an analog record returns when it has read all of it.
   */
  lemma ThreadsMove(cfg: Config, id: nat, s: System, l: Label)
    requires l.Call? ==> l.p != 0 && !l.record.data.AnalogBuffer?
    requires l.Consumer? && s.micro.consumer.CWrite? && s.micro.temp.Some? && s.micro.temp.value.data.AnalogBuffer? ==>
      |s.out| == s.micro.temp.value.size
    ensures var t := Step(cfg, id, s, Thread(l));
      t.micro == MicroLogger.Step(cfg, s.micro, l) && t.memory == s.memory && t.second == s.second
  {
  }

  // ---- What is queued ----

  /** How many conversions of the run have entered their callback. */
  function Conversions(cfg: Config, id: nat, s: System, schedule: seq<Move>): nat {
    if schedule == [] then 0 else
      var front := schedule[..|schedule| - 1];
      Conversions(cfg, id, s, front)
        + (if schedule[|schedule| - 1].Converted? && CanConvert(Exec(cfg, id, s, front)) then 1 else 0)
  }

  /** The record of a callback that has not stored it yet. */
  function InCallback(s: State): seq<Record> {
    if s.producers == [] then [] else
      match s.producers[0]
      case PLock(r) => [r]
      case PStore(r) => [r]
      case _ => []
  }

  ghost predicate OthersCarryNone(s: State) {
    forall p | 0 < p < |s.producers| && Carries(s.producers[p]) :: !Analog.IsAnalog(s.producers[p].record)
  }

  /** The DMA is on the half that the number of conversions says, and analog records come from the callback alone. */
  ghost predicate Alternates(id: nat, s: System, n: nat) {
    && |s.memory| == 2048 && s.second == (n % 2 == 1)
    && s.micro.producers != [] && OthersCarryNone(s.micro)
    && (forall r | r in InCallback(s.micro) :: Analog.IsAnalog(r))
    && Analog.AnalogOf(s.micro.trace.log) + InCallback(s.micro) == Analog.Alternating(id, n)
  }

  lemma ConvertedAlternates(cfg: Config, id: nat, s: System, n: nat)
    requires Alternates(id, s, n) && CanConvert(s)
    ensures Alternates(id, ConvertedStep(cfg, id, s), n + 1)
  {
    var t := ConvertedStep(cfg, id, s);
    assert InCallback(s.micro) == [] && Analog.AnalogOf(s.micro.trace.log) + [] == Analog.AnalogOf(s.micro.trace.log);
    assert forall p | 0 < p < |t.micro.producers| :: t.micro.producers[p] == s.micro.producers[p];
  }

  lemma ThreadAlternates(cfg: Config, id: nat, s: System, l: Label, n: nat)
    requires Alternates(id, s, n) && Allowed(s, l)
    ensures Alternates(id, ThreadStep(cfg, s, l), n)
  {
    var t := ThreadStep(cfg, s, l);
    assert OthersCarryNone(t.micro);
    if Stores(s.micro, l) {
      var r := s.micro.producers[l.p].record;
      Analog.AnalogSnoc(s.micro.trace.log, r);
      if l.p == 0 {
        assert InCallback(s.micro) == [r] && r in InCallback(s.micro) && InCallback(t.micro) == [];
        assert Analog.AnalogOf(t.micro.trace.log) + [] == Analog.AnalogOf(t.micro.trace.log);
      } else {
        assert Carries(s.micro.producers[l.p]);
      }
    } else {
      assert InCallback(t.micro) == InCallback(s.micro) && t.micro.trace.log == s.micro.trace.log;
    }
  }

  /**
   * At every interleaving the analog records stored, and then the one the callback still carries, are one for each
   * conversion, first half and second half in turn.
   */
  lemma {:induction false} ConversionsAlternate(cfg: Config, id: nat, s: System, schedule: seq<Move>)
    requires Starts(cfg, s)
    ensures Alternates(id, Exec(cfg, id, s, schedule), Conversions(cfg, id, s, schedule))
  {
    if schedule == [] {
      StartAlternates(cfg, id, s);
    } else {
      var front, last := schedule[..|schedule| - 1], schedule[|schedule| - 1];
      ConversionsAlternate(cfg, id, s, front);
      ScheduleAlternates(cfg, id, s, schedule);
    }
  }

  lemma ScheduleAlternates(cfg: Config, id: nat, s: System, schedule: seq<Move>)
    requires schedule != []
    requires var front := schedule[..|schedule| - 1];
      Alternates(id, Exec(cfg, id, s, front), Conversions(cfg, id, s, front))
    ensures Alternates(id, Exec(cfg, id, s, schedule), Conversions(cfg, id, s, schedule))
  {
    var front, last := schedule[..|schedule| - 1], schedule[|schedule| - 1];
    MoveAlternates(cfg, id, Exec(cfg, id, s, front), last, Conversions(cfg, id, s, front));
  }

  lemma StartAlternates(cfg: Config, id: nat, s: System)
    requires Starts(cfg, s)
    ensures Alternates(id, s, 0)
  {
    assert forall p | 0 <= p < |s.micro.producers| :: s.micro.producers[p].PReady?;
    assert InCallback(s.micro) == [] && Analog.AnalogOf(s.micro.trace.log) == [];
  }

  lemma MoveAlternates(cfg: Config, id: nat, s: System, m: Move, n: nat)
    requires Alternates(id, s, n)
    ensures Alternates(id, Step(cfg, id, s, m), if m.Converted? && CanConvert(s) then n + 1 else n)
  {
    match m
    case Converted =>
      if CanConvert(s) {
        ConvertedAlternates(cfg, id, s, n);
      }
    case Thread(l) =>
      if Allowed(s, l) {
        ThreadAlternates(cfg, id, s, l, n);
      }
    case _ =>
  }
}
