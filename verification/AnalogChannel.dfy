/**
 * analog_channel.c over the atomic logger: the queue holds pointers into a buffer that the DMA keeps overwriting, one
 * half at a time, and _write reads it byte by byte.
 */
module AnalogChannel {
  import opened Sequences
  import opened Records
  import opened AtomicLogger
  import opened Serial

  const BUFFER_DEPTH := 256
  const NO_CHANNELS := 4
  const SAMPLE_BYTES := 2

  /** half_buffer_size: 1024 bytes, that is 512 samples. */
  const HALF_BYTES := SAMPLE_BYTES * BUFFER_DEPTH * NO_CHANNELS / 2

  /** `memory` is analog_channel_buffer byte by byte, `second` tells which half the DMA is filling, `out` is what the
      current _write has read. For the statements below, `snapshots` holds the half as it was when record i of the log
      was pushed, and `payloads` what the k-th finished _write had read. */
  datatype System = System(
    logger: State,
    memory: seq<Byte>,
    second: bool,
    out: seq<Byte>,
    snapshots: seq<seq<Byte>>,
    payloads: seq<seq<Byte>>)

  datatype Move =
    | Dma(sample: nat, low: Byte, high: Byte)
    | Converted
    | ReadByte
    | Logger(move: Label)

  predicate IsAnalog(r: Record) {
    r.data.AnalogBuffer?
  }

  function HalfStart(second: bool): nat {
    if second then HALF_BYTES else 0
  }

  function Half(memory: seq<Byte>, second: bool): seq<Byte>
    requires |memory| == 2 * HALF_BYTES
  {
    memory[HalfStart(second)..HalfStart(second) + HALF_BYTES]
  }

  /** The record that adc_conv_callback queues for a completed half. */
  function AnalogRecord(id: nat, second: bool): Record {
    Record(AnalogBuffer(HalfStart(second) / SAMPLE_BYTES), HALF_BYTES, id, NoCallback)
  }

  /** Other producers do not queue pointers into this static buffer, and a _write returns when it has read it all. */
  predicate Allowed(s: System, l: Label) {
    && (l.Push? ==> !IsAnalog(l.record))
    && (l.WriteDone? && s.logger.phase.Writing? && IsAnalog(s.logger.phase.record) ==>
          |s.out| == s.logger.phase.record.size)
  }

  function PushStep(cap: nat, s: System, r: Record, snapshot: seq<Byte>): System {
    s.(logger := AtomicLogger.Step(cap, s.logger, Push(r)), snapshots := s.snapshots + [snapshot])
  }

  function LoggerStep(cap: nat, s: System, l: Label): System {
    if !Allowed(s, l) || !Enabled(s.logger, l) then s
    else if l.Push? then PushStep(cap, s, l.record, [])
    else
      s.(logger := AtomicLogger.Step(cap, s.logger, l),
         out := if l.Pop? then [] else s.out,
         payloads := if l.WriteDone? then s.payloads + [s.out] else s.payloads)
  }

  function DmaStep(s: System, sample: nat, low: Byte, high: Byte): System {
    var i := HalfStart(s.second) + SAMPLE_BYTES * sample;
    if SAMPLE_BYTES * sample < HALF_BYTES && |s.memory| == 2 * HALF_BYTES
    then s.(memory := s.memory[i := low][i + 1 := high])
    else s
  }

  function ReadStep(s: System): System {
    if s.logger.phase.Writing? && IsAnalog(s.logger.phase.record) && |s.out| < s.logger.phase.record.size then
      var i := SAMPLE_BYTES * s.logger.phase.record.data.sample + |s.out|;
      if i < |s.memory| then s.(out := s.out + [s.memory[i]]) else s
    else s
  }

  /** A conversion callback queues the half just completed; the DMA goes on with the other one. */
  function ConvertedStep(cap: nat, id: nat, s: System): System {
    if |s.memory| == 2 * HALF_BYTES
    then PushStep(cap, s, AnalogRecord(id, s.second), Half(s.memory, s.second)).(second := !s.second)
    else s
  }

  function Step(cap: nat, id: nat, s: System, m: Move): System {
    match m
    case Dma(sample, low, high) => DmaStep(s, sample, low, high)
    case Converted => ConvertedStep(cap, id, s)
    case ReadByte => ReadStep(s)
    case Logger(l) => LoggerStep(cap, s, l)
  }

  function Exec(cap: nat, id: nat, s: System, schedule: seq<Move>): System {
    if schedule == [] then s
    else Step(cap, id, Exec(cap, id, s, schedule[..|schedule| - 1]), schedule[|schedule| - 1])
  }

  ghost predicate Starts(s: System) {
    && s.logger == INITIAL
    && |s.memory| == 2 * HALF_BYTES
    && !s.second
    && s.out == [] && s.snapshots == [] && s.payloads == []
  }

  /**
   * Some analog record has yet to be read, in part at least: it is being written, or it is queued where the consumer
   * can still get at it and where the push of the callback that runs now does not overwrite it.
   */
  ghost predicate Unread(cap: nat, s: System) {
    || (s.logger.phase.Writing? && IsAnalog(s.logger.phase.record) && |s.out| < s.logger.phase.record.size)
    || (CanPop(s.logger) &&
        exists j | (if |s.logger.queue| == cap then 1 else 0) <= j < |s.logger.queue| :: IsAnalog(s.logger.queue[j]))
  }

  /** No conversion callback runs while an analog record is unread. */
  ghost predicate Timely(cap: nat, id: nat, s: System, schedule: seq<Move>) {
    forall i | 0 <= i < |schedule| && schedule[i].Converted? :: !Unread(cap, Exec(cap, id, s, schedule[..i]))
  }

  /** Every analog byte read so far, by finished writes and the current one, is what its record was queued with. */
  ghost predicate Faithful(s: System) {
    && (s.logger.phase.Writing? && IsAnalog(s.logger.phase.record) ==>
          0 <= Last(s.logger.pops) < |s.snapshots| && s.out <= s.snapshots[Last(s.logger.pops)])
    && (forall k | 0 <= k < |s.logger.written| && IsAnalog(s.logger.written[k].record) ::
          && k < |s.payloads| && k < |s.logger.pops| && s.logger.pops[k] < |s.snapshots|
          && s.payloads[k] == s.snapshots[s.logger.pops[k]])
  }

  // ---- The invariant of timely runs ----

  /** The record with number i, if analog, points at the half the DMA leaves alone, unchanged since it was queued. */
  ghost predicate Stable(s: System, r: Record, i: int)
    requires |s.memory| == 2 * HALF_BYTES
  {
    IsAnalog(r) ==>
      && r.size == HALF_BYTES
      && SAMPLE_BYTES * r.data.sample == HalfStart(!s.second)
      && 0 <= i < |s.snapshots|
      && s.snapshots[i] == Half(s.memory, !s.second)
  }

  ghost predicate QueueStable(s: System)
    requires |s.memory| == 2 * HALF_BYTES
  {
    CanPop(s.logger) ==> forall j | 0 <= j < |s.logger.queue| :: Stable(s, s.logger.queue[j], s.logger.Front() + j)
  }

  ghost predicate WriteStable(s: System)
    requires |s.memory| == 2 * HALF_BYTES
  {
    s.logger.phase.Writing? && IsAnalog(s.logger.phase.record) ==>
      && s.logger.phase.record.size == HALF_BYTES
      && 0 <= Last(s.logger.pops) < |s.snapshots|
      && s.out <= s.snapshots[Last(s.logger.pops)]
      && |s.snapshots[Last(s.logger.pops)]| == HALF_BYTES
      && (|s.out| < HALF_BYTES ==> Stable(s, s.logger.phase.record, Last(s.logger.pops)))
  }

  ghost predicate PayloadOk(s: System, k: nat)
    requires k < |s.payloads| == |s.logger.written| <= |s.logger.pops|
  {
    IsAnalog(s.logger.written[k].record) ==>
      && s.logger.written[k].record.size == HALF_BYTES == |s.payloads[k]|
      && s.logger.pops[k] < |s.snapshots|
      && s.payloads[k] == s.snapshots[s.logger.pops[k]]
  }

  ghost predicate Inv(cap: nat, s: System) {
    && AtomicLogger.Inv(cap, s.logger)
    && |s.memory| == 2 * HALF_BYTES
    && |s.snapshots| == |s.logger.log|
    && |s.payloads| == |s.logger.written|
    && QueueStable(s)
    && WriteStable(s)
    && (forall k | 0 <= k < |s.payloads| :: PayloadOk(s, k))
  }

  /** A step that leaves the logger, the other half and the snapshots alone keeps every record stable. */
  lemma MemoryFrame(s: System, s': System)
    requires |s.memory| == |s'.memory| == 2 * HALF_BYTES && QueueStable(s)
    requires s'.logger == s.logger && s'.second == s.second && s'.snapshots == s.snapshots
    requires Half(s'.memory, !s.second) == Half(s.memory, !s.second)
    ensures QueueStable(s')
  {
    if CanPop(s.logger) {
      forall j | 0 <= j < |s'.logger.queue|
        ensures Stable(s', s'.logger.queue[j], s'.logger.Front() + j)
      {
        assert Stable(s, s.logger.queue[j], s.logger.Front() + j);
      }
    }
  }

  lemma PayloadFrame(s: System, s': System)
    requires |s.payloads| == |s.logger.written| <= |s.logger.pops|
    requires forall k | 0 <= k < |s.payloads| :: PayloadOk(s, k)
    requires s'.payloads == s.payloads && s'.logger.written == s.logger.written
    requires s.logger.pops <= s'.logger.pops && s.snapshots <= s'.snapshots
    ensures forall k | 0 <= k < |s'.payloads| :: PayloadOk(s', k)
  {
    forall k | 0 <= k < |s'.payloads|
      ensures PayloadOk(s', k)
    {
      assert PayloadOk(s, k);
    }
  }

  lemma DmaInv(cap: nat, s: System, sample: nat, low: Byte, high: Byte)
    requires Inv(cap, s)
    ensures Inv(cap, DmaStep(s, sample, low, high))
  {
    var s' := DmaStep(s, sample, low, high);
    assert Half(s'.memory, !s.second) == Half(s.memory, !s.second);
    MemoryFrame(s, s');
    PayloadFrame(s, s');
  }

  /** A push leaves the records that stay queued stable, whichever half their memory is in. */
  lemma PushRest(cap: nat, s: System, r: Record, snapshot: seq<Byte>)
    requires Inv(cap, s)
    ensures var s' := PushStep(cap, s, r, snapshot);
      && AtomicLogger.Inv(cap, s'.logger)
      && |s'.snapshots| == |s'.logger.log| && s.snapshots <= s'.snapshots
      && s'.logger.queue[|s'.logger.queue| - 1] == r
      && (forall k | 0 <= k < |s'.payloads| :: PayloadOk(s', k))
  {
    AtomicLogger.PushInv(cap, s.logger, r);
    PayloadFrame(s, PushStep(cap, s, r, snapshot));
  }

  lemma OtherPushInv(cap: nat, s: System, r: Record)
    requires Inv(cap, s) && !IsAnalog(r)
    ensures Inv(cap, PushStep(cap, s, r, []))
  {
    PushRest(cap, s, r, []);
    OtherPushQueue(cap, s, r);
  }

  lemma OtherPushQueue(cap: nat, s: System, r: Record)
    requires 1 <= cap && |s.logger.queue| <= cap && |s.memory| == 2 * HALF_BYTES && QueueStable(s) && !IsAnalog(r)
    ensures QueueStable(PushStep(cap, s, r, []))
  {
    var s' := PushStep(cap, s, r, []);
    var shift := s'.logger.Front() - s.logger.Front();
    if CanPop(s.logger) {
      forall j | 0 <= j < |s'.logger.queue|
        ensures Stable(s', s'.logger.queue[j], s'.logger.Front() + j)
      {
        if j < |s'.logger.queue| - 1 {
          assert Stable(s, s.logger.queue[j + shift], s.logger.Front() + j + shift);
        }
      }
    }
  }

  lemma ConvertedInv(cap: nat, id: nat, s: System)
    requires Inv(cap, s) && !Unread(cap, s)
    ensures Inv(cap, ConvertedStep(cap, id, s))
  {
    var r, snapshot := AnalogRecord(id, s.second), Half(s.memory, s.second);
    PushRest(cap, s, r, snapshot);
    PayloadFrame(PushStep(cap, s, r, snapshot), ConvertedStep(cap, id, s));
    ConvertedQueue(cap, id, s);
  }

  /** The new record is the only analog one that can still be popped, and the DMA has just left its half. */
  lemma ConvertedQueue(cap: nat, id: nat, s: System)
    requires 1 <= cap && |s.logger.queue| <= cap && |s.memory| == 2 * HALF_BYTES && !Unread(cap, s)
    requires |s.snapshots| == |s.logger.log|
    ensures QueueStable(ConvertedStep(cap, id, s))
  {
    var s' := ConvertedStep(cap, id, s);
    var shift := s'.logger.Front() - s.logger.Front();
    if CanPop(s.logger) {
      forall j | 0 <= j < |s'.logger.queue|
        ensures Stable(s', s'.logger.queue[j], s'.logger.Front() + j)
      {
        if j < |s'.logger.queue| - 1 {
          assert !IsAnalog(s.logger.queue[j + shift]);
        }
      }
    }
  }

  lemma ReadInv(cap: nat, s: System)
    requires Inv(cap, s)
    ensures Inv(cap, ReadStep(s))
  {
    MemoryFrame(s, ReadStep(s));
    PayloadFrame(s, ReadStep(s));
    ReadStable(s);
  }

  lemma ReadStable(s: System)
    requires |s.memory| == 2 * HALF_BYTES && WriteStable(s)
    ensures WriteStable(ReadStep(s))
  {
    if s.logger.phase.Writing? && IsAnalog(s.logger.phase.record) && |s.out| < HALF_BYTES {
      var half := Half(s.memory, !s.second);
      assert half[|s.out|] == s.memory[HalfStart(!s.second) + |s.out|];
      assert s.out + [half[|s.out|]] == half[..|s.out| + 1];
    }
  }

  lemma ConsumerInv(cap: nat, s: System, l: Label)
    requires Inv(cap, s) && !l.Push? && Allowed(s, l) && Enabled(s.logger, l)
    ensures Inv(cap, LoggerStep(cap, s, l))
  {
    AtomicLogger.StepInv(cap, s.logger, l);
    ConsumerQueue(cap, s, l);
    ConsumerWrite(cap, s, l);
    if l.WriteDone? {
      WriteDonePayloads(cap, s, l);
    } else {
      PayloadFrame(s, LoggerStep(cap, s, l));
    }
  }

  lemma ConsumerQueue(cap: nat, s: System, l: Label)
    requires |s.memory| == 2 * HALF_BYTES && QueueStable(s)
    requires !l.Push? && Allowed(s, l) && Enabled(s.logger, l)
    ensures QueueStable(LoggerStep(cap, s, l))
  {
    var s' := LoggerStep(cap, s, l);
    if CanPop(s'.logger) && !l.Init? {
      forall j | 0 <= j < |s'.logger.queue|
        ensures Stable(s', s'.logger.queue[j], s'.logger.Front() + j)
      {
        var i := if l.Pop? then j + 1 else j;
        assert Stable(s, s.logger.queue[i], s.logger.Front() + i);
      }
    }
  }

  lemma ConsumerWrite(cap: nat, s: System, l: Label)
    requires |s.memory| == 2 * HALF_BYTES && QueueStable(s) && WriteStable(s) && s.logger.Front() >= 0
    requires !l.Push? && Allowed(s, l) && Enabled(s.logger, l)
    ensures WriteStable(LoggerStep(cap, s, l))
  {
    if l.Pop? {
      assert Stable(s, s.logger.queue[0], s.logger.Front() + 0);
    }
  }

  lemma WriteDonePayloads(cap: nat, s: System, l: Label)
    requires |s.memory| == 2 * HALF_BYTES && WriteStable(s)
    requires |s.payloads| == |s.logger.written| == |s.logger.pops| - 1
    requires forall k | 0 <= k < |s.payloads| :: PayloadOk(s, k)
    requires l.WriteDone? && Allowed(s, l) && Enabled(s.logger, l)
    ensures forall k | 0 <= k < |LoggerStep(cap, s, l).payloads| :: PayloadOk(LoggerStep(cap, s, l), k)
  {
    var s' := LoggerStep(cap, s, l);
    forall k | 0 <= k < |s'.payloads|
      ensures PayloadOk(s', k)
    {
      if k < |s.payloads| {
        assert PayloadOk(s, k);
      } else if IsAnalog(s.logger.phase.record) {
        assert s.out == s.snapshots[Last(s.logger.pops)];
      }
    }
  }

  lemma {:induction false} ExecInv(cap: nat, id: nat, s: System, schedule: seq<Move>)
    requires Inv(cap, s) && Timely(cap, id, s, schedule)
    ensures Inv(cap, Exec(cap, id, s, schedule))
  {
    if schedule != [] {
      var front, last := schedule[..|schedule| - 1], schedule[|schedule| - 1];
      assert forall i | 0 <= i < |front| :: front[..i] == schedule[..i];
      ExecInv(cap, id, s, front);
      var t := Exec(cap, id, s, front);
      match last
      case Dma(sample, low, high) => DmaInv(cap, t, sample, low, high);
      case Converted => ConvertedInv(cap, id, t);
      case ReadByte => ReadInv(cap, t);
      case Logger(l) =>
        if Allowed(t, l) && Enabled(t.logger, l) {
          if l.Push? {
            OtherPushInv(cap, t, l.record);
          } else {
            ConsumerInv(cap, t, l);
          }
        }
    }
  }

  /**
   * In every timely run the queue of pointers behaves like a queue of copies: what the k-th _write has read of an
   * analog record is the half-buffer as it was when that record was queued.
   */
  lemma PointersActAsCopies(cap: nat, id: nat, s: System, schedule: seq<Move>, k: nat)
    requires 1 <= cap && Starts(s) && Timely(cap, id, s, schedule)
    requires var t := Exec(cap, id, s, schedule); k < |t.logger.written| && IsAnalog(t.logger.written[k].record)
    ensures var t := Exec(cap, id, s, schedule);
      && |t.payloads| == |t.logger.written| <= |t.logger.pops|
      && t.logger.pops[k] < |t.snapshots| == |t.logger.log|
      && t.logger.written[k].record == t.logger.log[t.logger.pops[k]]
      && t.logger.written[k].record.size == HALF_BYTES == |t.payloads[k]|
      && t.payloads[k] == t.snapshots[t.logger.pops[k]]
  {
    AtomicLogger.InitialInv(cap);
    ExecInv(cap, id, s, schedule);
    assert PayloadOk(Exec(cap, id, s, schedule), k);
  }

  // ---- What is queued, filled and read ----

  /** A conversion queues the half just completed, with a snapshot of its bytes, and the DMA turns to the other half. */
  lemma ConversionQueues(cap: nat, id: nat, s: System)
    requires |s.memory| == 2048
    ensures var t := Step(cap, id, s, Converted);
      var r := Record(AnalogBuffer(if s.second then 512 else 0), 1024, id, NoCallback);
      && t.logger.log == s.logger.log + [r]
      && t.logger.queue == KeepLast(s.logger.queue + [r], cap)
      && t.snapshots == s.snapshots + [if s.second then s.memory[1024..] else s.memory[..1024]]
      && t.second == !s.second && t.memory == s.memory && t.out == s.out
  {
    assert s.memory[1024..2048] == s.memory[1024..] && s.memory[0..1024] == s.memory[..1024];
  }

  /** The DMA stores a sample, low byte first, in the half it is filling and nowhere else. */
  lemma DmaFills(cap: nat, id: nat, s: System, sample: nat, low: Byte, high: Byte)
    requires |s.memory| == 2048 && sample < 512
    ensures var t, i := Step(cap, id, s, Dma(sample, low, high)), (if s.second then 1024 else 0) + 2 * sample;
      && t == s.(memory := t.memory) && |t.memory| == 2048
      && t.memory[i] == low && t.memory[i + 1] == high
      && forall k | 0 <= k < 2048 && k != i && k != i + 1 :: t.memory[k] == s.memory[k]
  {
  }

  /** _write reads the bytes at the record's address one after the other, as they are then. */
  lemma WriteReads(cap: nat, id: nat, s: System, n: nat)
    requires s.logger.phase.Writing? && s.logger.phase.record.data == AnalogBuffer(n)
    requires |s.out| < s.logger.phase.record.size && 2 * n + s.logger.phase.record.size <= |s.memory|
    ensures Step(cap, id, s, ReadByte) == s.(out := s.out + [s.memory[2 * n + |s.out|]])
  {
  }

  function AnalogOf(log: seq<Record>): seq<Record> {
    if log == [] then [] else
      AnalogOf(log[..|log| - 1]) + (if IsAnalog(log[|log| - 1]) then [log[|log| - 1]] else [])
  }

  function Conversions(schedule: seq<Move>): nat {
    if schedule == [] then 0 else
      Conversions(schedule[..|schedule| - 1]) + (if schedule[|schedule| - 1].Converted? then 1 else 0)
  }

  /** n records of halves in turn, beginning with the first half. */
  function Alternating(id: nat, n: nat): seq<Record> {
    if n == 0 then [] else
      Alternating(id, n - 1) + [Record(AnalogBuffer(if n % 2 == 0 then 512 else 0), 1024, id, NoCallback)]
  }

  lemma AnalogSnoc(log: seq<Record>, r: Record)
    ensures AnalogOf(log + [r]) == AnalogOf(log) + (if IsAnalog(r) then [r] else [])
  {
    assert (log + [r])[..|log|] == log;
  }

  /** The DMA is on the half that the number of conversions says, and the analog records are theirs. */
  ghost predicate Alternates(id: nat, s: System, n: nat) {
    && |s.memory| == 2048 && s.second == (n % 2 == 1)
    && AnalogOf(s.logger.log) == Alternating(id, n)
  }

  lemma OtherLog(cap: nat, s: State, l: Label)
    ensures AtomicLogger.Step(cap, s, l).log == if l.Push? then s.log + [l.record] else s.log
  {
  }

  lemma LoggerAlternates(cap: nat, id: nat, s: System, l: Label, n: nat)
    requires Alternates(id, s, n)
    ensures Alternates(id, LoggerStep(cap, s, l), n)
  {
    OtherLog(cap, s.logger, l);
    if l.Push? {
      AnalogSnoc(s.logger.log, l.record);
    }
  }

  lemma ConvertedAlternates(cap: nat, id: nat, s: System, n: nat)
    requires Alternates(id, s, n)
    ensures Alternates(id, Step(cap, id, s, Converted), n + 1)
  {
    ConversionQueues(cap, id, s);
    AnalogSnoc(s.logger.log, Record(AnalogBuffer(if s.second then 512 else 0), 1024, id, NoCallback));
  }

  /** The analog records of a run are those of its conversions, one each, first half and second half in turn. */
  lemma {:induction false} ConversionsAlternate(cap: nat, id: nat, s: System, schedule: seq<Move>)
    requires Starts(s)
    ensures Alternates(id, Exec(cap, id, s, schedule), Conversions(schedule))
  {
    if schedule == [] {
      assert AnalogOf(INITIAL.log) == [] == Alternating(id, 0);
    } else {
      var front, last := schedule[..|schedule| - 1], schedule[|schedule| - 1];
      var t, n := Exec(cap, id, s, front), Conversions(front);
      ConversionsAlternate(cap, id, s, front);
      match last
      case Converted => ConvertedAlternates(cap, id, t, n);
      case Logger(l) => LoggerAlternates(cap, id, t, l, n);
      case _ =>
    }
  }

  // ---- Exactly when a conversion callback is safe ----

  ghost predicate NoConverted(schedule: seq<Move>) {
    forall i | 0 <= i < |schedule| :: !schedule[i].Converted?
  }

  /** Some run without a further conversion reads a byte that its record was not queued with. */
  ghost predicate CanTear(cap: nat, id: nat, s: System) {
    exists rest :: NoConverted(rest) && !Faithful(Exec(cap, id, s, rest))
  }

  lemma {:induction false} ExecConcat(cap: nat, id: nat, s: System, a: seq<Move>, b: seq<Move>)
    ensures Exec(cap, id, s, a + b) == Exec(cap, id, Exec(cap, id, s, a), b)
  {
    if b == [] {
      assert a + b == a;
    } else {
      ExecConcat(cap, id, s, a, b[..|b| - 1]);
      assert (a + b)[..|a + b| - 1] == a + b[..|b| - 1];
    }
  }

  lemma ExecOne(cap: nat, id: nat, s: System, m: Move)
    ensures Exec(cap, id, s, [m]) == Step(cap, id, s, m)
  {
    assert [m][..0] == [];
  }

  /** What the state after a step can still do, the state before it can do. */
  lemma TearEarlier(cap: nat, id: nat, s: System, m: Move)
    requires !m.Converted? && CanTear(cap, id, Step(cap, id, s, m))
    ensures CanTear(cap, id, s)
  {
    var rest :| NoConverted(rest) && !Faithful(Exec(cap, id, Step(cap, id, s, m), rest));
    NoConvertedCons(m, rest);
    ExecOne(cap, id, s, m);
    ExecConcat(cap, id, s, [m], rest);
  }

  lemma NoConvertedCons(m: Move, rest: seq<Move>)
    requires !m.Converted? && NoConverted(rest)
    ensures NoConverted([m] + rest)
  {
  }

  lemma TornNow(cap: nat, id: nat, s: System)
    requires !Faithful(s)
    ensures CanTear(cap, id, s)
  {
    assert Exec(cap, id, s, []) == s && NoConverted([]);
  }

  /** An analog record that points into the half the DMA is filling. */
  ghost predicate Endangered(s: System, r: Record) {
    IsAnalog(r) && r.size == HALF_BYTES && SAMPLE_BYTES * r.data.sample == HalfStart(s.second)
  }

  /** The next byte to be read can change first. */
  lemma TearWriting(cap: nat, id: nat, s: System)
    requires |s.memory| == 2 * HALF_BYTES && s.logger.phase.Writing? && Endangered(s, s.logger.phase.record)
    requires |s.out| < HALF_BYTES
    requires 0 <= Last(s.logger.pops) < |s.snapshots| && |s.snapshots[Last(s.logger.pops)]| == HALF_BYTES
    ensures CanTear(cap, id, s)
  {
    var n := |s.out|;
    var other: Byte := if s.snapshots[Last(s.logger.pops)][n] == 0 then 1 else 0;
    var dma := Dma(n / 2, other, other);
    var stored := Step(cap, id, s, dma);
    var read := Step(cap, id, stored, ReadByte);
    assert stored.memory[HalfStart(s.second) + n] == other;
    assert read.out == s.out + [other] && read.out[n] == other;
    assert !Faithful(read);
    TornNow(cap, id, read);
    TearEarlier(cap, id, stored, ReadByte);
    TearEarlier(cap, id, s, dma);
  }

  const FILLER := Record(Elsewhere(0), 0, 0, NoCallback)

  /** Queued record j is endangered, and no unread analog record is in the way. */
  ghost predicate Exposed(s: System, j: nat) {
    && |s.memory| == 2 * HALF_BYTES
    && CanPop(s.logger)
    && j < |s.logger.queue| && Endangered(s, s.logger.queue[j])
    && 0 <= s.logger.Front() + j < |s.snapshots| == |s.logger.log|
    && |s.snapshots[s.logger.Front() + j]| == HALF_BYTES
    && (s.logger.phase.Writing? && IsAnalog(s.logger.phase.record) ==> |s.out| == s.logger.phase.record.size)
  }

  function StepsToPolling(phase: Phase): nat {
    match phase
    case Polling => 0
    case Looping => 1
    case _ => 2
  }

  /** The next logger step on the way to writing queued record j; pushes of other producers bring it to the front. */
  function Approach(phase: Phase): Label {
    match phase
    case Starting => Begin
    case Looping => Enter
    case Waiting => Wake
    case Writing(_) => WriteDone(false)
    case Calling(_) => CallDone
    case _ => Push(FILLER)
  }

  lemma ApproachExposed(cap: nat, id: nat, s: System, j: nat)
    requires Exposed(s, j) && !s.logger.phase.Polling? && !s.logger.phase.Halted?
    ensures var s' := Step(cap, id, s, Logger(Approach(s.logger.phase)));
      && Exposed(s', j) && s'.logger.queue == s.logger.queue
      && StepsToPolling(s'.logger.phase) < StepsToPolling(s.logger.phase)
  {
  }

  lemma PushExposed(cap: nat, id: nat, s: System, j: nat)
    requires |s.logger.queue| <= cap && Exposed(s, j) && s.logger.phase.Polling? && j > 0
    ensures var s' := Step(cap, id, s, Logger(Push(FILLER)));
      && s'.logger.phase == s.logger.phase
      && Exposed(s', if |s.logger.queue| == cap then j - 1 else j)
      && |s'.logger.queue| == if |s.logger.queue| == cap then cap else |s.logger.queue| + 1
  {
  }

  lemma {:induction false} TearQueued(cap: nat, id: nat, s: System, j: nat)
    requires |s.logger.queue| <= cap && !s.logger.phase.Halted? && Exposed(s, j)
    ensures CanTear(cap, id, s)
    decreases StepsToPolling(s.logger.phase), cap - |s.logger.queue| + j
  {
    if !s.logger.phase.Polling? {
      ApproachExposed(cap, id, s, j);
      TearQueued(cap, id, Step(cap, id, s, Logger(Approach(s.logger.phase))), j);
      TearEarlier(cap, id, s, Logger(Approach(s.logger.phase)));
    } else if j > 0 {
      PushExposed(cap, id, s, j);
      TearQueued(cap, id, Step(cap, id, s, Logger(Push(FILLER))), if |s.logger.queue| == cap then j - 1 else j);
      TearEarlier(cap, id, s, Logger(Push(FILLER)));
    } else {
      PopTears(cap, id, s);
    }
  }

  lemma PopTears(cap: nat, id: nat, s: System)
    requires s.logger.phase.Polling? && Exposed(s, 0)
    ensures CanTear(cap, id, s)
  {
    TearWriting(cap, id, Step(cap, id, s, Logger(Pop)));
    TearEarlier(cap, id, s, Logger(Pop));
  }

  lemma HalfReadTears(cap: nat, id: nat, s: System)
    requires Inv(cap, s)
    requires s.logger.phase.Writing? && IsAnalog(s.logger.phase.record) && |s.out| < s.logger.phase.record.size
    ensures CanTear(cap, id, ConvertedStep(cap, id, s))
  {
    TearWriting(cap, id, ConvertedStep(cap, id, s));
  }

  /** The conversion puts the DMA back on the half that an unread record points into. */
  lemma UnreadTears(cap: nat, id: nat, s: System)
    requires Inv(cap, s) && Unread(cap, s)
    ensures CanTear(cap, id, ConvertedStep(cap, id, s))
  {
    if s.logger.phase.Writing? && IsAnalog(s.logger.phase.record) && |s.out| < s.logger.phase.record.size {
      HalfReadTears(cap, id, s);
    } else {
      var shift := if |s.logger.queue| == cap then 1 else 0;
      var j :| shift <= j < |s.logger.queue| && IsAnalog(s.logger.queue[j]);
      QueuedExposed(cap, id, s, j);
      TearQueued(cap, id, ConvertedStep(cap, id, s), j - shift);
    }
  }

  lemma QueuedExposed(cap: nat, id: nat, s: System, j: nat)
    requires Inv(cap, s) && CanPop(s.logger)
    requires s.logger.phase.Writing? && IsAnalog(s.logger.phase.record) ==> |s.out| >= s.logger.phase.record.size
    requires (if |s.logger.queue| == cap then 1 else 0) <= j < |s.logger.queue| && IsAnalog(s.logger.queue[j])
    ensures var s' := ConvertedStep(cap, id, s);
      && |s'.logger.queue| <= cap && !s'.logger.phase.Halted?
      && Exposed(s', if |s.logger.queue| == cap then j - 1 else j)
  {
    assert Stable(s, s.logger.queue[j], s.logger.Front() + j);
    QueueShift(cap, s, AnalogRecord(id, s.second), j);
  }

  lemma QueueShift(cap: nat, s: System, r: Record, j: nat)
    requires |s.logger.queue| <= cap && j < |s.logger.queue|
    requires |s.logger.queue| == cap ==> j > 0
    ensures var s' := AtomicLogger.Step(cap, s.logger, Push(r));
      && var i := if |s.logger.queue| == cap then j - 1 else j;
      && i < |s'.queue| && s'.queue[i] == s.logger.queue[j] && s'.Front() + i == s.logger.Front() + j
  {
  }

  lemma InvFaithful(cap: nat, s: System)
    requires Inv(cap, s)
    ensures Faithful(s)
  {
    forall k | 0 <= k < |s.logger.written| && IsAnalog(s.logger.written[k].record)
      ensures && k < |s.payloads| && k < |s.logger.pops| && s.logger.pops[k] < |s.snapshots|
        && s.payloads[k] == s.snapshots[s.logger.pops[k]]
    {
      assert PayloadOk(s, k);
    }
  }

  /**
   * While everything read so far is faithful, a conversion callback is safe, whatever the threads and the DMA do until
   * the next one, if and only if no analog record is unread when it runs.
   */
  lemma ConvertedSafeIff(cap: nat, id: nat, s: System)
    requires Inv(cap, s)
    ensures !Unread(cap, s) <==>
      forall rest | NoConverted(rest) :: Faithful(Exec(cap, id, ConvertedStep(cap, id, s), rest))
  {
    if Unread(cap, s) {
      UnreadTears(cap, id, s);
    } else {
      ConvertedInv(cap, id, s);
      StaysFaithful(cap, id, ConvertedStep(cap, id, s));
    }
  }

  lemma StaysFaithful(cap: nat, id: nat, s: System)
    requires Inv(cap, s)
    ensures forall rest | NoConverted(rest) :: Faithful(Exec(cap, id, s, rest))
  {
    forall rest | NoConverted(rest)
      ensures Faithful(Exec(cap, id, s, rest))
    {
      ExecInv(cap, id, s, rest);
      InvFaithful(cap, Exec(cap, id, s, rest));
    }
  }

  lemma FreshInv(cap: nat, s: System)
    requires AtomicLogger.Inv(cap, s.logger) && s.logger.queue == [] && s.logger.log == [] && s.logger.written == []
    requires s.logger.phase.Halted? && |s.memory| == 2 * HALF_BYTES && s.snapshots == [] && s.payloads == []
    ensures Inv(cap, s)
  {
  }

  /**
   * Over whole runs: no point of the run can be continued, without further conversions, to read a byte that its record
   * was not queued with, if and only if each conversion callback of the run found no analog record unread.
   */
  lemma TimelyIff(cap: nat, id: nat, s: System, schedule: seq<Move>)
    requires 1 <= cap && Starts(s)
    ensures Timely(cap, id, s, schedule) <==>
      forall i | 0 <= i <= |schedule| :: !CanTear(cap, id, Exec(cap, id, s, schedule[..i]))
  {
    if Timely(cap, id, s, schedule) {
      forall i | 0 <= i <= |schedule|
        ensures !CanTear(cap, id, Exec(cap, id, s, schedule[..i]))
      {
        TimelyPrefix(cap, id, s, schedule, i);
        AtomicLogger.InitialInv(cap);
        FreshInv(cap, s);
        ExecInv(cap, id, s, schedule[..i]);
        StaysFaithful(cap, id, Exec(cap, id, s, schedule[..i]));
      }
    } else {
      var i := FirstUntimely(cap, id, s, schedule);
      AtomicLogger.InitialInv(cap);
      FreshInv(cap, s);
      ExecInv(cap, id, s, schedule[..i]);
      UnreadTears(cap, id, Exec(cap, id, s, schedule[..i]));
      assert schedule[..i + 1][..i] == schedule[..i];
    }
  }

  lemma TimelyPrefix(cap: nat, id: nat, s: System, schedule: seq<Move>, n: nat)
    requires Timely(cap, id, s, schedule) && n <= |schedule|
    ensures Timely(cap, id, s, schedule[..n])
  {
    assert forall i | 0 <= i < n :: schedule[..n][..i] == schedule[..i];
  }

  lemma {:induction false} FirstUntimely(cap: nat, id: nat, s: System, schedule: seq<Move>) returns (i: nat)
    requires !Timely(cap, id, s, schedule)
    ensures i < |schedule| && schedule[i].Converted? && Unread(cap, Exec(cap, id, s, schedule[..i]))
    ensures Timely(cap, id, s, schedule[..i])
  {
    i :| 0 <= i < |schedule| && schedule[i].Converted? && Unread(cap, Exec(cap, id, s, schedule[..i]));
    if !Timely(cap, id, s, schedule[..i]) {
      var before := schedule[..i];
      i := FirstUntimely(cap, id, s, before);
      assert before[..i] == schedule[..i];
    }
  }

  // ---- An untimely run ----

  lemma ExecCons(cap: nat, id: nat, s: System, m: Move, rest: seq<Move>)
    ensures Exec(cap, id, s, [m] + rest) == Exec(cap, id, Step(cap, id, s, m), rest)
  {
    ExecOne(cap, id, s, m);
    ExecConcat(cap, id, s, [m], rest);
  }

  /** The loop has started. */
  lemma LoopStarted(cap: nat, id: nat, s: System)
    requires 1 <= cap && Starts(s)
    ensures var t := Step(cap, id, Step(cap, id, s, Logger(Init)), Logger(Begin));
      && Inv(cap, t) && t.logger.phase == Looping && t.logger.status.Running? && t.logger.queue == [] && !t.second
  {
    AtomicLogger.InitialInv(cap);
    FreshInv(cap, s);
    ConsumerInv(cap, s, Init);
    ConsumerInv(cap, Step(cap, id, s, Logger(Init)), Begin);
  }

  /** The loop has started and the first half is queued. */
  lemma FirstHalfQueued(cap: nat, id: nat, s: System)
    requires 1 <= cap && Starts(s)
    ensures var t := Exec(cap, id, s, [Logger(Init)] + ([Logger(Begin)] + [Converted]));
      && Inv(cap, t)
      && t.logger.phase == Looping && t.logger.status.Running? && t.logger.queue == [AnalogRecord(id, false)]
  {
    var begun := Step(cap, id, Step(cap, id, s, Logger(Init)), Logger(Begin));
    ExecCons(cap, id, s, Logger(Init), [Logger(Begin)] + [Converted]);
    ExecCons(cap, id, Step(cap, id, s, Logger(Init)), Logger(Begin), [Converted]);
    ExecOne(cap, id, begun, Converted);
    LoopStarted(cap, id, s);
    ConvertedInv(cap, id, begun);
  }

  /** From every start there is a run in which a conversion finds the first record popped but not read. */
  lemma UntimelyReached(cap: nat, id: nat, s: System) returns (t: System, schedule: seq<Move>)
    requires 1 <= cap && Starts(s)
    ensures t == Exec(cap, id, s, schedule) && Inv(cap, t) && Unread(cap, t)
  {
    var a, b := [Logger(Init)] + ([Logger(Begin)] + [Converted]), [Logger(Enter)] + [Logger(Pop)];
    var queued := Exec(cap, id, s, a);
    FirstHalfQueued(cap, id, s);
    var entered := Step(cap, id, queued, Logger(Enter));
    t := Step(cap, id, entered, Logger(Pop));
    ExecCons(cap, id, queued, Logger(Enter), [Logger(Pop)]);
    ExecOne(cap, id, entered, Logger(Pop));
    ConsumerInv(cap, queued, Enter);
    ConsumerInv(cap, entered, Pop);
    schedule := a + b;
    ExecConcat(cap, id, s, a, b);
  }

  /** So without timeliness some _write reads a byte the DMA stored after the record was queued. */
  lemma LateWriteReadsNewBytes(cap: nat, id: nat, s: System)
    requires 1 <= cap && Starts(s)
    ensures exists schedule :: !Faithful(Exec(cap, id, s, schedule))
  {
    var t, schedule := UntimelyReached(cap, id, s);
    UnreadTears(cap, id, t);
    var rest :| NoConverted(rest) && !Faithful(Exec(cap, id, ConvertedStep(cap, id, t), rest));
    ExecOne(cap, id, t, Converted);
    ExecConcat(cap, id, t, [Converted], rest);
    ExecConcat(cap, id, s, schedule, [Converted] + rest);
    assert !Faithful(Exec(cap, id, s, schedule + ([Converted] + rest)));
  }
}
