/**
 * The logger as its producers see it: one keep-last queue, one consumer, atomic operations.
 * MicroLogger.dfy proves that src/logger.c over inc/buffer.h, interleaved assignment by assignment, refines it.
 *
 * A schedule is any sequence of labels; a label that is not enabled leaves the state unchanged, so the states
 * reachable by schedules are exactly the states of all interleavings.
 */
module AtomicLogger {
  import opened Sequences
  import opened Records

  /**
   * Where the consumer is: outside logger_start, between cb_init and RUNNING, before the status test, past it in
   * perform_write, in _wait, in _write, in a callback.
   */
  datatype Phase = Halted | Starting | Looping | Polling | Waiting | Writing(record: Record) | Calling(record: Record)

  datatype Output = Output(record: Record, success: bool)

  /** What became of a pushed record. */
  datatype Fate = Queued | InFlight | Written | Overwritten(pusher: nat) | Discarded

  /**
   * `log`, `written` and `called` are the observable history: records pushed in lock order, finished _write calls,
   * finished callbacks. The last four fields are bookkeeping that no step depends on: the fate of each record by its
   * number in `log`, the numbers popped so far, and where `log` and `pops` stood at the last cb_init.
   */
  datatype State = State(
    status: Status,
    phase: Phase,
    queue: seq<Record>,
    log: seq<Record>,
    written: seq<Output>,
    called: seq<Record>,
    fate: seq<Fate>,
    pops: seq<nat>,
    base: nat,
    sessionPops: nat)
  {
    /** Number of the oldest queued record. */
    function Front(): int {
      |log| - |queue|
    }
  }

  datatype Label =
    | Push(record: Record)
    | Init
    | Begin
    | Enter
    | Sleep
    | Wake
    | Pop
    | WriteDone(success: bool)
    | CallDone
    | Exit
    | Stop

  const INITIAL := State(Idle, Halted, [], [], [], [], [], [], 0, 0)

  predicate Enabled(s: State, l: Label) {
    match l
    case Push(_) => true
    case Init => s.phase.Halted? && s.status.Idle?
    case Begin => s.phase.Starting?
    case Enter => s.phase.Looping? && s.status.Running?
    case Sleep => s.phase.Polling?
    case Wake => s.phase.Waiting?
    case Pop => s.phase.Polling? && s.queue != []
    case WriteDone(_) => s.phase.Writing?
    case CallDone => s.phase.Calling?
    case Exit => s.phase.Looping? && !s.status.Running?
    case Stop => s.status.Running?
  }

  function SetFate(fate: seq<Fate>, i: int, f: Fate): seq<Fate> {
    if 0 <= i < |fate| then fate[i := f] else fate
  }

  function DiscardFrom(fate: seq<Fate>, front: int): seq<Fate> {
    seq(|fate|, i requires 0 <= i < |fate| => if i >= front then Discarded else fate[i])
  }

  function Last(pops: seq<nat>): int {
    if pops == [] then -1 else pops[|pops| - 1]
  }

  function AfterWrite(record: Record, success: bool): Phase {
    if success && record.callback != NoCallback then Calling(record) else Looping
  }

  function Step(cap: nat, s: State, l: Label): State {
    if !Enabled(s, l) then s else
    match l
    case Push(r) =>
      s.(queue := KeepLast(s.queue + [r], cap),
         log := s.log + [r],
         fate := (if |s.queue| == cap then SetFate(s.fate, s.Front(), Overwritten(|s.log|)) else s.fate) + [Queued])
    case Init =>
      s.(phase := Starting, queue := [], fate := DiscardFrom(s.fate, s.Front()),
         base := |s.log|, sessionPops := |s.pops|)
    case Begin => s.(phase := Looping, status := Running)
    case Enter => s.(phase := Polling)
    case Sleep => s.(phase := Waiting)
    case Wake => s.(phase := Looping)
    case Pop =>
      s.(phase := Writing(s.queue[0]), queue := s.queue[1..],
         fate := SetFate(s.fate, s.Front(), InFlight),
         pops := if s.Front() >= 0 then s.pops + [s.Front()] else s.pops)
    case WriteDone(success) =>
      s.(phase := AfterWrite(s.phase.record, success),
         written := s.written + [Output(s.phase.record, success)],
         fate := SetFate(s.fate, Last(s.pops), Written))
    case CallDone => s.(phase := Looping, called := s.called + [s.phase.record])
    case Exit => s.(phase := Halted)
    case Stop => s.(status := Idle)
  }

  /** Some run from here on pops a record that is queued now: the consumer is past the status test or can pass it. */
  predicate CanPop(s: State) {
    s.phase.Starting? || s.phase.Polling? || s.status.Running?
  }

  function Exec(cap: nat, s: State, schedule: seq<Label>): State {
    if schedule == [] then s
    else Step(cap, Exec(cap, s, schedule[..|schedule| - 1]), schedule[|schedule| - 1])
  }

  lemma {:induction false} ExecConcat(cap: nat, s: State, a: seq<Label>, b: seq<Label>)
    ensures Exec(cap, s, a + b) == Exec(cap, Exec(cap, s, a), b)
  {
    if b == [] {
      assert a + b == a;
    } else {
      ExecConcat(cap, s, a, b[..|b| - 1]);
      assert (a + b)[..|a + b| - 1] == a + b[..|b| - 1];
    }
  }

  /** The records whose callback is due: written successfully and carrying one. */
  function DueCalls(written: seq<Output>): seq<Record> {
    if written == [] then [] else
      var last := written[|written| - 1];
      DueCalls(written[..|written| - 1])
        + (if last.success && last.record.callback != NoCallback then [last.record] else [])
  }

  // ---- The invariant ----

  /** The queue is the tail of the log. */
  ghost predicate QueueOk(cap: nat, s: State) {
    && 1 <= cap
    && |s.queue| <= cap
    && |s.queue| <= |s.log|
    && s.queue == s.log[s.Front()..]
  }

  /** Record i has the fate its number calls for. */
  ghost predicate FateOk(cap: nat, s: State, i: nat)
    requires |s.fate| == |s.log| && i < |s.log|
  {
    if i >= s.Front() then s.fate[i] == Queued
    else match s.fate[i]
      case Queued => false
      case InFlight => s.phase.Writing? && i == Last(s.pops)
      case Written => i in s.pops
      case Overwritten(pusher) => pusher == i + cap && pusher < |s.log|
      case Discarded => i < s.base
  }

  ghost predicate PopsOk(s: State)
    requires |s.fate| == |s.log| && |s.queue| <= |s.log|
  {
    && s.sessionPops <= |s.pops|
    && StrictlyIncreasing(s.pops)
    && (forall k | 0 <= k < |s.pops| :: s.pops[k] < s.Front())
    && (forall k | 0 <= k < |s.pops| :: s.base <= s.pops[k] <==> s.sessionPops <= k)
    && (forall k | 0 <= k < |s.pops| ::
          s.fate[s.pops[k]] == if s.phase.Writing? && k == |s.pops| - 1 then InFlight else Written)
  }

  ghost predicate OutputsOk(s: State)
    requires |s.fate| == |s.log| && |s.queue| <= |s.log| && PopsOk(s)
  {
    && |s.written| == |s.pops| - (if s.phase.Writing? then 1 else 0)
    && (forall k | 0 <= k < |s.written| :: s.written[k].record == s.log[s.pops[k]])
    && (s.phase.Writing? ==> |s.pops| > s.sessionPops && s.phase.record == s.log[Last(s.pops)])
    && DueCalls(s.written) == s.called + (if s.phase.Calling? then [s.phase.record] else [])
  }

  ghost predicate PhaseOk(s: State) {
    && !s.status.Uninitialized?
    && (s.phase.Halted? || s.phase.Starting? ==> s.status.Idle?)
    && (s.phase.Starting? ==> s.sessionPops == |s.pops|)
    && (s.phase.Calling? ==> s.phase.record.callback != NoCallback)
  }

  ghost predicate Inv(cap: nat, s: State) {
    && QueueOk(cap, s)
    && |s.fate| == |s.log|
    && s.base <= s.Front()
    && PhaseOk(s)
    && PopsOk(s)
    && OutputsOk(s)
    && (forall i | 0 <= i < |s.log| :: FateOk(cap, s, i))
  }

  lemma InitialInv(cap: nat)
    requires 1 <= cap
    ensures Inv(cap, INITIAL)
  {
  }

  lemma PushQueueOk(cap: nat, s: State, r: Record)
    requires QueueOk(cap, s)
    ensures var s' := Step(cap, s, Push(r));
      QueueOk(cap, s') && s'.Front() == s.Front() + (if |s.queue| == cap then 1 else 0)
  {
    var s' := Step(cap, s, Push(r));
    assert s'.queue == s'.log[s'.Front()..];
  }

  lemma PushInv(cap: nat, s: State, r: Record)
    requires Inv(cap, s)
    ensures Inv(cap, Step(cap, s, Push(r)))
  {
    PushQueueOk(cap, s, r);
    forall i | 0 <= i <= |s.log|
      ensures FateOk(cap, Step(cap, s, Push(r)), i)
    {
      PushFateOk(cap, s, r, i);
    }
  }

  lemma PushFateOk(cap: nat, s: State, r: Record, i: nat)
    requires Inv(cap, s) && i <= |s.log|
    ensures FateOk(cap, Step(cap, s, Push(r)), i)
  {
    assert i < |s.log| ==> FateOk(cap, s, i);
  }

  lemma InitInv(cap: nat, s: State)
    requires Inv(cap, s) && Enabled(s, Init)
    ensures Inv(cap, Step(cap, s, Init))
  {
    var s' := Step(cap, s, Init);
    forall i | 0 <= i < |s'.log|
      ensures FateOk(cap, s', i)
    {
      assert FateOk(cap, s, i);
    }
  }

  lemma PopInv(cap: nat, s: State)
    requires Inv(cap, s) && Enabled(s, Pop)
    ensures Inv(cap, Step(cap, s, Pop))
  {
    var s' := Step(cap, s, Pop);
    assert s'.queue == s'.log[s'.Front()..];
    PopOutputs(cap, s);
    forall i | 0 <= i < |s.log|
      ensures FateOk(cap, s', i)
    {
      PopFateOk(cap, s, i);
    }
  }

  lemma PopOutputs(cap: nat, s: State)
    requires QueueOk(cap, s) && |s.fate| == |s.log| && s.base <= s.Front() && Enabled(s, Pop)
    requires PopsOk(s) && OutputsOk(s)
    ensures PopsOk(Step(cap, s, Pop)) && OutputsOk(Step(cap, s, Pop))
  {
    var s' := Step(cap, s, Pop);
    assert s'.pops == s.pops + [s.Front()] && s.queue[0] == s.log[s.Front()];
    PopPops(cap, s);
  }

  lemma PopPops(cap: nat, s: State)
    requires QueueOk(cap, s) && |s.fate| == |s.log| && s.base <= s.Front() && Enabled(s, Pop) && PopsOk(s)
    ensures PopsOk(Step(cap, s, Pop))
  {
    var s' := Step(cap, s, Pop);
    forall k | 0 <= k < |s'.pops|
      ensures s'.pops[k] < s'.Front()
      ensures s'.base <= s'.pops[k] <==> s'.sessionPops <= k
      ensures s'.fate[s'.pops[k]] == if k == |s'.pops| - 1 then InFlight else Written
    {
      if k < |s.pops| {
        assert s'.pops[k] == s.pops[k] < s.Front();
      }
    }
  }

  lemma PopFateOk(cap: nat, s: State, i: nat)
    requires Inv(cap, s) && Enabled(s, Pop) && i < |s.log|
    ensures FateOk(cap, Step(cap, s, Pop), i)
  {
    assert FateOk(cap, s, i);
  }

  lemma WriteDoneInv(cap: nat, s: State, success: bool)
    requires Inv(cap, s) && Enabled(s, WriteDone(success))
    ensures Inv(cap, Step(cap, s, WriteDone(success)))
  {
    var s' := Step(cap, s, WriteDone(success));
    WriteDonePops(cap, s, success);
    WriteDoneOutputs(cap, s, success);
    forall i | 0 <= i < |s.log|
      ensures FateOk(cap, s', i)
    {
      WriteDoneFateOk(cap, s, success, i);
    }
  }

  lemma WriteDonePops(cap: nat, s: State, success: bool)
    requires |s.fate| == |s.log| && |s.queue| <= |s.log| && PopsOk(s)
    requires s.phase.Writing? && |s.pops| > s.sessionPops
    ensures PopsOk(Step(cap, s, WriteDone(success)))
  {
  }

  lemma WriteDoneOutputs(cap: nat, s: State, success: bool)
    requires |s.fate| == |s.log| && |s.queue| <= |s.log| && PopsOk(s) && OutputsOk(s) && s.phase.Writing?
    requires PopsOk(Step(cap, s, WriteDone(success)))
    ensures OutputsOk(Step(cap, s, WriteDone(success)))
  {
    var s' := Step(cap, s, WriteDone(success));
    assert s'.written[..|s'.written| - 1] == s.written;
  }

  lemma WriteDoneFateOk(cap: nat, s: State, success: bool, i: nat)
    requires Inv(cap, s) && Enabled(s, WriteDone(success)) && i < |s.log|
    ensures FateOk(cap, Step(cap, s, WriteDone(success)), i)
  {
    assert FateOk(cap, s, i);
  }

  /** A step that touches neither queue nor history keeps every record's fate. */
  lemma QuietInv(cap: nat, s: State, s': State)
    requires Inv(cap, s) && PhaseOk(s')
    requires s' == s.(status := s'.status, phase := s'.phase, called := s'.called)
    requires s'.phase.Writing? == s.phase.Writing? && (s.phase.Writing? ==> s'.phase == s.phase)
    requires DueCalls(s.written) == s'.called + (if s'.phase.Calling? then [s'.phase.record] else [])
    ensures Inv(cap, s')
  {
    forall i | 0 <= i < |s'.log|
      ensures FateOk(cap, s', i)
    {
      assert FateOk(cap, s, i);
    }
  }

  lemma StepInv(cap: nat, s: State, l: Label)
    requires Inv(cap, s)
    ensures Inv(cap, Step(cap, s, l))
  {
    if Enabled(s, l) {
      match l
      case Push(r) => PushInv(cap, s, r);
      case Init => InitInv(cap, s);
      case Pop => PopInv(cap, s);
      case WriteDone(success) => WriteDoneInv(cap, s, success);
      case _ => QuietInv(cap, s, Step(cap, s, l));
    }
  }

  lemma {:induction false} ExecInv(cap: nat, s: State, schedule: seq<Label>)
    requires Inv(cap, s)
    ensures Inv(cap, Exec(cap, s, schedule))
  {
    if schedule != [] {
      ExecInv(cap, s, schedule[..|schedule| - 1]);
      StepInv(cap, Exec(cap, s, schedule[..|schedule| - 1]), schedule[|schedule| - 1]);
    }
  }
}
