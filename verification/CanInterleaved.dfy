/**
 * The CAN receiver and the write callback at every interleaving of the code: can_rx is the thread that calls
 * logger_write_async as producer 0 of the micro logger, one assignment at a time.
 */
module CanInterleaved {
  import opened Sequences
  import opened Records
  import opened MicroLogger
  import opened Refinement
  import opened Uninterrupted
  import Atomic = AtomicLogger
  import Can = CanChannel

  /** `receiver` is the next action of can_rx; while producer 0 is inside logger_write_async it waits for its return. */
  datatype System = System(micro: State, flag: bool, receiver: Can.ReceiverPc)

  datatype Move = Receiver(frame: bool) | Thread(move: Label)

  /** The call of logger_write_async is the receiver's; write_callback is private, so no one else queues it. */
  predicate Allowed(l: Label) {
    l.Call? ==> l.p != 0 && !Can.IsCan(l.record)
  }

  /** The callback of this step, if it is one of a CAN record. */
  predicate CallsBack(s: State, l: Label) {
    l.Consumer? && Enabled(s, l) && s.consumer.CCall? && s.temp.Some? && Can.IsCan(s.temp.value)
  }

  function ThreadStep(cfg: Config, s: System, l: Label): System {
    s.(micro := MicroLogger.Step(cfg, s.micro, l),
       flag := if CallsBack(s.micro, l) then Can.WriteCallback(s.micro.temp.value.data) else s.flag)
  }

  predicate Returned(s: State) {
    s.producers != [] && s.producers[0].PReady?
  }

  function Step(cfg: Config, id: nat, s: System, m: Move): System {
    match m
    case Thread(l) => if Allowed(l) then ThreadStep(cfg, s, l) else s
    case Receiver(frame) =>
      if !Returned(s.micro) then s else
      match s.receiver
      case Receiving => s.(receiver := if frame then Can.Testing else Can.Receiving)
      case Testing => s.(receiver := if s.flag then Can.Clearing else Can.Receiving)
      case Clearing => s.(flag := false, receiver := Can.CheckingStatus)
      case CheckingStatus => s.(receiver := if s.micro.status.Running? then Can.Enqueuing else Can.Receiving)
      case Enqueuing =>
        s.(micro := MicroLogger.Step(cfg, s.micro, Call(0, Can.CanRecord(id))), receiver := Can.Receiving)
  }

  function Exec(cfg: Config, id: nat, s: System, schedule: seq<Move>): System {
    if schedule == [] then s
    else Step(cfg, id, Exec(cfg, id, s, schedule[..|schedule| - 1]), schedule[|schedule| - 1])
  }

  ghost predicate Starts(cfg: Config, s: System) {
    cfg.Valid() && Initial(cfg, s.micro) && s.micro.producers != [] && s.flag && s.receiver.Receiving?
  }

  // ---- The atomic system behind it ----

  predicate Carries(pc: ProducerPc) {
    pc.PLock? || pc.PStore?
  }

  /** Where the atomic receiver is: it queues its record at the store. */
  function ReceiverOf(s: System): Can.ReceiverPc
    requires s.micro.producers != []
  {
    if Carries(s.micro.producers[0]) then Can.Enqueuing else s.receiver
  }

  /** Only producer 0, called by the receiver, carries a CAN record towards the ring. */
  ghost predicate CarriesRightly(id: nat, s: State, p: nat)
    requires p < |s.producers|
  {
    Carries(s.producers[p]) ==>
      if p == 0 then s.producers[p].record == Can.CanRecord(id) else !Can.IsCan(s.producers[p].record)
  }

  ghost predicate Producers(id: nat, s: System) {
    && s.micro.producers != []
    && (!s.micro.producers[0].PReady? ==> s.receiver.Receiving?)
    && (forall p | 0 <= p < |s.micro.producers| :: CarriesRightly(id, s.micro, p))
  }

  ghost predicate Coupled(cfg: Config, id: nat, s: System, a: Can.System) {
    && Simulates(cfg, s.micro, a.logger)
    && Producers(id, s)
    && a.flag == s.flag
    && a.receiver == ReceiverOf(s)
    && Can.Inv(cfg.cap, a)
  }

  lemma ThreadProducers(cfg: Config, id: nat, s: System, l: Label)
    requires Producers(id, s) && Allowed(l)
    ensures Producers(id, ThreadStep(cfg, s, l))
  {
    var s' := ThreadStep(cfg, s, l);
    forall p | 0 <= p < |s'.micro.producers|
      ensures CarriesRightly(id, s'.micro, p)
    {
      assert CarriesRightly(id, s.micro, p);
    }
  }

  /** A step that stores nothing stands for at most one atomic step that is not a push. */
  lemma OtherMatching(s: State, l: Label)
    requires !(l.Producer? && Enabled(s, l) && s.producers[l.p].PStore?)
    ensures forall i | 0 <= i < |Matching(s, l)| :: !Matching(s, l)[i].Push?
  {
  }

  lemma FlagAgrees(cfg: Config, s: State, a: Atomic.State, l: Label)
    requires Simulates(cfg, s, a)
    ensures CallsBack(s, l) ==>
      && Matching(s, l) == [Atomic.CallDone]
      && a.phase.Calling? && a.phase.record == s.temp.value
    ensures Matching(s, l) == [Atomic.CallDone] && a.phase.Calling? && Can.IsCan(a.phase.record) ==> CallsBack(s, l)
  {
  }

  lemma StoreCoupled(cfg: Config, id: nat, s: System, a: Can.System, p: nat) returns (m: Can.Move)
    requires Coupled(cfg, id, s, a) && Enabled(s.micro, Producer(p)) && s.micro.producers[p].PStore?
    ensures Coupled(cfg, id, ThreadStep(cfg, s, Producer(p)), Can.Step(cfg.cap, id, a, m))
  {
    MatchingStep(cfg, s.micro, a.logger, Producer(p));
    ThreadProducers(cfg, id, s, Producer(p));
    assert CarriesRightly(id, s.micro, p);
    var record := s.micro.producers[p].record;
    m := if p == 0 then Can.Receiver(true) else Can.Logger(Atomic.Push(record));
    Can.StepInv(cfg.cap, id, a, m);
  }

  lemma OtherReceiver(cfg: Config, s: System, l: Label)
    requires s.micro.producers != [] && Allowed(l)
    requires !(l.Producer? && Enabled(s.micro, l) && s.micro.producers[l.p].PStore?)
    ensures ThreadStep(cfg, s, l).micro.producers != []
    ensures ReceiverOf(ThreadStep(cfg, s, l)) == ReceiverOf(s)
  {
  }

  /** At most one move of the atomic system. */
  ghost predicate Answers(cfg: Config, id: nat, s: System, a: Can.System, moves: seq<Can.Move>) {
    |moves| <= 1 && Coupled(cfg, id, s, if moves == [] then a else Can.Step(cfg.cap, id, a, moves[0]))
  }

  lemma OtherCoupled(cfg: Config, id: nat, s: System, a: Can.System, l: Label) returns (moves: seq<Can.Move>)
    requires Coupled(cfg, id, s, a) && Allowed(l)
    requires !(l.Producer? && Enabled(s.micro, l) && s.micro.producers[l.p].PStore?)
    ensures Answers(cfg, id, ThreadStep(cfg, s, l), a, moves)
  {
    MatchingStep(cfg, s.micro, a.logger, l);
    MatchingIsOne(s.micro, l);
    ThreadProducers(cfg, id, s, l);
    OtherReceiver(cfg, s, l);
    OtherMatching(s.micro, l);
    FlagAgrees(cfg, s.micro, a.logger, l);
    if Matching(s.micro, l) == [] {
      moves := [];
    } else {
      var step := Matching(s.micro, l)[0];
      assert Matching(s.micro, l) == [step];
      Can.StepInv(cfg.cap, id, a, Can.Logger(step));
      moves := [Can.Logger(step)];
    }
  }

  lemma ReceiverCoupled(cfg: Config, id: nat, s: System, a: Can.System, frame: bool) returns (moves: seq<Can.Move>)
    requires Coupled(cfg, id, s, a)
    ensures Answers(cfg, id, Step(cfg, id, s, Receiver(frame)), a, moves)
  {
    moves := [];
    if Returned(s.micro) {
      if s.receiver.Enqueuing? {
        CallCoupled(cfg, id, s, a);
      } else {
        Can.StepInv(cfg.cap, id, a, Can.Receiver(frame));
        moves := [Can.Receiver(frame)];
      }
    }
  }

  lemma CallCoupled(cfg: Config, id: nat, s: System, a: Can.System)
    requires Coupled(cfg, id, s, a) && Returned(s.micro) && s.receiver.Enqueuing?
    ensures Coupled(cfg, id, Step(cfg, id, s, Receiver(true)), a)
  {
    CallRefines(cfg, s.micro, a.logger, 0, Can.CanRecord(id));
    var s' := Step(cfg, id, s, Receiver(true));
    forall p | 0 <= p < |s'.micro.producers|
      ensures CarriesRightly(id, s'.micro, p)
    {
      assert CarriesRightly(id, s.micro, p);
    }
  }

  lemma MoveCoupled(cfg: Config, id: nat, s: System, a: Can.System, m: Move) returns (moves: seq<Can.Move>)
    requires Coupled(cfg, id, s, a)
    ensures Answers(cfg, id, Step(cfg, id, s, m), a, moves)
  {
    moves := [];
    match m
    case Receiver(frame) => moves := ReceiverCoupled(cfg, id, s, a, frame);
    case Thread(l) =>
      if Allowed(l) {
        if l.Producer? && Enabled(s.micro, l) && s.micro.producers[l.p].PStore? {
          var move := StoreCoupled(cfg, id, s, a, l.p);
          moves := [move];
        } else {
          moves := OtherCoupled(cfg, id, s, a, l);
        }
      }
  }

  lemma {:induction false} RunCoupled(cfg: Config, id: nat, s: System, schedule: seq<Move>)
    returns (moves: seq<Can.Move>)
    requires Starts(cfg, s)
    ensures Coupled(cfg, id, Exec(cfg, id, s, schedule), Can.Exec(cfg.cap, id, Can.START, moves))
  {
    if schedule == [] {
      moves := [];
      StartCoupled(cfg, id, s);
    } else {
      var front, last := schedule[..|schedule| - 1], schedule[|schedule| - 1];
      moves := RunCoupled(cfg, id, s, front);
      var more := MoveCoupled(cfg, id, Exec(cfg, id, s, front), Can.Exec(cfg.cap, id, Can.START, moves), last);
      if more != [] {
        Can.ExecSnoc(cfg.cap, id, Can.START, moves, more[0]);
        moves := moves + [more[0]];
      }
    }
  }

  /** Every interleaving is matched by a run of the receiver and the atomic logger with the same flag and history. */
  lemma RunsRefine(cfg: Config, id: nat, s: System, schedule: seq<Move>)
    requires Starts(cfg, s)
    ensures exists moves :: Coupled(cfg, id, Exec(cfg, id, s, schedule), Can.Exec(cfg.cap, id, Can.START, moves))
  {
    var moves := RunCoupled(cfg, id, s, schedule);
  }

  lemma StartCoupled(cfg: Config, id: nat, s: System)
    requires Starts(cfg, s)
    ensures Coupled(cfg, id, s, Can.START)
  {
    InitialSimulates(cfg, s.micro);
    StartProducers(cfg, id, s);
    Can.StartInv(cfg.cap);
  }

  lemma StartProducers(cfg: Config, id: nat, s: System)
    requires Starts(cfg, s)
    ensures Producers(id, s) && ReceiverOf(s) == Can.Receiving
  {
    forall p | 0 <= p < |s.micro.producers|
      ensures s.micro.producers[p].PReady? && CarriesRightly(id, s.micro, p)
    {
    }
  }

  // ---- What holds at every interleaving ----

  /** CAN records in the ring, being written, or waiting for their callback, read off the fields. */
  ghost function Pending(cfg: Config, s: State): nat
    requires Inv(cfg, s)
  {
    Can.CanIn(Contents(cfg, s)) + Can.InHand(PhaseOf(s))
  }

  /**
   * At every interleaving at most one CAN record is in the logger, none while the flag reads SUCCESS or the receiver
   * is about to store FAIL, and the records queued are at most one ahead of the callbacks run.
   */
  lemma SingleCredit(cfg: Config, id: nat, s: System, schedule: seq<Move>)
    requires Starts(cfg, s)
    ensures var t := Exec(cfg, id, s, schedule);
      && Inv(cfg, t.micro) && Pending(cfg, t.micro) <= 1
      && (t.flag ==> Pending(cfg, t.micro) == 0)
      && (t.receiver.Clearing? ==> t.flag)
      && Can.CanIn(t.micro.trace.called) <= Can.CanIn(t.micro.trace.log) <= Can.CanIn(t.micro.trace.called) + 1
  {
    var moves := RunCoupled(cfg, id, s, schedule);
    CoupledCredit(cfg, id, Exec(cfg, id, s, schedule), Can.Exec(cfg.cap, id, Can.START, moves));
  }

  lemma CoupledCredit(cfg: Config, id: nat, s: System, a: Can.System)
    requires Coupled(cfg, id, s, a)
    ensures Pending(cfg, s.micro) <= 1
    ensures s.flag ==> Pending(cfg, s.micro) == 0
    ensures s.receiver.Clearing? ==> s.flag
    ensures Can.CanIn(s.micro.trace.called) <= Can.CanIn(s.micro.trace.log) <= Can.CanIn(s.micro.trace.called) + 1
  {
    assert Pending(cfg, s.micro) == Can.Pending(a.logger);
    assert s.receiver.Clearing? ==> s.micro.producers[0].PReady?;
  }

  /** The other threads move as in the code; their producers may queue anything but the private callback. */
  lemma ThreadsMove(cfg: Config, id: nat, s: System, l: Label)
    requires l.Call? ==> l.p != 0 && l.record.callback != CanWritten
    ensures var t := Step(cfg, id, s, Thread(l));
      t.micro == MicroLogger.Step(cfg, s.micro, l) && t.receiver == s.receiver
  {
  }

  // ---- What is queued ----

  /** At every interleaving, a logged record with the write callback is the one of the receiver's frame buffer. */
  lemma RecordsAreRight(cfg: Config, id: nat, s: System, schedule: seq<Move>)
    requires Starts(cfg, s)
    ensures Can.RightRecords(id, Exec(cfg, id, s, schedule).micro.trace.log)
  {
    var moves := RunCoupled(cfg, id, s, schedule);
    Can.RecordsAreRight(cfg.cap, id, moves);
  }

  function Receive(cfg: Config, id: nat, s: System, n: nat): System
    decreases n
  {
    if n == 0 then s else Receive(cfg, id, Step(cfg, id, s, Receiver(true)), n - 1)
  }

  /** Five moves of the receiver with a frame waiting enter logger_write_async with this record. */
  lemma FrameCalls(cfg: Config, id: nat, s: System)
    requires Returned(s.micro) && s.flag && s.receiver.Receiving? && s.micro.status.Running?
    ensures Receive(cfg, id, s, 5) ==
      System(MicroLogger.Step(cfg, s.micro, Call(0, Record(RxMessage, 2, id, CanWritten))), false, Can.Receiving)
  {
    var s1 := Step(cfg, id, s, Receiver(true));
    var s2 := Step(cfg, id, s1, Receiver(true));
    var s3 := Step(cfg, id, s2, Receiver(true));
    var s4 := Step(cfg, id, s3, Receiver(true));
    assert s4 == s.(flag := false, receiver := Can.Enqueuing);
    assert Receive(cfg, id, s, 5) == Receive(cfg, id, s4, 1) by {
      assert Receive(cfg, id, s, 5) == Receive(cfg, id, s1, 4) == Receive(cfg, id, s2, 3) == Receive(cfg, id, s3, 2);
    }
    assert Receive(cfg, id, s4, 1) == Receive(cfg, id, Step(cfg, id, s4, Receiver(true)), 0);
  }

  lemma {:induction false} ThreadRun(cfg: Config, id: nat, s: System, p: nat, n: nat)
    ensures Exec(cfg, id, s, seq(n, _ => Thread(Producer(p))))
      == s.(micro := MicroLogger.Exec(cfg, s.micro, Repeat(Producer(p), n)))
  {
    if n == 0 {
      OneMore(cfg, s.micro, Producer(p), 0);
    } else {
      ThreadRun(cfg, id, s, p, n - 1);
      OneMore(cfg, s.micro, Producer(p), n - 1);
      assert seq(n, _ => Thread(Producer(p)))[..n - 1] == seq(n - 1, _ => Thread(Producer(p)));
    }
  }

  /** So a frame received on a running logger, with the flag set and the lock free, adds exactly its record. */
  lemma FrameQueued(cfg: Config, id: nat, s: System)
    requires Quiet(cfg, s.micro) && Returned(s.micro) && s.flag && s.receiver.Receiving? && s.micro.status.Running?
    ensures var t := Exec(cfg, id, Receive(cfg, id, s, 5), seq(7, _ => Thread(Producer(0))));
      var r := Record(RxMessage, 2, id, CanWritten);
      && Quiet(cfg, t.micro) && Returned(t.micro) && !t.flag
      && t.micro.trace == s.micro.trace.(log := s.micro.trace.log + [r])
      && Contents(cfg, t.micro) == KeepLast(Contents(cfg, s.micro) + [r], cfg.cap)
  {
    FrameCalls(cfg, id, s);
    ThreadRun(cfg, id, Receive(cfg, id, s, 5), 0, 7);
    CallCompletes(cfg, s.micro, 0, Record(RxMessage, 2, id, CanWritten));
  }
}
