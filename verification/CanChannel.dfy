/**
 * The receiver thread and the write callback of can_channel.c over the atomic logger: one flag as the single credit
 * that lets one CAN record at a time into the queue.
 */
module CanChannel {
  import opened Sequences
  import opened Records
  import opened AtomicLogger

  /** The next action of can_rx: lines 46 (receive, test), 47, 48 and 49. */
  datatype ReceiverPc = Receiving | Testing | Clearing | CheckingStatus | Enqueuing

  /**
   * `flag` is can_message_written == SUCCESS. The counters record, for the statements below, CAN messages given up
   * because the logger was not running, and CAN records overwritten, discarded by a restart or failed to write.
   */
  datatype System = System(logger: State, flag: bool, receiver: ReceiverPc, unsent: nat, dropped: nat)

  /** `frame` is whether canReceive found a frame; other threads and the logger move by the logger's own labels. */
  datatype Move = Receiver(frame: bool) | Logger(move: Label)

  const START := System(INITIAL, true, Receiving, 0, 0)

  /** The static channel object has one id; the record points at the receiver's only frame buffer. */
  function CanRecord(id: nat): Record {
    Record(RxMessage, 2, id, CanWritten)
  }

  predicate IsCan(r: Record) {
    r.callback == CanWritten
  }

  /** write_callback is private to this file, so no one else queues a record with it. */
  predicate Allowed(l: Label) {
    l.Push? ==> !IsCan(l.record)
  }

  function CanIn(records: seq<Record>): nat {
    if records == [] then 0
    else CanIn(records[..|records| - 1]) + (if IsCan(records[|records| - 1]) then 1 else 0)
  }

  function InHand(phase: Phase): nat {
    match phase
    case Writing(r) => if IsCan(r) then 1 else 0
    case Calling(r) => if IsCan(r) then 1 else 0
    case _ => 0
  }

  /** CAN records queued, being written, or written and waiting for their callback. */
  function Pending(s: State): nat {
    CanIn(s.queue) + InHand(s.phase)
  }

  /** CAN records that the logger step gives up. */
  function Losses(cap: nat, s: State, l: Label): nat {
    match l
    case Push(_) => if |s.queue| == cap && s.queue != [] && IsCan(s.queue[0]) then 1 else 0
    case Init => if Enabled(s, Init) then CanIn(s.queue) else 0
    case WriteDone(success) => if s.phase.Writing? && !success then InHand(s.phase) else 0
    case _ => 0
  }

  /** write_callback: the flag after the callback of r. */
  function WriteCallback(data: Pointer): bool {
    data == RxMessage
  }

  function LoggerStep(cap: nat, s: System, l: Label): System {
    s.(logger := AtomicLogger.Step(cap, s.logger, l),
       flag := if l.CallDone? && s.logger.phase.Calling? && IsCan(s.logger.phase.record)
               then WriteCallback(s.logger.phase.record.data) else s.flag,
       dropped := s.dropped + Losses(cap, s.logger, l))
  }

  function Step(cap: nat, id: nat, s: System, m: Move): System {
    match m
    case Logger(l) => if Allowed(l) then LoggerStep(cap, s, l) else s
    case Receiver(frame) =>
      match s.receiver
      case Receiving => s.(receiver := if frame then Testing else Receiving)
      case Testing => s.(receiver := if s.flag then Clearing else Receiving)
      case Clearing => s.(flag := false, receiver := CheckingStatus)
      case CheckingStatus =>
        if s.logger.status.Running? then s.(receiver := Enqueuing)
        else s.(receiver := Receiving, unsent := s.unsent + 1)
      case Enqueuing => LoggerStep(cap, s, Push(CanRecord(id))).(receiver := Receiving)
  }

  function Exec(cap: nat, id: nat, s: System, schedule: seq<Move>): System {
    if schedule == [] then s
    else Step(cap, id, Exec(cap, id, s, schedule[..|schedule| - 1]), schedule[|schedule| - 1])
  }

  /** The one credit: in the flag, with the receiver, or with a record on its way through the logger. */
  function Credit(s: System): nat {
    (if s.flag then 1 else 0)
      + (if s.receiver.CheckingStatus? || s.receiver.Enqueuing? then 1 else 0)
      + Pending(s.logger)
  }

  ghost predicate PointsHome(r: Record) {
    IsCan(r) ==> r.data == RxMessage
  }

  ghost predicate Inv(cap: nat, s: System) {
    && 1 <= cap
    && |s.logger.queue| <= cap
    && Credit(s) + s.unsent + s.dropped == 1
    && CanIn(s.logger.log) == CanIn(s.logger.called) + Pending(s.logger) + s.dropped
    && (s.receiver.Clearing? ==> s.flag)
    && (forall i | 0 <= i < |s.logger.queue| :: PointsHome(s.logger.queue[i]))
    && (s.logger.phase.Writing? || s.logger.phase.Calling? ==> PointsHome(s.logger.phase.record))
  }

  lemma CanInSnoc(records: seq<Record>, r: Record)
    ensures CanIn(records + [r]) == CanIn(records) + (if IsCan(r) then 1 else 0)
  {
    assert (records + [r])[..|records|] == records;
  }

  lemma {:induction false} CanInFirst(records: seq<Record>)
    requires records != []
    ensures CanIn(records) == (if IsCan(records[0]) then 1 else 0) + CanIn(records[1..])
  {
    var front := records[..|records| - 1];
    if front != [] {
      CanInFirst(front);
      assert records[1..][..|records| - 2] == front[1..];
    } else {
      assert CanIn(front) == 0;
    }
  }

  /** A push adds its record and, on a full queue, gives up the oldest. */
  lemma PushPending(cap: nat, s: State, r: Record)
    requires 1 <= cap && |s.queue| <= cap
    ensures CanIn(AtomicLogger.Step(cap, s, Push(r)).queue) + Losses(cap, s, Push(r))
      == CanIn(s.queue) + (if IsCan(r) then 1 else 0)
    ensures CanIn(AtomicLogger.Step(cap, s, Push(r)).log) == CanIn(s.log) + (if IsCan(r) then 1 else 0)
  {
    CanInSnoc(s.queue, r);
    CanInSnoc(s.log, r);
    if |s.queue| == cap {
      CanInFirst(s.queue + [r]);
    }
  }

  lemma PushHome(cap: nat, s: State, r: Record)
    requires 1 <= cap && |s.queue| <= cap && PointsHome(r)
    requires forall i | 0 <= i < |s.queue| :: PointsHome(s.queue[i])
    ensures var queue := AtomicLogger.Step(cap, s, Push(r)).queue;
      |queue| <= cap && forall i | 0 <= i < |queue| :: PointsHome(queue[i])
  {
  }

  lemma PushInv(cap: nat, s: System, r: Record)
    requires Inv(cap, s) && !IsCan(r)
    ensures Inv(cap, LoggerStep(cap, s, Push(r)))
  {
    PushPending(cap, s.logger, r);
    PushHome(cap, s.logger, r);
  }

  lemma EnqueueInv(cap: nat, id: nat, s: System)
    requires Inv(cap, s) && s.receiver.Enqueuing?
    ensures Inv(cap, LoggerStep(cap, s, Push(CanRecord(id))).(receiver := Receiving))
  {
    PushPending(cap, s.logger, CanRecord(id));
    PushHome(cap, s.logger, CanRecord(id));
  }

  lemma ConsumerInv(cap: nat, s: System, l: Label)
    requires Inv(cap, s) && !l.Push?
    ensures Inv(cap, LoggerStep(cap, s, l))
  {
    if AtomicLogger.Enabled(s.logger, l) {
      match l
      case Pop => PopInv(cap, s);
      case CallDone => CallDoneInv(cap, s);
      case Init => InitInv(cap, s);
      case _ => OtherInv(cap, s, l);
    }
  }

  lemma PopInv(cap: nat, s: System)
    requires Inv(cap, s) && AtomicLogger.Enabled(s.logger, Pop)
    ensures Inv(cap, LoggerStep(cap, s, Pop))
  {
    CanInFirst(s.logger.queue);
  }

  lemma CallDoneInv(cap: nat, s: System)
    requires Inv(cap, s) && AtomicLogger.Enabled(s.logger, CallDone)
    ensures Inv(cap, LoggerStep(cap, s, CallDone))
  {
    CanInSnoc(s.logger.called, s.logger.phase.record);
  }

  lemma InitInv(cap: nat, s: System)
    requires Inv(cap, s) && AtomicLogger.Enabled(s.logger, Init)
    ensures Inv(cap, LoggerStep(cap, s, Init))
  {
    assert CanIn([]) == 0;
  }

  lemma OtherInv(cap: nat, s: System, l: Label)
    requires Inv(cap, s) && AtomicLogger.Enabled(s.logger, l)
    requires !l.Push? && !l.Pop? && !l.CallDone? && !l.Init?
    ensures Inv(cap, LoggerStep(cap, s, l))
  {
  }

  lemma StepInv(cap: nat, id: nat, s: System, m: Move)
    requires Inv(cap, s)
    ensures Inv(cap, Step(cap, id, s, m))
  {
    match m
    case Logger(l) =>
      if Allowed(l) {
        if l.Push? {
          PushInv(cap, s, l.record);
        } else {
          ConsumerInv(cap, s, l);
        }
      }
    case Receiver(_) =>
      if s.receiver.Enqueuing? {
        EnqueueInv(cap, id, s);
      }
  }

  lemma {:induction false} ExecInv(cap: nat, id: nat, s: System, schedule: seq<Move>)
    requires Inv(cap, s)
    ensures Inv(cap, Exec(cap, id, s, schedule))
  {
    if schedule != [] {
      ExecInv(cap, id, s, schedule[..|schedule| - 1]);
      StepInv(cap, id, Exec(cap, id, s, schedule[..|schedule| - 1]), schedule[|schedule| - 1]);
    }
  }

  lemma StartInv(cap: nat)
    requires 1 <= cap
    ensures Inv(cap, START)
  {
    FreshInv(cap, START);
  }

  lemma FreshInv(cap: nat, s: System)
    requires 1 <= cap && s.flag && s.receiver.Receiving? && s.unsent == 0 && s.dropped == 0
    requires s.logger.queue == [] && s.logger.log == [] && s.logger.called == [] && s.logger.phase.Halted?
    ensures Inv(cap, s)
  {
  }

  ghost predicate Reachable(cap: nat, id: nat, s: System) {
    1 <= cap && exists schedule :: s == Exec(cap, id, START, schedule)
  }

  lemma ReachableInv(cap: nat, id: nat, s: System)
    requires Reachable(cap, id, s)
    ensures Inv(cap, s)
  {
    var schedule :| s == Exec(cap, id, START, schedule);
    StartInv(cap);
    ExecInv(cap, id, START, schedule);
  }

  /**
   * The credit is never duplicated, and it is gone exactly when one message has been given up because the logger was
   * not running, or one CAN record has been overwritten, discarded by a restart, or failed to write.
   */
  lemma CreditConserved(cap: nat, id: nat, s: System)
    requires Reachable(cap, id, s)
    ensures Credit(s) + s.unsent + s.dropped == 1
  {
    ReachableInv(cap, id, s);
  }

  /** At most one CAN record is in the logger at any time, and none while the flag reads SUCCESS. */
  lemma SingleCredit(cap: nat, id: nat, s: System)
    requires Reachable(cap, id, s)
    ensures Pending(s.logger) <= 1
    ensures s.flag ==> Pending(s.logger) == 0
  {
    ReachableInv(cap, id, s);
  }

  /** Between its test of the flag and its store no other thread can change the flag. */
  lemma TestAndStoreDoNotRace(cap: nat, id: nat, s: System, l: Label)
    requires Reachable(cap, id, s) && s.receiver.Clearing?
    ensures s.flag && Step(cap, id, s, Logger(l)).flag
  {
    ReachableInv(cap, id, s);
  }

  /** write_callback is only ever called with the receiver's own buffer, so it never takes its FAIL branch. */
  lemma CallbackGetsItsBuffer(cap: nat, id: nat, s: System)
    requires Reachable(cap, id, s) && s.logger.phase.Calling? && IsCan(s.logger.phase.record)
    ensures Step(cap, id, s, Logger(CallDone)).flag && !s.flag
  {
    ReachableInv(cap, id, s);
  }

  /** The receiver is at most one record ahead of the callbacks: each CAN record is called back before the next. */
  lemma OneAheadOfCallbacks(cap: nat, id: nat, s: System)
    requires Reachable(cap, id, s)
    ensures CanIn(s.logger.called) <= CanIn(s.logger.log) <= CanIn(s.logger.called) + 1
  {
    ReachableInv(cap, id, s);
  }

  /**
   * The move does not use up the credit: no message finds the logger not running, and no CAN record is overwritten,
   * discarded by a restart, or refused by _write.
   */
  predicate Keeps(cap: nat, id: nat, s: System, m: Move) {
    match m
    case Logger(l) => Allowed(l) ==> Losses(cap, s.logger, l) == 0
    case Receiver(_) =>
      && (s.receiver.CheckingStatus? ==> s.logger.status.Running?)
      && (s.receiver.Enqueuing? ==> Losses(cap, s.logger, Push(CanRecord(id))) == 0)
  }

  ghost predicate KeepsAt(cap: nat, id: nat, schedule: seq<Move>, i: nat)
    requires i < |schedule|
  {
    Keeps(cap, id, Exec(cap, id, START, schedule[..i]), schedule[i])
  }

  lemma KeepsStep(cap: nat, id: nat, s: System, m: Move)
    ensures var s' := Step(cap, id, s, m);
      && s'.unsent + s'.dropped >= s.unsent + s.dropped
      && (s'.unsent + s'.dropped == s.unsent + s.dropped <==> Keeps(cap, id, s, m))
  {
  }

  lemma {:induction false} GivenUp(cap: nat, id: nat, schedule: seq<Move>)
    ensures var t := Exec(cap, id, START, schedule);
      t.unsent + t.dropped == 0 <==> forall i | 0 <= i < |schedule| :: KeepsAt(cap, id, schedule, i)
  {
    if schedule != [] {
      var n := |schedule| - 1;
      var front := schedule[..n];
      GivenUp(cap, id, front);
      KeepsStep(cap, id, Exec(cap, id, START, front), schedule[n]);
      assert forall i | 0 <= i < n :: front[..i] == schedule[..i];
      assert forall i | 0 <= i < n :: KeepsAt(cap, id, front, i) <==> KeepsAt(cap, id, schedule, i);
      assert KeepsAt(cap, id, schedule, n) <==> Keeps(cap, id, Exec(cap, id, START, front), schedule[n]);
    }
  }

  /** For every run the credit is still there if and only if none of its moves used it up. */
  lemma CreditKeptIff(cap: nat, id: nat, schedule: seq<Move>)
    requires 1 <= cap
    ensures var t := Exec(cap, id, START, schedule);
      && Credit(t) <= 1
      && (Credit(t) == 1 <==> forall i | 0 <= i < |schedule| :: KeepsAt(cap, id, schedule, i))
  {
    StartInv(cap);
    ExecInv(cap, id, START, schedule);
    GivenUp(cap, id, schedule);
  }

  /** Once the credit is gone it stays gone: no CAN record is ever queued again and the flag stays FAIL. */
  lemma {:induction false} LostCreditStaysLost(cap: nat, id: nat, s: System, schedule: seq<Move>)
    requires Inv(cap, s) && Credit(s) == 0
    ensures var t := Exec(cap, id, s, schedule);
      Credit(t) == 0 && !t.flag && CanIn(t.logger.log) == CanIn(s.logger.log)
  {
    if schedule != [] {
      var front, last := schedule[..|schedule| - 1], schedule[|schedule| - 1];
      LostCreditStaysLost(cap, id, s, front);
      ExecInv(cap, id, s, front);
      DeadStep(cap, id, Exec(cap, id, s, front), last);
    }
  }

  lemma DeadStep(cap: nat, id: nat, s: System, m: Move)
    requires Inv(cap, s) && Credit(s) == 0
    ensures Credit(Step(cap, id, s, m)) == 0
    ensures CanIn(Step(cap, id, s, m).logger.log) == CanIn(s.logger.log)
  {
    StepInv(cap, id, s, m);
    if m.Logger? && m.move.Push? {
      PushPending(cap, s.logger, m.move.record);
    }
  }

  lemma ExecSnoc(cap: nat, id: nat, s: System, schedule: seq<Move>, m: Move)
    ensures Exec(cap, id, s, schedule + [m]) == Step(cap, id, Exec(cap, id, s, schedule), m)
  {
    assert (schedule + [m])[..|schedule|] == schedule;
  }

  lemma {:induction false} ExecCons(cap: nat, id: nat, s: System, m: Move, rest: seq<Move>)
    ensures Exec(cap, id, s, [m] + rest) == Exec(cap, id, Step(cap, id, s, m), rest)
  {
    if rest == [] {
      assert [m] + rest == [m] && [m][..0] == [];
    } else {
      ExecCons(cap, id, s, m, rest[..|rest| - 1]);
      assert ([m] + rest)[..|rest|] == [m] + rest[..|rest| - 1];
    }
  }

  /** n moves of the receiver, with frames waiting. */
  function Receive(cap: nat, id: nat, s: System, n: nat): System
    decreases n
  {
    if n == 0 then s else Receive(cap, id, Step(cap, id, s, Receiver(true)), n - 1)
  }

  function Receives(n: nat, rest: seq<Move>): seq<Move> {
    if n == 0 then rest else [Receiver(true)] + Receives(n - 1, rest)
  }

  lemma {:induction false} ExecReceives(cap: nat, id: nat, s: System, n: nat, rest: seq<Move>)
    ensures Exec(cap, id, s, Receives(n, rest)) == Exec(cap, id, Receive(cap, id, s, n), rest)
    decreases n
  {
    if n > 0 {
      ExecCons(cap, id, s, Receiver(true), Receives(n - 1, rest));
      ExecReceives(cap, id, Step(cap, id, s, Receiver(true)), n - 1, rest);
    }
  }

  lemma {:induction false} ReceiveInv(cap: nat, id: nat, s: System, n: nat)
    requires Inv(cap, s)
    ensures Inv(cap, Receive(cap, id, s, n))
    decreases n
  {
    if n > 0 {
      StepInv(cap, id, s, Receiver(true));
      ReceiveInv(cap, id, Step(cap, id, s, Receiver(true)), n - 1);
    }
  }

  /**
   * One frame: with the flag set and the logger running, five moves of the receiver queue exactly one record, the two
   * bytes of the frame buffer under the channel's id with the write callback, and leave the flag at FAIL.
   */
  lemma FrameQueued(cap: nat, id: nat, s: System)
    requires s.flag && s.receiver.Receiving? && s.logger.status.Running?
    ensures var t, r := Receive(cap, id, s, 5), Record(RxMessage, 2, id, CanWritten);
      && t.logger.log == s.logger.log + [r] && t.logger.queue == KeepLast(s.logger.queue + [r], cap)
      && t.logger.written == s.logger.written && t.logger.called == s.logger.called
      && t.logger.status == s.logger.status && t.logger.phase == s.logger.phase
      && !t.flag && t.receiver.Receiving? && t.unsent == s.unsent
  {
    var s1 := Step(cap, id, s, Receiver(true));
    var s2 := Step(cap, id, s1, Receiver(true));
    var s3 := Step(cap, id, s2, Receiver(true));
    var s4 := Step(cap, id, s3, Receiver(true));
    assert s4 == s.(flag := false, receiver := Enqueuing);
    assert Receive(cap, id, s, 5) == Receive(cap, id, s4, 1) by {
      assert Receive(cap, id, s, 5) == Receive(cap, id, s1, 4) == Receive(cap, id, s2, 3) == Receive(cap, id, s3, 2);
    }
    assert Receive(cap, id, s4, 1) == Receive(cap, id, Step(cap, id, s4, Receiver(true)), 0);
  }

  /** Without a frame, or while the flag reads FAIL, the receiver goes back to wait and touches nothing. */
  lemma NothingQueued(cap: nat, id: nat, s: System)
    requires s.receiver.Receiving?
    ensures Step(cap, id, s, Receiver(false)) == s
    ensures !s.flag ==> Receive(cap, id, s, 2) == s
  {
    var s1 := Step(cap, id, s, Receiver(true));
    if !s.flag {
      var s2 := Step(cap, id, s1, Receiver(true));
      assert s2 == s;
      assert Receive(cap, id, s, 2) == Receive(cap, id, s1, 1) == Receive(cap, id, s2, 0);
    }
  }

  ghost predicate RightRecord(id: nat, r: Record) {
    r.callback == CanWritten ==> r == Record(RxMessage, 2, id, CanWritten)
  }

  /** Whatever has been queued with the write callback is the record of the receiver's frame buffer. */
  ghost predicate RightRecords(id: nat, log: seq<Record>) {
    forall i | 0 <= i < |log| :: RightRecord(id, log[i])
  }

  lemma RightRecordsStep(cap: nat, id: nat, s: System, m: Move)
    requires RightRecords(id, s.logger.log)
    ensures RightRecords(id, Step(cap, id, s, m).logger.log)
  {
  }

  lemma {:induction false} RecordsAreRight(cap: nat, id: nat, schedule: seq<Move>)
    ensures RightRecords(id, Exec(cap, id, START, schedule).logger.log)
  {
    if schedule != [] {
      var front, last := schedule[..|schedule| - 1], schedule[|schedule| - 1];
      RecordsAreRight(cap, id, front);
      RightRecordsStep(cap, id, Exec(cap, id, START, front), last);
    }
  }

  /** The logger's threads change the flag by callbacks of CAN records only: SUCCESS for the frame buffer, else FAIL. */
  lemma FlagAfter(cap: nat, id: nat, s: System, l: Label)
    requires l.Push? ==> l.record.callback != CanWritten
    ensures Step(cap, id, s, Logger(l)).flag ==
      if l.CallDone? && s.logger.phase.Calling? && s.logger.phase.record.callback == CanWritten
      then s.logger.phase.record.data == RxMessage
      else s.flag
    ensures Step(cap, id, s, Logger(l)).logger == AtomicLogger.Step(cap, s.logger, l)
    ensures Step(cap, id, s, Logger(l)).receiver == s.receiver
  {
  }

  /** A frame that finds the logger not running takes the credit and queues nothing. */
  lemma IdleFrame(cap: nat, id: nat, s: System)
    requires s.flag && s.receiver.Receiving? && !s.logger.status.Running?
    ensures Receive(cap, id, s, 4) == s.(flag := false, unsent := s.unsent + 1)
  {
    var s1 := Step(cap, id, s, Receiver(true));
    var s2 := Step(cap, id, s1, Receiver(true));
    var s3 := Step(cap, id, s2, Receiver(true));
    assert s3 == s.(flag := false, receiver := CheckingStatus);
    var s4 := Step(cap, id, s3, Receiver(true));
    assert Receive(cap, id, s3, 1) == Receive(cap, id, s4, 0) == s4;
    assert Receive(cap, id, s, 4) == Receive(cap, id, s1, 3) == Receive(cap, id, s2, 2) == Receive(cap, id, s3, 1);
  }

  lemma AfterInit(cap: nat, id: nat)
    requires 1 <= cap
    ensures var s := Step(cap, id, START, Logger(Init));
      && Inv(cap, s) && s.flag && s.receiver.Receiving? && s.logger.phase.Starting? && !s.logger.status.Running?
      && s.logger.log == [] && s.unsent == 0
  {
    StartInv(cap);
    StepInv(cap, id, START, Logger(Init));
  }

  /**
   * The receiver thread is launched between cb_init and RUNNING. A frame that arrives in between disables the channel:
   * whatever follows, no CAN record is ever queued and the flag stays FAIL.
   */
  lemma EarlyFrameDisables(cap: nat, id: nat, schedule: seq<Move>)
    requires 1 <= cap
    ensures var t := Exec(cap, id, START, [Logger(Init)] + Receives(4, schedule));
      !t.flag && CanIn(t.logger.log) == 0
  {
    var s := Step(cap, id, START, Logger(Init));
    ExecCons(cap, id, START, Logger(Init), Receives(4, schedule));
    ExecReceives(cap, id, s, 4, schedule);
    AfterInit(cap, id);
    ReceiveInv(cap, id, s, 4);
    IdleFrame(cap, id, s);
    LostCreditStaysLost(cap, id, Receive(cap, id, s, 4), schedule);
  }
}
