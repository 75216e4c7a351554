/**
 * Registry and queue together: a record queued under a registered id still resolves to that channel when it is
 * written, although registration and the queue share nothing but the logger's status.
 */
module Names {
  import opened Sequences
  import opened Records
  import opened AtomicLogger
  import Reg = Registry

  datatype System<!C> = System(logger: State, registry: Reg.State<C>)

  datatype Move<!C> = Register(c: C) | Unregister(c: C) | Logger(move: Label)

  ghost function Step<C>(cap: nat, s: System<C>, m: Move<C>): System<C> {
    match m
    case Register(c) =>
      if s.registry.WellFormed() && c in s.registry.ids
      then s.(registry := Reg.Register(s.registry, c).0) else s
    case Unregister(c) =>
      if s.registry.WellFormed() && c in s.registry.ids && Reg.ShiftDefined(s.registry, c)
      then s.(registry := Reg.Unregister(s.registry, c)) else s
    case Logger(l) =>
      var logger := AtomicLogger.Step(cap, s.logger, l);
      System(logger, s.registry.(status := logger.status))
  }

  ghost function Exec<C>(cap: nat, s: System<C>, schedule: seq<Move<C>>): System<C> {
    if schedule == [] then s
    else Step(cap, Exec(cap, s, schedule[..|schedule| - 1]), schedule[|schedule| - 1])
  }

  /** The table entry for the record's id is a channel that carries this id. */
  ghost predicate Resolves<C>(r: Reg.State<C>, record: Record) {
    && 1 <= record.id <= r.Limit() <= |r.table|
    && r.table[record.id - 1].Some?
    && r.table[record.id - 1].value in r.ids
    && r.ids[r.table[record.id - 1].value] == record.id
  }

  // ---- One registry call ----

  /** The guard of a harmless call: the registry refuses it, or the object does not carry the record's id. */
  ghost predicate LeavesAlone<C>(r: Reg.State<C>, c: C, record: Record)
    requires c in r.ids
  {
    r.status != Idle || r.ids[c] != record.id
  }

  /** A registration disturbs a record exactly if it is the second one of the record's own channel. */
  lemma ResolvesAfterRegisterIff<C>(r: Reg.State<C>, c: C, record: Record)
    requires r.Backed() && c in r.ids && Resolves(r, record)
    ensures Resolves(Reg.Register(r, c).0, record) <==> LeavesAlone(r, c, record)
  {
    Reg.FirstFreeIsLeast(r.bits, 1, r.Limit());
    assert r.SlotBacked(record.id - 1) && r.Owns(c);
  }

  /** An unregistration disturbs a record exactly if it removes the record's own channel. */
  lemma ResolvesAfterUnregisterIff<C>(r: Reg.State<C>, c: C, record: Record)
    requires r.Backed() && c in r.ids && Resolves(r, record)
    ensures Reg.ShiftDefined(r, c)
    ensures Resolves(Reg.Unregister(r, c), record) <==> LeavesAlone(r, c, record)
  {
    assert r.SlotBacked(record.id - 1) && r.Owns(c);
  }

  // ---- What the callers do ----

  /** A record on its way to _write carries this id: being written, or queued where the consumer can still get at it. */
  ghost predicate Pending(s: State, id: nat) {
    || (s.phase.Writing? && s.phase.record.id == id)
    || (CanPop(s) && exists j | 0 <= j < |s.queue| :: s.queue[j].id == id)
  }

  /**
   * A channel is registered or unregistered, if the logger is idle, only while no record on its way to _write carries
   * its id; and a record is queued, if it can be popped at all, only under the id of a channel registered by then.
   */
  ghost predicate Disciplined<C>(s: System<C>, m: Move<C>) {
    match m
    case Register(c) => c in s.registry.ids && s.registry.status.Idle? ==> !Pending(s.logger, s.registry.ids[c])
    case Unregister(c) => c in s.registry.ids && s.registry.status.Idle? ==> !Pending(s.logger, s.registry.ids[c])
    case Logger(l) => l.Push? && CanPop(s.logger) ==> Resolves(s.registry, l.record)
  }

  ghost predicate DisciplinedRun<C>(cap: nat, s: System<C>, schedule: seq<Move<C>>) {
    forall i | 0 <= i < |schedule| :: Disciplined(Exec(cap, s, schedule[..i]), schedule[i])
  }

  /** Everything on its way to _write resolves. */
  ghost predicate Safe<C>(s: System<C>) {
    && (CanPop(s.logger) ==> forall j | 0 <= j < |s.logger.queue| :: Resolves(s.registry, s.logger.queue[j]))
    && (s.logger.phase.Writing? ==> Resolves(s.registry, s.logger.phase.record))
  }

  /** What every run keeps, disciplined or not. */
  ghost predicate Consistent<C>(cap: nat, s: System<C>) {
    && AtomicLogger.Inv(cap, s.logger)
    && s.registry.Backed()
    && s.registry.status == s.logger.status
  }

  lemma StatusBacked<C>(r: Reg.State<C>, status: Status)
    requires r.Backed()
    ensures r.(status := status).Backed()
  {
    var r' := r.(status := status);
    forall k | 0 <= k < 64
      ensures r'.SlotBacked(k)
    {
      assert r.SlotBacked(k);
    }
    forall c | c in r'.ids
      ensures r'.Owns(c)
    {
      assert r.Owns(c);
    }
  }

  lemma StepConsistent<C>(cap: nat, s: System<C>, m: Move<C>)
    requires Consistent(cap, s)
    ensures Consistent(cap, Step(cap, s, m))
  {
    match m
    case Register(c) =>
      if c in s.registry.ids {
        Reg.RegisterBacked(s.registry, c);
      }
    case Unregister(c) =>
      if c in s.registry.ids {
        Reg.UnregisterBacked(s.registry, c);
      }
    case Logger(l) =>
      AtomicLogger.StepInv(cap, s.logger, l);
      StatusBacked(s.registry, AtomicLogger.Step(cap, s.logger, l).status);
  }

  lemma {:induction false} ExecConsistent<C>(cap: nat, s: System<C>, schedule: seq<Move<C>>)
    requires Consistent(cap, s)
    ensures Consistent(cap, Exec(cap, s, schedule))
  {
    if schedule != [] {
      ExecConsistent(cap, s, schedule[..|schedule| - 1]);
      StepConsistent(cap, Exec(cap, s, schedule[..|schedule| - 1]), schedule[|schedule| - 1]);
    }
  }

  // ---- One step is safe exactly if it is disciplined ----

  /** Both registry calls move the registry from r to r'; `c` is the channel they are given. */
  lemma RegistryStepIff<C>(logger: State, r: Reg.State<C>, r': Reg.State<C>, c: C)
    requires c in r.ids && Safe(System(logger, r))
    requires forall record | Resolves(r, record) :: Resolves(r', record) <==> LeavesAlone(r, c, record)
    ensures Safe(System(logger, r')) <==> (r.status.Idle? ==> !Pending(logger, r.ids[c]))
  {
    if r.status.Idle? && Pending(logger, r.ids[c]) {
      if !(logger.phase.Writing? && logger.phase.record.id == r.ids[c]) {
        var j :| 0 <= j < |logger.queue| && logger.queue[j].id == r.ids[c];
        assert Resolves(r, logger.queue[j]) && !Resolves(r', logger.queue[j]);
      }
    }
  }

  lemma LoggerStepIff<C>(cap: nat, s: System<C>, l: Label)
    requires AtomicLogger.Inv(cap, s.logger) && Safe(s)
    ensures Safe(Step(cap, s, Logger(l))) <==> Disciplined(s, Logger(l))
  {
    var s' := Step(cap, s, Logger(l));
    assert forall record :: Resolves(s'.registry, record) <==> Resolves(s.registry, record);
    if l.Push? {
      assert s'.logger.queue[|s'.logger.queue| - 1] == l.record;
    }
  }

  lemma StepSafeIff<C>(cap: nat, s: System<C>, m: Move<C>)
    requires Consistent(cap, s) && Safe(s)
    ensures Safe(Step(cap, s, m)) <==> Disciplined(s, m)
  {
    match m
    case Register(c) =>
      if c in s.registry.ids {
        forall record | Resolves(s.registry, record)
          ensures Resolves(Reg.Register(s.registry, c).0, record) <==> LeavesAlone(s.registry, c, record)
        {
          ResolvesAfterRegisterIff(s.registry, c, record);
        }
        RegistryStepIff(s.logger, s.registry, Reg.Register(s.registry, c).0, c);
      }
    case Unregister(c) =>
      if c in s.registry.ids {
        Reg.UnregisterBacked(s.registry, c);
        forall record | Resolves(s.registry, record)
          ensures Resolves(Reg.Unregister(s.registry, c), record) <==> LeavesAlone(s.registry, c, record)
        {
          ResolvesAfterUnregisterIff(s.registry, c, record);
        }
        RegistryStepIff(s.logger, s.registry, Reg.Unregister(s.registry, c), c);
      }
    case Logger(l) => LoggerStepIff(cap, s, l);
  }

  // ---- What is not safe can go wrong ----

  /** A record is being written that names no channel. */
  ghost predicate Unresolved<C>(logger: State, r: Reg.State<C>) {
    logger.phase.Writing? && !Resolves(r, logger.phase.record)
  }

  /** A step of the logger's threads, whose producers use registered ids. */
  ghost predicate Quiet<C>(r: Reg.State<C>, l: Label) {
    l.Push? ==> Resolves(r, l.record)
  }

  ghost predicate AllQuiet<C>(r: Reg.State<C>, schedule: seq<Label>) {
    forall i | 0 <= i < |schedule| :: Quiet(r, schedule[i])
  }

  /** The logger's threads alone can bring an unresolved record to _write. */
  ghost predicate CanFail<C>(cap: nat, logger: State, r: Reg.State<C>) {
    exists rest: seq<Label> :: AllQuiet(r, rest) && Unresolved(AtomicLogger.Exec(cap, logger, rest), r)
  }

  /** What the state after a quiet step can still do, the state before it can do. */
  lemma FailEarlier<C>(cap: nat, logger: State, r: Reg.State<C>, l: Label)
    requires Quiet(r, l) && CanFail(cap, AtomicLogger.Step(cap, logger, l), r)
    ensures CanFail(cap, logger, r)
  {
    var rest :| AllQuiet(r, rest) && Unresolved(AtomicLogger.Exec(cap, AtomicLogger.Step(cap, logger, l), rest), r);
    assert [l][..0] == [] && AtomicLogger.Exec(cap, logger, [l]) == AtomicLogger.Step(cap, logger, l);
    AtomicLogger.ExecConcat(cap, logger, [l], rest);
    assert AllQuiet(r, [l] + rest);
  }

  lemma FailsNow<C>(cap: nat, logger: State, r: Reg.State<C>)
    requires Unresolved(logger, r)
    ensures CanFail(cap, logger, r)
  {
    assert AtomicLogger.Exec(cap, logger, []) == logger && AllQuiet(r, []);
  }

  function StepsToPolling(phase: Phase): nat {
    match phase
    case Polling => 0
    case Looping => 1
    case _ => 2
  }

  /** The next step on the way to writing an unresolved record; pushes like that of the oldest bring it to the front. */
  function Approach(s: State): Label {
    match s.phase
    case Starting => Begin
    case Looping => Enter
    case Waiting => Wake
    case Writing(_) => WriteDone(false)
    case Calling(_) => CallDone
    case _ => if s.queue == [] then Sleep else Push(s.queue[0])
  }

  lemma {:induction false} QueuedFails<C>(cap: nat, s: State, r: Reg.State<C>, j: nat)
    requires |s.queue| <= cap && CanPop(s) && !s.phase.Halted?
    requires j < |s.queue| && !Resolves(r, s.queue[j])
    ensures CanFail(cap, s, r)
    decreases StepsToPolling(s.phase), cap - |s.queue| + j
  {
    var l := Approach(s);
    if !s.phase.Polling? {
      QueuedFails(cap, AtomicLogger.Step(cap, s, l), r, j);
      FailEarlier(cap, s, r, l);
    } else if Resolves(r, s.queue[0]) {
      PushMoves(cap, s, s.queue[0], j);
      QueuedFails(cap, AtomicLogger.Step(cap, s, l), r, if |s.queue| == cap then j - 1 else j);
      FailEarlier(cap, s, r, l);
    } else {
      FailsNow(cap, AtomicLogger.Step(cap, s, Pop), r);
      FailEarlier(cap, s, r, Pop);
    }
  }

  lemma PushMoves(cap: nat, s: State, r: Record, j: nat)
    requires 0 < j < |s.queue| <= cap
    ensures var s' := AtomicLogger.Step(cap, s, Push(r));
      && s'.phase == s.phase && s'.status == s.status
      && |s'.queue| == (if |s.queue| == cap then cap else |s.queue| + 1)
      && s'.queue[if |s.queue| == cap then j - 1 else j] == s.queue[j]
  {
  }

  /** A state is safe if and only if no run of the logger's threads from it writes a record that names no channel. */
  lemma SafeIff<C>(cap: nat, s: System<C>)
    requires AtomicLogger.Inv(cap, s.logger)
    ensures Safe(s) <==> !CanFail(cap, s.logger, s.registry)
  {
    if Safe(s) {
      forall rest | AllQuiet(s.registry, rest)
        ensures !Unresolved(AtomicLogger.Exec(cap, s.logger, rest), s.registry)
      {
        QuietStaysSafe(cap, s, rest);
      }
    } else if Unresolved(s.logger, s.registry) {
      FailsNow(cap, s.logger, s.registry);
    } else {
      var j :| 0 <= j < |s.logger.queue| && !Resolves(s.registry, s.logger.queue[j]);
      QueuedFails(cap, s.logger, s.registry, j);
    }
  }

  lemma {:induction false} QuietStaysSafe<C>(cap: nat, s: System<C>, rest: seq<Label>)
    requires AtomicLogger.Inv(cap, s.logger) && Safe(s) && AllQuiet(s.registry, rest)
    ensures Safe(System(AtomicLogger.Exec(cap, s.logger, rest), s.registry))
  {
    if rest != [] {
      var front, last := rest[..|rest| - 1], rest[|rest| - 1];
      assert forall i | 0 <= i < |front| :: Quiet(s.registry, front[i]) <== Quiet(s.registry, rest[i]);
      QuietStaysSafe(cap, s, front);
      AtomicLogger.ExecInv(cap, s.logger, front);
      var t := System<C>.System(AtomicLogger.Exec(cap, s.logger, front), s.registry);
      assert Quiet(s.registry, last);
      LoggerStepIff(cap, t, last);
      SameNames(Step(cap, t, Logger(last)), System(AtomicLogger.Step(cap, t.logger, last), s.registry));
    }
  }

  lemma SameNames<C>(s: System<C>, t: System<C>)
    requires s.logger == t.logger && s.registry == t.registry.(status := s.registry.status)
    ensures Safe(s) <==> Safe(t)
  {
    assert forall record :: Resolves(s.registry, record) <==> Resolves(t.registry, record);
  }

  // ---- Whole runs ----

  lemma {:induction false} DisciplinedStaysSafe<C>(cap: nat, s: System<C>, schedule: seq<Move<C>>)
    requires Consistent(cap, s) && Safe(s) && DisciplinedRun(cap, s, schedule)
    ensures Safe(Exec(cap, s, schedule))
  {
    if schedule != [] {
      var n := |schedule| - 1;
      DisciplinedPrefix(cap, s, schedule, n);
      DisciplinedStaysSafe(cap, s, schedule[..n]);
      ExecConsistent(cap, s, schedule[..n]);
      StepSafeIff(cap, Exec(cap, s, schedule[..n]), schedule[n]);
    }
  }

  lemma DisciplinedPrefix<C>(cap: nat, s: System<C>, schedule: seq<Move<C>>, n: nat)
    requires DisciplinedRun(cap, s, schedule) && n <= |schedule|
    ensures DisciplinedRun(cap, s, schedule[..n])
  {
    forall i | 0 <= i < n
      ensures Disciplined(Exec(cap, s, schedule[..n][..i]), schedule[..n][i])
    {
      assert schedule[..n][..i] == schedule[..i];
    }
  }

  lemma {:induction false} FirstUndisciplined<C>(cap: nat, s: System<C>, schedule: seq<Move<C>>) returns (i: nat)
    requires !DisciplinedRun(cap, s, schedule)
    ensures i < |schedule| && !Disciplined(Exec(cap, s, schedule[..i]), schedule[i])
    ensures DisciplinedRun(cap, s, schedule[..i])
  {
    i :| 0 <= i < |schedule| && !Disciplined(Exec(cap, s, schedule[..i]), schedule[i]);
    if !DisciplinedRun(cap, s, schedule[..i]) {
      var before := schedule[..i];
      i := FirstUndisciplined(cap, s, before);
      assert before[..i] == schedule[..i];
    }
  }

  lemma InitialConsistent<C>(cap: nat, r: Reg.State<C>)
    requires 1 <= cap && r.Valid() && r.status == Idle
    ensures Consistent(cap, System(INITIAL, r)) && Safe(System(INITIAL, r))
  {
    AtomicLogger.InitialInv(cap);
    Reg.ValidIsBacked(r);
  }

  ghost predicate SystemFails<C>(cap: nat, s: System<C>) {
    CanFail(cap, s.logger, s.registry)
  }

  /**
   * Over any run of registry calls, double registrations included, mixed with any interleaving of the logger: no point
   * of the run can be continued by the logger's threads to write a record that names no channel, if and only if the
   * run is disciplined.
   */
  lemma DisciplinedIff<C>(cap: nat, r: Reg.State<C>, schedule: seq<Move<C>>)
    requires 1 <= cap && r.Valid() && r.status == Idle
    ensures DisciplinedRun(cap, System(INITIAL, r), schedule) <==>
      forall i | 0 <= i <= |schedule| :: !SystemFails(cap, Exec(cap, System(INITIAL, r), schedule[..i]))
  {
    var s := System<C>.System(INITIAL, r);
    InitialConsistent(cap, r);
    if DisciplinedRun(cap, s, schedule) {
      forall i | 0 <= i <= |schedule|
        ensures !SystemFails(cap, Exec(cap, s, schedule[..i]))
      {
        DisciplinedPoint(cap, s, schedule, i);
      }
    } else {
      var i := FirstUndisciplined(cap, s, schedule);
      UndisciplinedFails(cap, s, schedule[..i], schedule[i]);
      assert schedule[..i + 1] == schedule[..i] + [schedule[i]];
    }
  }

  lemma DisciplinedPoint<C>(cap: nat, s: System<C>, schedule: seq<Move<C>>, i: nat)
    requires Consistent(cap, s) && Safe(s) && DisciplinedRun(cap, s, schedule) && i <= |schedule|
    ensures !SystemFails(cap, Exec(cap, s, schedule[..i]))
  {
    DisciplinedPrefix(cap, s, schedule, i);
    DisciplinedStaysSafe(cap, s, schedule[..i]);
    ExecConsistent(cap, s, schedule[..i]);
    SafeIff(cap, Exec(cap, s, schedule[..i]));
  }

  lemma UndisciplinedFails<C>(cap: nat, s: System<C>, schedule: seq<Move<C>>, m: Move<C>)
    requires Consistent(cap, s) && Safe(s) && DisciplinedRun(cap, s, schedule)
    requires !Disciplined(Exec(cap, s, schedule), m)
    ensures SystemFails(cap, Exec(cap, s, schedule + [m]))
  {
    var t := Exec(cap, s, schedule);
    DisciplinedStaysSafe(cap, s, schedule);
    ExecConsistent(cap, s, schedule);
    StepSafeIff(cap, t, m);
    StepConsistent(cap, t, m);
    SafeIff(cap, Step(cap, t, m));
    ExecSnoc(cap, s, schedule, m);
  }

  /** In every disciplined run a record being written names a live channel that carries the record's id. */
  lemma WriteFindsItsChannel<C>(cap: nat, r: Reg.State<C>, schedule: seq<Move<C>>)
    requires 1 <= cap && r.Valid() && r.status == Idle && DisciplinedRun(cap, System(INITIAL, r), schedule)
    ensures var t := Exec(cap, System(INITIAL, r), schedule);
      t.logger.phase.Writing? ==> Resolves(t.registry, t.logger.phase.record)
  {
    InitialConsistent(cap, r);
    DisciplinedStaysSafe(cap, System(INITIAL, r), schedule);
  }

  /** While RUNNING the registry is frozen. */
  lemma FrozenWhileRunning<C>(cap: nat, s: System<C>, m: Move<C>)
    requires Consistent(cap, s) && s.logger.status.Running? && !m.Logger?
    ensures Step(cap, s, m) == s
  {
  }

  lemma ExecSnoc<C>(cap: nat, s: System<C>, schedule: seq<Move<C>>, m: Move<C>)
    ensures Exec(cap, s, schedule + [m]) == Step(cap, Exec(cap, s, schedule), m)
  {
    assert (schedule + [m])[..|schedule|] == schedule;
  }

  /**
   * The loop's exit matters, not the status: after logger_stop the registry accepts an unregistration although a
   * record of that channel is still being written, and its table entry is null from then on.
   */
  lemma UnregisterDuringLastWrite<C>(cap: nat, r: Reg.State<C>, c: C, record: Record)
    requires 1 <= cap && r.Valid() && r.status == Idle && c in r.ids && r.ids[c] != 0
    requires record.id == r.ids[c]
    ensures exists schedule ::
      var t := Exec(cap, System(INITIAL, r), schedule);
      && t.logger.phase == Writing(record)
      && record.id <= |t.registry.table| && t.registry.table[record.id - 1] == None
  {
    var s := System<C>.System(INITIAL, r);
    var labels := [Init, Begin, Enter] + [Push(record), Pop, Stop];
    OneRecordInFlight(cap, record);
    LoggerRun(cap, s, labels);
    var stopped := Exec(cap, s, LoggerMoves<C>(labels));
    assert stopped == System(AtomicLogger.Exec(cap, INITIAL, labels), r);
    assert r.Owns(c);
    ExecSnoc(cap, s, LoggerMoves(labels), Unregister(c));
    assert Step(cap, stopped, Unregister(c)).registry.table[record.id - 1] == None;
  }

  function LoggerMoves<C>(labels: seq<Label>): seq<Move<C>> {
    seq(|labels|, i requires 0 <= i < |labels| => Logger(labels[i]))
  }

  /** The logger's own steps move the registry's status along and nothing else. */
  lemma {:induction false} LoggerRun<C>(cap: nat, s: System<C>, labels: seq<Label>)
    requires s.registry.status == s.logger.status
    ensures var logger := AtomicLogger.Exec(cap, s.logger, labels);
      Exec(cap, s, LoggerMoves(labels)) == System(logger, s.registry.(status := logger.status))
  {
    if labels != [] {
      var front, last := labels[..|labels| - 1], labels[|labels| - 1];
      LoggerRun(cap, s, front);
      assert LoggerMoves<C>(labels) == LoggerMoves(front) + [Logger(last)];
      ExecSnoc(cap, s, LoggerMoves(front), Logger(last));
    }
  }

  lemma OneRecordInFlight(cap: nat, record: Record)
    requires 1 <= cap
    ensures var t := AtomicLogger.Exec(cap, INITIAL, [Init, Begin, Enter] + [Push(record), Pop, Stop]);
      t.phase == Writing(record) && t.status.Idle?
  {
    var entered := AtomicLogger.Exec(cap, INITIAL, [Init, Begin, Enter]);
    ExecThree(cap, INITIAL, Init, Begin, Enter);
    assert entered.queue == [] && entered.phase == Polling && entered.status.Running?;
    ExecThree(cap, entered, Push(record), Pop, Stop);
    AtomicLogger.ExecConcat(cap, INITIAL, [Init, Begin, Enter], [Push(record), Pop, Stop]);
  }

  lemma ExecThree(cap: nat, s: State, l: Label, m: Label, n: Label)
    ensures AtomicLogger.Exec(cap, s, [l, m, n])
      == AtomicLogger.Step(cap, AtomicLogger.Step(cap, AtomicLogger.Step(cap, s, l), m), n)
  {
    var a, b, c := [l], [l, m], [l, m, n];
    assert a[..0] == [] && b[..1] == a && c[..2] == b;
    assert AtomicLogger.Exec(cap, s, a) == AtomicLogger.Step(cap, s, l);
    assert AtomicLogger.Exec(cap, s, b) == AtomicLogger.Step(cap, AtomicLogger.Exec(cap, s, a), m);
  }
}
