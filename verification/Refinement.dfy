/** The micro-step logger refines the atomic one; the abstraction reads off the raw fields and program counters only. */
module Refinement {
  import opened Sequences
  import opened Records
  import opened Ring
  import opened MicroLogger
  import Atomic = AtomicLogger
  import History

  /**
   * The queue the ring stands for. A push counts from its store on (which, on a full ring, has already destroyed
   * the oldest record), a pop from the move of the head.
   */
  ghost function Contents(cfg: Config, s: State): seq<Record>
    requires Inv(cfg, s)
  {
    if !s.inited || s.consumer.CInitHead? || s.consumer.CInitTail? then []
    else match ProgressOf(s)
      case AtRest => Window(s.ring.data, s.ring.head, s.ring.occup)
      case HeadMoved => Window(s.ring.data, s.ring.head, s.ring.occup - 1)
      case _ =>
        if s.ring.occup == cfg.cap then Window(s.ring.data, Slot(s.ring.head, 1, cfg.cap), cfg.cap)
        else Window(s.ring.data, s.ring.head, s.ring.occup + 1)
  }

  function PhaseOf(s: State): Atomic.Phase
    requires ConsumerOk(s)
  {
    match s.consumer
    case CHalted => Atomic.Halted
    case CInitSize => Atomic.Halted
    case CInitOccup => Atomic.Halted
    case CInitHead => Atomic.Starting
    case CInitTail => Atomic.Starting
    case CSetRunning => Atomic.Starting
    case CTestStatus => Atomic.Looping
    case CWait => Atomic.Waiting
    case COccup => Atomic.Writing(s.temp.value)
    case CUnlock => Atomic.Writing(s.temp.value)
    case CWrite => Atomic.Writing(s.temp.value)
    case CCall => Atomic.Calling(s.temp.value)
    case _ => Atomic.Polling
  }

  ghost predicate Simulates(cfg: Config, s: State, a: Atomic.State) {
    && Inv(cfg, s)
    && a.status == s.status
    && a.phase == PhaseOf(s)
    && a.queue == Contents(cfg, s)
    && a.log == s.trace.log
    && a.written == s.trace.written
    && a.called == s.trace.called
  }

  /** The atomic step that a micro step stands for; most stand for none. */
  function Matching(s: State, l: Label): seq<Atomic.Label> {
    if !Enabled(s, l) then [] else
    match l
    case Call(_, _) => []
    case Start => []
    case Stopper => if s.stopping then [] else [Atomic.Stop]
    case Producer(p) =>
      if s.producers[p].PStore? then [Atomic.Push(s.producers[p].record)] else []
    case Consumer(success) =>
      match s.consumer
      case CInitOccup => [Atomic.Init]
      case CSetRunning => [Atomic.Begin]
      case CTestStatus => if s.status.Running? then [Atomic.Enter] else [Atomic.Exit]
      case CTestEmpty => if s.ring.occup == 0 then [Atomic.Sleep] else []
      case CWait => [Atomic.Wake]
      case CHead => [Atomic.Pop]
      case CWrite => [Atomic.WriteDone(success)]
      case CCall => [Atomic.CallDone]
      case _ => []
  }

  // ---- What each step does to the contents ----

  lemma StoreContents(cfg: Config, s: State, p: nat)
    requires Inv(cfg, s) && p < |s.producers| && s.producers[p].PStore?
    ensures Inv(cfg, Step(cfg, s, Producer(p)))
    ensures Contents(cfg, Step(cfg, s, Producer(p)))
      == KeepLast(Contents(cfg, s) + [s.producers[p].record], cfg.cap)
  {
    StepInv(cfg, s, Producer(p));
    assert s.owner == ByProducer(p);
    PushKeepsLast(s.ring.data, s.ring.head, s.ring.occup, s.producers[p].record);
  }

  /** Contents looks at the ring, at the lock holder's progress and at how far cb_init is, and at nothing else. */
  lemma ContentsFrame(cfg: Config, s: State, s': State)
    requires Inv(cfg, s) && Inv(cfg, s')
    requires s'.inited == s.inited && s'.consumer == s.consumer && s'.ring == s.ring
    requires ProgressOf(s') == ProgressOf(s) || (!ProgressOf(s).AtRest? && !ProgressOf(s').AtRest?)
    requires ProgressOf(s).HeadMoved? == ProgressOf(s').HeadMoved?
    ensures Contents(cfg, s') == Contents(cfg, s)
  {
  }

  /** The remaining actions of a producer leave the contents alone. */
  lemma ProducerContents(cfg: Config, s: State, p: nat)
    requires Inv(cfg, s) && Enabled(s, Producer(p)) && !s.producers[p].PStore?
    ensures Inv(cfg, Step(cfg, s, Producer(p)))
    ensures Contents(cfg, Step(cfg, s, Producer(p))) == Contents(cfg, s)
  {
    StepInv(cfg, s, Producer(p));
    if s.producers[p].PHead? || s.producers[p].POccup? {
      FinishContents(cfg, s, p);
    } else if s.producers[p].PTail? {
      TailContents(cfg, s, p);
    } else {
      assert Critical(s.producers[p]) <==> s.owner == ByProducer(p);
      ContentsFrame(cfg, s, Step(cfg, s, Producer(p)));
    }
  }

  lemma TailContents(cfg: Config, s: State, p: nat)
    requires Inv(cfg, s) && Enabled(s, Producer(p)) && s.producers[p].PTail?
    requires Inv(cfg, Step(cfg, s, Producer(p)))
    ensures Contents(cfg, Step(cfg, s, Producer(p))) == Contents(cfg, s)
  {
    assert s.owner == ByProducer(p);
  }

  lemma FinishContents(cfg: Config, s: State, p: nat)
    requires Inv(cfg, s) && Enabled(s, Producer(p)) && (s.producers[p].PHead? || s.producers[p].POccup?)
    requires Inv(cfg, Step(cfg, s, Producer(p)))
    ensures Contents(cfg, Step(cfg, s, Producer(p))) == Contents(cfg, s)
  {
    assert s.owner == ByProducer(p);
    WrapIsSlot(s.ring.head, cfg.cap);
  }

  lemma HeadContents(cfg: Config, s: State, success: bool)
    requires Inv(cfg, s) && s.consumer.CHead?
    ensures Inv(cfg, Step(cfg, s, Consumer(success)))
    ensures Contents(cfg, s) != [] && Some(Contents(cfg, s)[0]) == s.temp
    ensures Contents(cfg, Step(cfg, s, Consumer(success))) == Contents(cfg, s)[1..]
  {
    StepInv(cfg, s, Consumer(success));
    WrapIsSlot(s.ring.head, cfg.cap);
    WindowDrops(s.ring.data, s.ring.head, s.ring.occup);
  }

  lemma InitialisingContents(cfg: Config, s: State, success: bool)
    requires Inv(cfg, s) && Initialising(s.consumer)
    ensures Inv(cfg, Step(cfg, s, Consumer(success)))
    ensures Contents(cfg, Step(cfg, s, Consumer(success)))
      == if s.consumer.CInitOccup? then [] else Contents(cfg, s)
  {
    StepInv(cfg, s, Consumer(success));
  }

  /** The remaining actions of the consumer leave the contents alone. */
  lemma ConsumerContents(cfg: Config, s: State, success: bool)
    requires Inv(cfg, s) && Enabled(s, Consumer(success)) && !s.consumer.CHead? && !Initialising(s.consumer)
    ensures Inv(cfg, Step(cfg, s, Consumer(success)))
    ensures Contents(cfg, Step(cfg, s, Consumer(success))) == Contents(cfg, s)
  {
    StepInv(cfg, s, Consumer(success));
  }

  // ---- Simulation ----

  lemma InitialSimulates(cfg: Config, s: State)
    requires cfg.Valid() && Initial(cfg, s)
    ensures Simulates(cfg, s, Atomic.INITIAL)
  {
    InitialInv(cfg, s);
  }

  lemma ProducerRefines(cfg: Config, s: State, a: Atomic.State, p: nat)
    requires Simulates(cfg, s, a) && Enabled(s, Producer(p))
    ensures Simulates(cfg, Step(cfg, s, Producer(p)), Atomic.Exec(cfg.cap, a, Matching(s, Producer(p))))
  {
    if s.producers[p].PStore? {
      StoreContents(cfg, s, p);
      ExecOne(cfg.cap, a, Atomic.Push(s.producers[p].record));
    } else {
      ProducerContents(cfg, s, p);
    }
  }

  lemma ExecOne(cap: nat, a: Atomic.State, l: Atomic.Label)
    ensures Atomic.Exec(cap, a, [l]) == Atomic.Step(cap, a, l)
  {
    assert [l][..0] == [];
  }

  lemma ConsumerRefines(cfg: Config, s: State, a: Atomic.State, success: bool)
    requires Simulates(cfg, s, a) && Enabled(s, Consumer(success))
    ensures Simulates(cfg, Step(cfg, s, Consumer(success)), Atomic.Exec(cfg.cap, a, Matching(s, Consumer(success))))
  {
    if s.consumer.CHead? {
      HeadRefines(cfg, s, a, success);
    } else if Initialising(s.consumer) {
      InitialisingRefines(cfg, s, a, success);
    } else {
      ConsumerContents(cfg, s, success);
      if s.consumer.CWrite? {
        WriteRefines(cfg, s, a, success);
      } else if s.consumer.CCall? {
        CallbackRefines(cfg, s, a, success);
      } else {
        ControlRefines(cfg, s, a, success);
      }
    }
  }

  lemma HeadRefines(cfg: Config, s: State, a: Atomic.State, success: bool)
    requires Simulates(cfg, s, a) && s.consumer.CHead?
    ensures Simulates(cfg, Step(cfg, s, Consumer(success)), Atomic.Exec(cfg.cap, a, Matching(s, Consumer(success))))
  {
    HeadContents(cfg, s, success);
    ExecOne(cfg.cap, a, Atomic.Pop);
  }

  lemma InitialisingRefines(cfg: Config, s: State, a: Atomic.State, success: bool)
    requires Simulates(cfg, s, a) && Initialising(s.consumer)
    ensures Simulates(cfg, Step(cfg, s, Consumer(success)), Atomic.Exec(cfg.cap, a, Matching(s, Consumer(success))))
  {
    InitialisingContents(cfg, s, success);
    ExecOne(cfg.cap, a, Atomic.Init);
  }

  lemma WriteRefines(cfg: Config, s: State, a: Atomic.State, success: bool)
    requires Simulates(cfg, s, a) && s.consumer.CWrite?
    requires Inv(cfg, Step(cfg, s, Consumer(success)))
    requires Contents(cfg, Step(cfg, s, Consumer(success))) == Contents(cfg, s)
    ensures Simulates(cfg, Step(cfg, s, Consumer(success)), Atomic.Exec(cfg.cap, a, Matching(s, Consumer(success))))
  {
    ExecOne(cfg.cap, a, Atomic.WriteDone(success));
  }

  lemma CallbackRefines(cfg: Config, s: State, a: Atomic.State, success: bool)
    requires Simulates(cfg, s, a) && s.consumer.CCall?
    requires Inv(cfg, Step(cfg, s, Consumer(success)))
    requires Contents(cfg, Step(cfg, s, Consumer(success))) == Contents(cfg, s)
    ensures Simulates(cfg, Step(cfg, s, Consumer(success)), Atomic.Exec(cfg.cap, a, Matching(s, Consumer(success))))
  {
    ExecOne(cfg.cap, a, Atomic.CallDone);
  }

  lemma ControlRefines(cfg: Config, s: State, a: Atomic.State, success: bool)
    requires Simulates(cfg, s, a) && Enabled(s, Consumer(success))
    requires !s.consumer.CHead? && !Initialising(s.consumer) && !s.consumer.CWrite? && !s.consumer.CCall?
    requires Inv(cfg, Step(cfg, s, Consumer(success)))
    requires Contents(cfg, Step(cfg, s, Consumer(success))) == Contents(cfg, s)
    ensures Simulates(cfg, Step(cfg, s, Consumer(success)), Atomic.Exec(cfg.cap, a, Matching(s, Consumer(success))))
  {
    if s.consumer.CSetRunning? {
      ExecOne(cfg.cap, a, Atomic.Begin);
    } else if s.consumer.CTestStatus? {
      TestRefines(cfg, s, a, success);
    } else if s.consumer.CTestEmpty? || s.consumer.CWait? {
      WaitRefines(cfg, s, a, success);
    }
  }

  lemma TestRefines(cfg: Config, s: State, a: Atomic.State, success: bool)
    requires Simulates(cfg, s, a) && s.consumer.CTestStatus?
    requires Inv(cfg, Step(cfg, s, Consumer(success)))
    requires Contents(cfg, Step(cfg, s, Consumer(success))) == Contents(cfg, s)
    ensures Simulates(cfg, Step(cfg, s, Consumer(success)), Atomic.Exec(cfg.cap, a, Matching(s, Consumer(success))))
  {
    ExecOne(cfg.cap, a, if s.status.Running? then Atomic.Enter else Atomic.Exit);
  }

  lemma WaitRefines(cfg: Config, s: State, a: Atomic.State, success: bool)
    requires Simulates(cfg, s, a) && Enabled(s, Consumer(success)) && (s.consumer.CTestEmpty? || s.consumer.CWait?)
    requires Inv(cfg, Step(cfg, s, Consumer(success)))
    requires Contents(cfg, Step(cfg, s, Consumer(success))) == Contents(cfg, s)
    ensures Simulates(cfg, Step(cfg, s, Consumer(success)), Atomic.Exec(cfg.cap, a, Matching(s, Consumer(success))))
  {
    ExecOne(cfg.cap, a, if s.consumer.CWait? then Atomic.Wake else Atomic.Sleep);
  }

  lemma CallRefines(cfg: Config, s: State, a: Atomic.State, p: nat, r: Record)
    requires Simulates(cfg, s, a) && Enabled(s, Call(p, r))
    ensures Simulates(cfg, Step(cfg, s, Call(p, r)), a)
  {
    StepInv(cfg, s, Call(p, r));
    assert s.owner != ByProducer(p);
    ContentsFrame(cfg, s, Step(cfg, s, Call(p, r)));
  }

  lemma StartRefines(cfg: Config, s: State, a: Atomic.State)
    requires Simulates(cfg, s, a) && Enabled(s, Start)
    ensures Simulates(cfg, Step(cfg, s, Start), a)
  {
    StepInv(cfg, s, Start);
  }

  lemma StopperRefines(cfg: Config, s: State, a: Atomic.State)
    requires Simulates(cfg, s, a) && Enabled(s, Stopper)
    ensures Simulates(cfg, Step(cfg, s, Stopper), Atomic.Exec(cfg.cap, a, Matching(s, Stopper)))
  {
    StepInv(cfg, s, Stopper);
    ContentsFrame(cfg, s, Step(cfg, s, Stopper));
    ExecOne(cfg.cap, a, Atomic.Stop);
  }

  /** One assignment or test of the code is one step of the atomic logger, or none. */
  lemma StepRefines(cfg: Config, s: State, a: Atomic.State, l: Label)
    requires Simulates(cfg, s, a)
    ensures Simulates(cfg, Step(cfg, s, l), Atomic.Exec(cfg.cap, a, Matching(s, l)))
  {
    if Enabled(s, l) {
      match l
      case Call(p, r) => CallRefines(cfg, s, a, p, r);
      case Start => StartRefines(cfg, s, a);
      case Stopper => StopperRefines(cfg, s, a);
      case Producer(p) => ProducerRefines(cfg, s, a, p);
      case Consumer(success) => ConsumerRefines(cfg, s, a, success);
    }
  }

  lemma MatchingIsOne(s: State, l: Label)
    ensures |Matching(s, l)| <= 1
  {
  }

  /** The same as one step, or none, of the atomic logger. */
  lemma MatchingStep(cfg: Config, s: State, a: Atomic.State, l: Label)
    requires Simulates(cfg, s, a)
    ensures Simulates(cfg, Step(cfg, s, l),
      if Matching(s, l) == [] then a else Atomic.Step(cfg.cap, a, Matching(s, l)[0]))
  {
    MatchingIsOne(s, l);
    StepRefines(cfg, s, a, l);
    if Matching(s, l) != [] {
      assert Matching(s, l) == [Matching(s, l)[0]];
      ExecOne(cfg.cap, a, Matching(s, l)[0]);
    }
  }

  /** The atomic schedule that a micro schedule stands for. */
  function Abstract(cfg: Config, s: State, schedule: seq<Label>): seq<Atomic.Label> {
    if schedule == [] then [] else
      var front := schedule[..|schedule| - 1];
      Abstract(cfg, s, front) + Matching(Exec(cfg, s, front), schedule[|schedule| - 1])
  }

  lemma {:induction false} ExecRefines(cfg: Config, s: State, a: Atomic.State, schedule: seq<Label>)
    requires Simulates(cfg, s, a)
    ensures Simulates(cfg, Exec(cfg, s, schedule), Atomic.Exec(cfg.cap, a, Abstract(cfg, s, schedule)))
  {
    if schedule != [] {
      var front, last := schedule[..|schedule| - 1], schedule[|schedule| - 1];
      var a' := Atomic.Exec(cfg.cap, a, Abstract(cfg, s, front));
      ExecRefines(cfg, s, a, front);
      StepRefines(cfg, Exec(cfg, s, front), a', last);
      Atomic.ExecConcat(cfg.cap, a, Abstract(cfg, s, front), Matching(Exec(cfg, s, front), last));
    }
  }

  /** Every interleaving of the code is matched by an interleaving of the atomic logger with the same history. */
  lemma RunsRefine(cfg: Config, s: State, schedule: seq<Label>)
    requires cfg.Valid() && Initial(cfg, s)
    ensures var a := Atomic.Exec(cfg.cap, Atomic.INITIAL, Abstract(cfg, s, schedule));
      History.Reachable(cfg.cap, a) && Simulates(cfg, Exec(cfg, s, schedule), a)
  {
    InitialSimulates(cfg, s);
    ExecRefines(cfg, s, Atomic.INITIAL, schedule);
  }
}
