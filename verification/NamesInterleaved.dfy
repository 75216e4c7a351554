/** Name resolution at every interleaving of the code: registry calls between the single steps of the micro logger. */
module NamesInterleaved {
  import opened Sequences
  import opened Records
  import opened MicroLogger
  import opened Refinement
  import Atomic = AtomicLogger
  import Names
  import Reg = Registry

  datatype System<!C> = System(micro: State, registry: Reg.State<C>)

  datatype Move<!C> = Register(c: C) | Unregister(c: C) | Thread(move: Label)

  ghost function Step<C>(cfg: Config, s: System<C>, m: Move<C>): System<C> {
    match m
    case Register(c) =>
      if s.registry.WellFormed() && c in s.registry.ids
      then s.(registry := Reg.Register(s.registry, c).0) else s
    case Unregister(c) =>
      if s.registry.WellFormed() && c in s.registry.ids && Reg.ShiftDefined(s.registry, c)
      then s.(registry := Reg.Unregister(s.registry, c)) else s
    case Thread(l) =>
      var micro := MicroLogger.Step(cfg, s.micro, l);
      System(micro, s.registry.(status := micro.status))
  }

  ghost function Exec<C>(cfg: Config, s: System<C>, schedule: seq<Move<C>>): System<C> {
    if schedule == [] then s
    else Step(cfg, Exec(cfg, s, schedule[..|schedule| - 1]), schedule[|schedule| - 1])
  }

  // ---- The atomic run behind an interleaving ----

  /** The atomic moves that a move stands for: registry calls themselves, thread steps as in module Refinement. */
  ghost function Atomics<C>(s: System<C>, m: Move<C>): seq<Names.Move<C>> {
    match m
    case Register(c) => [Names.Register(c)]
    case Unregister(c) => [Names.Unregister(c)]
    case Thread(l) => if Matching(s.micro, l) == [] then [] else [Names.Logger(Matching(s.micro, l)[0])]
  }

  ghost function Abstract<C>(cfg: Config, s: System<C>, schedule: seq<Move<C>>): seq<Names.Move<C>> {
    if schedule == [] then [] else
      var front := schedule[..|schedule| - 1];
      Abstract(cfg, s, front) + Atomics(Exec(cfg, s, front), schedule[|schedule| - 1])
  }

  /** The same registry, and a logger with the same queue and history. */
  ghost predicate Mirrors<C>(cfg: Config, s: System<C>, n: Names.System<C>) {
    Simulates(cfg, s.micro, n.logger) && n.registry == s.registry && s.registry.status == s.micro.status
  }

  lemma MoveMirrors<C>(cfg: Config, s: System<C>, n: Names.System<C>, m: Move<C>)
    requires Mirrors(cfg, s, n)
    ensures Mirrors(cfg, Step(cfg, s, m),
      if Atomics(s, m) == [] then n else Names.Step(cfg.cap, n, Atomics(s, m)[0]))
  {
    if m.Thread? {
      MatchingStep(cfg, s.micro, n.logger, m.move);
    }
  }

  lemma {:induction false} ExecMirrors<C>(cfg: Config, s: System<C>, n: Names.System<C>, schedule: seq<Move<C>>)
    requires Mirrors(cfg, s, n)
    ensures Mirrors(cfg, Exec(cfg, s, schedule), Names.Exec(cfg.cap, n, Abstract(cfg, s, schedule)))
  {
    if schedule != [] {
      var front, last := schedule[..|schedule| - 1], schedule[|schedule| - 1];
      var t, moves := Exec(cfg, s, front), Abstract(cfg, s, front);
      ExecMirrors(cfg, s, n, front);
      MoveMirrors(cfg, t, Names.Exec(cfg.cap, n, moves), last);
      if Atomics(t, last) == [] {
        assert moves + [] == moves;
      } else {
        assert Atomics(t, last) == [Atomics(t, last)[0]];
        Names.ExecSnoc(cfg.cap, n, moves, Atomics(t, last)[0]);
      }
    }
  }

  /** Every interleaving of registry calls with the code is matched by the same calls with the atomic logger. */
  lemma RunsRefine<C>(cfg: Config, micro: State, r: Reg.State<C>, schedule: seq<Move<C>>)
    requires cfg.Valid() && Initial(cfg, micro) && r.status == Idle
    ensures var s := System(micro, r);
      Mirrors(cfg, Exec(cfg, s, schedule),
        Names.Exec(cfg.cap, Names.System(Atomic.INITIAL, r), Abstract(cfg, s, schedule)))
  {
    InitialSimulates(cfg, micro);
    ExecMirrors(cfg, System(micro, r), Names.System(Atomic.INITIAL, r), schedule);
  }

  // ---- The discipline ----

  /** The status, consumer and queue that the callers' discipline looks at, read off the fields. */
  ghost function View<C>(cfg: Config, s: System<C>): Names.System<C>
    requires Inv(cfg, s.micro)
  {
    Names.System(
      Atomic.INITIAL.(status := s.micro.status, phase := PhaseOf(s.micro), queue := Contents(cfg, s.micro)),
      s.registry)
  }

  /** The discipline of module Names; a record counts as queued from the store of its push on. */
  ghost predicate Disciplined<C>(cfg: Config, s: System<C>, m: Move<C>)
    requires Inv(cfg, s.micro)
  {
    match m
    case Register(c) => Names.Disciplined(View(cfg, s), Names.Register(c))
    case Unregister(c) => Names.Disciplined(View(cfg, s), Names.Unregister(c))
    case Thread(l) =>
      Matching(s.micro, l) != [] ==> Names.Disciplined(View(cfg, s), Names.Logger(Matching(s.micro, l)[0]))
  }

  ghost predicate DisciplinedAt<C>(cfg: Config, s: System<C>, schedule: seq<Move<C>>, i: nat)
    requires i < |schedule|
  {
    var before := Exec(cfg, s, schedule[..i]);
    Inv(cfg, before.micro) ==> Disciplined(cfg, before, schedule[i])
  }

  /** The atomic system behind an interleaved one, in a state that is safe. */
  ghost predicate Coupled<C>(cfg: Config, s: System<C>, a: Atomic.State) {
    && Simulates(cfg, s.micro, a)
    && Names.Consistent(cfg.cap, Names.System(a, s.registry))
    && Names.Safe(Names.System(a, s.registry))
  }

  lemma ViewAgrees<C>(cfg: Config, s: System<C>, a: Atomic.State, m: Names.Move<C>)
    requires Simulates(cfg, s.micro, a)
    ensures Names.Disciplined(View(cfg, s), m) <==> Names.Disciplined(Names.System(a, s.registry), m)
  {
    var view := View(cfg, s).logger;
    assert forall id :: Names.Pending(view, id) <==> Names.Pending(a, id);
  }

  lemma RegistryCoupled<C>(cfg: Config, s: System<C>, a: Atomic.State, m: Move<C>)
    requires Coupled(cfg, s, a) && Disciplined(cfg, s, m) && !m.Thread?
    ensures Coupled(cfg, Step(cfg, s, m), a)
  {
    var move := if m.Register? then Names.Register(m.c) else Names.Unregister(m.c);
    ViewAgrees(cfg, s, a, move);
    Names.StepConsistent(cfg.cap, Names.System(a, s.registry), move);
    Names.StepSafeIff(cfg.cap, Names.System(a, s.registry), move);
  }

  lemma ThreadCoupled<C>(cfg: Config, s: System<C>, a: Atomic.State, l: Label) returns (a': Atomic.State)
    requires Coupled(cfg, s, a) && Disciplined(cfg, s, Thread(l))
    ensures Coupled(cfg, Step(cfg, s, Thread(l)), a')
  {
    MatchingStep(cfg, s.micro, a, l);
    if Matching(s.micro, l) == [] {
      a' := a;
      assert Step(cfg, s, Thread(l)).registry == s.registry;
    } else {
      var step := Matching(s.micro, l)[0];
      a' := Atomic.Step(cfg.cap, a, step);
      ViewAgrees(cfg, s, a, Names.Logger(step));
      Names.StepConsistent(cfg.cap, Names.System(a, s.registry), Names.Logger(step));
      Names.StepSafeIff(cfg.cap, Names.System(a, s.registry), Names.Logger(step));
    }
  }

  lemma {:induction false} RunCoupled<C>(cfg: Config, s: System<C>, a: Atomic.State, schedule: seq<Move<C>>)
    returns (a': Atomic.State)
    requires Coupled(cfg, s, a) && forall i | 0 <= i < |schedule| :: DisciplinedAt(cfg, s, schedule, i)
    ensures Coupled(cfg, Exec(cfg, s, schedule), a')
  {
    a' := a;
    if schedule != [] {
      var front, last := schedule[..|schedule| - 1], schedule[|schedule| - 1];
      forall i | 0 <= i < |front|
        ensures DisciplinedAt(cfg, s, front, i)
      {
        assert front[..i] == schedule[..i] && DisciplinedAt(cfg, s, schedule, i);
      }
      a' := RunCoupled(cfg, s, a, front);
      assert DisciplinedAt(cfg, s, schedule, |front|);
      if last.Thread? {
        a' := ThreadCoupled(cfg, Exec(cfg, s, front), a', last.move);
      } else {
        RegistryCoupled(cfg, Exec(cfg, s, front), a', last);
      }
    }
  }

  lemma StartCoupled<C>(cfg: Config, micro: State, r: Reg.State<C>)
    requires cfg.Valid() && Initial(cfg, micro) && r.Valid() && r.status == Idle
    ensures Coupled(cfg, System(micro, r), Atomic.INITIAL)
  {
    InitialInv(cfg, micro);
    InitialSimulates(cfg, micro);
    Names.InitialConsistent(cfg.cap, r);
  }

  lemma CoupledWrite<C>(cfg: Config, s: System<C>, a: Atomic.State)
    requires Coupled(cfg, s, a)
    ensures s.micro.consumer.CWrite? ==> s.micro.temp.Some? && Names.Resolves(s.registry, s.micro.temp.value)
  {
  }

  /**
   * At every interleaving of a disciplined run, when the consumer is at _write its record's id is found in the channel
   * table, at a channel that carries this id.
   */
  lemma WriteFindsItsChannel<C>(cfg: Config, micro: State, r: Reg.State<C>, schedule: seq<Move<C>>)
    requires cfg.Valid() && Initial(cfg, micro) && r.Valid() && r.status == Idle
    requires forall i | 0 <= i < |schedule| :: DisciplinedAt(cfg, System(micro, r), schedule, i)
    ensures var t := Exec(cfg, System(micro, r), schedule);
      t.micro.consumer.CWrite? ==> t.micro.temp.Some? && Names.Resolves(t.registry, t.micro.temp.value)
  {
    StartCoupled(cfg, micro, r);
    var a := RunCoupled(cfg, System(micro, r), Atomic.INITIAL, schedule);
    CoupledWrite(cfg, Exec(cfg, System(micro, r), schedule), a);
  }
}
