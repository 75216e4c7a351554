/** The semaphore as a conserved quantity: signals given, waits passed and empty tests, for every run. */
module Tokens {
  import opened Sequences
  import opened Records
  import opened MicroLogger

  /** A producer past its unlock, or logger_stop past its store, signals. */
  predicate Signals(s: State, l: Label) {
    || (l.Producer? && l.p < |s.producers| && s.producers[l.p].PSignal?)
    || (l.Stopper? && s.stopping)
  }

  /** The consumer comes back from _wait. */
  predicate Passes(s: State, l: Label) {
    l.Consumer? && s.consumer.CWait? && s.tokens > 0
  }

  /** The consumer finds the ring empty. */
  predicate FindsEmpty(s: State, l: Label) {
    l.Consumer? && s.consumer.CTestEmpty? && s.ring.occup == 0
  }

  function Count(cfg: Config, s: State, schedule: seq<Label>, event: (State, Label) -> bool): nat {
    if schedule == [] then 0 else
      var front := schedule[..|schedule| - 1];
      Count(cfg, s, front, event) + (if event(Exec(cfg, s, front), schedule[|schedule| - 1]) then 1 else 0)
  }

  lemma TokenStep(cfg: Config, s: State, l: Label)
    ensures var t := Step(cfg, s, l).tokens;
      match cfg.maxTokens
      case None => t == s.tokens + (if Signals(s, l) then 1 else 0) - (if Passes(s, l) then 1 else 0)
      case Some(most) =>
        if Signals(s, l) then t == (if s.tokens < most then s.tokens + 1 else s.tokens)
        else t == s.tokens - (if Passes(s, l) then 1 else 0)
  {
  }

  /** A counting semaphore loses no signal and passes no wait without one. */
  lemma {:induction false} SignalsAreCounted(cfg: Config, s: State, schedule: seq<Label>)
    requires cfg.maxTokens.None?
    ensures Exec(cfg, s, schedule).tokens + Count(cfg, s, schedule, Passes)
      == s.tokens + Count(cfg, s, schedule, Signals)
  {
    if schedule != [] {
      var front, last := schedule[..|schedule| - 1], schedule[|schedule| - 1];
      SignalsAreCounted(cfg, s, front);
      TokenStep(cfg, Exec(cfg, s, front), last);
    }
  }

  /** A saturating semaphore stays at or below its limit and loses a signal only at the limit. */
  lemma {:induction false} SignalsSaturate(cfg: Config, s: State, schedule: seq<Label>)
    requires cfg.maxTokens.Some? && s.tokens <= cfg.maxTokens.value
    ensures Exec(cfg, s, schedule).tokens <= cfg.maxTokens.value
    ensures Exec(cfg, s, schedule).tokens + Count(cfg, s, schedule, Passes)
      + Count(cfg, s, schedule, (t: State, l: Label) => Signals(t, l) && t.tokens == cfg.maxTokens.value)
      == s.tokens + Count(cfg, s, schedule, Signals)
  {
    if schedule != [] {
      var front, last := schedule[..|schedule| - 1], schedule[|schedule| - 1];
      SignalsSaturate(cfg, s, front);
      TokenStep(cfg, Exec(cfg, s, front), last);
    }
  }

  lemma EmptyStep(cfg: Config, s: State, l: Label)
    ensures (if FindsEmpty(s, l) then 1 else 0) + (if s.consumer.CWait? then 1 else 0)
      == (if Passes(s, l) then 1 else 0) + (if Step(cfg, s, l).consumer.CWait? then 1 else 0)
  {
  }

  /** Each time the consumer finds the ring empty it passes one wait before it goes on, so it never spins. */
  lemma {:induction false} EmptyTestsWait(cfg: Config, s: State, schedule: seq<Label>)
    requires Initial(cfg, s)
    ensures var t := Exec(cfg, s, schedule);
      Count(cfg, s, schedule, FindsEmpty)
        == Count(cfg, s, schedule, Passes) + (if t.consumer.CWait? then 1 else 0)
  {
    if schedule != [] {
      var front, last := schedule[..|schedule| - 1], schedule[|schedule| - 1];
      EmptyTestsWait(cfg, s, front);
      EmptyStep(cfg, Exec(cfg, s, front), last);
    }
  }
}
