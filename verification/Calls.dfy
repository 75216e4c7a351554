/** The records callers hand to logger_write_async are the records that reach the ring, for every interleaving. */
module Calls {
  import opened Sequences
  import opened Records
  import opened MicroLogger
  import opened Liveness
  import Atomic = AtomicLogger

  /** Producer p is not inside logger_write_async and can call it. */
  predicate Ready(s: State, p: nat) {
    p < |s.producers| && s.producers[p].PReady?
  }

  /** The arguments of the calls that producer p has made, read off the labels. */
  function Given(cfg: Config, s: State, schedule: seq<Label>, p: nat): seq<Record> {
    if schedule == [] then [] else
      var front := schedule[..|schedule| - 1];
      Given(cfg, s, front, p) +
        match schedule[|schedule| - 1]
        case Call(q, r) => if q == p && Ready(Exec(cfg, s, front), p) then [r] else []
        case _ => []
  }

  function Growth(before: seq<Record>, after: seq<Record>): seq<Record> {
    if |before| <= |after| then after[|before|..] else []
  }

  /** What the log has gained in the steps of producer p. */
  function StoredBy(cfg: Config, s: State, schedule: seq<Label>, p: nat): seq<Record> {
    if schedule == [] then [] else
      var front := schedule[..|schedule| - 1];
      StoredBy(cfg, s, front, p) +
        if schedule[|schedule| - 1] == Producer(p)
        then Growth(Exec(cfg, s, front).trace.log, Exec(cfg, s, schedule).trace.log) else []
  }

  /** The record of a call that has not stored it yet. */
  function Carried(s: State, p: nat): seq<Record> {
    if p >= |s.producers| then [] else
      match s.producers[p]
      case PLock(r) => [r]
      case PStore(r) => [r]
      case _ => []
  }

  lemma CarriedStep(cfg: Config, s: State, l: Label, p: nat)
    ensures var s' := Step(cfg, s, l);
      && s.trace.log <= s'.trace.log
      && (!l.Producer? ==> s'.trace.log == s.trace.log)
      && (if l.Producer? && l.p == p then Growth(s.trace.log, s'.trace.log) else []) + Carried(s', p)
           == Carried(s, p) + (if l.Call? && l.p == p && Ready(s, p) then [l.record] else [])
  {
  }

  /**
   * For every schedule and every producer: what it stored, followed by what it is about to store, are the arguments of
   * its calls, in order.
   */
  lemma {:induction false} CallsReachLog(cfg: Config, s: State, schedule: seq<Label>, p: nat)
    requires Initial(cfg, s)
    ensures StoredBy(cfg, s, schedule, p) + Carried(Exec(cfg, s, schedule), p) == Given(cfg, s, schedule, p)
  {
    if schedule != [] {
      var front, last := schedule[..|schedule| - 1], schedule[|schedule| - 1];
      CallsReachLog(cfg, s, front, p);
      CarriedStep(cfg, Exec(cfg, s, front), last, p);
      Regroup(StoredBy(cfg, s, front, p),
        if last == Producer(p)
        then Growth(Exec(cfg, s, front).trace.log, Exec(cfg, s, schedule).trace.log) else [],
        Carried(Exec(cfg, s, schedule), p), Carried(Exec(cfg, s, front), p),
        if last.Call? && last.p == p && Ready(Exec(cfg, s, front), p) then [last.record] else []);
    }
  }

  lemma Regroup(
      stored: seq<Record>, growth: seq<Record>, carried': seq<Record>, carried: seq<Record>, given: seq<Record>)
    requires growth + carried' == carried + given
    ensures (stored + growth) + carried' == (stored + carried) + given
  {
    assert (stored + growth) + carried' == stored + (growth + carried');
  }

  ghost predicate WasGiven(cfg: Config, s: State, schedule: seq<Label>, r: Record) {
    exists p :: r in Given(cfg, s, schedule, p)
  }

  /** Nothing else gets into the log: each record in it was stored by some producer, hence given in one of its calls. */
  lemma {:induction false} LogWasGiven(cfg: Config, s: State, schedule: seq<Label>, i: nat)
    requires Initial(cfg, s) && i < |Exec(cfg, s, schedule).trace.log|
    ensures WasGiven(cfg, s, schedule, Exec(cfg, s, schedule).trace.log[i])
  {
    var front, last := schedule[..|schedule| - 1], schedule[|schedule| - 1];
    var before, after := Exec(cfg, s, front), Exec(cfg, s, schedule);
    CarriedStep(cfg, before, last, 0);
    if i < |before.trace.log| {
      LogWasGiven(cfg, s, front, i);
      var p :| before.trace.log[i] in Given(cfg, s, front, p);
      assert after.trace.log[i] in Given(cfg, s, schedule, p);
    } else {
      CallsReachLog(cfg, s, schedule, last.p);
      assert Growth(before.trace.log, after.trace.log)[i - |before.trace.log|] == after.trace.log[i];
      assert after.trace.log[i] in StoredBy(cfg, s, schedule, last.p);
      assert after.trace.log[i] in Given(cfg, s, schedule, last.p);
    }
  }

  /** What is written or called back was the argument of a call; callbacks follow their successful writes. */
  lemma OutputsWereGiven(cfg: Config, s: State, schedule: seq<Label>)
    requires cfg.Valid() && Initial(cfg, s)
    ensures var t := Exec(cfg, s, schedule);
      && (forall k | 0 <= k < |t.trace.written| :: WasGiven(cfg, s, schedule, t.trace.written[k].record))
      && Atomic.DueCalls(t.trace.written) == t.trace.called + Due(t)
  {
    var t := Exec(cfg, s, schedule);
    assert Reachable(cfg, t);
    WrittenInLockOrder(cfg, t);
    CallbacksFollowWrites(cfg, t);
    var numbers :| Numbers(numbers, t.trace.log, t.trace.written, 0);
    forall k | 0 <= k < |t.trace.written|
      ensures WasGiven(cfg, s, schedule, t.trace.written[k].record)
    {
      LogWasGiven(cfg, s, schedule, numbers[k]);
      assert t.trace.written[k].record == t.trace.log[numbers[k]];
    }
  }
}
