/**
 * Each operation run step by step without interruption: the single assignments of MicroLogger, put together, have the
 * effect that Logger proves of the methods.
 */
module Uninterrupted {
  import opened Sequences
  import opened Records
  import opened MicroLogger
  import opened Refinement
  import opened Calls
  import Atomic = AtomicLogger

  function Repeat(l: Label, n: nat): seq<Label> {
    seq(n, _ => l)
  }

  lemma OneMore(cfg: Config, s: State, l: Label, n: nat)
    ensures Exec(cfg, s, Repeat(l, 0)) == s
    ensures Exec(cfg, s, Repeat(l, n + 1)) == Step(cfg, Exec(cfg, s, Repeat(l, n)), l)
  {
    assert Repeat(l, n + 1)[..n] == Repeat(l, n);
  }

  /** The token count after one more signal. */
  function Signalled(cfg: Config, tokens: nat): nat {
    match cfg.maxTokens
    case None => tokens + 1
    case Some(most) => if tokens < most then tokens + 1 else tokens
  }

  // ---- logger_write_async ----

  /** The ring is in use and no one holds the lock. */
  ghost predicate Quiet(cfg: Config, s: State) {
    Inv(cfg, s) && s.owner == Free && s.inited && !Initialising(s.consumer)
  }

  /** t is a point of producer p's call with r, made in s. */
  ghost predicate InCall(cfg: Config, s: State, p: nat, r: Record, t: State)
    requires Inv(cfg, s)
  {
    && Inv(cfg, t) && p < |s.producers| == |t.producers|
    && t == s.(ring := t.ring, owner := t.owner, tokens := t.tokens,
               producers := s.producers[p := t.producers[p]], trace := t.trace)
    && t.trace == s.trace.(log := t.trace.log)
    && (if t.producers[p] in {PLock(r), PStore(r)}
        then t.trace.log == s.trace.log && Contents(cfg, t) == Contents(cfg, s)
        else t.trace.log == s.trace.log + [r] && Contents(cfg, t) == KeepLast(Contents(cfg, s) + [r], cfg.cap))
    && t.tokens == (if t.producers[p].PReady? then Signalled(cfg, s.tokens) else s.tokens)
    && t.owner == (if Critical(t.producers[p]) then ByProducer(p) else Free)
    && (Carried(t, p) == [] || Carried(t, p) == [r])
  }

  function StepsOfCall(pc: ProducerPc): nat {
    match pc
    case PLock(_) => 7
    case PStore(_) => 6
    case PTail => 5
    case PTest => 4
    case PHead => 3
    case POccup => 3
    case PUnlock => 2
    case PSignal => 1
    case PReady => 0
  }

  lemma CallAdvances(cfg: Config, s: State, p: nat, r: Record, t: State)
    requires Quiet(cfg, s) && InCall(cfg, s, p, r, t) && !t.producers[p].PReady?
    ensures var t' := Step(cfg, t, Producer(p));
      InCall(cfg, s, p, r, t') && StepsOfCall(t'.producers[p]) == StepsOfCall(t.producers[p]) - 1
  {
    StepInv(cfg, t, Producer(p));
    if t.producers[p].PStore? {
      StoreContents(cfg, t, p);
    } else {
      ProducerContents(cfg, t, p);
    }
  }

  lemma CallStarts(cfg: Config, s: State, p: nat, r: Record)
    requires Quiet(cfg, s) && Ready(s, p)
    ensures InCall(cfg, s, p, r, Step(cfg, s, Call(p, r)))
    ensures Step(cfg, s, Call(p, r)).producers[p] == PLock(r)
  {
    StepInv(cfg, s, Call(p, r));
    ContentsFrame(cfg, s, Step(cfg, s, Call(p, r)));
  }

  lemma {:induction false} CallProgress(cfg: Config, s: State, p: nat, r: Record, n: nat)
    requires Quiet(cfg, s) && Ready(s, p) && n <= 7
    ensures var t := Exec(cfg, Step(cfg, s, Call(p, r)), Repeat(Producer(p), n));
      InCall(cfg, s, p, r, t) && StepsOfCall(t.producers[p]) == 7 - n
  {
    var called := Step(cfg, s, Call(p, r));
    if n == 0 {
      OneMore(cfg, called, Producer(p), 0);
      CallStarts(cfg, s, p, r);
    } else {
      CallProgress(cfg, s, p, r, n - 1);
      OneMore(cfg, called, Producer(p), n - 1);
      CallAdvances(cfg, s, p, r, Exec(cfg, called, Repeat(Producer(p), n - 1)));
    }
  }

  /**
   * A call of logger_write_async that finds the lock free and is not interrupted returns after seven steps. Exactly its
   * record has joined the keep-last queue and the log, one signal was given, and nothing else has changed.
   */
  lemma CallCompletes(cfg: Config, s: State, p: nat, r: Record)
    requires Quiet(cfg, s) && Ready(s, p)
    ensures var t := Exec(cfg, Step(cfg, s, Call(p, r)), Repeat(Producer(p), 7));
      && Quiet(cfg, t)
      && Contents(cfg, t) == KeepLast(Contents(cfg, s) + [r], cfg.cap)
      && t == s.(ring := t.ring, tokens := Signalled(cfg, s.tokens), trace := s.trace.(log := s.trace.log + [r]))
  {
    CallProgress(cfg, s, p, r, 7);
    var t := Exec(cfg, Step(cfg, s, Call(p, r)), Repeat(Producer(p), 7));
    assert s.producers[p := PReady] == s.producers;
  }

  // ---- perform_write ----

  /** t is a point of the round that the consumer began in s on a queue with oldest record r. */
  ghost predicate InRound(cfg: Config, s: State, r: Record, success: bool, t: State)
    requires Inv(cfg, s)
  {
    var calls := success && r.callback != NoCallback;
    && Inv(cfg, t)
    && Contents(cfg, s) != [] && r == Contents(cfg, s)[0]
    && t == s.(ring := t.ring, owner := t.owner, consumer := t.consumer, temp := t.temp, trace := t.trace)
    && t.trace == s.trace.(written := t.trace.written, called := t.trace.called)
    && t.owner == (if InPop(t.consumer) then ByConsumer else Free)
    && match t.consumer
       case CTestEmpty => t.trace == s.trace && Contents(cfg, t) == Contents(cfg, s)
       case CLock => t.trace == s.trace && Contents(cfg, t) == Contents(cfg, s)
       case CTestPop => t.trace == s.trace && Contents(cfg, t) == Contents(cfg, s)
       case CRead => t.trace == s.trace && Contents(cfg, t) == Contents(cfg, s)
       case CHead => t.trace == s.trace && Contents(cfg, t) == Contents(cfg, s)
       case COccup => t.trace == s.trace && Contents(cfg, t) == Contents(cfg, s)[1..] && t.temp == Some(r)
       case CUnlock => t.trace == s.trace && Contents(cfg, t) == Contents(cfg, s)[1..] && t.temp == Some(r)
       case CWrite => t.trace == s.trace && Contents(cfg, t) == Contents(cfg, s)[1..] && t.temp == Some(r)
       case CCall =>
         && calls && Contents(cfg, t) == Contents(cfg, s)[1..] && t.temp == Some(r)
         && t.trace == s.trace.(written := s.trace.written + [Atomic.Output(r, success)])
       case CTestStatus =>
         && Contents(cfg, t) == Contents(cfg, s)[1..]
         && t.trace == s.trace.(written := s.trace.written + [Atomic.Output(r, success)],
                                called := s.trace.called + (if calls then [r] else []))
       case _ => false
  }

  function StepsOfRound(pc: ConsumerPc, calls: bool): nat {
    match pc
    case CTestEmpty => if calls then 9 else 8
    case CLock => if calls then 8 else 7
    case CTestPop => if calls then 7 else 6
    case CRead => if calls then 6 else 5
    case CHead => if calls then 5 else 4
    case COccup => if calls then 4 else 3
    case CUnlock => if calls then 3 else 2
    case CWrite => if calls then 2 else 1
    case CCall => 1
    case _ => 0
  }

  /** At rest an empty ring and an empty queue are the same. */
  lemma RestingOccup(cfg: Config, s: State)
    requires Quiet(cfg, s)
    ensures |Contents(cfg, s)| == s.ring.occup
  {
  }

  lemma RoundAdvances(cfg: Config, s: State, r: Record, success: bool, t: State)
    requires Quiet(cfg, s) && InRound(cfg, s, r, success, t) && !t.consumer.CTestStatus?
    ensures var t', calls := Step(cfg, t, Consumer(success)), success && r.callback != NoCallback;
      && InRound(cfg, s, r, success, t')
      && StepsOfRound(t'.consumer, calls) == StepsOfRound(t.consumer, calls) - 1
  {
    StepInv(cfg, t, Consumer(success));
    if t.consumer.CHead? {
      HeadContents(cfg, t, success);
    } else {
      ConsumerContents(cfg, t, success);
      if t.consumer.CTestEmpty? {
        RestingOccup(cfg, t);
      }
    }
  }

  lemma {:induction false} RoundProgress(cfg: Config, s: State, success: bool, n: nat)
    requires Quiet(cfg, s) && s.consumer.CTestEmpty? && Contents(cfg, s) != []
    requires n <= StepsOfRound(CTestEmpty, success && Contents(cfg, s)[0].callback != NoCallback)
    ensures var t, r := Exec(cfg, s, Repeat(Consumer(success), n)), Contents(cfg, s)[0];
      var calls := success && r.callback != NoCallback;
      && InRound(cfg, s, r, success, t)
      && StepsOfRound(t.consumer, calls) == StepsOfRound(CTestEmpty, calls) - n
  {
    if n == 0 {
      OneMore(cfg, s, Consumer(success), 0);
    } else {
      RoundProgress(cfg, s, success, n - 1);
      OneMore(cfg, s, Consumer(success), n - 1);
      RoundAdvances(cfg, s, Contents(cfg, s)[0], success, Exec(cfg, s, Repeat(Consumer(success), n - 1)));
    }
  }

  /**
   * A round on a queue that is not empty, if not interrupted, returns to the status test. It has taken the oldest
   * record, written it, and run its callback exactly if the write succeeded and it has one; nothing else has changed.
   */
  lemma RoundCompletes(cfg: Config, s: State, success: bool)
    requires Quiet(cfg, s) && s.consumer.CTestEmpty? && Contents(cfg, s) != []
    ensures var r := Contents(cfg, s)[0];
      var calls := success && r.callback != NoCallback;
      var t := Exec(cfg, s, Repeat(Consumer(success), if calls then 9 else 8));
      && Quiet(cfg, t)
      && Contents(cfg, t) == Contents(cfg, s)[1..]
      && t == s.(ring := t.ring, consumer := CTestStatus, temp := t.temp, trace := s.trace.(
           written := s.trace.written + [Atomic.Output(r, success)],
           called := s.trace.called + (if calls then [r] else [])))
  {
    var calls := success && Contents(cfg, s)[0].callback != NoCallback;
    RoundProgress(cfg, s, success, if calls then 9 else 8);
  }

  /** A round on an empty queue goes to the wait, and comes back from it with a token and with nothing else changed. */
  lemma EmptyRoundWaits(cfg: Config, s: State, success: bool)
    requires Quiet(cfg, s) && s.consumer.CTestEmpty? && Contents(cfg, s) == []
    ensures var t := Step(cfg, s, Consumer(success));
      && t == s.(consumer := CWait, temp := None)
      && (s.tokens == 0 ==> Step(cfg, t, Consumer(success)) == t)
      && (s.tokens > 0 ==> Step(cfg, t, Consumer(success)) == t.(consumer := CTestStatus, tokens := s.tokens - 1))
  {
    RestingOccup(cfg, s);
  }

  /** The status test goes into another round exactly if the status is RUNNING, and out of logger_start otherwise. */
  lemma StatusTest(cfg: Config, s: State, success: bool)
    requires s.consumer.CTestStatus?
    ensures Step(cfg, s, Consumer(success)) == s.(consumer := if s.status == Running then CTestEmpty else CHalted)
  {
  }

  // ---- logger_start and logger_stop ----

  /** The state after n steps of cb_init and the store of RUNNING. */
  function Begun(cfg: Config, s: State, n: nat): State {
    var ring := s.ring.(
      size := if n >= 1 then cfg.cap else s.ring.size,
      occup := if n >= 2 then 0 else s.ring.occup,
      head := if n >= 3 then 0 else s.ring.head,
      tail := if n >= 4 then 0 else s.ring.tail);
    s.(ring := ring,
       consumer := match n
         case 0 => CInitSize
         case 1 => CInitOccup
         case 2 => CInitHead
         case 3 => CInitTail
         case 4 => CSetRunning
         case _ => CTestStatus,
       inited := s.inited || n >= 4,
       status := if n >= 5 then Running else s.status)
  }

  lemma BegunStep(cfg: Config, s: State, success: bool, n: nat)
    requires n < 5
    ensures Step(cfg, Begun(cfg, s, n), Consumer(success)) == Begun(cfg, s, n + 1)
  {
  }

  lemma {:induction false} StartProgress(cfg: Config, s: State, success: bool, n: nat)
    requires s.consumer.CHalted? && s.status.Idle? && s.owner == Free && n <= 5
    ensures Exec(cfg, Step(cfg, s, Start), Repeat(Consumer(success), n)) == Begun(cfg, s, n)
  {
    if n == 0 {
      OneMore(cfg, Step(cfg, s, Start), Consumer(success), 0);
    } else {
      OneMore(cfg, Step(cfg, s, Start), Consumer(success), n - 1);
      StartProgress(cfg, s, success, n - 1);
      BegunStep(cfg, s, success, n - 1);
    }
  }

  /** A start of an idle logger, if not interrupted, reaches the loop after cb_init with an empty ring, RUNNING. */
  lemma StartCompletes(cfg: Config, s: State, success: bool)
    requires Inv(cfg, s) && s.owner == Free && s.consumer.CHalted?
    ensures var t := Exec(cfg, Step(cfg, s, Start), Repeat(Consumer(success), 5));
      && Quiet(cfg, t) && Contents(cfg, t) == []
      && t == s.(ring := Fields(s.ring.data, 0, 0, 0, cfg.cap), consumer := CTestStatus, status := Running,
                 inited := true)
  {
    StartProgress(cfg, s, success, 5);
    StepInv(cfg, s, Start);
    ExecInv(cfg, Step(cfg, s, Start), Repeat(Consumer(success), 5));
    assert |s.ring.data| == cfg.cap;
  }

  /** A stop sets IDLE and then gives one signal. */
  lemma StopCompletes(cfg: Config, s: State)
    requires s.status.Running? && !s.stopping
    ensures var t := Step(cfg, s, Stopper);
      && t == s.(status := Idle, stopping := true)
      && Step(cfg, t, Stopper) == s.(status := Idle, tokens := Signalled(cfg, s.tokens))
  {
  }
}
