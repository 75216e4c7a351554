/** What every interleaving of the atomic logger does to the records: conservation, order, freshness, callbacks. */
module History {
  import opened Sequences
  import opened Records
  import opened AtomicLogger

  ghost predicate Reachable(cap: nat, s: State) {
    1 <= cap && exists schedule :: s == Exec(cap, INITIAL, schedule)
  }

  lemma ReachableInv(cap: nat, s: State)
    requires Reachable(cap, s)
    ensures Inv(cap, s)
  {
    var schedule :| s == Exec(cap, INITIAL, schedule);
    InitialInv(cap);
    ExecInv(cap, INITIAL, schedule);
  }

  lemma ExecReachable(cap: nat, s: State, schedule: seq<Label>)
    requires Reachable(cap, s)
    ensures Reachable(cap, Exec(cap, s, schedule))
  {
    var before :| s == Exec(cap, INITIAL, before);
    ExecConcat(cap, INITIAL, before, schedule);
  }

  // ---- Conservation ----

  predicate Popped(f: Fate) {
    f.InFlight? || f.Written?
  }

  lemma {:induction false} FatesPartition(fate: seq<Fate>)
    ensures |fate| == Count(fate, (f: Fate) => f.Queued?) + Count(fate, (f: Fate) => Popped(f))
      + Count(fate, (f: Fate) => f.Overwritten?) + Count(fate, (f: Fate) => f.Discarded?)
  {
    if fate != [] {
      FatesPartition(fate[..|fate| - 1]);
    }
  }

  /** Counting the popped records gives the length of the increasing list of their numbers. */
  lemma {:induction false} PoppedAreListed(fate: seq<Fate>, pops: seq<nat>)
    requires StrictlyIncreasing(pops)
    requires forall k | 0 <= k < |pops| :: pops[k] < |fate|
    requires forall i | 0 <= i < |fate| :: Popped(fate[i]) <==> i in pops
    ensures Count(fate, (f: Fate) => Popped(f)) == |pops|
  {
    if fate != [] {
      var last := |fate| - 1;
      if last in pops {
        assert pops[|pops| - 1] == last;
        forall i | 0 <= i < last
          ensures i in pops <==> i in pops[..|pops| - 1]
        {
        }
        PoppedAreListed(fate[..last], pops[..|pops| - 1]);
      } else {
        forall k | 0 <= k < |pops|
          ensures pops[k] < last
        {
          assert pops[k] in pops;
        }
        PoppedAreListed(fate[..last], pops);
      }
    } else {
      IncreasingFits(pops, 0, 0);
    }
  }

  lemma QueuedAreTheQueue(cap: nat, s: State)
    requires Inv(cap, s)
    ensures Count(s.fate, (f: Fate) => f.Queued?) == |s.queue|
  {
    var old', new' := s.fate[..s.Front()], s.fate[s.Front()..];
    forall i | 0 <= i < |s.fate|
      ensures s.fate[i].Queued? <==> i >= s.Front()
    {
      assert FateOk(cap, s, i);
    }
    assert s.fate == old' + new';
    CountConcat(old', new', (f: Fate) => f.Queued?);
    CountNone(old', (f: Fate) => f.Queued?);
    CountAll(new', (f: Fate) => f.Queued?);
  }

  /** Every record pushed is written, being written, queued, overwritten or discarded by a restart; none twice. */
  lemma Conservation(cap: nat, s: State)
    requires Reachable(cap, s)
    ensures |s.log| == |s.written| + (if s.phase.Writing? then 1 else 0) + |s.queue|
      + Count(s.fate, (f: Fate) => f.Overwritten?) + Count(s.fate, (f: Fate) => f.Discarded?)
  {
    ReachableInv(cap, s);
    FatesPartition(s.fate);
    QueuedAreTheQueue(cap, s);
    forall i | 0 <= i < |s.fate|
      ensures Popped(s.fate[i]) <==> i in s.pops
    {
      assert FateOk(cap, s, i);
    }
    PoppedAreListed(s.fate, s.pops);
  }

  // ---- Order ----

  /** Over a whole run the written records appear in lock order, each at most once. */
  lemma WrittenInOrder(cap: nat, s: State)
    requires Reachable(cap, s)
    ensures StrictlyIncreasing(s.pops) && |s.written| <= |s.pops|
    ensures forall k | 0 <= k < |s.written| :: s.pops[k] < |s.log| && s.written[k].record == s.log[s.pops[k]]
  {
    ReachableInv(cap, s);
  }

  /** A record is lost to overwriting only to the push cap places after it, and is then never written. */
  lemma OverwrittenByDistance(cap: nat, s: State, i: nat)
    requires Reachable(cap, s) && i < |s.fate| && s.fate[i].Overwritten?
    ensures s.fate[i].pusher == i + cap < |s.log| && i !in s.pops
  {
    ReachableInv(cap, s);
    assert FateOk(cap, s, i);
    forall k | 0 <= k < |s.pops|
      ensures s.pops[k] != i
    {
      assert Popped(s.fate[s.pops[k]]);
    }
  }

  // ---- Freshness ----

  /** The history only grows, and what is popped from now on was pushed after the last cb_init. */
  ghost predicate Grows(s: State, t: State) {
    && s.log <= t.log && s.written <= t.written && s.pops <= t.pops && s.base <= t.base
    && forall k | |s.pops| <= k < |t.pops| :: s.base <= t.pops[k]
  }

  lemma StepGrows(cap: nat, s: State, l: Label)
    requires Inv(cap, s)
    ensures Grows(s, Step(cap, s, l))
  {
  }

  lemma GrowsTransitive(s: State, t: State, u: State)
    requires Grows(s, t) && Grows(t, u)
    ensures Grows(s, u)
  {
  }

  lemma {:induction false} ExecGrows(cap: nat, s: State, schedule: seq<Label>)
    requires Inv(cap, s)
    ensures Grows(s, Exec(cap, s, schedule))
  {
    if schedule != [] {
      var front, last := schedule[..|schedule| - 1], schedule[|schedule| - 1];
      ExecGrows(cap, s, front);
      ExecInv(cap, s, front);
      StepGrows(cap, Exec(cap, s, front), last);
      GrowsTransitive(s, Exec(cap, s, front), Exec(cap, s, schedule));
    }
  }

  lemma {:induction false} DueCallsConcat(a: seq<Output>, b: seq<Output>)
    ensures DueCalls(a + b) == DueCalls(a) + DueCalls(b)
  {
    if b == [] {
      assert a + b == a;
    } else {
      DueCallsConcat(a, b[..|b| - 1]);
      assert (a + b)[..|a + b| - 1] == a + b[..|b| - 1];
    }
  }

  /**
   * Once a start has passed cb_init, only records pushed after it are written or called back, whatever happens
   * later (further stops and restarts included): `s.base` is the number of records pushed before it.
   */
  lemma SessionFresh(cap: nat, s: State, schedule: seq<Label>)
    requires Reachable(cap, s) && s.phase.Starting?
    ensures var t := Exec(cap, s, schedule);
      && s.written <= t.written && |t.written| <= |t.pops|
      && (forall k | |s.written| <= k < |t.written| ::
            s.base <= t.pops[k] < |t.log| && t.written[k].record == t.log[t.pops[k]])
      && t.called + (if t.phase.Calling? then [t.phase.record] else [])
           == s.called + DueCalls(t.written[|s.written|..])
  {
    ReachableInv(cap, s);
    ExecInv(cap, s, schedule);
    ExecGrows(cap, s, schedule);
    FreshFrom(cap, s, Exec(cap, s, schedule));
  }

  lemma FreshFrom(cap: nat, s: State, t: State)
    requires Inv(cap, s) && Inv(cap, t) && Grows(s, t) && s.phase.Starting?
    ensures s.written <= t.written && |t.written| <= |t.pops|
    ensures forall k | |s.written| <= k < |t.written| ::
      s.base <= t.pops[k] < |t.log| && t.written[k].record == t.log[t.pops[k]]
    ensures t.called + (if t.phase.Calling? then [t.phase.record] else [])
      == s.called + DueCalls(t.written[|s.written|..])
  {
    CallsFrom(s.written, t.written);
    assert DueCalls(s.written) == s.called;
    FreshNumbers(s, t);
  }

  lemma FreshNumbers(s: State, t: State)
    requires Grows(s, t) && |s.written| == |s.pops|
    requires |t.fate| == |t.log| && |t.queue| <= |t.log| && PopsOk(t) && OutputsOk(t)
    ensures forall k | |s.written| <= k < |t.written| ::
      s.base <= t.pops[k] < |t.log| && t.written[k].record == t.log[t.pops[k]]
  {
  }

  lemma CallsFrom(a: seq<Output>, b: seq<Output>)
    requires a <= b
    ensures DueCalls(b) == DueCalls(a) + DueCalls(b[|a|..])
  {
    assert b == a + b[|a|..];
    DueCallsConcat(a, b[|a|..]);
  }

  // ---- Loss-free sessions ----

  function RecordsOf(outputs: seq<Output>): seq<Record> {
    seq(|outputs|, i requires 0 <= i < |outputs| => outputs[i].record)
  }

  /** What this session has taken off the queue: the finished writes, then the one in progress. */
  function Delivered(s: State): seq<Record>
    requires s.sessionPops <= |s.written|
  {
    RecordsOf(s.written[s.sessionPops..]) + (if s.phase.Writing? then [s.phase.record] else [])
  }

  lemma DeliveredArePops(cap: nat, s: State)
    requires Inv(cap, s)
    ensures s.sessionPops <= |s.written| && |Delivered(s)| == |s.pops| - s.sessionPops
    ensures forall k | 0 <= k < |Delivered(s)| :: Delivered(s)[k] == s.log[s.pops[s.sessionPops + k]]
  {
  }

  ghost predicate NoOverwrite(s: State)
    requires 0 <= s.base <= s.Front() <= |s.fate|
  {
    forall i | s.base <= i < s.Front() :: !s.fate[i].Overwritten?
  }

  lemma NoOverwriteFills(cap: nat, s: State)
    requires Inv(cap, s) && NoOverwrite(s)
    ensures |s.pops| - s.sessionPops == s.Front() - s.base
    ensures forall k | s.sessionPops <= k < |s.pops| :: s.pops[k] == s.base + k - s.sessionPops
  {
    var session := s.pops[s.sessionPops..];
    assert forall k | s.sessionPops <= k < |s.pops| :: s.pops[k] == session[k - s.sessionPops];
    IncreasingFits(session, s.base, s.Front());
    forall i | s.base <= i < s.Front()
      ensures i in session
    {
      assert FateOk(cap, s, i);
      assert i in s.pops;
    }
    IncreasingInterval(session, s.base, s.Front());
  }

  lemma FillsNoOverwrite(cap: nat, s: State)
    requires Inv(cap, s) && |s.pops| - s.sessionPops == s.Front() - s.base
    ensures NoOverwrite(s)
  {
    var session := s.pops[s.sessionPops..];
    IncreasingFits(session, s.base, s.Front());
    forall i | s.base <= i < s.Front()
      ensures Popped(s.fate[i])
    {
      assert session[i - s.base] == i;
    }
  }

  /** If label i pushes a record of the session that began at record `base`, it finds the queue not full. */
  ghost predicate FindsRoom(cap: nat, schedule: seq<Label>, base: nat, i: nat)
    requires i < |schedule|
  {
    var before := Exec(cap, INITIAL, schedule[..i]);
    schedule[i].Push? && base <= |before.log| ==> |before.queue| < cap
  }

  /** No push since the last cb_init of this run takes the full branch of cb_push. */
  ghost predicate AlwaysRoom(cap: nat, schedule: seq<Label>, base: nat) {
    forall i | 0 <= i < |schedule| :: FindsRoom(cap, schedule, base, i)
  }

  lemma AlwaysRoomSnoc(cap: nat, schedule: seq<Label>, base: nat)
    requires schedule != []
    ensures AlwaysRoom(cap, schedule, base)
      <==> AlwaysRoom(cap, schedule[..|schedule| - 1], base) && FindsRoom(cap, schedule, base, |schedule| - 1)
  {
    var front := schedule[..|schedule| - 1];
    assert forall i | 0 <= i < |front| :: front[..i] == schedule[..i];
    assert forall i | 0 <= i < |front| :: FindsRoom(cap, front, base, i) <==> FindsRoom(cap, schedule, base, i);
  }

  /** Every push of the run so far belongs to an earlier session than one that begins now. */
  lemma EarlierPushes(cap: nat, schedule: seq<Label>)
    requires 1 <= cap
    ensures AlwaysRoom(cap, schedule, |Exec(cap, INITIAL, schedule).log|)
  {
    forall i | 0 <= i < |schedule| && schedule[i].Push?
      ensures |Exec(cap, INITIAL, schedule[..i]).log| < |Exec(cap, INITIAL, schedule).log|
    {
      var upTo := schedule[..i + 1];
      assert upTo[..i] == schedule[..i] && schedule == upTo + schedule[i + 1..];
      InitialInv(cap);
      ExecInv(cap, INITIAL, upTo);
      ExecConcat(cap, INITIAL, upTo, schedule[i + 1..]);
      ExecGrows(cap, Exec(cap, INITIAL, upTo), schedule[i + 1..]);
    }
  }

  lemma FullPushOverwrites(cap: nat, s: State, r: Record)
    requires Inv(cap, s) && |s.queue| == cap
    requires Inv(cap, Step(cap, s, Push(r)))
    ensures !NoOverwrite(Step(cap, s, Push(r)))
  {
    var t := Step(cap, s, Push(r));
    assert t.fate[s.Front()] == Overwritten(|s.log|) && s.Front() < t.Front();
  }

  lemma OtherStepKeepsFates(cap: nat, s: State, l: Label, i: nat)
    requires Inv(cap, s) && !(l.Init? && Enabled(s, l)) && !(l.Push? && |s.queue| == cap)
    requires Inv(cap, Step(cap, s, l)) && i < |s.fate|
    ensures i < |Step(cap, s, l).fate| && (s.fate[i].Overwritten? <==> Step(cap, s, l).fate[i].Overwritten?)
  {
    assert FateOk(cap, s, i);
  }

  lemma OtherStepFronts(cap: nat, s: State, l: Label)
    requires Inv(cap, s) && !(l.Init? && Enabled(s, l)) && !(l.Push? && |s.queue| == cap)
    requires Inv(cap, Step(cap, s, l))
    ensures var t := Step(cap, s, l);
      && s.base == t.base && s.Front() <= t.Front() <= |t.fate|
      && forall i | s.Front() <= i < t.Front() :: i < |s.fate| && !t.fate[i].Overwritten?
  {
  }

  /** One step other than cb_init loses a record of the session exactly if it pushes onto a full queue. */
  lemma OverwriteStep(cap: nat, s: State, l: Label)
    requires Inv(cap, s) && !(l.Init? && Enabled(s, l))
    ensures var t := Step(cap, s, l);
      && Inv(cap, t) && t.base == s.base
      && (NoOverwrite(t) <==> NoOverwrite(s) && (l.Push? ==> |s.queue| < cap))
  {
    var t := Step(cap, s, l);
    StepInv(cap, s, l);
    if l.Push? && |s.queue| == cap {
      FullPushOverwrites(cap, s, l.record);
    } else {
      OtherStepFronts(cap, s, l);
      forall i | 0 <= i < |s.fate|
        ensures s.fate[i].Overwritten? <==> t.fate[i].Overwritten?
      {
        OtherStepKeepsFates(cap, s, l, i);
      }
    }
  }

  lemma {:induction false} OverwriteIff(cap: nat, schedule: seq<Label>)
    requires 1 <= cap
    ensures var t := Exec(cap, INITIAL, schedule);
      && Inv(cap, t)
      && (NoOverwrite(t) <==> AlwaysRoom(cap, schedule, t.base))
  {
    InitialInv(cap);
    if schedule != [] {
      var front, l := schedule[..|schedule| - 1], schedule[|schedule| - 1];
      var s := Exec(cap, INITIAL, front);
      OverwriteIff(cap, front);
      AlwaysRoomSnoc(cap, schedule, Exec(cap, INITIAL, schedule).base);
      if l.Init? && Enabled(s, l) {
        StepInv(cap, s, l);
        EarlierPushes(cap, front);
      } else {
        OverwriteStep(cap, s, l);
      }
    }
  }

  /**
   * What a session delivered and what is still queued, put together, are all the records pushed since its cb_init, in
   * order, if and only if each of these pushes found fewer than `cap` records queued. Then the logger is an unbounded
   * FIFO.
   */
  lemma LossFreeIff(cap: nat, schedule: seq<Label>)
    requires 1 <= cap
    ensures var t := Exec(cap, INITIAL, schedule);
      && t.sessionPops <= |t.written| && t.base <= |t.log|
      && (AlwaysRoom(cap, schedule, t.base) <==> Delivered(t) + t.queue == t.log[t.base..])
  {
    var t := Exec(cap, INITIAL, schedule);
    OverwriteIff(cap, schedule);
    DeliveredArePops(cap, t);
    if NoOverwrite(t) {
      LossFreeDelivers(cap, t);
    } else if Delivered(t) + t.queue == t.log[t.base..] {
      assert |Delivered(t)| + |t.queue| == |t.log| - t.base;
      FillsNoOverwrite(cap, t);
    }
  }

  lemma LossFreeDelivers(cap: nat, s: State)
    requires Inv(cap, s) && NoOverwrite(s) && s.sessionPops <= |s.written|
    ensures Delivered(s) + s.queue == s.log[s.base..]
  {
    DeliveredArePops(cap, s);
    NoOverwriteFills(cap, s);
    forall k | 0 <= k < |Delivered(s)|
      ensures Delivered(s)[k] == s.log[s.base + k]
    {
      assert s.pops[s.sessionPops + k] == s.base + k;
    }
    assert Delivered(s) == s.log[s.base..s.Front()];
    assert s.log[s.base..] == s.log[s.base..s.Front()] + s.log[s.Front()..];
  }

  /** So the records of one channel keep their order. */
  lemma ChannelOrder(cap: nat, schedule: seq<Label>, id: nat)
    requires 1 <= cap && AlwaysRoom(cap, schedule, Exec(cap, INITIAL, schedule).base)
    ensures var t, ofChannel := Exec(cap, INITIAL, schedule), (r: Record) => r.id == id;
      && t.sessionPops <= |t.written| && t.base <= |t.log|
      && Filter(Delivered(t), ofChannel) + Filter(t.queue, ofChannel) == Filter(t.log[t.base..], ofChannel)
  {
    var t := Exec(cap, INITIAL, schedule);
    LossFreeIff(cap, schedule);
    FilterConcat(Delivered(t), t.queue, (r: Record) => r.id == id);
  }

  // ---- Callbacks ----

  /** Each successful write of a record with a callback is followed by that callback once, with that record's data. */
  lemma CallbacksOnce(cap: nat, s: State)
    requires Reachable(cap, s)
    ensures DueCalls(s.written) == s.called + (if s.phase.Calling? then [s.phase.record] else [])
    ensures s.phase.Calling? ==> s.phase.record.callback != NoCallback
  {
    ReachableInv(cap, s);
  }
}
