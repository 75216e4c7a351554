/** src/logger.c on the heap: one thread at a time, with the platform hooks it calls recorded in order. */
module Logger {
  import opened Sequences
  import opened Words
  import opened Registry
  import opened Records
  import opened Ring

  newtype uint8 = x: int | 0 <= x < 256
  newtype uint16 = x: int | 0 <= x < 65536

  /** A call through one of the logger's function pointers or through a record's callback; some with the status then. */
  datatype Hook =
    | Started(destination: string, status: Status)
    | Stopped(status: Status)
    | Lock
    | Unlock
    | Signal(status: Status)
    | Wait
    | Write(record: Record)
    | Call(callback: Callback, data: Pointer)

  /** The arguments of a call of logger_write_async. */
  datatype Request = Request(id: uint8, data: Pointer, size: uint16, callback: Callback)

  function RecordOf(r: Request): Record {
    Record(r.data, r.size as nat, r.id as nat, r.callback)
  }

  /**
   * What happens in one turn of the consumer's loop: other threads queue records and perhaps stop the logger before
   * the status test, and `success` is what _write returns if it is called.
   */
  datatype Turn = Turn(requests: seq<Request>, stop: bool, success: bool)

  /** The n-th status test still finds the logger running. */
  predicate GoesOn(turns: seq<Turn>, n: nat) {
    n < |turns| && !turns[n].stop
  }

  predicate NoStopBefore(turns: seq<Turn>, n: nat) {
    n <= |turns| && forall i | 0 <= i < n :: !turns[i].stop
  }

  function PushesOf(requests: seq<Request>): seq<Ring.Op<Record>> {
    seq(|requests|, i requires 0 <= i < |requests| => Push(RecordOf(requests[i])))
  }

  /** The ring operations up to the n-th status test; after the last turn another thread stops the logger. */
  function OpsUpTo(turns: seq<Turn>, n: nat): seq<Ring.Op<Record>> {
    (if n == 0 then [] else OpsUpTo(turns, n - 1) + [Pop])
      + OpsOfTurn(turns, n)
  }

  function OpsOfTurn(turns: seq<Turn>, n: nat): seq<Ring.Op<Record>> {
    if n < |turns| then PushesOf(turns[n].requests) else []
  }

  lemma OneMorePush(ops: seq<Ring.Op<Record>>, requests: seq<Request>, i: nat, size: nat)
    requires i < |requests|
    ensures Run(ops + PushesOf(requests[..i + 1]), size)
      == KeepLast(Run(ops + PushesOf(requests[..i]), size) + [RecordOf(requests[i])], size)
    ensures Popped(ops + PushesOf(requests[..i + 1]), size) == Popped(ops + PushesOf(requests[..i]), size)
  {
    var all := ops + PushesOf(requests[..i + 1]);
    assert all[..|all| - 1] == ops + PushesOf(requests[..i]);
    assert all[|all| - 1] == Push(RecordOf(requests[i]));
  }

  /** Before status test n of a session the ring and the written records are those of the specification's run. */
  ghost predicate Serving(
      turns: seq<Turn>, n: nat, size: nat, queue: seq<Record>, before: seq<Record>, written: seq<Record>)
  {
    && queue == Run(OpsUpTo(turns, n), size)
    && written == before + Popped(OpsUpTo(turns, n), size)
  }

  lemma FirstServing(turns: seq<Turn>, size: nat, queue: seq<Record>, written: seq<Record>)
    requires queue == Run([] + OpsOfTurn(turns, 0), size) && Popped([] + OpsOfTurn(turns, 0), size) == Popped([], size)
    ensures Serving(turns, 0, size, queue, written, written)
  {
    assert OpsUpTo(turns, 0) == [] + OpsOfTurn(turns, 0);
  }

  lemma NextServing(
      turns: seq<Turn>, n: nat, size: nat, queue: seq<Record>, before: seq<Record>, written: seq<Record>,
      ops: seq<Ring.Op<Record>>)
    requires ops == OpsUpTo(turns, n)
    requires var ops' := ops + [Pop] + OpsOfTurn(turns, n + 1);
      && queue == Run(ops', size) && Popped(ops', size) == Popped(ops, size) + Next(ops, size)
      && written == before + Popped(ops, size) + Next(ops, size)
    ensures Serving(turns, n + 1, size, queue, before, written)
  {
    assert OpsUpTo(turns, n + 1) == ops + [Pop] + OpsOfTurn(turns, n + 1);
  }

  /** The record that a pop after these operations takes off the ring, if there is one. */
  function Next(ops: seq<Ring.Op<Record>>, size: nat): seq<Record> {
    Oldest(Run(ops, size))
  }

  lemma OneMorePop(ops: seq<Ring.Op<Record>>, size: nat)
    ensures Run(ops + [Pop], size) == if Run(ops, size) == [] then [] else Run(ops, size)[1..]
    ensures Popped(ops + [Pop], size) == Popped(ops, size) + Next(ops, size)
  {
    assert (ops + [Pop])[..|ops|] == ops && (ops + [Pop])[|ops|] == Pop;
  }

  // ---- The hooks of a session ----

  function LockHooks(locking: bool): seq<Hook> {
    if locking then [Lock, Unlock] else []
  }

  /** n calls of logger_write_async on a running logger. */
  function RequestHooks(locking: bool, n: nat): seq<Hook> {
    if n == 0 then [] else RequestHooks(locking, n - 1) + LockHooks(locking) + [Signal(Running)]
  }

  function OtherHooks(turns: seq<Turn>, n: nat, locking: bool, stopping: bool): seq<Hook> {
    (if n < |turns| then RequestHooks(locking, |turns[n].requests|) else [])
      + (if GoesOn(turns, n) then [] else [Signal(Idle)] + (if stopping then [Stopped(Idle)] else []))
  }

  function Oldest(queue: seq<Record>): seq<Record> {
    if queue == [] then [] else [queue[0]]
  }

  function CallOf(r: Record): Hook {
    Call(r.callback, r.data)
  }

  /** A round that takes `next`, the oldest record if there is one. */
  function RoundHooks(next: seq<Record>, success: bool, locking: bool): seq<Hook> {
    if next == [] then [Wait] else
      LockHooks(locking) + [Write(next[0])]
        + (if success && next[0].callback != NoCallback then [CallOf(next[0])] else [])
  }

  function TurnHooks(turns: seq<Turn>, n: nat, size: nat, locking: bool): seq<Hook>
    requires n < |turns|
  {
    RoundHooks(Next(OpsUpTo(turns, n), size), turns[n].success, locking)
  }

  /** Every hook from the loop's entry up to the n-th status test. */
  function SessionHooks(turns: seq<Turn>, n: nat, size: nat, locking: bool, stopping: bool): seq<Hook>
    requires n <= |turns|
  {
    (if n == 0 then []
     else SessionHooks(turns, n - 1, size, locking, stopping) + TurnHooks(turns, n - 1, size, locking))
      + OtherHooks(turns, n, locking, stopping)
  }

  /** The callbacks among the hooks. */
  function CallsIn(hooks: seq<Hook>): seq<Hook> {
    if hooks == [] then [] else
      var last := hooks[|hooks| - 1];
      CallsIn(hooks[..|hooks| - 1]) + (if last.Call? then [last] else [])
  }

  /** The callbacks due in the first n turns: of the records popped, if the turn's write succeeds and they have one. */
  function DueCalls(turns: seq<Turn>, n: nat, size: nat): seq<Hook>
    requires n <= |turns|
  {
    if n == 0 then [] else DueCalls(turns, n - 1, size) + DueCall(turns, n - 1, size)
  }

  function DueCall(turns: seq<Turn>, n: nat, size: nat): seq<Hook>
    requires n < |turns|
  {
    var next := Next(OpsUpTo(turns, n), size);
    if next != [] && turns[n].success && next[0].callback != NoCallback
    then [Call(next[0].callback, next[0].data)] else []
  }

  lemma {:induction false} CallsConcat(a: seq<Hook>, b: seq<Hook>)
    ensures CallsIn(a + b) == CallsIn(a) + CallsIn(b)
  {
    if b == [] {
      assert a + b == a;
    } else {
      CallsConcat(a, b[..|b| - 1]);
      assert (a + b)[..|a + b| - 1] == a + b[..|b| - 1];
    }
  }

  lemma {:induction false} NoCalls(hooks: seq<Hook>)
    requires forall i | 0 <= i < |hooks| :: !hooks[i].Call?
    ensures CallsIn(hooks) == []
  {
    if hooks != [] {
      NoCalls(hooks[..|hooks| - 1]);
    }
  }

  lemma {:induction false} RequestHooksCallNothing(locking: bool, n: nat)
    ensures forall i | 0 <= i < |RequestHooks(locking, n)| :: !RequestHooks(locking, n)[i].Call?
  {
    if n > 0 {
      RequestHooksCallNothing(locking, n - 1);
    }
  }

  lemma OtherHooksCallNothing(turns: seq<Turn>, n: nat, locking: bool, stopping: bool)
    ensures CallsIn(OtherHooks(turns, n, locking, stopping)) == []
  {
    if n < |turns| {
      RequestHooksCallNothing(locking, |turns[n].requests|);
    }
    NoCalls(OtherHooks(turns, n, locking, stopping));
  }

  lemma RoundHooksCall(next: seq<Record>, success: bool, locking: bool)
    ensures CallsIn(RoundHooks(next, success, locking))
      == if next != [] && success && next[0].callback != NoCallback then [CallOf(next[0])] else []
  {
    if next == [] {
      NoCalls([Wait]);
    } else {
      var before := LockHooks(locking) + [Write(next[0])];
      NoCalls(before);
      if success && next[0].callback != NoCallback {
        assert (before + [CallOf(next[0])])[..|before|] == before;
      } else {
        assert before + [] == before;
      }
    }
  }

  lemma SessionUnfolds(turns: seq<Turn>, n: nat, size: nat, locking: bool, stopping: bool)
    requires n < |turns|
    ensures SessionHooks(turns, n + 1, size, locking, stopping)
      == SessionHooks(turns, n, size, locking, stopping) + TurnHooks(turns, n, size, locking)
        + OtherHooks(turns, n + 1, locking, stopping)
  {
  }

  lemma TurnCalls(turns: seq<Turn>, n: nat, size: nat, locking: bool)
    requires n < |turns|
    ensures CallsIn(TurnHooks(turns, n, size, locking)) == DueCall(turns, n, size)
  {
    RoundHooksCall(Next(OpsUpTo(turns, n), size), turns[n].success, locking);
  }

  /** The callbacks of a session are exactly those due, once each and in the order of the turns. */
  lemma SessionCalls(turns: seq<Turn>, n: nat, size: nat, locking: bool, stopping: bool)
    requires n <= |turns|
    ensures CallsIn(SessionHooks(turns, n, size, locking, stopping)) == DueCalls(turns, n, size)
  {
    FirstCalls(turns, size, locking, stopping);
    for i := 0 to n
      invariant CallsMatch(turns, i, size, locking, stopping)
    {
      MoreCalls(turns, i, size, locking, stopping);
    }
  }

  ghost predicate CallsMatch(turns: seq<Turn>, n: nat, size: nat, locking: bool, stopping: bool) {
    n <= |turns| && CallsIn(SessionHooks(turns, n, size, locking, stopping)) == DueCalls(turns, n, size)
  }

  lemma MoreCalls(turns: seq<Turn>, n: nat, size: nat, locking: bool, stopping: bool)
    requires n < |turns| && CallsMatch(turns, n, size, locking, stopping)
    ensures CallsMatch(turns, n + 1, size, locking, stopping)
  {
    SessionUnfolds(turns, n, size, locking, stopping);
    TurnCalls(turns, n, size, locking);
    OtherHooksCallNothing(turns, n + 1, locking, stopping);
    CallsOfThree(SessionHooks(turns, n, size, locking, stopping), TurnHooks(turns, n, size, locking),
      OtherHooks(turns, n + 1, locking, stopping));
  }

  lemma FirstCalls(turns: seq<Turn>, size: nat, locking: bool, stopping: bool)
    ensures CallsMatch(turns, 0, size, locking, stopping)
  {
    OtherHooksCallNothing(turns, 0, locking, stopping);
    assert [] + OtherHooks(turns, 0, locking, stopping) == OtherHooks(turns, 0, locking, stopping);
  }

  lemma CallsOfThree(a: seq<Hook>, b: seq<Hook>, c: seq<Hook>)
    requires CallsIn(c) == []
    ensures CallsIn(a + b + c) == CallsIn(a) + CallsIn(b)
  {
    CallsConcat(a, b);
    CallsConcat(a + b, c);
  }

  lemma CallsSince(before: seq<Hook>, started: seq<Hook>, session: seq<Hook>)
    requires forall i | 0 <= i < |started| :: !started[i].Call?
    ensures CallsIn((before + started + session)[|before|..]) == CallsIn(session)
  {
    assert (before + started + session)[|before|..] == started + session;
    NoCalls(started);
    CallsConcat(started, session);
  }

  /** The hooks of the first n of these calls, on top of those before. */
  ghost predicate Requested(n: nat, locking: bool, before: seq<Hook>, hooks: seq<Hook>) {
    hooks == before + RequestHooks(locking, n)
  }

  lemma NextRequested(n: nat, locking: bool, before: seq<Hook>, hooks: seq<Hook>, hooks': seq<Hook>)
    requires Requested(n, locking, before, hooks)
    requires hooks' == hooks + LockHooks(locking) + [Signal(Running)]
    ensures Requested(n + 1, locking, before, hooks')
  {
  }

  /** The first n of these requests have been pushed after the operations. */
  ghost predicate Queued(
      ops: seq<Ring.Op<Record>>, requests: seq<Request>, n: nat, size: nat, queue: seq<Record>)
  {
    && n <= |requests|
    && queue == Run(ops + PushesOf(requests[..n]), size)
    && Popped(ops + PushesOf(requests[..n]), size) == Popped(ops, size)
  }

  lemma FirstQueued(ops: seq<Ring.Op<Record>>, requests: seq<Request>, size: nat)
    ensures Queued(ops, requests, 0, size, Run(ops, size))
  {
    assert ops + PushesOf(requests[..0]) == ops;
  }

  lemma NextQueued(
      ops: seq<Ring.Op<Record>>, requests: seq<Request>, n: nat, size: nat, queue: seq<Record>, queue': seq<Record>)
    requires n < |requests| && Queued(ops, requests, n, size, queue)
    requires queue' == KeepLast(queue + [RecordOf(requests[n])], size)
    ensures Queued(ops, requests, n + 1, size, queue')
  {
    OneMorePush(ops, requests, n, size);
  }

  lemma AllQueued(ops: seq<Ring.Op<Record>>, requests: seq<Request>, size: nat, queue: seq<Record>)
    requires Queued(ops, requests, |requests|, size, queue)
    ensures queue == Run(ops + PushesOf(requests), size) && Popped(ops + PushesOf(requests), size) == Popped(ops, size)
  {
    assert requests[..|requests|] == requests;
  }

  lemma Associate(a: seq<Hook>, b: seq<Hook>, c: seq<Hook>, d: seq<Hook>)
    ensures a + b + c + d == a + (b + c + d)
  {
  }

  /** These are the hooks of a session up to its n-th status test, on top of those before. */
  ghost predicate Hooked(
      turns: seq<Turn>, n: nat, size: nat, locking: bool, stopping: bool, before: seq<Hook>, hooks: seq<Hook>)
  {
    n <= |turns| && hooks == before + SessionHooks(turns, n, size, locking, stopping)
  }

  lemma FirstHooked(
      turns: seq<Turn>, size: nat, locking: bool, stopping: bool, before: seq<Hook>, hooks: seq<Hook>)
    requires hooks == before + OtherHooks(turns, 0, locking, stopping)
    ensures Hooked(turns, 0, size, locking, stopping, before, hooks)
  {
    assert [] + OtherHooks(turns, 0, locking, stopping) == OtherHooks(turns, 0, locking, stopping);
  }

  lemma NextHooked(
      turns: seq<Turn>, n: nat, size: nat, locking: bool, stopping: bool, before: seq<Hook>, hooks: seq<Hook>,
      hooks': seq<Hook>)
    requires n < |turns| && Hooked(turns, n, size, locking, stopping, before, hooks)
    requires hooks' == hooks + TurnHooks(turns, n, size, locking) + OtherHooks(turns, n + 1, locking, stopping)
    ensures Hooked(turns, n + 1, size, locking, stopping, before, hooks')
  {
    SessionUnfolds(turns, n, size, locking, stopping);
    Associate(before, SessionHooks(turns, n, size, locking, stopping), TurnHooks(turns, n, size, locking),
      OtherHooks(turns, n + 1, locking, stopping));
  }

  /** So the callbacks since then are exactly those due. */
  lemma HookedCalls(
      turns: seq<Turn>, n: nat, size: nat, locking: bool, stopping: bool, before: seq<Hook>, started: seq<Hook>,
      hooks: seq<Hook>)
    requires Hooked(turns, n, size, locking, stopping, before + started, hooks)
    requires forall i | 0 <= i < |started| :: !started[i].Call?
    ensures before + started <= hooks && CallsIn(hooks[|before|..]) == DueCalls(turns, n, size)
  {
    CallsSince(before, started, SessionHooks(turns, n, size, locking, stopping));
    SessionCalls(turns, n, size, locking, stopping);
  }

  class BaseChannel {
    var id: uint8
    var name: string

    constructor ()
      ensures id == 0
    {
      id := 0;
      name := "";
    }
  }

  function Slots(pointers: seq<BaseChannel?>): (slots: seq<Option<BaseChannel>>)
    ensures |slots| == |pointers|
    ensures forall i | 0 <= i < |slots| :: slots[i] == if pointers[i] == null then None else Some(pointers[i])
  {
    seq(|pointers|, i requires 0 <= i < |pointers| => if pointers[i] == null then None else Some(pointers[i]))
  }

  ghost function Ids(known: set<BaseChannel>): map<BaseChannel, nat>
    reads known`id
  {
    map c | c in known :: c.id as nat
  }

  class BaseLogger {
    var status: Status
    var registeredChannels: Word
    var noChannels: uint8
    var destination: string
    const channels: array<BaseChannel?>
    const writeBuffer: CircularBuffer<Record>
    /** Whether the optional hooks are supplied: _lock and _unlock, _start, _stop. */
    const locking: bool
    const starting: bool
    const stopping: bool
    var hooks: seq<Hook>
    /** What _write was given, oldest first. */
    var written: seq<Record>

    /** The static initialiser: status 0 and an empty bitmap. */
    constructor (
        channels: array<BaseChannel?>, writeBuffer: CircularBuffer<Record>,
        locking: bool, starting: bool, stopping: bool)
      ensures status == Uninitialized && registeredChannels == ZERO && noChannels == 0 && hooks == [] && written == []
      ensures this.channels == channels && this.writeBuffer == writeBuffer && this.locking == locking
      ensures this.starting == starting && this.stopping == stopping
    {
      status, registeredChannels, noChannels, destination := Uninitialized, ZERO, 0, "";
      hooks, written := [], [];
      this.channels, this.writeBuffer := channels, writeBuffer;
      this.locking, this.starting, this.stopping := locking, starting, stopping;
    }

    /** The pointer array holds at least no_channels entries; `known` are the channel objects of the program. */
    ghost predicate Ready(known: set<BaseChannel>)
      reads this, channels
    {
      && noChannels as int <= channels.Length
      && forall i | 0 <= i < channels.Length && channels[i] != null :: channels[i] in known
    }

    /** The registry this logger and the known channel objects represent. */
    ghost function View(known: set<BaseChannel>): Registry.State<BaseChannel>
      reads this, channels, known
    {
      Registry.State(
        status, noChannels as nat, registeredChannels, Slots(channels[..]), Ids(known))
    }

    /** `success` is what the _init hook returned. */
    method Init(success: bool, count: uint8, ghost known: set<BaseChannel>)
      requires count as int <= channels.Length
      modifies this`status, this`noChannels, this`registeredChannels
      ensures success ==>
        View(known) == old(View(known)).(status := Idle, noChannels := count as nat, bits := ZERO)
      ensures !success ==> View(known) == old(View(known)).(status := Uninitialized, noChannels := 0)
    {
      if success {
        status := Idle;
        noChannels := count;
        registeredChannels := ZERO;
      } else {
        status := Uninitialized;
        noChannels := 0;
      }
    }

    /** The scan: an 8-bit id never overflows because the limit is capped at 64, whatever no_channels is. */
    method RegisterNewChannel() returns (id: uint8)
      ensures id as nat == FirstFree(registeredChannels, 1, if noChannels > 64 then 64 else noChannels as nat)
    {
      var limit := noChannels;
      if limit > 64 {
        limit := 64;
      }
      id := 1;
      while id <= limit
        invariant 1 <= id <= limit + 1
        invariant FirstFree(registeredChannels, 1, limit as nat)
          == FirstFree(registeredChannels, id as nat, limit as nat)
      {
        TestBit(registeredChannels, (id - 1) as nat);
        if And(registeredChannels, ShiftLeft(ONE, (id - 1) as nat)) == ZERO {
          return;
        }
        id := id + 1;
      }
      id := 0;
    }

    method Register(name: string, channel: BaseChannel, ghost known: set<BaseChannel>)
      returns (result: BaseChannel?)
      requires Ready(known) && channel in known
      modifies this`registeredChannels, channels, channel
      ensures Ready(known)
      ensures (View(known), result == channel) == old(Registry.Register(View(known), channel))
      ensures result == channel || result == null
      ensures old(status) != Idle ==> result == null && unchanged(this, channels, channel)
      ensures channel.name == if result == channel then name else old(channel.name)
      ensures forall c | c in known && c != channel :: c.name == old(c.name)
    {
      ghost var before := View(known);
      if status != Idle {
        return null;
      }
      channel.id := RegisterNewChannel();
      assert Ids(known) == before.ids[channel := channel.id as nat];
      RegisterOutcome(before, channel, channel.id as nat);
      if channel.id == 0 {
        return null;
      }
      ghost var k := (channel.id - 1) as nat;
      SetBit(registeredChannels, k);
      registeredChannels := Or(registeredChannels, ShiftLeft(ONE, (channel.id - 1) as nat));
      channel.name := name;
      if channel.id <= noChannels {
        channels[channel.id - 1] := channel;
      }
      assert Ids(known) == before.ids[channel := channel.id as nat];
      assert Slots(channels[..]) == before.table[k := Some(channel)];
      assert View(known) == Registry.State(
        Idle, before.noChannels, before.bits[k := true], before.table[k := Some(channel)],
        before.ids[channel := channel.id as nat]);
      return channel;
    }

    method Unregister(channel: BaseChannel, ghost known: set<BaseChannel>)
      requires Ready(known) && channel in known
      requires status == Idle && channel.id <= noChannels ==> channel.id <= 64
      modifies this`registeredChannels, channels, channel
      ensures Ready(known)
      ensures View(known) == old(Registry.Unregister(View(known), channel))
      ensures channel.name == old(channel.name)
    {
      if status != Idle || channel.id == 0 || channel.id > noChannels {
        return;
      }
      ghost var before := View(known);
      ClearBit(registeredChannels, (channel.id - 1) as nat);
      registeredChannels := And(registeredChannels, Not(ShiftLeft(ONE, (channel.id - 1) as nat)));
      channels[channel.id - 1] := null;
      assert Slots(channels[..]) == before.table[channel.id as nat - 1 := None];
      channel.id := 0;
      assert Ids(known) == before.ids[channel := 0];
    }

    /** The record is queued inside the critical section, and the one signal follows the unlock. */
    method WriteAsync(id: uint8, data: Pointer, size: uint16, callback: Callback)
      requires writeBuffer.Valid()
      modifies this`hooks, writeBuffer, writeBuffer.data
      ensures writeBuffer.Valid() && writeBuffer.size == old(writeBuffer.size)
      ensures writeBuffer.Contents() ==
        KeepLast(
          old(writeBuffer.Contents()) + [Record(data, size as nat, id as nat, callback)], writeBuffer.size as nat)
      ensures hooks == old(hooks) + (if locking then [Lock, Unlock] else []) + [Signal(status)]
    {
      var temp := Record(data, size as nat, id as nat, callback);
      if locking {
        hooks := hooks + [Lock];
      }
      writeBuffer.Push(temp);
      if locking {
        hooks := hooks + [Unlock];
      }
      hooks := hooks + [Signal(status)];
    }

    /**
     * One round of the consumer. `success` is what the _write hook returns if it is called. The oldest record is
     * written after the unlock; its callback runs exactly when the write succeeded and it has one.
     */
    method PerformWrite(success: bool)
      requires writeBuffer.Valid()
      modifies this`hooks, this`written, writeBuffer
      ensures writeBuffer.Valid() && writeBuffer.size == old(writeBuffer.size)
      ensures old(writeBuffer.Contents()) == [] ==>
        writeBuffer.Contents() == [] && hooks == old(hooks) + [Wait]
      ensures old(writeBuffer.Contents()) != [] ==>
        var oldest := old(writeBuffer.Contents())[0];
        && writeBuffer.Contents() == old(writeBuffer.Contents())[1..]
        && hooks == old(hooks) + (if locking then [Lock, Unlock] else []) + [Write(oldest)]
          + (if success && oldest.callback != NoCallback then [Call(oldest.callback, oldest.data)] else [])
      ensures written == old(written) + Oldest(old(writeBuffer.Contents()))
      ensures hooks == old(hooks) + RoundHooks(Oldest(old(writeBuffer.Contents())), success, locking)
    {
      var temp: Record := *;
      if !writeBuffer.Empty() {
        if locking {
          hooks := hooks + [Lock];
        }
        temp := writeBuffer.Pop(temp);
        if locking {
          hooks := hooks + [Unlock];
        }
        hooks, written := hooks + [Write(temp)], written + [temp];
        if success {
          if temp.callback != NoCallback {
            hooks := hooks + [Call(temp.callback, temp.data)];
          }
        }
      } else {
        hooks := hooks + [Wait];
      }
    }

    /** logger_stop: by the time the consumer is woken, and when the _stop hook runs, the status is IDLE. */
    method Stop()
      modifies this`status, this`hooks
      ensures status == Idle
      ensures hooks == old(hooks) + [Signal(Idle)] + (if stopping then [Stopped(Idle)] else [])
    {
      status := Idle;
      hooks := hooks + [Signal(status)];
      if stopping {
        hooks := hooks + [Stopped(status)];
      }
    }

    method ServeRequest(requests: seq<Request>, i: nat, ghost ops: seq<Ring.Op<Record>>, ghost before: seq<Hook>)
      requires status == Running && writeBuffer.Valid() && i < |requests|
      requires Queued(ops, requests, i, writeBuffer.size as nat, writeBuffer.Contents())
      requires Requested(i, locking, before, hooks)
      modifies this`hooks, writeBuffer, writeBuffer.data
      ensures writeBuffer.Valid() && writeBuffer.size == old(writeBuffer.size)
      ensures Queued(ops, requests, i + 1, writeBuffer.size as nat, writeBuffer.Contents())
      ensures Requested(i + 1, locking, before, hooks)
    {
      WriteAsync(requests[i].id, requests[i].data, requests[i].size, requests[i].callback);
      NextQueued(ops, requests, i, writeBuffer.size as nat, old(writeBuffer.Contents()), writeBuffer.Contents());
      NextRequested(i, locking, before, old(hooks), hooks);
    }

    method Requests(requests: seq<Request>, ghost ops: seq<Ring.Op<Record>>)
      requires status == Running && writeBuffer.Valid() && writeBuffer.Contents() == Run(ops, writeBuffer.size as nat)
      modifies this`hooks, writeBuffer, writeBuffer.data
      ensures writeBuffer.Valid() && writeBuffer.size == old(writeBuffer.size)
      ensures writeBuffer.Contents() == Run(ops + PushesOf(requests), writeBuffer.size as nat)
      ensures Popped(ops + PushesOf(requests), writeBuffer.size as nat) == Popped(ops, writeBuffer.size as nat)
      ensures hooks == old(hooks) + RequestHooks(locking, |requests|)
    {
      FirstQueued(ops, requests, writeBuffer.size as nat);
      assert old(hooks) + [] == old(hooks);
      for i := 0 to |requests|
        invariant writeBuffer.Valid() && writeBuffer.size == old(writeBuffer.size)
        invariant Queued(ops, requests, i, writeBuffer.size as nat, writeBuffer.Contents())
        invariant Requested(i, locking, old(hooks), hooks)
      {
        ServeRequest(requests, i, ops, old(hooks));
      }
      AllQueued(ops, requests, writeBuffer.size as nat, writeBuffer.Contents());
    }

    /** What the other threads do before status test n. */
    method OthersAct(turns: seq<Turn>, n: nat, ghost ops: seq<Ring.Op<Record>>)
      requires writeBuffer.Valid() && n <= |turns| && status == Running
      requires writeBuffer.Contents() == Run(ops, writeBuffer.size as nat)
      modifies this`hooks, this`status, writeBuffer, writeBuffer.data
      ensures writeBuffer.Valid() && writeBuffer.size == old(writeBuffer.size)
      ensures status == if GoesOn(turns, n) then Running else Idle
      ensures writeBuffer.Contents() == Run(ops + OpsOfTurn(turns, n), writeBuffer.size as nat)
      ensures Popped(ops + OpsOfTurn(turns, n), writeBuffer.size as nat) == Popped(ops, writeBuffer.size as nat)
      ensures hooks == old(hooks) + OtherHooks(turns, n, locking, stopping)
    {
      assert ops + [] == ops;
      if n < |turns| {
        Requests(turns[n].requests, ops);
      }
      if n == |turns| || turns[n].stop {
        Stop();
      }
    }

    /** ServeTurn in terms of the whole session. */
    method ServeNextTurn(turns: seq<Turn>, n: nat, ghost before: seq<Record>, ghost hooksBefore: seq<Hook>)
      requires writeBuffer.Valid() && n < |turns| && status == Running
      requires Serving(turns, n, writeBuffer.size as nat, writeBuffer.Contents(), before, written)
      requires Hooked(turns, n, writeBuffer.size as nat, locking, stopping, hooksBefore, hooks)
      modifies this`hooks, this`written, this`status, writeBuffer, writeBuffer.data
      ensures writeBuffer.Valid() && writeBuffer.size == old(writeBuffer.size)
      ensures status == if GoesOn(turns, n + 1) then Running else Idle
      ensures Serving(turns, n + 1, writeBuffer.size as nat, writeBuffer.Contents(), before, written)
      ensures Hooked(turns, n + 1, writeBuffer.size as nat, locking, stopping, hooksBefore, hooks)
    {
      ghost var ops := OpsUpTo(turns, n);
      ServeTurn(turns, n, ops);
      NextServing(turns, n, writeBuffer.size as nat, writeBuffer.Contents(), before, written, ops);
      NextHooked(turns, n, writeBuffer.size as nat, locking, stopping, hooksBefore, old(hooks), hooks);
    }

    /** One turn of the loop, and what the other threads do before the next status test. */
    method ServeTurn(turns: seq<Turn>, n: nat, ghost ops: seq<Ring.Op<Record>>)
      requires writeBuffer.Valid() && n < |turns| && status == Running
      requires writeBuffer.Contents() == Run(ops, writeBuffer.size as nat)
      modifies this`hooks, this`written, this`status, writeBuffer, writeBuffer.data
      ensures writeBuffer.Valid() && writeBuffer.size == old(writeBuffer.size)
      ensures status == if GoesOn(turns, n + 1) then Running else Idle
      ensures var ops' := ops + [Pop] + OpsOfTurn(turns, n + 1);
        && writeBuffer.Contents() == Run(ops', writeBuffer.size as nat)
        && Popped(ops', writeBuffer.size as nat)
             == Popped(ops, writeBuffer.size as nat) + Next(ops, writeBuffer.size as nat)
      ensures written == old(written) + Next(ops, writeBuffer.size as nat)
      ensures hooks == old(hooks) + RoundHooks(Next(ops, writeBuffer.size as nat), turns[n].success, locking)
        + OtherHooks(turns, n + 1, locking, stopping)
    {
      OneMorePop(ops, writeBuffer.size as nat);
      PerformWrite(turns[n].success);
      OthersAct(turns, n + 1, ops + [Pop]);
    }

    /**
     * logger_start up to the loop: only an idle logger starts, on an empty ring of full capacity; the platform's
     * _start hook runs before the status becomes RUNNING.
     */
    method BeginSession(destination: string) returns (started: bool)
      requires 1 <= writeBuffer.data.Length < 0x8000_0000
      modifies this`status, this`destination, this`hooks, writeBuffer
      ensures started == (old(status) == Idle)
      ensures started ==> status == Running && this.destination == destination
      ensures started ==> writeBuffer.Valid() && writeBuffer.Contents() == []
      ensures !started ==> status == old(status) && this.destination == old(this.destination)
      ensures !started ==> unchanged(writeBuffer)
      ensures hooks == old(hooks) + (if started && starting then [Started(destination, Idle)] else [])
    {
      started := status == Idle;
      if started {
        writeBuffer.Init(writeBuffer.data.Length as int32);
        this.destination := destination;
        if starting {
          hooks := hooks + [Started(destination, status)];
        }
        status := Running;
      }
    }

    method ReachFirstTest(turns: seq<Turn>)
      requires writeBuffer.Valid() && writeBuffer.Contents() == [] && status == Running
      modifies this`status, this`hooks, writeBuffer, writeBuffer.data
      ensures writeBuffer.Valid() && writeBuffer.size == old(writeBuffer.size)
      ensures status == if GoesOn(turns, 0) then Running else Idle
      ensures Serving(turns, 0, writeBuffer.size as nat, writeBuffer.Contents(), written, written)
      ensures Hooked(turns, 0, writeBuffer.size as nat, locking, stopping, old(hooks), hooks)
    {
      OthersAct(turns, 0, []);
      FirstServing(turns, writeBuffer.size as nat, writeBuffer.Contents(), written);
      FirstHooked(turns, writeBuffer.size as nat, locking, stopping, old(hooks), hooks);
    }

    /** logger_loop: it serves the turns up to the first one with a stop. */
    method Loop(turns: seq<Turn>) returns (served: nat)
      requires writeBuffer.Valid() && writeBuffer.Contents() == [] && status == Running
      modifies this`status, this`hooks, this`written, writeBuffer, writeBuffer.data
      ensures writeBuffer.Valid() && writeBuffer.size == old(writeBuffer.size) && status == Idle
      ensures NoStopBefore(turns, served) && !GoesOn(turns, served)
      ensures Serving(turns, served, writeBuffer.size as nat, writeBuffer.Contents(), old(written), written)
      ensures Hooked(turns, served, writeBuffer.size as nat, locking, stopping, old(hooks), hooks)
      ensures CallsIn(hooks[|old(hooks)|..]) == DueCalls(turns, served, writeBuffer.size as nat)
    {
      served := 0;
      ReachFirstTest(turns);
      while status == Running
        invariant writeBuffer.Valid() && writeBuffer.size == old(writeBuffer.size)
        invariant NoStopBefore(turns, served)
        invariant status == if GoesOn(turns, served) then Running else Idle
        invariant Serving(turns, served, writeBuffer.size as nat, writeBuffer.Contents(), old(written), written)
        invariant Hooked(turns, served, writeBuffer.size as nat, locking, stopping, old(hooks), hooks)
        decreases |turns| - served
      {
        ServeNextTurn(turns, served, old(written), old(hooks));
        served := served + 1;
      }
      assert old(hooks) + [] == old(hooks);
      HookedCalls(turns, served, writeBuffer.size as nat, locking, stopping, old(hooks), [], hooks);
    }

    /**
     * logger_start with its loop. An idle logger tells the platform before it sets RUNNING and then serves turn after
     * turn up to the first stop. The ring holds what the specification's run of the same operations holds, and the
     * records written are the ones that run pops.
     */
    method Start(destination: string, turns: seq<Turn>) returns (started: bool, served: nat)
      requires 1 <= writeBuffer.data.Length < 0x8000_0000
      modifies this`status, this`destination, this`hooks, this`written, writeBuffer, writeBuffer.data
      ensures started == (old(status) == Idle)
      ensures !started ==> status == old(status) && this.destination == old(this.destination) && hooks == old(hooks)
      ensures !started ==> unchanged(writeBuffer) && unchanged(writeBuffer.data)
      ensures started ==> status == Idle && this.destination == destination
      ensures started ==> NoStopBefore(turns, served) && !GoesOn(turns, served)
      ensures started ==> writeBuffer.Valid()
      ensures started ==> writeBuffer.Contents() == Run(OpsUpTo(turns, served), writeBuffer.size as nat)
      ensures started ==> old(hooks) + (if starting then [Started(destination, Idle)] else []) <= hooks
      ensures started ==>
        written == old(written) + Popped(OpsUpTo(turns, served), writeBuffer.size as nat)
      ensures started ==>
        && |old(hooks)| <= |hooks|
        && CallsIn(hooks[|old(hooks)|..]) == DueCalls(turns, served, writeBuffer.size as nat)
    {
      served := 0;
      started := BeginSession(destination);
      if started {
        served := Loop(turns);
        HookedCalls(turns, served, writeBuffer.size as nat, locking, stopping,
          old(hooks), if starting then [Started(destination, Idle)] else [], hooks);
      }
    }
  }
}
