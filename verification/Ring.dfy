/** The overwrite-oldest circular buffer of inc/buffer.h. */
module Ring {
  import opened Sequences

  /** The C int of the four index fields: every assignment below is proved to stay in range. */
  newtype int32 = x: int | -0x8000_0000 <= x < 0x8000_0000

  /** Index of the i-th element of a ring of `size` slots whose oldest element is at `head`. */
  function Slot(head: nat, i: nat, size: nat): (k: nat)
    requires head < size && i <= size
    ensures k < size
  {
    if head + i < size then head + i else head + i - size
  }

  lemma SlotIsModulo(head: nat, i: nat, size: nat)
    requires head < size && i <= size
    ensures Slot(head, i, size) == (head + i) % size
  {
    if head + i >= size {
      ModuloOnce(head + i - size, size);
    }
  }

  lemma ModuloOnce(x: nat, size: nat)
    requires x < size
    ensures (x + size) % size == x
  {
    assert (x + size) / size == 1 by {
      assert x + size == 1 * size + x;
    }
  }

  /** The n elements stored from `head` on, oldest first. */
  function Window<T>(data: seq<T>, head: nat, n: nat): (w: seq<T>)
    requires head < |data| && n <= |data|
    ensures |w| == n
  {
    seq(n, i requires 0 <= i < n => data[Slot(head, i, |data|)])
  }

  /** Storing behind a window that is not full appends. */
  lemma WindowAppends<T>(data: seq<T>, head: nat, n: nat, x: T)
    requires head < |data| && n < |data|
    ensures Window(data[Slot(head, n, |data|) := x], head, n + 1) == Window(data, head, n) + [x]
  {
    var tail := Slot(head, n, |data|);
    forall i | 0 <= i < n
      ensures Slot(head, i, |data|) != tail
    {
    }
  }

  /** Storing behind a full window hits its oldest element; moving the head makes that a replacement. */
  lemma WindowOverwrites<T>(data: seq<T>, head: nat, x: T)
    requires head < |data|
    ensures Window(data[head := x], Slot(head, 1, |data|), |data|) == Window(data, head, |data|)[1..] + [x]
  {
    var n, next := |data|, Slot(head, 1, |data|);
    var w := Window(data[head := x], next, n);
    forall i | 0 <= i < n
      ensures w[i] == (Window(data, head, n)[1..] + [x])[i]
    {
      if i < n - 1 {
        assert Slot(next, i, n) == Slot(head, i + 1, n) != head;
      } else {
        assert Slot(next, i, n) == head;
      }
    }
  }

  /** Advancing the head drops the oldest element. */
  lemma WindowDrops<T>(data: seq<T>, head: nat, n: nat)
    requires head < |data| && 0 < n <= |data|
    ensures Window(data, head, n)[0] == data[head]
    ensures Window(data, Slot(head, 1, |data|), n - 1) == Window(data, head, n)[1..]
    ensures Slot(Slot(head, 1, |data|), n - 1, |data|) == Slot(head, n, |data|)
  {
    var next := Slot(head, 1, |data|);
    forall i | 0 <= i < n - 1
      ensures Slot(next, i, |data|) == Slot(head, i + 1, |data|)
    {
    }
  }

  /** Where the head ends up and how many elements there are after a push onto n of them. */
  lemma PushKeepsLast<T>(data: seq<T>, head: nat, n: nat, x: T)
    requires head < |data| && n <= |data|
    ensures var after := data[Slot(head, n, |data|) := x];
      KeepLast(Window(data, head, n) + [x], |data|) ==
        if n == |data| then Window(after, Slot(head, 1, |data|), n) else Window(after, head, n + 1)
    ensures n == |data| ==> Slot(Slot(head, 1, |data|), n, |data|) == Slot(Slot(head, n, |data|), 1, |data|)
    ensures n < |data| ==> Slot(head, n + 1, |data|) == Slot(Slot(head, n, |data|), 1, |data|)
  {
    if n == |data| {
      WindowOverwrites(data, head, x);
    } else {
      WindowAppends(data, head, n, x);
    }
  }

  class CircularBuffer<T(0)> {
    var occup: int32
    var size: int32
    var head: int32
    var tail: int32
    const data: array<T>

    /** The indices are consistent; holds from Init on, not for the zeroed struct. */
    ghost predicate Valid()
      reads this
    {
      && 1 <= size as int == data.Length
      && 0 <= head < size
      && 0 <= tail < size
      && 0 <= occup <= size
      && tail as nat == Slot(head as nat, occup as nat, size as nat)
    }

    /** The queued elements, oldest first. */
    ghost function Contents(): seq<T>
      reads this, data
      requires Valid()
    {
      Window(data[..], head as nat, occup as nat)
    }

    /** The struct as static storage leaves it: all four fields zero, hence not yet usable. */
    constructor (capacity: nat)
      ensures occup == size == head == tail == 0
      ensures data.Length == capacity && fresh(data)
    {
      occup, size, head, tail := 0, 0, 0, 0;
      data := new T[capacity];
    }

    /** cb_init: usable from any state of the fields and whatever the slots hold. */
    method Init(capacity: int32)
      requires 1 <= capacity as int == data.Length
      modifies this
      ensures Valid() && size == capacity && Contents() == []
    {
      size := capacity;
      occup := 0;
      head := 0;
      tail := 0;
    }

    method Reset()
      requires Valid()
      modifies this
      ensures Valid() && size == old(size) && Contents() == []
    {
      head := 0;
      tail := 0;
      occup := 0;
    }

    predicate Full()
      reads this
    {
      occup == size
    }

    predicate Empty()
      reads this
    {
      occup == 0
    }

    method Push(x: T)
      requires Valid()
      modifies this, data
      ensures Valid() && size == old(size)
      ensures Contents() == KeepLast(old(Contents()) + [x], size as nat)
    {
      PushKeepsLast(data[..], head as nat, occup as nat, x);
      SlotIsModulo(tail as nat, 1, size as nat);
      SlotIsModulo(head as nat, 1, size as nat);
      ghost var after := data[..][tail as nat := x];
      data[tail] := x;
      assert data[..] == after;
      tail := (tail + 1) % size;
      if Full() {
        head := (head + 1) % size;
      } else {
        occup := occup + 1;
      }
    }

    /** `target` is what the caller's variable held; it comes back unchanged from an empty buffer. */
    method Pop(target: T) returns (elem: T)
      requires Valid()
      modifies this
      ensures Valid() && size == old(size)
      ensures old(Contents()) == [] ==> elem == target && Contents() == []
      ensures old(Contents()) != [] ==> elem == old(Contents())[0] && Contents() == old(Contents())[1..]
    {
      elem := target;
      if !Empty() {
        WindowDrops(data[..], head as nat, occup as nat);
        SlotIsModulo(head as nat, 1, size as nat);
        elem := data[head];
        head := (head + 1) % size;
        occup := occup - 1;
      }
    }
  }

  // ---- Runs of the specification ----

  datatype Op<T> = Push(x: T) | Pop | Reset

  function Apply<T>(q: seq<T>, op: Op<T>, size: nat): seq<T> {
    match op
    case Push(x) => KeepLast(q + [x], size)
    case Pop => if q == [] then q else q[1..]
    case Reset => []
  }

  /** The queue after a whole run that starts empty. */
  function Run<T>(ops: seq<Op<T>>, size: nat): seq<T> {
    if ops == [] then [] else Apply(Run(ops[..|ops| - 1], size), ops[|ops| - 1], size)
  }

  /** What was pushed since the last reset. */
  function Pushed<T>(ops: seq<Op<T>>): seq<T> {
    if ops == [] then [] else
      var before := Pushed(ops[..|ops| - 1]);
      match ops[|ops| - 1]
      case Push(x) => before + [x]
      case Pop => before
      case Reset => []
  }

  /** After any run the queue is a suffix of what was pushed, never longer than the capacity. */
  lemma {:induction false} RunIsSuffix<T>(ops: seq<Op<T>>, size: nat)
    ensures |Run(ops, size)| <= size && IsSuffix(Run(ops, size), Pushed(ops))
  {
    if ops != [] {
      RunIsSuffix(ops[..|ops| - 1], size);
      ApplyIsSuffix(Run(ops[..|ops| - 1], size), Pushed(ops[..|ops| - 1]), ops[|ops| - 1], size);
    }
  }

  ghost predicate IsSuffix<T>(s: seq<T>, t: seq<T>) {
    |s| <= |t| && t[|t| - |s|..] == s
  }

  lemma ApplyIsSuffix<T>(q: seq<T>, pushed: seq<T>, op: Op<T>, size: nat)
    requires |q| <= size && IsSuffix(q, pushed)
    ensures |Apply(q, op, size)| <= size
    ensures IsSuffix(Apply(q, op, size), if op.Push? then pushed + [op.x] else if op.Pop? then pushed else [])
  {
    if op.Push? {
      assert (pushed + [op.x])[|pushed| - |q|..] == q + [op.x];
    }
  }

  /** Without pops the queue is exactly the last `size` pushes. */
  lemma {:induction false} PushesKeepLast<T>(ops: seq<Op<T>>, size: nat)
    requires forall i | 0 <= i < |ops| :: !ops[i].Pop?
    ensures Run(ops, size) == KeepLast(Pushed(ops), size)
  {
    if ops != [] {
      var front, last := ops[..|ops| - 1], ops[|ops| - 1];
      PushesKeepLast(front, size);
      if last.Push? {
        KeepLastAbsorbs(Pushed(front), [last.x], size);
      }
    }
  }

  /** What the pops of a run hand out. */
  function Popped<T>(ops: seq<Op<T>>, size: nat): seq<T> {
    if ops == [] then [] else
      var front := ops[..|ops| - 1];
      Popped(front, size)
        + (if ops[|ops| - 1].Pop? && Run(front, size) != [] then [Run(front, size)[0]] else [])
  }

  /** A buffer taken through a run of calls follows the specification of the run. */
  method Perform<T(0)>(buffer: CircularBuffer<T>, ops: seq<Op<T>>) returns (popped: seq<T>)
    requires buffer.Valid() && buffer.Contents() == []
    modifies buffer, buffer.data
    ensures buffer.Valid() && buffer.size == old(buffer.size)
    ensures buffer.Contents() == Run(ops, buffer.size as nat)
    ensures popped == Popped(ops, buffer.size as nat)
  {
    popped := [];
    for i := 0 to |ops|
      invariant buffer.Valid() && buffer.size == old(buffer.size)
      invariant buffer.Contents() == Run(ops[..i], buffer.size as nat)
      invariant popped == Popped(ops[..i], buffer.size as nat)
    {
      assert ops[..i + 1][..i] == ops[..i];
      match ops[i]
      case Push(x) => buffer.Push(x);
      case Pop =>
        if !buffer.Empty() {
          var x: T := *;
          x := buffer.Pop(x);
          popped := popped + [x];
        }
      case Reset => buffer.Reset();
    }
    assert ops[..|ops|] == ops;
  }

  /** Call i, if a push, finds fewer than `size` elements. */
  ghost predicate FindsRoom<T>(ops: seq<Op<T>>, size: nat, i: nat)
    requires i < |ops|
  {
    ops[i].Push? ==> |Run(ops[..i], size)| < size
  }

  /** Without resets, what came out followed by what is still in is what went in, exactly if no push found it full. */
  lemma {:induction false} FifoIff<T>(ops: seq<Op<T>>, size: nat)
    requires forall i | 0 <= i < |ops| :: !ops[i].Reset?
    ensures Popped(ops, size) + Run(ops, size) == Pushed(ops) <==>
      forall i | 0 <= i < |ops| :: FindsRoom(ops, size, i)
    ensures |Popped(ops, size)| + |Run(ops, size)| <= |Pushed(ops)|
    ensures |Popped(ops, size)| + |Run(ops, size)| == |Pushed(ops)| ==>
      Popped(ops, size) + Run(ops, size) == Pushed(ops)
  {
    if ops != [] {
      var front, last := ops[..|ops| - 1], ops[|ops| - 1];
      FifoIff(front, size);
      RunIsSuffix(front, size);
      assert forall i | 0 <= i < |front| :: front[..i] == ops[..i];
      assert forall i | 0 <= i < |front| :: FindsRoom(front, size, i) <==> FindsRoom(ops, size, i);
      assert (forall i | 0 <= i < |ops| :: FindsRoom(ops, size, i)) <==>
        (forall i | 0 <= i < |front| :: FindsRoom(front, size, i)) && FindsRoom(ops, size, |front|);
      FifoStep(Popped(front, size), Run(front, size), Pushed(front), last, size);
    }
  }

  lemma FifoStep<T>(popped: seq<T>, q: seq<T>, pushed: seq<T>, op: Op<T>, size: nat)
    requires !op.Reset? && |q| <= size && |popped| + |q| <= |pushed|
    requires |popped| + |q| == |pushed| ==> popped + q == pushed
    ensures var popped' := popped + (if op.Pop? && q != [] then [q[0]] else []);
      var q', pushed' := Apply(q, op, size), if op.Push? then pushed + [op.x] else pushed;
      && |popped'| + |q'| <= |pushed'|
      && (|popped'| + |q'| == |pushed'| ==> popped' + q' == pushed')
      && (popped' + q' == pushed' <==> popped + q == pushed && (op.Push? ==> |q| < size))
  {
    if op.Pop? && q != [] {
      assert popped + [q[0]] + q[1..] == popped + q;
    } else if op.Push? && |q| < size {
      assert popped + (q + [op.x]) == popped + q + [op.x];
      if popped + q != pushed {
        assert |popped + q| < |pushed|;
      }
    }
  }
}
