/**
 * Channel registration on values: the bitmap, the pointer table and the id stored in each channel object,
 * for channels of any identity type C. Logger.dfy runs the same steps on the heap.
 */
module Registry {
  import opened Sequences
  import opened Words
  import opened Records

  datatype State<!C> = State(
    status: Status,
    noChannels: nat,
    bits: Word,
    table: seq<Option<C>>,
    /** The id field of each channel object. */
    ids: map<C, nat>)
  {
    /** Ids run from 1 to this limit: the word has 64 bits. */
    function Limit(): nat {
      if noChannels > 64 then 64 else noChannels
    }

    /** The C types: an 8-bit channel count and a table of at least that many pointers, 8-bit ids. */
    ghost predicate WellFormed() {
      && noChannels < 256
      && noChannels <= |table|
      && (forall c | c in ids :: ids[c] < 256)
    }

    /** Bit k is set iff slot k points to an object, which then carries the id k + 1; none from the limit on is. */
    ghost predicate SlotAgrees(k: nat)
      requires WellFormed() && k < 64
    {
      if k >= Limit() then !bits[k]
      else if table[k].None? then !bits[k]
      else bits[k] && table[k].value in ids && ids[table[k].value] == k + 1
    }

    /** Bitmap, table and stored ids tell the same story. */
    ghost predicate Agree()
      requires WellFormed()
    {
      forall k | 0 <= k < 64 :: SlotAgrees(k)
    }

    /** The object carries a non-zero id only while the table points back at it. */
    ghost predicate Owns(c: C)
      requires WellFormed() && c in ids
    {
      ids[c] != 0 ==> ids[c] <= Limit() && table[ids[c] - 1] == Some(c)
    }

    ghost predicate Owned()
      requires WellFormed()
    {
      forall c | c in ids :: Owns(c)
    }

    ghost predicate Valid() {
      WellFormed() && Agree() && Owned()
    }

    /** Bit k is set iff slot k points to a known object, whatever id that object carries. */
    ghost predicate SlotBacked(k: nat)
      requires WellFormed() && k < 64
    {
      if k >= Limit() then !bits[k]
      else bits[k] == table[k].Some? && (table[k].Some? ==> table[k].value in ids)
    }

    /** What survives double registration: weaker than Valid in that a slot may point to an object with another id. */
    ghost predicate Backed() {
      WellFormed() && (forall k | 0 <= k < 64 :: SlotBacked(k)) && Owned()
    }

    /** The positions in use; the id at position k is k + 1. */
    ghost function Live(): set<nat> {
      set k: nat | k < Limit() && bits[k]
    }
  }

  ghost function Below(n: nat): (s: set<nat>)
    ensures forall k: nat :: k in s <==> k < n
  {
    if n == 0 then {} else Below(n - 1) + {n - 1}
  }

  lemma {:induction false} BelowSize(n: nat)
    ensures |Below(n)| == n
  {
    if n > 0 {
      BelowSize(n - 1);
    }
  }

  // ---- The operations ----

  /** First id from `id` on whose bit is clear, 0 when there is none up to the limit. */
  function FirstFree(bits: Word, id: nat, limit: nat): nat
    requires 1 <= id && limit <= 64
    decreases limit + 1 - id
  {
    if id > limit then 0
    else if !bits[id - 1] then id
    else FirstFree(bits, id + 1, limit)
  }

  /** FirstFree is the least clear position, and 0 exactly when every position is set. */
  lemma {:induction false} FirstFreeIsLeast(bits: Word, id: nat, limit: nat)
    requires 1 <= id && limit <= 64
    ensures var free := FirstFree(bits, id, limit);
      && (free == 0 || (id <= free <= limit && !bits[free - 1]))
      && forall k | id - 1 <= k < limit && (free == 0 || k < free - 1) :: bits[k]
    decreases limit + 1 - id
  {
    if id <= limit && bits[id - 1] {
      FirstFreeIsLeast(bits, id + 1, limit);
    }
  }

  function Register<C>(r: State<C>, c: C): (State<C>, bool)
    requires r.WellFormed() && c in r.ids
  {
    if r.status != Idle then (r, false)
    else
      var id := FirstFree(r.bits, 1, r.Limit());
      if id == 0 then (r.(ids := r.ids[c := 0]), false)
      else
        FirstFreeIsLeast(r.bits, 1, r.Limit());
        (r.(bits := r.bits[id - 1 := true],
            ids := r.ids[c := id],
            table := r.table[id - 1 := Some(c)]), true)
  }

  /** Both outcomes of a registration, field by field. */
  lemma RegisterOutcome<C>(r: State<C>, c: C, id: nat)
    requires r.WellFormed() && c in r.ids && r.status == Idle && id == FirstFree(r.bits, 1, r.Limit())
    ensures id <= 64 && id <= r.noChannels
    ensures Register(r, c) ==
      if id == 0 then (r.(ids := r.ids[c := 0]), false)
      else
        (State(Idle, r.noChannels, r.bits[id - 1 := true], r.table[id - 1 := Some(c)],
               r.ids[c := id]), true)
  {
    FirstFreeIsLeast(r.bits, 1, r.Limit());
  }

  /** The guard of logger_unregister. */
  predicate Unregisters<C>(r: State<C>, c: C)
    requires c in r.ids
  {
    r.status == Idle && 1 <= r.ids[c] <= r.noChannels
  }

  /** Past the guard C shifts by id - 1, which is defined below 64 only. */
  predicate ShiftDefined<C>(r: State<C>, c: C)
    requires c in r.ids
  {
    Unregisters(r, c) ==> r.ids[c] <= 64
  }

  function Unregister<C>(r: State<C>, c: C): State<C>
    requires r.WellFormed() && c in r.ids && ShiftDefined(r, c)
  {
    if !Unregisters(r, c) then r
    else
      var k := r.ids[c] - 1;
      r.(bits := r.bits[k := false],
         table := r.table[k := None],
         ids := r.ids[c := 0])
  }

  // ---- One step ----

  /**
   * Registration keeps the registry valid exactly when it has no effect or the object carries no id yet.
   * (A second registration of a live object overwrites the id its first slot still relies on.)
   */
  lemma RegisterValidIff<C>(r: State<C>, c: C)
    requires r.Valid() && c in r.ids
    ensures Register(r, c).0.Valid() <==> r.status != Idle || r.ids[c] == 0
  {
    if r.status == Idle {
      if r.ids[c] == 0 {
        RegisterFresh(r, c);
      } else {
        RegisterTwice(r, c);
      }
    }
  }

  lemma RegisterFresh<C>(r: State<C>, c: C)
    requires r.Valid() && c in r.ids && r.status == Idle && r.ids[c] == 0
    ensures Register(r, c).0.Valid()
  {
    FirstFreeIsLeast(r.bits, 1, r.Limit());
    var r' := Register(r, c).0;
    forall k | 0 <= k < 64
      ensures r'.SlotAgrees(k)
    {
      assert r.SlotAgrees(k);
    }
    forall d | d in r'.ids
      ensures r'.Owns(d)
    {
      assert r.Owns(d);
      if d != c && r.ids[d] != 0 {
        assert r.SlotAgrees(r.ids[d] - 1);
      }
    }
  }

  /** After a double registration the slot that still points at c finds another id in it. */
  lemma RegisterTwice<C>(r: State<C>, c: C)
    requires r.Valid() && c in r.ids && r.status == Idle && r.ids[c] != 0
    ensures !Register(r, c).0.Valid()
  {
    FirstFreeIsLeast(r.bits, 1, r.Limit());
    var k := r.ids[c] - 1;
    assert r.Owns(c) && r.SlotAgrees(k);
    assert !Register(r, c).0.SlotAgrees(k);
  }

  /** Unregistration never breaks a valid registry, whichever known object it is given. */
  lemma UnregisterValid<C>(r: State<C>, c: C)
    requires r.Valid() && c in r.ids
    ensures ShiftDefined(r, c) && Unregister(r, c).Valid()
  {
    assert r.Owns(c);
    if Unregisters(r, c) {
      UnregisterAgrees(r, c);
      UnregisterOwns(r, c);
    }
  }

  /** Even for an object of another logger the bitmap, the table and the ids it points to still agree afterwards. */
  lemma UnregisterAgrees<C>(r: State<C>, c: C)
    requires r.WellFormed() && r.Agree() && c in r.ids && ShiftDefined(r, c)
    ensures Unregister(r, c).WellFormed() && Unregister(r, c).Agree()
  {
    var r' := Unregister(r, c);
    forall k | 0 <= k < 64
      ensures r'.SlotAgrees(k)
    {
      assert r.SlotAgrees(k);
    }
  }

  lemma UnregisterOwns<C>(r: State<C>, c: C)
    requires r.WellFormed() && c in r.ids && ShiftDefined(r, c) && Unregisters(r, c)
    requires forall d | d in r.ids && d != c :: r.Owns(d)
    requires r.table[r.ids[c] - 1] in [None, Some(c)]
    ensures Unregister(r, c).Owned()
  {
    var r' := Unregister(r, c);
    forall d | d in r'.ids
      ensures r'.Owns(d)
    {
      if d != c {
        assert r.Owns(d);
      }
    }
  }

  /**
   * An object that carries a borrowed id evicts another one: the slot is emptied although the table's own
   * channel keeps its id. Given that every other object is owned, this happens exactly when the slot held
   * someone else.
   */
  lemma UnregisterOwnedIff<C>(r: State<C>, c: C)
    requires r.WellFormed() && r.Agree() && c in r.ids && ShiftDefined(r, c) && Unregisters(r, c)
    requires forall d | d in r.ids && d != c :: r.Owns(d)
    ensures Unregister(r, c).WellFormed()
    ensures Unregister(r, c).Owned() <==> r.table[r.ids[c] - 1] in [None, Some(c)]
  {
    var k := r.ids[c] - 1;
    if r.table[k] in [None, Some(c)] {
      UnregisterOwns(r, c);
    } else {
      assert r.SlotAgrees(k);
      assert !Unregister(r, c).Owns(r.table[k].value);
    }
  }

  lemma ValidIsBacked<C>(r: State<C>)
    requires r.Valid()
    ensures r.Backed()
  {
    forall k | 0 <= k < 64
      ensures r.SlotBacked(k)
    {
      assert r.SlotAgrees(k);
    }
  }

  /** No registration, not even a double one, leaves an id without its slot or a bit without its pointer. */
  lemma RegisterBacked<C>(r: State<C>, c: C)
    requires r.Backed() && c in r.ids
    ensures Register(r, c).0.Backed()
  {
    FirstFreeIsLeast(r.bits, 1, r.Limit());
    var r' := Register(r, c).0;
    forall k | 0 <= k < 64
      ensures r'.SlotBacked(k)
    {
      assert r.SlotBacked(k);
    }
    forall d | d in r'.ids
      ensures r'.Owns(d)
    {
      assert r.Owns(d);
      if d != c && r.ids[d] != 0 {
        assert r.SlotBacked(r.ids[d] - 1);
      }
    }
  }

  lemma UnregisterBacked<C>(r: State<C>, c: C)
    requires r.Backed() && c in r.ids
    ensures ShiftDefined(r, c) && Unregister(r, c).Backed()
  {
    assert r.Owns(c);
    var r' := Unregister(r, c);
    forall k | 0 <= k < 64
      ensures r'.SlotBacked(k)
    {
      assert r.SlotBacked(k);
    }
    forall d | d in r'.ids
      ensures r'.Owns(d)
    {
      assert r.Owns(d);
    }
  }

  /** logger_init clears the bitmap but not the table, so its result agrees exactly on an empty table. */
  lemma InitAgreesIff<C>(r: State<C>)
    requires r.WellFormed()
    ensures r.(status := Idle, bits := ZERO).Agree() <==> forall k | 0 <= k < r.Limit() :: r.table[k] == None
  {
    var r' := r.(status := Idle, bits := ZERO);
    assert forall k | 0 <= k < r.Limit() :: r'.SlotAgrees(k) <==> r.table[k] == None;
  }

  /**
   * logger_init touches neither the table nor the channel objects: the registry it leaves is valid exactly if the
   * table was empty and no channel object carried an id.
   */
  lemma InitValidIff<C>(r: State<C>, count: nat)
    requires r.WellFormed() && count < 256 && count <= |r.table|
    ensures var r' := r.(status := Idle, noChannels := count, bits := ZERO);
      r'.Valid() <==>
        && (forall k | 0 <= k < r'.Limit() :: r.table[k] == None)
        && (forall c | c in r.ids :: r.ids[c] == 0)
  {
    var r' := r.(status := Idle, noChannels := count, bits := ZERO);
    InitAgreesIff(r.(noChannels := count));
    if r'.Agree() {
      assert forall c | c in r.ids :: r'.Owns(c) <==> r.ids[c] == 0;
    }
  }

  // ---- The bitmap is a finite set, the allocator takes its least missing id ----

  lemma SubsetSize(a: set<nat>, b: set<nat>)
    requires a <= b
    ensures |a| <= |b| && (|a| == |b| <==> a == b)
  {
    assert b == a + (b - a);
    assert |b| == |a| + |b - a|;
  }

  /** The bitmap has room exactly while fewer than min(no_channels, 64) ids are in use. */
  lemma FullIff<C>(r: State<C>)
    ensures FirstFree(r.bits, 1, r.Limit()) == 0 <==> |r.Live()| == r.Limit()
    ensures |r.Live()| <= r.Limit()
  {
    SubsetSize(r.Live(), Below(r.Limit()));
    BelowSize(r.Limit());
    FullBitmap(r);
  }

  lemma FullBitmap<C>(r: State<C>)
    ensures FirstFree(r.bits, 1, r.Limit()) == 0 <==> r.Live() == Below(r.Limit())
  {
    FirstFreeIsLeast(r.bits, 1, r.Limit());
    var free := FirstFree(r.bits, 1, r.Limit());
    if free == 0 {
      AllSet(r.bits, r.Limit());
    } else {
      assert free - 1 in Below(r.Limit()) && free - 1 !in r.Live();
    }
  }

  lemma AllSet(bits: Word, limit: nat)
    requires limit <= 64 && forall k | 0 <= k < limit :: bits[k]
    ensures (set k: nat | k < limit && bits[k]) == Below(limit)
  {
  }

  lemma LiveAfterWrite<C>(r: State<C>, r': State<C>, k: nat, b: bool)
    requires k < r.Limit() == r'.Limit() && r'.bits == r.bits[k := b]
    ensures r'.Live() == if b then r.Live() + {k} else r.Live() - {k}
  {
  }

  /**
   * A registration is refused without any effect unless the logger is idle. On an idle logger it takes the least id not
   * in use and adds it, and it fails exactly when all min(no_channels, 64) are in use. Other objects, slots and bits
   * stay as they are.
   */
  lemma RegisterTakesLeast<C>(r: State<C>, c: C)
    requires r.WellFormed() && c in r.ids
    ensures var (r', ok) := Register(r, c);
      var id := r'.ids[c];
      && (ok <==> r.status == Idle && |r.Live()| < r.Limit())
      && (r.status != Idle ==> r' == r)
      && (ok ==> 1 <= id <= r.Limit() && id - 1 !in r.Live())
      && (ok ==> forall k: nat | k < id - 1 :: k in r.Live())
      && (ok ==> r'.Live() == r.Live() + {id - 1})
      && (!ok ==> r'.bits == r.bits && r'.table == r.table && (r.status == Idle ==> id == 0))
      && (ok ==> r'.table[id - 1] == Some(c) && OthersKept(r, r', c, id - 1))
      && (!ok ==> r'.ids == r.ids[c := id] && r'.status == r.status && r'.noChannels == r.noChannels)
  {
    FirstFreeIsLeast(r.bits, 1, r.Limit());
    FullIff(r);
    var free := FirstFree(r.bits, 1, r.Limit());
    if r.status == Idle && free != 0 {
      LiveAfterWrite(r, Register(r, c).0, free - 1, true);
    }
  }

  /** From r to r' only object c, slot k and bit k have changed. */
  ghost predicate OthersKept<C>(r: State<C>, r': State<C>, c: C, k: int) {
    && r'.status == r.status && r'.noChannels == r.noChannels
    && |r'.table| == |r.table| && r'.ids.Keys == r.ids.Keys
    && (forall i | 0 <= i < |r.table| && i != k :: r'.table[i] == r.table[i])
    && (forall i | 0 <= i < 64 && i != k :: r'.bits[i] == r.bits[i])
    && (forall d | d in r.ids && d != c :: r'.ids[d] == r.ids[d])
  }

  /**
   * Unregistration does nothing unless the logger is idle and the object carries an id from 1 to no_channels; then it
   * removes exactly the channel's id, its bit, its slot and the id in the object.
   */
  lemma UnregisterFreesId<C>(r: State<C>, c: C)
    requires r.Valid() && c in r.ids
    ensures ShiftDefined(r, c)
    ensures var r', k: int := Unregister(r, c), r.ids[c] as int - 1;
      if r.status == Idle && 0 <= k < r.noChannels
      then
        && k in r.Live() && r'.Live() == r.Live() - {k}
        && r'.table[k] == None && r'.ids[c] == 0 && OthersKept(r, r', c, k)
      else r' == r
  {
    assert r.Owns(c);
    if Unregisters(r, c) {
      var k := r.ids[c] - 1;
      assert r.SlotAgrees(k);
      LiveAfterWrite(r, Unregister(r, c), k, false);
    }
  }

  /** Registering a fresh object and unregistering it again restores the bitmap and the table. */
  lemma RegisterThenUnregister<C>(r: State<C>, c: C)
    requires r.Valid() && c in r.ids && r.ids[c] == 0 && Register(r, c).1
    ensures var r' := Register(r, c).0;
      r'.Valid() && Unregister(r', c).bits == r.bits && Unregister(r', c).table == r.table
  {
    FirstFreeIsLeast(r.bits, 1, r.Limit());
    assert r.SlotAgrees(FirstFree(r.bits, 1, r.Limit()) - 1);
    RegisterFresh(r, c);
  }

  /** Ids of live channels are distinct: no object sits in two slots. */
  lemma LiveIdsDistinct<C>(r: State<C>, j: nat, k: nat)
    requires r.Valid() && j < r.Limit() && k < r.Limit() && r.table[j].Some? && r.table[j] == r.table[k]
    ensures j == k
  {
    assert r.SlotAgrees(j) && r.SlotAgrees(k);
  }

  // ---- Runs ----

  datatype Op<C> = DoRegister(c: C) | DoUnregister(c: C)

  /** The state after a run of calls, or None once a call is undefined. */
  ghost function After<C>(r: State<C>, ops: seq<Op<C>>): Option<State<C>> {
    if ops == [] then Some(r)
    else
      var before, op := After(r, ops[..|ops| - 1]), ops[|ops| - 1];
      if before.None? || !before.value.WellFormed() || op.c !in before.value.ids then None
      else if op.DoRegister? then Some(Register(before.value, op.c).0)
      else if ShiftDefined(before.value, op.c) then Some(Unregister(before.value, op.c))
      else None
  }

  /** Call i does not register an object that carries an id at that moment. */
  ghost predicate Fresh<C>(r: State<C>, ops: seq<Op<C>>, i: nat)
    requires i < |ops|
  {
    var before := After(r, ops[..i]);
    before.Some? && ops[i].DoRegister? && ops[i].c in before.value.ids && before.value.status == Idle ==>
      before.value.ids[ops[i].c] == 0
  }

  lemma AfterSnoc<C>(r: State<C>, ops: seq<Op<C>>, before: State<C>)
    requires ops != [] && After(r, ops[..|ops| - 1]) == Some(before)
    requires before.Valid() && ops[|ops| - 1].c in before.ids
    requires Fresh(r, ops, |ops| - 1)
    ensures After(r, ops).Some? && After(r, ops).value.Valid()
    ensures After(r, ops).value.ids.Keys == before.ids.Keys
  {
    var op := ops[|ops| - 1];
    if op.DoRegister? {
      RegisterValidIff(before, op.c);
    } else {
      UnregisterValid(before, op.c);
    }
  }

  /** Any run of calls without double registration is defined and keeps bitmap, table and ids in agreement. */
  lemma {:induction false} RunsStayValid<C>(r: State<C>, ops: seq<Op<C>>)
    requires r.Valid()
    requires forall i | 0 <= i < |ops| :: ops[i].c in r.ids && Fresh(r, ops, i)
    ensures After(r, ops).Some? && After(r, ops).value.Valid()
    ensures After(r, ops).value.ids.Keys == r.ids.Keys
  {
    if ops != [] {
      var front := ops[..|ops| - 1];
      forall i | 0 <= i < |front|
        ensures front[i].c in r.ids && Fresh(r, front, i)
      {
        assert front[..i] == ops[..i] && Fresh(r, ops, i);
      }
      RunsStayValid(r, front);
      AfterSnoc(r, ops, After(r, front).value);
    }
  }

  // ---- The registry is a finite map from objects to ids ----

  /** The live channels with their ids. */
  ghost function Owners<C>(r: State<C>): map<C, nat> {
    map c | c in r.ids && r.ids[c] != 0 :: r.ids[c]
  }

  /** The least number from `id` up to the limit that is not used, 0 if there is none. */
  function Least(used: set<nat>, id: nat, limit: nat): nat
    decreases limit + 1 - id
  {
    if id > limit then 0 else if id !in used then id else Least(used, id + 1, limit)
  }

  /** Registration adds an object under the least unused id, if there is one; unregistration drops it. */
  function MapAfter<C>(owners: map<C, nat>, ops: seq<Op<C>>, limit: nat): map<C, nat> {
    if ops == [] then owners else
      var before := MapAfter(owners, ops[..|ops| - 1], limit);
      match ops[|ops| - 1]
      case DoRegister(c) =>
        if Least(before.Values, 1, limit) == 0 then before else before[c := Least(before.Values, 1, limit)]
      case DoUnregister(c) => before - {c}
  }

  lemma BitsAreOwners<C>(r: State<C>, k: nat)
    requires r.Valid() && k < r.Limit()
    ensures r.bits[k] <==> k + 1 in Owners(r).Values
  {
    assert r.SlotAgrees(k);
    if r.bits[k] {
      assert r.table[k].value in Owners(r) && Owners(r)[r.table[k].value] == k + 1;
    }
    if k + 1 in Owners(r).Values {
      var c :| c in Owners(r) && Owners(r)[c] == k + 1;
      assert r.Owns(c);
    }
  }

  lemma {:induction false} LeastIsFirstFree<C>(r: State<C>, id: nat)
    requires r.Valid() && 1 <= id
    ensures FirstFree(r.bits, id, r.Limit()) == Least(Owners(r).Values, id, r.Limit())
    decreases r.Limit() + 1 - id
  {
    if id <= r.Limit() {
      BitsAreOwners(r, id - 1);
      LeastIsFirstFree(r, id + 1);
    }
  }

  lemma RegisterOwners<C>(r: State<C>, c: C)
    requires r.Valid() && r.status == Idle && c in r.ids && r.ids[c] == 0
    ensures var id := Least(Owners(r).Values, 1, r.Limit());
      Owners(Register(r, c).0) == if id == 0 then Owners(r) else Owners(r)[c := id]
  {
    LeastIsFirstFree(r, 1);
    FirstFreeIsLeast(r.bits, 1, r.Limit());
  }

  lemma UnregisterOwners<C>(r: State<C>, c: C)
    requires r.Valid() && r.status == Idle && c in r.ids
    ensures ShiftDefined(r, c) && Owners(Unregister(r, c)) == Owners(r) - {c}
  {
    assert r.Owns(c);
  }

  /**
   * Over any run of calls on an idle logger without double registration, bitmap, table and stored ids together are a
   * finite map from live channels to ids: each registration adds its object under the least unused id, if one is left,
   * and each unregistration drops its object.
   */
  lemma {:induction false} RunsRefineMap<C>(r: State<C>, ops: seq<Op<C>>)
    requires r.Valid() && r.status == Idle
    requires forall i | 0 <= i < |ops| :: ops[i].c in r.ids && Fresh(r, ops, i)
    ensures After(r, ops).Some? && After(r, ops).value.Valid()
    ensures Owners(After(r, ops).value) == MapAfter(Owners(r), ops, r.Limit())
    ensures After(r, ops).value.status == Idle && After(r, ops).value.Limit() == r.Limit()
  {
    RunsStayValid(r, ops);
    if ops != [] {
      var n := |ops| - 1;
      forall i | 0 <= i < n
        ensures ops[..n][i].c in r.ids && Fresh(r, ops[..n], i)
      {
        assert ops[..n][..i] == ops[..i] && Fresh(r, ops, i);
      }
      RunsRefineMap(r, ops[..n]);
      RunsStayValid(r, ops[..n]);
      assert Fresh(r, ops, n);
      OpOwners(r, ops, After(r, ops[..n]).value);
    }
  }

  lemma OpOwners<C>(r: State<C>, ops: seq<Op<C>>, before: State<C>)
    requires ops != [] && After(r, ops[..|ops| - 1]) == Some(before)
    requires before.Valid() && before.status == Idle && ops[|ops| - 1].c in before.ids && Fresh(r, ops, |ops| - 1)
    ensures After(r, ops).Some? && After(r, ops).value.status == Idle
    ensures After(r, ops).value.Limit() == before.Limit()
    ensures var op, id := ops[|ops| - 1], Least(Owners(before).Values, 1, before.Limit());
      Owners(After(r, ops).value)
        == if op.DoUnregister? then Owners(before) - {op.c}
           else if id == 0 then Owners(before) else Owners(before)[op.c := id]
  {
    var op := ops[|ops| - 1];
    if op.DoRegister? {
      RegisterOwners(before, op.c);
      RegisterOutcome(before, op.c, FirstFree(before.bits, 1, before.Limit()));
    } else {
      UnregisterOwners(before, op.c);
    }
  }
}
