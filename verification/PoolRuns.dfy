/** Runs of the buffer pool: any interleaving of pool operations by the
    holders of write and read handles.  The invariant accounts for every slot
    and every handle. */
module PoolRuns {
  import opened Common
  import opened BufferPool

  /** A live write handle. */
  datatype Writer = Writer(slot: nat, vec: Vec)

  /** A live read handle, with the bytes its slot had when it was frozen. */
  datatype Reader = Reader(slot: nat, frozen: seq<Byte>)

  /** Who has a slot.  Lost: its write handle was dropped without capacity. */
  datatype Owner = Free | Writing(id: nat) | Reading(frozen: seq<Byte>) | Lost

  /** The pool, all live handles, and the owner of each slot.  Read handles are
      a multiset: clones are indistinguishable. */
  datatype World = World(pool: Pool, writers: map<nat, Writer>, readers: multiset<Reader>, owner: seq<Owner>)

  datatype Op =
    | Preallocate(count: nat)
    | Acquire(id: nat)
    | Extend(id: nat, payload: seq<Byte>, capacity: nat)
    | Replace(id: nat, vec: Vec)
    | Freeze(id: nat)
    | DropWriter(id: nat)
    | CloneReader(reader: Reader)
    | DropReader(reader: Reader)

  const FRESH: World := World(Pool([], [], 0, 0, 1), map[], multiset{}, [])

  ghost predicate Initial(w: World, size: nat) {
    w == FRESH.(pool := Pool([], [], 0, 0, Max(size, 1)))
  }

  /** One operation, disabled when the handle it names is not there.  Growing a
      vector may leave any capacity that is enough and not smaller. */
  ghost function Step(w: World, op: Op): Outcome<World> {
    match op
    case Preallocate(count) =>
      Next(w.(pool := Preallocated(w.pool, count), owner := w.owner + seq(count, _ => Free)))
    case Acquire(id) => (
      if id in w.writers then Disabled
      else
        match Acquired(w.pool)
        case None => Panic
        case Some((pool, slot, vec)) =>
          Next(w.(pool := pool, writers := w.writers[id := Writer(slot, vec)],
                  owner := if slot < |w.owner| then w.owner[slot := Writing(id)] else w.owner + [Writing(id)])))
    case Extend(id, payload, capacity) =>
      if id !in w.writers then Disabled
      else
        var writer := w.writers[id];
        var grown := Vec(writer.vec.data + payload, capacity);
        if !GrowsTo(writer.vec, payload, capacity) then Disabled
        else Next(w.(writers := w.writers[id := writer.(vec := grown)]))
    case Replace(id, vec) =>
      if id !in w.writers || !WellFormed(vec) then Disabled
      else Next(w.(writers := w.writers[id := w.writers[id].(vec := vec)]))
    case Freeze(id) => (
      if id !in w.writers then Disabled
      else
        var writer := w.writers[id];
        match Frozen(w.pool, writer.slot, writer.vec)
        case None => Panic
        case Some(pool) =>
          Next(World(pool, w.writers - {id}, w.readers + multiset{Reader(writer.slot, writer.vec.data)},
                     Assign(w.owner, writer.slot, Reading(writer.vec.data)))))
    case DropWriter(id) => (
      if id !in w.writers then Disabled
      else
        var writer := w.writers[id];
        match WriterDropped(w.pool, writer.slot, writer.vec)
        case None => Panic
        case Some(pool) =>
          Next(w.(pool := pool, writers := w.writers - {id},
                  owner := Assign(w.owner, writer.slot, if writer.vec.capacity == 0 then Lost else Free))))
    case CloneReader(reader) => (
      if reader !in w.readers then Disabled
      else
        match Cloned(w.pool, reader.slot)
        case None => Panic
        case Some(pool) => Next(w.(pool := pool, readers := w.readers + multiset{reader})))
    case DropReader(reader) => (
      if reader !in w.readers then Disabled
      else
        match ReaderDropped(w.pool, reader.slot)
        case None => Panic
        case Some(pool) =>
          Next(w.(pool := pool, readers := w.readers - multiset{reader},
                  owner := if w.readers[reader] == 1 then Assign(w.owner, reader.slot, Free) else w.owner)))
  }

  function Assign(owners: seq<Owner>, slot: nat, who: Owner): (r: seq<Owner>)
    ensures |r| == |owners|
  {
    if slot < |owners| then owners[slot := who] else owners
  }

  // ------------------------------------------------------------------
  // The invariant
  // ------------------------------------------------------------------

  /** A slot's fields agree with its owner: free slots and frozen ones hold
      their vector, the others do not; the count is that of the live handles. */
  ghost predicate SlotAgrees(w: World, i: nat)
    requires i < |w.pool.slots| == |w.owner|
  {
    var slot := w.pool.slots[i];
    match w.owner[i]
    case Free => slot.bytes.Some? && slot.refCount == 0
    case Writing(id) => id in w.writers && w.writers[id].slot == i && slot.bytes.None? && slot.refCount == 0
    case Reading(frozen) => (
      && slot.bytes.Some? && slot.bytes.value.data == frozen
      && slot.mapped && slot.len == |frozen|
      && slot.refCount == w.readers[Reader(i, frozen)] > 0)
    case Lost => slot.bytes.None? && slot.refCount == 0
  }

  /** The free list holds each free slot once and no other slot. */
  ghost predicate FreeListAgrees(w: World) {
    && (forall k :: 0 <= k < |w.pool.free| ==> w.pool.free[k] < |w.owner| && w.owner[w.pool.free[k]] == Free)
    && (forall j, k :: 0 <= j < k < |w.pool.free| ==> w.pool.free[j] != w.pool.free[k])
    && |w.pool.free| + InUse(w.owner) == |w.owner|
  }

  /** How many slots are not free. */
  ghost function InUse(owners: seq<Owner>): (n: nat)
    ensures n <= |owners|
  {
    if owners == [] then 0
    else InUse(owners[..|owners| - 1]) + if owners[|owners| - 1] == Free then 0 else 1
  }

  ghost predicate Inv(w: World) {
    && |w.pool.slots| == |w.owner| == w.pool.allocatedCount == w.pool.highWatermark
    && (forall i :: 0 <= i < |w.owner| ==> SlotAgrees(w, i))
    && FreeListAgrees(w)
    && (forall id :: id in w.writers ==> WriterAgrees(w, id))
    && (forall r :: r in w.readers ==> ReaderAgrees(w, r))
  }

  ghost predicate WriterAgrees(w: World, id: nat)
    requires id in w.writers
  {
    w.writers[id].slot < |w.owner| && w.owner[w.writers[id].slot] == Writing(id)
  }

  ghost predicate ReaderAgrees(w: World, r: Reader) {
    r.slot < |w.owner| && w.owner[r.slot] == Reading(r.frozen)
  }

  lemma {:induction false} InUseUpdate(owners: seq<Owner>, i: nat, who: Owner)
    requires i < |owners|
    ensures InUse(owners[i := who]) == InUse(owners)
      + (if who == Free then 0 else 1) - (if owners[i] == Free then 0 else 1)
  {
    var last := |owners| - 1;
    var after := owners[i := who];
    if i == last {
      assert after[..last] == owners[..last];
    } else {
      assert after[..last] == owners[..last][i := who];
      InUseUpdate(owners[..last], i, who);
    }
  }

  lemma InUseAppend(owners: seq<Owner>, who: Owner)
    ensures InUse(owners + [who]) == InUse(owners) + if who == Free then 0 else 1
  {
    assert (owners + [who])[..|owners|] == owners;
  }

  lemma {:induction false} InUseAppendFree(owners: seq<Owner>, count: nat)
    ensures InUse(owners + seq(count, _ => Free)) == InUse(owners)
  {
    if count == 0 {
      assert owners + seq(0, _ => Free) == owners;
    } else {
      InUseAppendFree(owners, count - 1);
      InUseAppend(owners + seq(count - 1, _ => Free), Free);
      assert owners + seq(count, _ => Free) == owners + seq(count - 1, _ => Free) + [Free];
    }
  }

  /** With n slots all on a repetition-free free list, none is in use; so a
      slot not on the list exists only when fewer than n are listed. */
  lemma {:induction false} FreeIsListed(w: World, i: nat)
    requires Inv(w) && i < |w.owner| && w.owner[i] == Free
    ensures i in w.pool.free
  {
    if i !in w.pool.free {
      var extended := w.pool.free + [i];
      DistinctBound(extended, w.owner);
    }
  }

  /** Distinct indices of free slots are at most as many as the free slots. */
  lemma {:induction false} DistinctBound(indices: seq<nat>, owners: seq<Owner>)
    requires forall k :: 0 <= k < |indices| ==> indices[k] < |owners| && owners[indices[k]] == Free
    requires forall j, k :: 0 <= j < k < |indices| ==> indices[j] != indices[k]
    ensures |indices| + InUse(owners) <= |owners|
    decreases |indices|
  {
    if indices == [] {
    } else {
      var last := indices[|indices| - 1];
      InUseUpdate(owners, last, Lost);
      DistinctBound(indices[..|indices| - 1], owners[last := Lost]);
    }
  }

  lemma ReusedFreeList(w: World, id: nat)
    requires Inv(w) && id !in w.writers && w.pool.free != [] && Step(w, Acquire(id)).Next?
    ensures FreeListAgrees(Step(w, Acquire(id)).state)
  {
    var slot, w' := w.pool.free[|w.pool.free| - 1], Step(w, Acquire(id)).state;
    InUseUpdate(w.owner, slot, Writing(id));
    assert forall k :: 0 <= k < |w'.pool.free| ==> w'.pool.free[k] == w.pool.free[k] && w'.pool.free[k] != slot;
  }

  lemma StepReuse(w: World, id: nat)
    requires Inv(w) && id !in w.writers && w.pool.free != []
    ensures var r := Step(w, Acquire(id)); r.Next? && Inv(r.state)
  {
    var slot := w.pool.free[|w.pool.free| - 1];
    assert SlotAgrees(w, slot);
    var w' := Step(w, Acquire(id)).state;
    ReusedFreeList(w, id);
    forall i | 0 <= i < |w.owner| ensures SlotAgrees(w', i) {
      assert SlotAgrees(w, i);
    }
    forall other | other in w'.writers ensures WriterAgrees(w', other) {
      assert other != id ==> WriterAgrees(w, other);
    }
    forall reader | reader in w'.readers ensures ReaderAgrees(w', reader) {
      assert ReaderAgrees(w, reader);
    }
  }

  lemma GrownSlot(w: World, id: nat, i: nat)
    requires Inv(w) && id !in w.writers && w.pool.free == [] && i <= |w.owner|
    ensures var w' := Step(w, Acquire(id)).state;
      |w'.pool.slots| == |w'.owner| == |w.owner| + 1 && SlotAgrees(w', i)
  {
    assert i < |w.owner| ==> SlotAgrees(w, i);
  }

  lemma StepGrow(w: World, id: nat)
    requires Inv(w) && id !in w.writers && w.pool.free == []
    ensures var r := Step(w, Acquire(id)); r.Next? && Inv(r.state)
  {
    var w' := Step(w, Acquire(id)).state;
    InUseAppend(w.owner, Writing(id));
    GrownSlot(w, id, |w.owner|);
    forall i | 0 <= i < |w'.owner| ensures SlotAgrees(w', i) {
      GrownSlot(w, id, i);
    }
    forall other | other in w'.writers ensures WriterAgrees(w', other) {
      assert other != id ==> WriterAgrees(w, other);
    }
    forall reader | reader in w'.readers ensures ReaderAgrees(w', reader) {
      assert ReaderAgrees(w, reader);
    }
  }

  lemma StepPreallocate(w: World, count: nat)
    requires Inv(w)
    ensures var r := Step(w, Preallocate(count)); r.Next? && Inv(r.state)
  {
    var r := Step(w, Preallocate(count));
    InUseAppendFree(w.owner, count);
    forall i | 0 <= i < |r.state.owner| ensures SlotAgrees(r.state, i) {
      assert i < |w.owner| ==> SlotAgrees(w, i);
    }
    forall id | id in r.state.writers ensures WriterAgrees(r.state, id) {
      assert WriterAgrees(w, id);
    }
    forall reader | reader in r.state.readers ensures ReaderAgrees(r.state, reader) {
      assert ReaderAgrees(w, reader);
    }
  }

  lemma StepWriter(w: World, op: Op)
    requires Inv(w) && (op.Extend? || op.Replace?) && Step(w, op) != Disabled
    ensures Step(w, op).Next? && Inv(Step(w, op).state)
  {
    var w' := Step(w, op).state;
    forall i | 0 <= i < |w.owner| ensures SlotAgrees(w', i) {
      assert SlotAgrees(w, i);
    }
    forall id | id in w'.writers ensures WriterAgrees(w', id) {
      assert WriterAgrees(w, id);
    }
    forall r | r in w'.readers ensures ReaderAgrees(w', r) {
      assert ReaderAgrees(w, r);
    }
  }

  lemma StepFreeze(w: World, id: nat)
    requires Inv(w) && id in w.writers
    ensures var r := Step(w, Freeze(id)); r.Next? && Inv(r.state)
  {
    var slot, vec := w.writers[id].slot, w.writers[id].vec;
    assert WriterAgrees(w, id);
    assert SlotAgrees(w, slot);
    var w' := Step(w, Freeze(id)).state;
    var mine := Reader(slot, vec.data);
    assert mine !in w.readers by {
      assert mine in w.readers ==> ReaderAgrees(w, mine);
    }
    InUseUpdate(w.owner, slot, Reading(vec.data));
    forall i | 0 <= i < |w.owner| ensures SlotAgrees(w', i) {
      assert SlotAgrees(w, i);
    }
    forall other | other in w'.writers ensures WriterAgrees(w', other) {
      assert WriterAgrees(w, other);
    }
    forall r | r in w'.readers ensures ReaderAgrees(w', r) {
      assert r != mine ==> ReaderAgrees(w, r);
    }
  }

  lemma StepDropWriter(w: World, id: nat)
    requires Inv(w) && id in w.writers
    ensures var r := Step(w, DropWriter(id)); r.Next? && Inv(r.state)
  {
    var slot, vec := w.writers[id].slot, w.writers[id].vec;
    assert WriterAgrees(w, id);
    assert SlotAgrees(w, slot);
    var w' := Step(w, DropWriter(id)).state;
    InUseUpdate(w.owner, slot, w'.owner[slot]);
    forall i | 0 <= i < |w.owner| ensures SlotAgrees(w', i) {
      assert SlotAgrees(w, i);
    }
    forall other | other in w'.writers ensures WriterAgrees(w', other) {
      assert WriterAgrees(w, other);
    }
    forall r | r in w'.readers ensures ReaderAgrees(w', r) {
      assert ReaderAgrees(w, r);
    }
  }

  lemma StepClone(w: World, reader: Reader)
    requires Inv(w) && reader in w.readers
    ensures var r := Step(w, CloneReader(reader)); r.Next? && Inv(r.state)
  {
    assert ReaderAgrees(w, reader);
    assert SlotAgrees(w, reader.slot);
    var w' := Step(w, CloneReader(reader)).state;
    forall i | 0 <= i < |w.owner| ensures SlotAgrees(w', i) {
      assert SlotAgrees(w, i);
    }
    forall id | id in w'.writers ensures WriterAgrees(w', id) {
      assert WriterAgrees(w, id);
    }
    forall r | r in w'.readers ensures ReaderAgrees(w', r) {
      assert ReaderAgrees(w, r);
    }
  }

  lemma StepDropShared(w: World, reader: Reader)
    requires Inv(w) && w.readers[reader] > 1
    ensures var r := Step(w, DropReader(reader)); r.Next? && Inv(r.state)
  {
    assert ReaderAgrees(w, reader);
    assert SlotAgrees(w, reader.slot);
    var w' := Step(w, DropReader(reader)).state;
    forall i | 0 <= i < |w.owner| ensures SlotAgrees(w', i) {
      assert SlotAgrees(w, i);
    }
    forall id | id in w'.writers ensures WriterAgrees(w', id) {
      assert WriterAgrees(w, id);
    }
    forall r | r in w'.readers ensures ReaderAgrees(w', r) {
      assert ReaderAgrees(w, r);
    }
  }

  lemma StepDropLast(w: World, reader: Reader)
    requires Inv(w) && w.readers[reader] == 1
    ensures var r := Step(w, DropReader(reader)); r.Next? && Inv(r.state)
  {
    assert ReaderAgrees(w, reader);
    assert SlotAgrees(w, reader.slot);
    var w' := Step(w, DropReader(reader)).state;
    InUseUpdate(w.owner, reader.slot, Free);
    forall i | 0 <= i < |w.owner| ensures SlotAgrees(w', i) {
      assert SlotAgrees(w, i);
    }
    forall id | id in w'.writers ensures WriterAgrees(w', id) {
      assert WriterAgrees(w, id);
    }
    forall r | r in w'.readers ensures ReaderAgrees(w', r) {
      assert ReaderAgrees(w, r);
    }
  }

  lemma StepDropReader(w: World, reader: Reader)
    requires Inv(w) && reader in w.readers
    ensures var r := Step(w, DropReader(reader)); r.Next? && Inv(r.state)
  {
    if w.readers[reader] == 1 {
      StepDropLast(w, reader);
    } else {
      StepDropShared(w, reader);
    }
  }

  /** No operation on a live handle panics, and each keeps the invariant. */
  lemma StepKeepsInv(w: World, op: Op)
    requires Inv(w)
    ensures match Step(w, op)
            case Disabled => true
            case Panic => false
            case Next(w') => Inv(w')
  {
    match op
    case Preallocate(count) => StepPreallocate(w, count);
    case Acquire(id) => if id !in w.writers { if w.pool.free != [] { StepReuse(w, id); } else { StepGrow(w, id); } }
    case Extend(_, _, _) => if Step(w, op) != Disabled { StepWriter(w, op); }
    case Replace(_, _) => if Step(w, op) != Disabled { StepWriter(w, op); }
    case Freeze(id) => if id in w.writers { StepFreeze(w, id); }
    case DropWriter(id) => if id in w.writers { StepDropWriter(w, id); }
    case CloneReader(reader) => if reader in w.readers { StepClone(w, reader); }
    case DropReader(reader) => if reader in w.readers { StepDropReader(w, reader); }
  }

  // ------------------------------------------------------------------
  // Whole runs
  // ------------------------------------------------------------------

  /** The outcome of a list of operations. */
  ghost function Run(w: World, ops: seq<Op>): Outcome<World> {
    if ops == [] then Next(w)
    else
      match Run(w, ops[..|ops| - 1])
      case Next(w') => Step(w', ops[|ops| - 1])
      case other => other
  }

  lemma {:induction false} RunKeepsInv(w: World, ops: seq<Op>)
    requires Inv(w)
    ensures match Run(w, ops)
            case Disabled => true
            case Panic => false
            case Next(w') => Inv(w')
  {
    if ops == [] {
    } else {
      RunKeepsInv(w, ops[..|ops| - 1]);
      var r := Run(w, ops[..|ops| - 1]);
      if r.Next? {
        StepKeepsInv(r.state, ops[|ops| - 1]);
      }
    }
  }

  /** After any run from a fresh pool: nothing has panicked; every slot has one
      owner; a free slot is listed once with its bytes present and has no
      handle; a write handle's slot is its own; a frozen slot's count is the
      number of its live handles; and every live read handle still reads the
      bytes it was frozen with. */
  lemma EverySlotAccountedFor(size: nat, start: World, ops: seq<Op>)
    requires Initial(start, size)
    ensures Run(start, ops) != Panic
    ensures Run(start, ops).Next? ==> var w := Run(start, ops).state;
      && |w.owner| == |w.pool.slots|
      && (forall i: nat :: i < |w.owner| ==>
           && (w.owner[i] == Free <==> i in w.pool.free)
           && (w.owner[i] == Free ==> w.pool.slots[i].bytes.Some?)
           && (w.owner[i].Writing? ==> w.owner[i].id in w.writers && w.writers[w.owner[i].id].slot == i)
           && (w.owner[i].Reading? ==> w.pool.slots[i].refCount == w.readers[Reader(i, w.owner[i].frozen)] > 0))
      && (forall j, k :: 0 <= j < k < |w.pool.free| ==> w.pool.free[j] != w.pool.free[k])
      && (forall id :: id in w.writers ==> w.writers[id].slot < |w.owner| && w.owner[w.writers[id].slot] == Writing(id))
      && (forall r :: r in w.readers ==>
           r.slot < |w.owner| && w.owner[r.slot] == Reading(r.frozen) && Read(w.pool, r.slot) == Some(r.frozen))
  {
    RunKeepsInv(start, ops);
    var r := Run(start, ops);
    if r.Next? {
      var w := r.state;
      forall i: nat | i < |w.owner|
        ensures w.owner[i] == Free <==> i in w.pool.free
        ensures SlotAgrees(w, i)
      {
        if w.owner[i] == Free { FreeIsListed(w, i); }
      }
      forall id | id in w.writers ensures w.owner[w.writers[id].slot] == Writing(id) {
        assert WriterAgrees(w, id);
      }
      forall reader | reader in w.readers
        ensures reader.slot < |w.owner| && w.owner[reader.slot] == Reading(reader.frozen)
        ensures Read(w.pool, reader.slot) == Some(reader.frozen)
      {
        assert ReaderAgrees(w, reader);
        var bytes := w.pool.slots[reader.slot].bytes.value.data;
        assert bytes[..|bytes|] == bytes;
      }
    }
  }

  // ------------------------------------------------------------------
  // How many slots there are
  // ------------------------------------------------------------------

  /** The most slots in use at once over the run, start included. */
  ghost function Peak(w: World, ops: seq<Op>): nat
    requires Run(w, ops).Next?
  {
    var now := InUse(Run(w, ops).state.owner);
    if ops == [] then now else Max(Peak(w, ops[..|ops| - 1]), now)
  }

  lemma StepGrowth(w: World, op: Op)
    requires Inv(w) && !op.Preallocate? && Step(w, op).Next?
    ensures var w' := Step(w, op).state;
      |w'.owner| == Max(|w.owner|, InUse(w'.owner))
  {
    var w' := Step(w, op).state;
    match op
    case Acquire(id) =>
      if w.pool.free == [] {
        InUseAppend(w.owner, Writing(id));
      }
    case Extend(_, _, _) =>
    case Replace(_, _) =>
    case Freeze(_) =>
    case DropWriter(_) =>
    case CloneReader(_) =>
    case DropReader(_) =>
  }

  /** The in-use number the pool reports is the number of slots not free. */
  lemma StatsCountHandles(w: World)
    requires Inv(w)
    ensures StatsOf(w.pool) == PoolStats(|w.pool.free|, InUse(w.owner), |w.pool.slots|)
  {
  }

  /** After one preallocation of n on a fresh pool, at every later point the
      slots, the allocated count and the high watermark are all the larger of
      n and the peak in use so far; so slots are allocated on demand exactly
      when the peak exceeds n. */
  lemma {:induction false} WatermarkIsPeak(size: nat, start: World, n: nat, ops: seq<Op>)
    requires Initial(start, size)
    requires forall op :: op in ops ==> !op.Preallocate?
    ensures var w := Step(start, Preallocate(n)).state;
      Run(w, ops).Next? ==> var pool := Run(w, ops).state.pool;
        && |pool.slots| == pool.allocatedCount == pool.highWatermark == Max(n, Peak(w, ops))
        && (|pool.slots| > n <==> Peak(w, ops) > n)
    decreases ops
  {
    StepKeepsInv(start, Preallocate(n));
    var w := Step(start, Preallocate(n)).state;
    InUseAppendFree([], n);
    if ops == [] {
    } else {
      var before := ops[..|ops| - 1];
      WatermarkIsPeak(size, start, n, before);
      RunKeepsInv(w, before);
      if Run(w, ops).Next? {
        StepGrowth(Run(w, before).state, ops[|ops| - 1]);
        StepKeepsInv(Run(w, before).state, ops[|ops| - 1]);
      }
    }
  }

  // ------------------------------------------------------------------
  // Slots that never come back
  // ------------------------------------------------------------------

  /** Every vector in the pool or in a write handle has at least this capacity,
      and no slot is lost. */
  ghost predicate Roomy(w: World, least: nat) {
    && w.pool.bufferSize >= least
    && (forall i :: 0 <= i < |w.owner| == |w.pool.slots| ==> RoomySlot(w, i, least))
    && (forall id :: id in w.writers ==> w.writers[id].vec.capacity >= least)
  }

  ghost predicate RoomySlot(w: World, i: nat, least: nat)
    requires i < |w.owner| == |w.pool.slots|
  {
    w.owner[i] != Lost && (w.pool.slots[i].bytes.Some? ==> w.pool.slots[i].bytes.value.capacity >= least)
  }

  /** The operation drops the write handle of slot i, whose vector has no
      capacity. */
  ghost predicate DropsEmpty(w: World, op: Op, i: nat) {
    op.DropWriter? && op.id in w.writers && w.writers[op.id].slot == i && w.writers[op.id].vec.capacity == 0
  }

  ghost predicate IsLost(w: World, i: nat) {
    i < |w.owner| && w.owner[i] == Lost
  }

  lemma AcquireLoses(w: World, id: nat, i: nat)
    requires Inv(w) && Step(w, Acquire(id)).Next?
    ensures IsLost(Step(w, Acquire(id)).state, i) <==> IsLost(w, i)
  {
    if w.pool.free != [] {
      assert w.owner[w.pool.free[|w.pool.free| - 1]] == Free;
    }
  }

  lemma HandleLoses(w: World, op: Op, i: nat)
    requires Inv(w) && Step(w, op).Next? && (op.Freeze? || op.DropWriter? || op.DropReader?)
    ensures IsLost(Step(w, op).state, i) <==> IsLost(w, i) || DropsEmpty(w, op, i)
  {
    match op
    case Freeze(id) => assert WriterAgrees(w, id);
    case DropWriter(id) => assert WriterAgrees(w, id);
    case DropReader(reader) => assert ReaderAgrees(w, reader);
  }

  lemma StepLoses(w: World, op: Op, i: nat)
    requires Inv(w) && Step(w, op).Next?
    ensures IsLost(Step(w, op).state, i) <==> IsLost(w, i) || DropsEmpty(w, op, i)
  {
    match op
    case Acquire(id) => AcquireLoses(w, id, i);
    case Freeze(_) => HandleLoses(w, op, i);
    case DropWriter(_) => HandleLoses(w, op, i);
    case DropReader(_) => HandleLoses(w, op, i);
    case _ =>
  }

  /** The k-th operation of the run drops slot i's write handle without capacity. */
  ghost predicate LosesAt(start: World, ops: seq<Op>, i: nat, k: nat) {
    k < |ops| && Run(start, ops[..k]).Next? && DropsEmpty(Run(start, ops[..k]).state, ops[k], i)
  }

  lemma LosesLater(start: World, ops: seq<Op>, i: nat)
    requires ops != [] && Run(start, ops[..|ops| - 1]).Next?
    ensures var before := ops[..|ops| - 1];
      (exists k :: LosesAt(start, ops, i, k)) <==>
        (exists k :: LosesAt(start, before, i, k)) || DropsEmpty(Run(start, before).state, ops[|ops| - 1], i)
  {
    var before, n := ops[..|ops| - 1], |ops| - 1;
    forall k: nat ensures LosesAt(start, ops, i, k) <==>
      LosesAt(start, before, i, k) || (k == n && DropsEmpty(Run(start, before).state, ops[n], i))
    {
      if k < n {
        assert ops[..k] == before[..k];
      }
    }
    if exists k :: LosesAt(start, before, i, k) {
      var k :| LosesAt(start, before, i, k);
      assert LosesAt(start, ops, i, k);
    } else if DropsEmpty(Run(start, before).state, ops[n], i) {
      assert LosesAt(start, ops, i, n);
    }
  }

  /** After any run a slot is lost exactly when some operation of the run
      dropped its write handle with a vector that had no capacity. */
  lemma {:induction false} LostExactlyWithoutCapacity(size: nat, start: World, ops: seq<Op>, i: nat)
    requires Initial(start, size) && Run(start, ops).Next?
    ensures IsLost(Run(start, ops).state, i) <==> exists k :: LosesAt(start, ops, i, k)
    decreases |ops|
  {
    if ops == [] {
    } else {
      var before := ops[..|ops| - 1];
      LostExactlyWithoutCapacity(size, start, before, i);
      RunKeepsInv(start, before);
      StepLoses(Run(start, before).state, ops[|ops| - 1], i);
      LosesLater(start, ops, i);
    }
  }

  /** Slots do get lost: here the first one, in a pool of any buffer size. */
  lemma ASlotGetsLost(size: nat, start: World) returns (ops: seq<Op>)
    requires Initial(start, size)
    ensures Run(start, ops).Next? && Run(start, ops).state.owner == [Lost]
    ensures Run(start, ops).state.pool.free == [] && Run(start, ops).state.writers == map[]
  {
    var acquire, replace, drop := Acquire(0), Replace(0, Vec([], 0)), DropWriter(0);
    ops := [acquire, replace, drop];
    assert ops[..2] == [acquire, replace] && [acquire, replace][..1] == [acquire] && [acquire][..0] == [];
    var one := Step(start, acquire).state;
    assert Run(start, [acquire]) == Next(one);
    var two := Step(one, replace).state;
    assert Run(start, [acquire, replace]) == Next(two);
    assert two.writers[0] == Writer(0, Vec([], 0)) && two.owner == [Writing(0)];
    assert [Writing(0)][0 := Lost] == [Lost];
  }

  lemma RoomySlotAfter(w: World, op: Op, i: nat, least: nat)
    requires least >= 1 && |w.owner| == |w.pool.slots| && Roomy(w, least) && Step(w, op).Next?
    requires |Step(w, op).state.owner| == |Step(w, op).state.pool.slots| > i
    ensures RoomySlot(Step(w, op).state, i, least)
  {
    assert i < |w.owner| ==> RoomySlot(w, i, least);
    match op
    case Preallocate(_) =>
    case Acquire(_) =>
    case Extend(_, _, _) =>
    case Replace(_, _) =>
    case Freeze(_) =>
    case DropWriter(_) =>
    case CloneReader(_) =>
    case DropReader(_) =>
  }

  lemma StepKeepsRoomy(w: World, op: Op, least: nat)
    requires least >= 1 && |w.owner| == |w.pool.slots| && Roomy(w, least) && Step(w, op).Next?
    requires op.Replace? ==> op.vec.capacity >= least
    ensures Roomy(Step(w, op).state, least)
  {
    var w' := Step(w, op).state;
    forall i | 0 <= i < |w'.owner| == |w'.pool.slots| ensures RoomySlot(w', i, least) {
      RoomySlotAfter(w, op, i, least);
    }
    forall id | id in w'.writers ensures w'.writers[id].vec.capacity >= least {
      if op == Acquire(id) && w.pool.free != [] && w.pool.free[|w.pool.free| - 1] < |w.owner| {
        assert RoomySlot(w, w.pool.free[|w.pool.free| - 1], least);
      }
    }
  }

  lemma {:induction false} StaysRoomy(size: nat, start: World, ops: seq<Op>, least: nat)
    requires Initial(start, size) && 1 <= least <= Max(size, 1)
    requires forall op :: op in ops && op.Replace? ==> op.vec.capacity >= least
    ensures Run(start, ops).Next? ==> Roomy(Run(start, ops).state, least)
    decreases ops
  {
    if ops == [] {
    } else {
      var before := ops[..|ops| - 1];
      StaysRoomy(size, start, before, least);
      RunKeepsInv(start, before);
      if Run(start, ops).Next? {
        assert ops[|ops| - 1] in ops;
        StepKeepsRoomy(Run(start, before).state, ops[|ops| - 1], least);
      }
    }
  }

  /** When no write handle's vector is replaced by one without capacity, no
      slot is ever lost, from a pool of any buffer size, zero included. */
  lemma NothingLost(size: nat, start: World, ops: seq<Op>, i: nat)
    requires Initial(start, size) && Run(start, ops).Next?
    requires forall op :: op in ops && op.Replace? ==> op.vec.capacity >= 1
    ensures !IsLost(Run(start, ops).state, i)
  {
    StaysRoomy(size, start, ops, 1);
    RunKeepsInv(start, ops);
    var w := Run(start, ops).state;
    assert i < |w.owner| ==> RoomySlot(w, i, 1);
  }

  /** When no vector is replaced, every write handle can take a whole buffer:
      its vector has at least the capacity the pool was made with. */
  lemma WritersHaveRoom(size: nat, start: World, ops: seq<Op>, id: nat)
    requires Initial(start, size) && Run(start, ops).Next? && id in Run(start, ops).state.writers
    requires forall op :: op in ops ==> !op.Replace?
    ensures Run(start, ops).state.writers[id].vec.capacity >= Max(size, 1)
  {
    StaysRoomy(size, start, ops, Max(size, 1));
  }
}
