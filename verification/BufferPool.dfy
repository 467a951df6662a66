/** The buffer pool: a slot table with a last-in first-out free list, write
    handles that freeze into reference-counted read handles.  Every operation
    takes the pool lock, so each is one step on the pool's fields.  Raw
    pointers are replaced by the bytes they point at. */
module BufferPool {
  import opened Common

  /** A growable byte vector; capacity is what it can hold without growing. */
  datatype Vec = Vec(data: seq<Byte>, capacity: nat)

  predicate WellFormed(v: Vec) {
    |v.data| <= v.capacity
  }

  /** Appending may leave this capacity: the same when the payload fits, and
      otherwise any that is enough. */
  predicate GrowsTo(v: Vec, payload: seq<Byte>, capacity: nat) {
    if |v.data| + |payload| <= v.capacity then capacity == v.capacity
    else |v.data| + |payload| <= capacity && v.capacity <= capacity
  }

  /** `bytes` is absent while the slot is checked out; `mapped` and `len` are
      the pointer and length cached by freeze. */
  datatype Slot = Slot(bytes: Option<Vec>, mapped: bool, len: nat, refCount: nat)

  datatype Pool = Pool(slots: seq<Slot>, free: seq<nat>, allocatedCount: nat, highWatermark: nat, bufferSize: nat)

  datatype PoolStats = PoolStats(available: nat, inUse: nat, highWatermark: nat)

  function Max(a: nat, b: nat): nat {
    if a < b then b else a
  }

  function FreshSlots(count: nat, size: nat): (slots: seq<Slot>)
    ensures |slots| == count
  {
    seq(count, _ => Slot(Some(Vec([], size)), false, 0, 0))
  }

  function Preallocated(p: Pool, count: nat): Pool {
    var total := p.allocatedCount + count;
    p.(slots := p.slots + FreshSlots(count, p.bufferSize),
       free := p.free + seq(count, k requires 0 <= k < count => |p.slots| + k),
       allocatedCount := total,
       highWatermark := Max(p.highWatermark, total))
  }

  /** What acquire hands out: the new pool, the slot and its cleared vector.
      None stands for the panic on a free slot without bytes. */
  function Acquired(p: Pool): Option<(Pool, nat, Vec)> {
    if p.free != [] then
      var idx := p.free[|p.free| - 1];
      if idx < |p.slots| && p.slots[idx].bytes.Some? then
        Some((p.(slots := p.slots[idx := p.slots[idx].(bytes := None)], free := p.free[..|p.free| - 1]),
              idx, Vec([], p.slots[idx].bytes.value.capacity)))
      else None
    else
      var total := p.allocatedCount + 1;
      Some((p.(slots := p.slots + [Slot(None, false, 0, 0)],
               allocatedCount := total,
               highWatermark := Max(p.highWatermark, total)),
            |p.slots|, Vec([], p.bufferSize)))
  }

  function Frozen(p: Pool, idx: nat, v: Vec): Option<Pool> {
    if idx < |p.slots| then Some(p.(slots := p.slots[idx := Slot(Some(v), true, |v.data|, 1)])) else None
  }

  /** Dropping a write handle gives its vector back, unless it has no capacity. */
  function WriterDropped(p: Pool, idx: nat, v: Vec): Option<Pool> {
    if v.capacity == 0 then Some(p)
    else if idx < |p.slots| then
      Some(p.(slots := p.slots[idx := p.slots[idx].(bytes := Some(Vec([], v.capacity)))], free := p.free + [idx]))
    else None
  }

  function Cloned(p: Pool, idx: nat): Option<Pool> {
    if idx < |p.slots| then
      Some(p.(slots := p.slots[idx := p.slots[idx].(refCount := p.slots[idx].refCount + 1)]))
    else None
  }

  /** The atomic decrement wraps below zero. */
  function ReaderDropped(p: Pool, idx: nat): Option<Pool> {
    if idx >= |p.slots| then None
    else
      var slot, prev := p.slots[idx], p.slots[idx].refCount;
      var next := if prev == 0 then U64_MAX else prev - 1;
      if prev == 1 then
        Some(p.(slots := p.slots[idx := slot.(refCount := next, mapped := false, len := 0)], free := p.free + [idx]))
      else Some(p.(slots := p.slots[idx := slot.(refCount := next)]))
  }

  /** The bytes behind a read handle; None when they are no longer there. */
  function Read(p: Pool, idx: nat): Option<seq<Byte>> {
    if idx < |p.slots| && p.slots[idx].mapped && p.slots[idx].bytes.Some?
       && p.slots[idx].len <= |p.slots[idx].bytes.value.data|
    then Some(p.slots[idx].bytes.value.data[..p.slots[idx].len])
    else None
  }

  function StatsOf(p: Pool): PoolStats {
    PoolStats(|p.free|, if p.allocatedCount < |p.free| then 0 else p.allocatedCount - |p.free|, p.highWatermark)
  }

  // ------------------------------------------------------------------
  // The object
  // ------------------------------------------------------------------

  class BufferPool {
    var slots: seq<Slot>
    var freeIndices: seq<nat>
    var allocatedCount: nat
    var highWatermark: nat
    const bufferSize: nat

    ghost function View(): Pool
      reads this
    {
      Pool(slots, freeIndices, allocatedCount, highWatermark, bufferSize)
    }

    constructor (size: nat)
      ensures View() == Pool([], [], 0, 0, Max(size, 1))
    {
      slots, freeIndices := [], [];
      allocatedCount, highWatermark := 0, 0;
      bufferSize := Max(size, 1);
    }

    method Preallocate(count: nat)
      modifies this
      ensures View() == Preallocated(old(View()), count)
    {
      for k := 0 to count
        invariant slots == old(slots) + FreshSlots(k, bufferSize)
        invariant freeIndices == old(freeIndices) + seq(k, j requires 0 <= j < k => |old(slots)| + j)
        invariant allocatedCount == old(allocatedCount) && highWatermark == old(highWatermark)
      {
        var idx := |slots|;
        slots := slots + [Slot(Some(Vec([], bufferSize)), false, 0, 0)];
        freeIndices := freeIndices + [idx];
      }
      allocatedCount := allocatedCount + count;
      highWatermark := Max(highWatermark, allocatedCount);
    }

    method Stats() returns (stats: PoolStats)
      ensures stats == StatsOf(View())
    {
      var inUse := if allocatedCount < |freeIndices| then 0 else allocatedCount - |freeIndices|;
      stats := PoolStats(|freeIndices|, inUse, highWatermark);
    }

    method Acquire() returns (buffer: MediaBuffer)
      requires Acquired(View()).Some?
      modifies this
      ensures fresh(buffer) && buffer.pool == this
      ensures Acquired(old(View())) == Some((View(), buffer.slotIndex, buffer.bytes))
    {
      if freeIndices != [] {
        var idx := freeIndices[|freeIndices| - 1];
        freeIndices := freeIndices[..|freeIndices| - 1];
        var bytes := slots[idx].bytes.value;
        slots := slots[idx := slots[idx].(bytes := None)];
        buffer := new MediaBuffer(Vec([], bytes.capacity), idx, this);
      } else {
        var idx := |slots|;
        slots := slots + [Slot(None, false, 0, 0)];
        allocatedCount := allocatedCount + 1;
        highWatermark := Max(highWatermark, allocatedCount);
        buffer := new MediaBuffer(Vec([], bufferSize), idx, this);
      }
    }
  }

  /** The write handle.  Freeze and Drop consume it. */
  class MediaBuffer {
    var bytes: Vec
    const slotIndex: nat
    const pool: BufferPool

    constructor (bytes: Vec, slotIndex: nat, pool: BufferPool)
      ensures this.bytes == bytes && this.slotIndex == slotIndex && this.pool == pool
    {
      this.bytes, this.slotIndex, this.pool := bytes, slotIndex, pool;
    }

    /** `capacity` is the capacity the allocator leaves the vector with. */
    method ExtendFromSlice(payload: seq<Byte>, capacity: nat)
      requires WellFormed(bytes) && GrowsTo(bytes, payload, capacity)
      modifies this
      ensures bytes == Vec(old(bytes).data + payload, capacity) && WellFormed(bytes)
    {
      bytes := Vec(bytes.data + payload, capacity);
    }

    method Freeze() returns (handle: PooledBuffer)
      requires Frozen(pool.View(), slotIndex, bytes).Some?
      modifies pool
      ensures handle == PooledBuffer(slotIndex, pool)
      ensures Some(pool.View()) == Frozen(old(pool.View()), slotIndex, bytes)
    {
      pool.slots := pool.slots[slotIndex := Slot(Some(bytes), true, |bytes.data|, 1)];
      handle := PooledBuffer(slotIndex, pool);
    }

    method Drop()
      requires WriterDropped(pool.View(), slotIndex, bytes).Some?
      modifies this, pool
      ensures Some(pool.View()) == WriterDropped(old(pool.View()), slotIndex, old(bytes))
    {
      if bytes.capacity == 0 {
        return;
      }
      var taken := bytes;
      bytes := Vec([], 0);
      var slot := pool.slots[slotIndex];
      pool.slots := pool.slots[slotIndex := slot.(bytes := Some(Vec([], taken.capacity)))];
      pool.freeIndices := pool.freeIndices + [slotIndex];
    }
  }

  /** The read handle: an immutable pair. */
  datatype PooledBuffer = PooledBuffer(slotIndex: nat, pool: BufferPool) {

    method AsSlice() returns (bytes: seq<Byte>)
      requires Read(pool.View(), slotIndex).Some?
      ensures Some(bytes) == Read(pool.View(), slotIndex)
    {
      var slot := pool.slots[slotIndex];
      bytes := slot.bytes.value.data[..slot.len];
    }

    method Clone() returns (copy: PooledBuffer)
      requires Cloned(pool.View(), slotIndex).Some?
      modifies pool
      ensures copy == this
      ensures Some(pool.View()) == Cloned(old(pool.View()), slotIndex)
    {
      var slot := pool.slots[slotIndex];
      pool.slots := pool.slots[slotIndex := slot.(refCount := slot.refCount + 1)];
      copy := this;
    }

    method Drop()
      requires ReaderDropped(pool.View(), slotIndex).Some?
      modifies pool
      ensures Some(pool.View()) == ReaderDropped(old(pool.View()), slotIndex)
    {
      var slot := pool.slots[slotIndex];
      var prev := slot.refCount;
      slot := slot.(refCount := if prev == 0 then U64_MAX else prev - 1);
      if prev == 1 {
        slot := slot.(mapped := false);
        slot := slot.(len := 0);
        pool.freeIndices := pool.freeIndices + [slotIndex];
      }
      pool.slots := pool.slots[slotIndex := slot];
    }
  }
}
