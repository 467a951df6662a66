/** What write and read handles hold after a run of the pool, told from the
    operations alone. */
module PoolWrites {
  import opened Common
  import opened BufferPool
  import opened PoolRuns

  /** The payloads appended under a handle's id since it was acquired, or since
      its vector was replaced. */
  function Appended(ops: seq<Op>, id: nat): seq<Byte> {
    if ops == [] then []
    else
      var before := ops[..|ops| - 1];
      match ops[|ops| - 1]
      case Acquire(other) => if other == id then [] else Appended(before, id)
      case Extend(other, payload, _) => Appended(before, id) + if other == id then payload else []
      case Replace(other, vec) => if other == id then vec.data else Appended(before, id)
      case _ => Appended(before, id)
  }

  /** The part of Step that concerns the write handles. */
  lemma StepWriters(w: World, op: Op, id: nat)
    requires Step(w, op).Next? && id in Step(w, op).state.writers
    ensures var now := Step(w, op).state.writers[id].vec.data;
      match op
      case Acquire(other) => if other == id then now == [] else id in w.writers && now == w.writers[id].vec.data
      case Extend(other, payload, _) =>
        id in w.writers && now == w.writers[id].vec.data + if other == id then payload else []
      case Replace(other, vec) => id in w.writers && now == if other == id then vec.data else w.writers[id].vec.data
      case _ => id in w.writers && now == w.writers[id].vec.data
  {
    match op
    case Extend(other, _, _) => assert id in w.writers && id != other ==> w.writers[id].vec.data + [] == w.writers[id].vec.data;
    case _ =>
  }

  /** A live write handle holds exactly what was appended to it, in order; a
      slot that is used again starts empty. */
  lemma {:induction false} WriterHoldsAppended(size: nat, start: World, ops: seq<Op>, id: nat)
    requires Initial(start, size) && Run(start, ops).Next? && id in Run(start, ops).state.writers
    ensures Run(start, ops).state.writers[id].vec.data == Appended(ops, id)
    decreases |ops|
  {
    if ops == [] {
    } else {
      var before, last := ops[..|ops| - 1], ops[|ops| - 1];
      var w := Run(start, before).state;
      StepWriters(w, last, id);
      if id in w.writers {
        WriterHoldsAppended(size, start, before, id);
      }
    }
  }

  /** The k-th operation of the run froze these bytes into this slot. */
  ghost predicate FrozeAt(start: World, ops: seq<Op>, reader: Reader, k: nat) {
    && k < |ops| && ops[k].Freeze? && Run(start, ops[..k]).Next?
    && ops[k].id in Run(start, ops[..k]).state.writers
    && Run(start, ops[..k]).state.writers[ops[k].id].slot == reader.slot
    && reader.frozen == Appended(ops[..k], ops[k].id)
  }

  lemma StepReaderIsOld(w: World, op: Op, reader: Reader)
    requires Step(w, op).Next? && reader in Step(w, op).state.readers && reader !in w.readers
    ensures op.Freeze? && op.id in w.writers && reader == Reader(w.writers[op.id].slot, w.writers[op.id].vec.data)
  {
  }

  lemma FrozeEarlier(start: World, ops: seq<Op>, reader: Reader, k: nat)
    requires ops != [] && FrozeAt(start, ops[..|ops| - 1], reader, k)
    ensures FrozeAt(start, ops, reader, k)
  {
    assert ops[..|ops| - 1][..k] == ops[..k];
  }

  /** A live read handle stands for what had been appended to the write handle
      it was frozen from, at the moment it was frozen. */
  lemma {:induction false} ReaderHoldsAppended(size: nat, start: World, ops: seq<Op>, reader: Reader)
    requires Initial(start, size) && Run(start, ops).Next? && reader in Run(start, ops).state.readers
    ensures exists k :: FrozeAt(start, ops, reader, k)
    decreases |ops|
  {
    if ops == [] {
    } else {
      var before, n := ops[..|ops| - 1], |ops| - 1;
      var w := Run(start, before).state;
      if reader in w.readers {
        ReaderHoldsAppended(size, start, before, reader);
        var k :| FrozeAt(start, before, reader, k);
        FrozeEarlier(start, ops, reader, k);
      } else {
        StepReaderIsOld(w, ops[n], reader);
        WriterHoldsAppended(size, start, before, ops[n].id);
        assert ops[..n] == before;
        assert FrozeAt(start, ops, reader, n);
      }
    }
  }

  /** Reading a live handle gives what had been appended when it was frozen. */
  lemma ReadsWhatWasAppended(size: nat, start: World, ops: seq<Op>, reader: Reader)
    requires Initial(start, size) && Run(start, ops).Next? && reader in Run(start, ops).state.readers
    ensures exists k: nat ::
      FrozeAt(start, ops, reader, k) && Read(Run(start, ops).state.pool, reader.slot) == Some(Appended(ops[..k], ops[k].id))
  {
    ReaderHoldsAppended(size, start, ops, reader);
    EverySlotAccountedFor(size, start, ops);
    var k: nat :| FrozeAt(start, ops, reader, k);
    assert Read(Run(start, ops).state.pool, reader.slot) == Some(reader.frozen);
  }

  /** Slots are used again last in first out: whoever acquires right after a
      slot has become free gets that slot. */
  lemma LastFreedFirst(w: World, op: Op, slot: nat, id: nat)
    requires Inv(w) && Step(w, op).Next? && slot < |w.owner|
    requires w.owner[slot] != Free && Step(w, op).state.owner[slot] == Free
    requires id !in Step(w, op).state.writers
    ensures var r := Step(Step(w, op).state, Acquire(id));
      r.Next? && r.state.writers[id].slot == slot && |r.state.owner| == |w.owner|
  {
    StepKeepsInv(w, op);
    var w' := Step(w, op).state;
    FreedGoesLast(w, op, slot);
    StepReuse(w', id);
  }

  lemma FreedGoesLast(w: World, op: Op, slot: nat)
    requires Inv(w) && Step(w, op).Next? && slot < |w.owner|
    requires w.owner[slot] != Free && Step(w, op).state.owner[slot] == Free
    ensures var w' := Step(w, op).state; |w'.owner| == |w.owner| && w'.pool.free == w.pool.free + [slot]
  {
    match op
    case DropWriter(id) => assert WriterAgrees(w, id);
    case DropReader(reader) =>
      assert ReaderAgrees(w, reader);
      assert SlotAgrees(w, reader.slot);
    case _ =>
  }
}
