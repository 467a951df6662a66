/** The router running over the buffer pool: whole runs of both together. */
module FanoutRuns {
  import opened Common
  import opened PoolRuns
  import opened Fanout
  import BufferPool

  datatype State = State(world: World, control: Control)

  ghost predicate FreezesThat(w: World, move: Move) {
    move.MainFreeze? && move.id in w.writers ==> move.reader == Reader(w.writers[move.id].slot, w.writers[move.id].vec.data)
  }

  ghost function MoveStep(s: State, move: Move): Outcome<State> {
    if !Enabled(s.control, move) || !FreezesThat(s.world, move) then Disabled
    else
      match PoolOp(s.control, move)
      case None => Next(State(s.world, Effect(s.control, move)))
      case Some(op) =>
        match Step(s.world, op)
        case Disabled => Disabled
        case Panic => Panic
        case Next(world) => Next(State(world, Effect(s.control, move)))
  }

  /** The pool's live read handles are those the control state holds. */
  ghost predicate HandlesAgree(w: World, c: Control) {
    forall r :: w.readers[r] == HandleCount(c, r)
  }

  ghost predicate FullInv(s: State) {
    Inv(s.world) && HandlesAgree(s.world, s.control) && OrderInv(s.control)
  }

  lemma StepReaders(w: World, move: Move, op: Op, r: Reader)
    requires Step(w, op).Next? && FreezesThat(w, move) && (op.Freeze? ==> move.MainFreeze? && move.id == op.id)
    ensures Step(w, op).state.readers[r] == w.readers[r] + Change(move, Some(op), r)
  {
  }

  lemma MoveKeepsAgreement(s: State, move: Move)
    requires HandlesAgree(s.world, s.control) && MoveStep(s, move).Next?
    ensures var s' := MoveStep(s, move).state; HandlesAgree(s'.world, s'.control)
  {
    forall r ensures MoveStep(s, move).state.world.readers[r] == HandleCount(Effect(s.control, move), r) {
      MoveHandles(s.control, move, r);
      MoveReaders(s, move, r);
    }
  }

  lemma MoveReaders(s: State, move: Move, r: Reader)
    requires MoveStep(s, move).Next?
    ensures MoveStep(s, move).state.world.readers[r] == s.world.readers[r] + Change(move, PoolOp(s.control, move), r)
  {
    var op := PoolOp(s.control, move);
    if op.Some? {
      StepReaders(s.world, move, op.value, r);
    }
  }

  lemma MoveKeepsPool(s: State, move: Move)
    requires Inv(s.world)
    ensures MoveStep(s, move) != Panic
    ensures MoveStep(s, move).Next? ==> Inv(MoveStep(s, move).state.world)
  {
    if Enabled(s.control, move) && PoolOp(s.control, move).Some? {
      StepKeepsInv(s.world, PoolOp(s.control, move).value);
    }
  }

  /** No move panics, and every move keeps the pool's invariant and the
      agreement of its live handles with where they are. */
  lemma MoveKeepsInv(s: State, move: Move)
    requires FullInv(s)
    ensures MoveStep(s, move) != Panic
    ensures MoveStep(s, move).Next? ==> FullInv(MoveStep(s, move).state)
  {
    MoveKeepsPool(s, move);
    if MoveStep(s, move).Next? {
      MoveKeepsAgreement(s, move);
      MoveKeepsOrder(s.control, move);
    }
  }

  lemma LiveHandleServed(w: World, op: Op)
    requires Inv(w) && (op.CloneReader? || op.DropReader?) && op.reader in w.readers
    ensures Step(w, op).Next?
  {
    if op.CloneReader? {
      StepClone(w, op.reader);
    } else {
      StepDropReader(w, op.reader);
    }
  }

  lemma OnlyClonesAndDrops(c: Control, move: Move)
    requires Enabled(c, move) && !move.MainOp? && !move.MainFreeze? && PoolOp(c, move).Some?
    ensures PoolOp(c, move).value.CloneReader? || PoolOp(c, move).value.DropReader?
  {
  }

  lemma ServedMoveRuns(s: State, move: Move)
    requires Enabled(s.control, move) && !move.MainFreeze?
    requires PoolOp(s.control, move).Some? ==> Step(s.world, PoolOp(s.control, move).value).Next?
    ensures MoveStep(s, move).Next?
  {
  }

  /** A move of the router or of an actor is never refused by the pool: the
      handle it clones or drops is live. */
  lemma PoolNeverRefuses(s: State, move: Move)
    requires Inv(s.world) && HandlesAgree(s.world, s.control)
    requires Enabled(s.control, move) && !move.MainOp? && !move.MainFreeze?
    ensures MoveStep(s, move).Next?
  {
    var op := PoolOp(s.control, move);
    if op.Some? {
      OnlyClonesAndDrops(s.control, move);
      var reader := op.value.reader;
      MoveHandles(s.control, move, reader);
      assert s.world.readers[reader] == HandleCount(s.control, reader);
      LiveHandleServed(s.world, op.value);
    }
    ServedMoveRuns(s, move);
  }

  ghost predicate Initial(s: State, size: nat) {
    && PoolRuns.Initial(s.world, size)
    && s.control == Control(multiset{}, Idle, s.control.actors, [])
    && forall j :: 0 <= j < |s.control.actors| ==> NewActor(s.control.actors[j])
  }

  ghost predicate NewActor(a: Actor) {
    a.limit >= 1 && a == Actor(a.policy, a.limit, true, false, [], multiset{}, [], [])
  }

  ghost function Run(s: State, moves: seq<Move>): Outcome<State> {
    if moves == [] then Next(s)
    else
      match Run(s, moves[..|moves| - 1])
      case Next(s') => MoveStep(s', moves[|moves| - 1])
      case other => other
  }

  lemma {:induction false} NoHandlesAtStart(actors: seq<Actor>, r: Reader)
    requires forall j :: 0 <= j < |actors| ==> NewActor(actors[j])
    ensures ActorsCount(actors, r) == 0
  {
    if actors == [] {
    } else {
      NoHandlesAtStart(actors[1..], r);
    }
  }

  lemma InitialInv(size: nat, start: State)
    requires Initial(start, size)
    ensures FullInv(start)
  {
    forall r ensures start.world.readers[r] == HandleCount(start.control, r) {
      NoHandlesAtStart(start.control.actors, r);
    }
    assert OrderInv(start.control);
  }

  lemma {:induction false} RunKeepsInv(size: nat, start: State, moves: seq<Move>)
    requires Initial(start, size)
    ensures Run(start, moves) != Panic
    ensures Run(start, moves).Next? ==> FullInv(Run(start, moves).state)
    decreases moves
  {
    if moves == [] {
      InitialInv(size, start);
    } else {
      var before := moves[..|moves| - 1];
      RunKeepsInv(size, start, before);
      if Run(start, before).Next? {
        MoveKeepsInv(Run(start, before).state, moves[|moves| - 1]);
      }
    }
  }

  lemma LiveReader(w: World, reader: Reader)
    requires Inv(w) && reader in w.readers
    ensures reader.slot < |w.pool.slots| && w.pool.slots[reader.slot].refCount == w.readers[reader]
    ensures reader.slot !in w.pool.free
    ensures BufferPool.Read(w.pool, reader.slot) == Some(reader.frozen)
  {
    assert ReaderAgrees(w, reader);
    assert SlotAgrees(w, reader.slot);
    var bytes := w.pool.slots[reader.slot].bytes.value.data;
    assert bytes[..|bytes|] == bytes;
  }

  /** In every interleaving the count of a frozen slot is the number of its
      handles over the main loop, the router, all queues and all sinks, and
      each of them reads the bytes it was frozen with. */
  lemma CountsAgreeEverywhere(size: nat, start: State, moves: seq<Move>, reader: Reader)
    requires Initial(start, size) && Run(start, moves).Next?
    ensures var s := Run(start, moves).state;
      var live := HandleCount(s.control, reader);
      live > 0 ==>
        && reader.slot < |s.world.pool.slots|
        && s.world.pool.slots[reader.slot].refCount == live
        && reader.slot !in s.world.pool.free
        && BufferPool.Read(s.world.pool, reader.slot) == Some(reader.frozen)
  {
    RunKeepsInv(size, start, moves);
    var s := Run(start, moves).state;
    if HandleCount(s.control, reader) > 0 {
      assert reader in s.world.readers;
      LiveReader(s.world, reader);
    }
  }

  /** When no handle of either kind is left, no slot is in use: fan-out leaks
      nothing. */
  lemma NothingLeftBehind(size: nat, start: State, moves: seq<Move>, i: nat)
    requires Initial(start, size) && Run(start, moves).Next?
    requires forall r :: HandleCount(Run(start, moves).state.control, r) == 0
    requires Run(start, moves).state.world.writers == map[]
    requires i < |Run(start, moves).state.world.owner|
    ensures Run(start, moves).state.world.owner[i] in {Free, Lost}
  {
    RunKeepsInv(size, start, moves);
    var s := Run(start, moves).state;
    IdleSlot(s.world, i, s.control);
  }

  lemma IdleSlot(w: World, i: nat, c: Control)
    requires Inv(w) && HandlesAgree(w, c) && w.writers == map[] && i < |w.owner|
    requires forall r :: HandleCount(c, r) == 0
    ensures w.owner[i] in {Free, Lost}
  {
    assert SlotAgrees(w, i);
  }

  /** Each sink is sent a subsequence of the ingress, in order and without
      repetition, receives it first in first out, and never has more than its
      limit queued; nothing sent to a running sink is ever evicted. */
  lemma EachSinkInOrder(size: nat, start: State, moves: seq<Move>, j: nat)
    requires Initial(start, size) && Run(start, moves).Next? && j < |Run(start, moves).state.control.actors|
    ensures var c := Run(start, moves).state.control; var a := c.actors[j];
      && Subsequence(a.enqueued, c.ingress)
      && |a.queue| <= a.limit
      && a.received <= a.enqueued
      && (a.open ==> a.enqueued == a.received + a.queue)
  {
    RunKeepsInv(size, start, moves);
    var c := Run(start, moves).state.control;
    assert TrafficInv(c.actors[j], c.ingress, Offered(c, j));
  }

  lemma {:induction false} RunKeepsBlock(size: nat, start: State, moves: seq<Move>)
    requires Initial(start, size) && Run(start, moves).Next? && BlockSinksOpen(Run(start, moves).state.control)
    ensures BlockInv(Run(start, moves).state.control)
    decreases moves
  {
    if moves == [] {
    } else {
      var before, last := moves[..|moves| - 1], moves[|moves| - 1];
      var s := Run(start, before).state;
      RunKeepsInv(size, start, before);
      forall j | 0 <= j < |s.control.actors| && s.control.actors[j].policy == Block
        ensures s.control.actors[j].open
      {
        MoveKeepsActors(s.control, last, j);
      }
      RunKeepsBlock(size, start, before);
      MoveKeepsBlock(s.control, last);
    }
  }

  /** As long as no Block sink has terminated, every Block sink has been sent
      the whole ingress whenever the router is idle, whatever happens to the
      other sinks. */
  lemma BlockSinksGetEverything(size: nat, start: State, moves: seq<Move>, j: nat)
    requires Initial(start, size) && Run(start, moves).Next? && BlockSinksOpen(Run(start, moves).state.control)
    requires j < |Run(start, moves).state.control.actors| && Run(start, moves).state.control.actors[j].policy == Block
    ensures var c := Run(start, moves).state.control;
      && c.actors[j].enqueued == c.ingress[..Offered(c, j)]
      && (c.router == Idle ==> c.actors[j].enqueued == c.ingress)
  {
    RunKeepsBlock(size, start, moves);
    var c := Run(start, moves).state.control;
    assert c.ingress[..|c.ingress|] == c.ingress;
  }
}
