/** The fan-out router's control: one router clones each payload for every sink
    and sends it into that sink's bounded queue; one actor per sink receives.
    A move is what happens between two points where another task can run, and
    makes at most one buffer-pool operation. */
module Fanout {
  import opened Common
  import opened PoolRuns

  /** A payload's data: a pooled read handle, or memory outside the pool. */
  datatype Storage = Pooled(reader: Reader) | Unpooled

  /** The index-th payload given to the router. */
  datatype Item = Item(index: nat, storage: Storage)

  /** One sink's actor.  `held` are the read handles its sink has not dropped;
      `enqueued` and `received` record the queue's traffic. */
  datatype Actor = Actor(policy: DropPolicy, limit: nat, open: bool, busy: bool, queue: seq<Item>,
                         held: multiset<Reader>, enqueued: seq<Item>, received: seq<Item>)

  /** Where the router is: choosing the sink k, holding a clone for it, having
      yielded after a first failed try, holding a second clone, or returning
      an error. */
  datatype Router =
    | Idle
    | Choosing(item: Item, k: nat)
    | Sending(item: Item, k: nat)
    | Yielded(item: Item, k: nat)
    | Retrying(item: Item, k: nat)
    | Failing(item: Item, k: nat)

  datatype Control = Control(main: multiset<Reader>, router: Router, actors: seq<Actor>, ingress: seq<Item>)

  /** Main moves are the ingestion loop's own pool operations. */
  datatype Move =
    | MainOp(op: Op)
    | MainFreeze(id: nat, reader: Reader)
    | MainClone(reader: Reader)
    | MainDrop(reader: Reader)
    | Start(storage: Storage)
    | Route
    | Receive(k: nat)
    | Consumed(k: nat)
    | SinkClone(k: nat, reader: Reader)
    | SinkDrop(k: nat, reader: Reader)
    | Terminate(k: nat)

  // ------------------------------------------------------------------
  // Moves
  // ------------------------------------------------------------------

  predicate HasRoom(a: Actor) {
    a.open && |a.queue| < a.limit
  }

  predicate Enabled(c: Control, move: Move) {
    match move
    case MainOp(op) => op.Preallocate? || op.Acquire? || op.Extend? || op.Replace? || op.DropWriter?
    case MainFreeze(_, _) => true
    case MainClone(reader) => reader in c.main
    case MainDrop(reader) => reader in c.main
    case Start(storage) => c.router.Idle? && (storage.Pooled? ==> storage.reader in c.main)
    case Route =>
      // a Block send waits for room in an open queue
      && !c.router.Idle?
      && (c.router.Sending? || c.router.Retrying? ==> c.router.k < |c.actors|)
      && (c.router.Sending? && c.actors[c.router.k].policy == Block && c.actors[c.router.k].open ==>
            HasRoom(c.actors[c.router.k]))
    case Receive(k) => k < |c.actors| && c.actors[k].open && !c.actors[k].busy && c.actors[k].queue != []
    case Consumed(k) => k < |c.actors| && c.actors[k].busy
    case SinkClone(k, reader) => k < |c.actors| && reader in c.actors[k].held
    case SinkDrop(k, reader) => k < |c.actors| && reader in c.actors[k].held
    case Terminate(k) => k < |c.actors| && c.actors[k].open
  }

  function CloneOf(storage: Storage): Option<Op> {
    match storage
    case Unpooled => None
    case Pooled(reader) => Some(CloneReader(reader))
  }

  function DropOf(storage: Storage): Option<Op> {
    match storage
    case Unpooled => None
    case Pooled(reader) => Some(DropReader(reader))
  }

  /** The next router state and the pool operation made on the way; the queue
      of sink k gets the item when there is room for it. */
  function RouteEffect(c: Control): (Router, Option<Op>)
    requires Enabled(c, Route)
  {
    var item, k := c.router.item, c.router.k;
    match c.router
    case Choosing(_, _) =>
      if k < |c.actors| then (Sending(item, k), CloneOf(item.storage)) else (Idle, DropOf(item.storage))
    case Sending(_, _) =>
      if HasRoom(c.actors[k]) then (Choosing(item, k + 1), None)
      else (
        match c.actors[k].policy
        case Block => (Failing(item, k), DropOf(item.storage))
        case DropNewest => (Choosing(item, k + 1), DropOf(item.storage))
        case DropOldest => (Yielded(item, k), DropOf(item.storage)))
    case Yielded(_, _) => (Retrying(item, k), CloneOf(item.storage))
    case Retrying(_, _) =>
      if HasRoom(c.actors[k]) then (Choosing(item, k + 1), None) else (Choosing(item, k + 1), DropOf(item.storage))
    case Failing(_, _) => (Idle, DropOf(item.storage))
  }

  predicate Sends(c: Control)
    requires Enabled(c, Route)
  {
    (c.router.Sending? || c.router.Retrying?) && HasRoom(c.actors[c.router.k])
  }

  function PoolOp(c: Control, move: Move): Option<Op>
    requires Enabled(c, move)
  {
    match move
    case MainOp(op) => Some(op)
    case MainFreeze(id, _) => Some(Freeze(id))
    case MainClone(reader) => Some(CloneReader(reader))
    case MainDrop(reader) => Some(DropReader(reader))
    case Route => RouteEffect(c).1
    case SinkClone(_, reader) => Some(CloneReader(reader))
    case SinkDrop(_, reader) => Some(DropReader(reader))
    case _ => None
  }

  function Enqueue(a: Actor, item: Item): Actor {
    a.(queue := a.queue + [item], enqueued := a.enqueued + [item])
  }

  /** What an actor's move does to it.  A terminated actor drops what was in
      its queue by later SinkDrop moves. */
  ghost function ActorEffect(a: Actor, move: Move): Actor {
    match move
    case Receive(_) =>
      if a.queue == [] then a
      else a.(busy := true, queue := a.queue[1..], received := a.received + [a.queue[0]],
              held := a.held + Handles(a.queue[0].storage))
    case Consumed(_) => a.(busy := false)
    case SinkClone(_, reader) => a.(held := a.held + multiset{reader})
    case SinkDrop(_, reader) => a.(held := a.held - multiset{reader})
    case Terminate(_) => a.(open := false, queue := [], held := a.held + QueueHandles(a.queue))
    case _ => a
  }

  ghost function Effect(c: Control, move: Move): Control
    requires Enabled(c, move)
  {
    match move
    case MainOp(_) => c
    case MainFreeze(_, reader) => c.(main := c.main + multiset{reader})
    case MainClone(reader) => c.(main := c.main + multiset{reader})
    case MainDrop(reader) => c.(main := c.main - multiset{reader})
    case Start(storage) =>
      var item := Item(|c.ingress|, storage);
      c.(main := c.main - Handles(storage), router := Choosing(item, 0), ingress := c.ingress + [item])
    case Route =>
      c.(router := RouteEffect(c).0,
         actors := if Sends(c) then c.actors[c.router.k := Enqueue(c.actors[c.router.k], c.router.item)] else c.actors)
    case _ => c.(actors := c.actors[move.k := ActorEffect(c.actors[move.k], move)])
  }

  // ------------------------------------------------------------------
  // Where the read handles are
  // ------------------------------------------------------------------

  ghost function Handles(storage: Storage): multiset<Reader> {
    if storage.Pooled? then multiset{storage.reader} else multiset{}
  }

  ghost function QueueHandles(queue: seq<Item>): multiset<Reader> {
    if queue == [] then multiset{} else Handles(queue[0].storage) + QueueHandles(queue[1..])
  }

  function One(storage: Storage, r: Reader): nat {
    if storage == Pooled(r) then 1 else 0
  }

  function QueueCount(queue: seq<Item>, r: Reader): nat {
    if queue == [] then 0 else One(queue[0].storage, r) + QueueCount(queue[1..], r)
  }

  function ActorCount(a: Actor, r: Reader): nat {
    QueueCount(a.queue, r) + a.held[r]
  }

  function ActorsCount(actors: seq<Actor>, r: Reader): nat {
    if actors == [] then 0 else ActorCount(actors[0], r) + ActorsCount(actors[1..], r)
  }

  function RouterCount(router: Router, r: Reader): nat {
    match router
    case Idle => 0
    case Sending(item, _) => 2 * One(item.storage, r)
    case Retrying(item, _) => 2 * One(item.storage, r)
    case _ => One(router.item.storage, r)
  }

  /** The live handles equal to r: in the main loop, the router, all queues and
      all sinks. */
  function HandleCount(c: Control, r: Reader): nat {
    c.main[r] + RouterCount(c.router, r) + ActorsCount(c.actors, r)
  }

  lemma {:induction false} QueueHandlesCount(queue: seq<Item>, r: Reader)
    ensures QueueHandles(queue)[r] == QueueCount(queue, r)
  {
    if queue == [] {
    } else {
      QueueHandlesCount(queue[1..], r);
    }
  }

  lemma {:induction false} QueueCountAppend(queue: seq<Item>, item: Item, r: Reader)
    ensures QueueCount(queue + [item], r) == QueueCount(queue, r) + One(item.storage, r)
  {
    if queue == [] {
      assert queue + [item] == [item];
    } else {
      QueueCountAppend(queue[1..], item, r);
      assert (queue + [item])[1..] == queue[1..] + [item];
    }
  }

  lemma {:induction false} ActorUpdate(actors: seq<Actor>, k: nat, a: Actor, r: Reader)
    requires k < |actors|
    ensures ActorsCount(actors[k := a], r) == ActorsCount(actors, r) - ActorCount(actors[k], r) + ActorCount(a, r)
    ensures ActorCount(actors[k], r) <= ActorsCount(actors, r)
  {
    var after, rest := actors[k := a], actors[1..];
    if k == 0 {
      assert after[1..] == rest;
    } else {
      ActorUpdate(rest, k - 1, a, r);
      assert after[1..] == rest[k - 1 := a];
    }
  }

  /** How a pool operation changes the number of live read handles equal to r. */
  function Change(move: Move, op: Option<Op>, r: Reader): int {
    match op
    case None => 0
    case Some(CloneReader(reader)) => if reader == r then 1 else 0
    case Some(DropReader(reader)) => if reader == r then -1 else 0
    case Some(Freeze(_)) => if move.MainFreeze? && move.reader == r then 1 else 0
    case Some(_) => 0
  }

  /** The handle a move clones or drops is one of the live ones. */
  ghost predicate UsesLive(c: Control, op: Option<Op>) {
    op.Some? && (op.value.CloneReader? || op.value.DropReader?) ==> HandleCount(c, op.value.reader) > 0
  }

  lemma RouteHandles(c: Control, r: Reader)
    requires Enabled(c, Route)
    ensures HandleCount(Effect(c, Route), r) == HandleCount(c, r) + Change(Route, PoolOp(c, Route), r)
    ensures UsesLive(c, PoolOp(c, Route))
  {
    if Sends(c) {
      var item, a := c.router.item, c.actors[c.router.k];
      QueueCountAppend(a.queue, item, r);
      ActorUpdate(c.actors, c.router.k, Enqueue(a, item), r);
    }
  }

  lemma ReceiveHandles(a: Actor, move: Move, r: Reader)
    requires move.Receive? || move.Terminate?
    ensures ActorCount(ActorEffect(a, move), r) == ActorCount(a, r)
  {
    if move.Terminate? {
      QueueHandlesCount(a.queue, r);
    } else if a.queue != [] {
      assert Handles(a.queue[0].storage)[r] == One(a.queue[0].storage, r);
    }
  }

  lemma HeldHandles(a: Actor, move: Move, r: Reader)
    requires move.Consumed? || move.SinkClone? || (move.SinkDrop? && move.reader in a.held)
    ensures ActorCount(ActorEffect(a, move), r) == ActorCount(a, r) +
      (if move.Consumed? || move.reader != r then 0 else if move.SinkClone? then 1 else -1)
  {
  }

  lemma ActorMoveHandles(c: Control, move: Move, r: Reader)
    requires Enabled(c, move)
    requires move.Receive? || move.Consumed? || move.SinkClone? || move.SinkDrop? || move.Terminate?
    ensures HandleCount(Effect(c, move), r) == HandleCount(c, r) + Change(move, PoolOp(c, move), r)
  {
    ActorUpdate(c.actors, move.k, ActorEffect(c.actors[move.k], move), r);
    ActorChange(c, move, r);
  }

  lemma ActorChange(c: Control, move: Move, r: Reader)
    requires Enabled(c, move)
    requires move.Receive? || move.Consumed? || move.SinkClone? || move.SinkDrop? || move.Terminate?
    ensures var a := c.actors[move.k]; ActorCount(ActorEffect(a, move), r) - ActorCount(a, r) == Change(move, PoolOp(c, move), r)
  {
    var a := c.actors[move.k];
    if move.Receive? || move.Terminate? {
      ReceiveHandles(a, move, r);
    } else {
      HeldHandles(a, move, r);
    }
  }

  lemma SinkUsesLive(c: Control, move: Move)
    requires Enabled(c, move) && (move.SinkClone? || move.SinkDrop?)
    ensures UsesLive(c, PoolOp(c, move))
  {
    ActorUpdate(c.actors, move.k, c.actors[move.k], move.reader);
  }

  lemma MainMoveHandles(c: Control, move: Move, r: Reader)
    requires Enabled(c, move) && (move.MainFreeze? || move.MainClone? || move.MainDrop?)
    ensures HandleCount(Effect(c, move), r) == HandleCount(c, r) + Change(move, PoolOp(c, move), r)
    ensures UsesLive(c, PoolOp(c, move))
  {
  }

  lemma StartHandles(c: Control, storage: Storage, r: Reader)
    requires Enabled(c, Start(storage))
    ensures HandleCount(Effect(c, Start(storage)), r) == HandleCount(c, r)
  {
    assert Handles(storage)[r] == One(storage, r);
  }

  /** Every move changes the number of handles exactly as its pool operation does. */
  lemma MoveHandles(c: Control, move: Move, r: Reader)
    requires Enabled(c, move)
    ensures HandleCount(Effect(c, move), r) == HandleCount(c, r) + Change(move, PoolOp(c, move), r)
    ensures UsesLive(c, PoolOp(c, move))
  {
    match move
    case MainOp(_) =>
    case MainFreeze(_, _) => MainMoveHandles(c, move, r);
    case MainClone(_) => MainMoveHandles(c, move, r);
    case MainDrop(_) => MainMoveHandles(c, move, r);
    case Start(storage) => StartHandles(c, storage, r);
    case Route => RouteHandles(c, r);
    case Receive(_) => ActorMoveHandles(c, move, r);
    case Consumed(_) => ActorMoveHandles(c, move, r);
    case SinkClone(_, _) => ActorMoveHandles(c, move, r); SinkUsesLive(c, move);
    case SinkDrop(_, _) => ActorMoveHandles(c, move, r); SinkUsesLive(c, move);
    case Terminate(_) => ActorMoveHandles(c, move, r);
  }

  // ------------------------------------------------------------------
  // What each sink gets
  // ------------------------------------------------------------------

  /** Items of the ingress, each at most once and in order. */
  ghost predicate Subsequence(items: seq<Item>, ingress: seq<Item>) {
    && (forall i :: 0 <= i < |items| ==> items[i].index < |ingress| && items[i] == ingress[items[i].index])
    && (forall i, j :: 0 <= i < j < |items| ==> items[i].index < items[j].index)
  }

  /** How many payloads the router is done with, as far as sink j is concerned. */
  ghost function Offered(c: Control, j: nat): (n: nat)
    ensures n <= |c.ingress|
  {
    if c.router.Idle? || j < c.router.k || c.ingress == [] then |c.ingress| else |c.ingress| - 1
  }

  /** The traffic of one sink that has been offered the first n payloads. */
  ghost predicate TrafficInv(a: Actor, ingress: seq<Item>, n: nat) {
    && a.limit >= 1 && |a.queue| <= a.limit
    && Subsequence(a.enqueued, ingress)
    && (forall i :: 0 <= i < |a.enqueued| ==> a.enqueued[i].index < n)
    && (if a.open then a.enqueued == a.received + a.queue else a.received <= a.enqueued && a.queue == [])
  }

  ghost predicate RouterInv(c: Control) {
    && (forall i :: 0 <= i < |c.ingress| ==> c.ingress[i].index == i)
    && (!c.router.Idle? ==> c.ingress != [] && c.router.item == c.ingress[|c.ingress| - 1])
    && (c.router.Choosing? ==> c.router.k <= |c.actors|)
    && (!c.router.Idle? && !c.router.Choosing? ==> c.router.k < |c.actors|)
    && (c.router.Yielded? || c.router.Retrying? ==> c.actors[c.router.k].policy == DropOldest)
  }

  ghost predicate OrderInv(c: Control) {
    && RouterInv(c)
    && forall j :: 0 <= j < |c.actors| ==> TrafficInv(c.actors[j], c.ingress, Offered(c, j))
  }

  lemma TrafficWeaken(a: Actor, ingress: seq<Item>, n: nat, item: Item, m: nat)
    requires TrafficInv(a, ingress, n) && n <= m
    ensures TrafficInv(a, ingress + [item], m) && TrafficInv(a, ingress, m)
  {
  }

  lemma TrafficEnqueue(a: Actor, ingress: seq<Item>, n: nat)
    requires TrafficInv(a, ingress, n) && HasRoom(a) && n < |ingress| && ingress[n].index == n
    ensures TrafficInv(Enqueue(a, ingress[n]), ingress, n + 1)
  {
  }

  lemma TrafficActor(a: Actor, ingress: seq<Item>, n: nat, move: Move)
    requires TrafficInv(a, ingress, n)
    requires (move.Receive? && a.open && a.queue != []) || move.Consumed? || move.SinkClone? || move.SinkDrop?
             || move.Terminate?
    ensures TrafficInv(ActorEffect(a, move), ingress, n)
  {
    if move.Receive? {
      assert a.received + a.queue == (a.received + [a.queue[0]]) + a.queue[1..];
    }
  }

  lemma RouteKeepsOrder(c: Control)
    requires OrderInv(c) && Enabled(c, Route)
    ensures OrderInv(Effect(c, Route))
  {
    var c' := Effect(c, Route);
    forall j | 0 <= j < |c'.actors| ensures TrafficInv(c'.actors[j], c'.ingress, Offered(c', j)) {
      var n := Offered(c, j);
      assert TrafficInv(c.actors[j], c.ingress, n);
      if Sends(c) && j == c.router.k {
        TrafficEnqueue(c.actors[j], c.ingress, n);
      } else {
        TrafficWeaken(c.actors[j], c.ingress, n, c.router.item, Offered(c', j));
      }
    }
  }

  lemma ActorMoveKeepsOrder(c: Control, move: Move)
    requires OrderInv(c) && Enabled(c, move)
    requires move.Receive? || move.Consumed? || move.SinkClone? || move.SinkDrop? || move.Terminate?
    ensures OrderInv(Effect(c, move))
  {
    var c', k := Effect(c, move), move.k;
    TrafficActor(c.actors[k], c.ingress, Offered(c, k), move);
    assert RouterInv(c');
    forall j | 0 <= j < |c'.actors| ensures TrafficInv(c'.actors[j], c'.ingress, Offered(c', j)) {
      assert j != k ==> c'.actors[j] == c.actors[j];
      assert Offered(c', j) == Offered(c, j);
    }
  }

  lemma MoveKeepsOrder(c: Control, move: Move)
    requires OrderInv(c) && Enabled(c, move)
    ensures OrderInv(Effect(c, move))
  {
    var c' := Effect(c, move);
    match move
    case MainOp(_) =>
    case MainFreeze(_, _) =>
    case MainClone(_) =>
    case MainDrop(_) =>
    case Route => RouteKeepsOrder(c);
    case Start(storage) =>
      forall j | 0 <= j < |c'.actors| ensures TrafficInv(c'.actors[j], c'.ingress, Offered(c', j)) {
        TrafficWeaken(c.actors[j], c.ingress, Offered(c, j), Item(|c.ingress|, storage), Offered(c', j));
      }
    case _ => ActorMoveKeepsOrder(c, move);
  }

  /** Terminated actors stay terminated, policies are fixed, and nothing sent
      or received is taken back. */
  lemma MoveKeepsActors(c: Control, move: Move, j: nat)
    requires Enabled(c, move) && j < |c.actors|
    ensures var c' := Effect(c, move);
      && |c'.actors| == |c.actors|
      && c'.actors[j].policy == c.actors[j].policy
      && (c'.actors[j].open ==> c.actors[j].open)
      && c.actors[j].enqueued <= c'.actors[j].enqueued
      && c.actors[j].received <= c'.actors[j].received
  {
  }

  /** No sink with the Block policy has terminated. */
  ghost predicate BlockSinksOpen(c: Control) {
    forall j :: 0 <= j < |c.actors| && c.actors[j].policy == Block ==> c.actors[j].open
  }

  /** Every Block sink has been sent all it was offered. */
  ghost predicate BlockInv(c: Control) {
    && !c.router.Failing?
    && forall j :: 0 <= j < |c.actors| && c.actors[j].policy == Block ==>
         c.actors[j].enqueued == c.ingress[..Offered(c, j)]
  }

  lemma RouteKeepsBlock(c: Control)
    requires OrderInv(c) && BlockInv(c) && Enabled(c, Route) && BlockSinksOpen(c)
    ensures BlockInv(Effect(c, Route))
  {
    var c' := Effect(c, Route);
    forall j | 0 <= j < |c'.actors| && c'.actors[j].policy == Block
      ensures c'.actors[j].enqueued == c'.ingress[..Offered(c', j)]
    {
      assert c.actors[j].enqueued == c.ingress[..Offered(c, j)];
    }
  }

  lemma MoveKeepsBlock(c: Control, move: Move)
    requires OrderInv(c) && BlockInv(c) && Enabled(c, move) && BlockSinksOpen(c)
    ensures BlockInv(Effect(c, move))
  {
    if move.Route? {
      RouteKeepsBlock(c);
    } else if move.Start? {
      StartKeepsBlock(c, move.storage);
    } else {
      ActorMoveKeepsBlock(c, move);
    }
  }

  lemma StartKeepsBlock(c: Control, storage: Storage)
    requires OrderInv(c) && BlockInv(c) && Enabled(c, Start(storage))
    ensures BlockInv(Effect(c, Start(storage)))
  {
    var c' := Effect(c, Start(storage));
    forall j | 0 <= j < |c'.actors| && c'.actors[j].policy == Block
      ensures c'.actors[j].enqueued == c'.ingress[..Offered(c', j)]
    {
      assert c.actors[j].enqueued == c.ingress[..Offered(c, j)];
    }
  }

  lemma ActorMoveKeepsBlock(c: Control, move: Move)
    requires BlockInv(c) && Enabled(c, move) && !move.Route? && !move.Start?
    ensures BlockInv(Effect(c, move))
  {
    var c' := Effect(c, move);
    assert c'.router == c.router && c'.ingress == c.ingress;
    forall j | 0 <= j < |c'.actors| && c'.actors[j].policy == Block
      ensures c'.actors[j].enqueued == c'.ingress[..Offered(c', j)]
    {
      assert c'.actors[j].enqueued == c.actors[j].enqueued && c.actors[j].policy == Block;
    }
  }
}
