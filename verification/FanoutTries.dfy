/** Which payloads reach a sink's queue, over whole runs of the router: exactly
    those for which one of the router's tries finds room. */
module FanoutTries {
  import opened Common
  import opened Fanout
  import opened FanoutRuns
  import BufferPool
  import PoolRuns

  // ------------------------------------------------------------------
  // The tries of a payload at a sink
  // ------------------------------------------------------------------

  /** The move tries to put the item into the queue of sink j. */
  ghost predicate TryNow(c: Control, move: Move, j: nat, item: Item) {
    && move == Route && (c.router.Sending? || c.router.Retrying?)
    && c.router.item == item && c.router.k == j < |c.actors|
  }

  /** Whether each try of the run found room, in order. */
  ghost function Tries(start: State, moves: seq<Move>, j: nat, item: Item): seq<bool>
    requires Run(start, moves).Next?
    decreases |moves|
  {
    if moves == [] then []
    else
      var before, last := moves[..|moves| - 1], moves[|moves| - 1];
      Tries(start, before, j, item) + NewTry(Run(start, before).state.control, last, j, item)
  }

  ghost function NewTry(c: Control, move: Move, j: nat, item: Item): seq<bool> {
    if TryNow(c, move, j, item) then [HasRoom(c.actors[j])] else []
  }

  /** The router has the item in hand and has not yet tried it at sink j. */
  ghost predicate Ahead(router: Router, j: nat, item: Item) {
    && !router.Idle? && router.item == item
    && (router.k < j || (router.k == j && (router.Choosing? || router.Sending?)))
  }

  /** The router has tried the item at sink j once, without success. */
  ghost predicate TriedOnce(router: Router, j: nat, item: Item) {
    (router.Yielded? || router.Retrying? || router.Failing?) && router.item == item && router.k == j
  }

  /** A sink with the Block policy, before sink j, has terminated. */
  ghost predicate BlockedBefore(c: Control, j: nat) {
    exists k: nat :: k < j && k < |c.actors| && c.actors[k].policy == Block && !c.actors[k].open
  }

  /** How often a sink is tried: once, or under DropOldest a second time after
      a first failure.  Under Block only a terminated sink fails. */
  predicate Complete(a: Actor, tries: seq<bool>) {
    match a.policy
    case Block => tries == [true] || (tries == [false] && !a.open)
    case DropNewest => tries == [true] || tries == [false]
    case DropOldest => tries == [true] || tries == [false, true] || tries == [false, false]
  }

  ghost predicate TryInv(c: Control, j: nat, item: Item, tries: seq<bool>) {
    && j < |c.actors|
    && (item in c.actors[j].enqueued <==> true in tries)
    && (item !in c.ingress || Ahead(c.router, j, item) ==> tries == [])
    && (TriedOnce(c.router, j, item) ==> tries == [false])
    && (item in c.ingress && !Ahead(c.router, j, item) && !TriedOnce(c.router, j, item) ==>
          if tries == [] then BlockedBefore(c, j) else Complete(c.actors[j], tries))
  }

  ghost predicate FailInv(c: Control) {
    && RouterInv(c)
    && (c.router.Failing? ==> c.actors[c.router.k].policy == Block && !c.actors[c.router.k].open)
  }

  lemma InHand(c: Control, item: Item)
    requires RouterInv(c) && !c.router.Idle? && c.router.item == item
    ensures item in c.ingress
  {
  }

  /** The router's move does not concern the item at sink j. */
  lemma RouteElsewhere(c: Control, j: nat, item: Item, tries: seq<bool>)
    requires FailInv(c) && Enabled(c, Route) && TryInv(c, j, item, tries)
    requires c.router.item != item || c.router.k != j
    ensures TryInv(Effect(c, Route), j, item, tries)
  {
    var c' := Effect(c, Route);
    assert c'.actors[j].policy == c.actors[j].policy && c'.actors[j].open == c.actors[j].open;
    assert item in c'.actors[j].enqueued <==> item in c.actors[j].enqueued;
    assert BlockedBefore(c, j) ==> BlockedBefore(c', j) by {
      if BlockedBefore(c, j) {
        var k: nat :| k < j && k < |c.actors| && c.actors[k].policy == Block && !c.actors[k].open;
        assert c'.actors[k].policy == Block && !c'.actors[k].open;
      }
    }
    if c.router.item == item && c.router.k < j && c.router.Failing? {
      assert c'.actors[c.router.k].policy == Block && !c'.actors[c.router.k].open;
      assert BlockedBefore(c', j);
    }
  }

  /** The router's move is a try of the item at sink j, or leads to or from one. */
  lemma RouteHere(c: Control, j: nat, item: Item, tries: seq<bool>)
    requires FailInv(c) && Enabled(c, Route) && TryInv(c, j, item, tries)
    requires c.router.item == item && c.router.k == j
    ensures TryInv(Effect(c, Route), j, item, tries + NewTry(c, Route, j, item))
  {
    var c', more := Effect(c, Route), NewTry(c, Route, j, item);
    InHand(c, item);
    assert c'.ingress == c.ingress;
    match c.router
    case Choosing(_, _) => assert tries + more == tries;
    case Sending(_, _) => assert tries + more == more;
    case Yielded(_, _) => assert tries + more == tries;
    case Retrying(_, _) => assert tries + more == [false, HasRoom(c.actors[j])];
    case Failing(_, _) => assert tries + more == tries;
  }

  lemma StartKeepsTries(c: Control, storage: Storage, j: nat, item: Item, tries: seq<bool>)
    requires FailInv(c) && Enabled(c, Start(storage)) && TryInv(c, j, item, tries)
    ensures TryInv(Effect(c, Start(storage)), j, item, tries)
  {
    var c' := Effect(c, Start(storage));
    var fresh' := Item(|c.ingress|, storage);
    assert c'.actors == c.actors && c'.router == Choosing(fresh', 0);
    assert fresh' !in c.ingress;
    assert item in c'.ingress <==> item in c.ingress || item == fresh';
    assert BlockedBefore(c, j) ==> BlockedBefore(c', j);
  }

  lemma OtherMoveKeepsTries(c: Control, move: Move, j: nat, item: Item, tries: seq<bool>)
    requires Enabled(c, move) && !move.Route? && !move.Start? && TryInv(c, j, item, tries)
    ensures TryInv(Effect(c, move), j, item, tries)
  {
    var c' := Effect(c, move);
    assert c'.router == c.router && c'.ingress == c.ingress;
    MoveKeepsActors(c, move, j);
    assert c'.actors[j].enqueued == c.actors[j].enqueued;
    if BlockedBefore(c, j) {
      var k: nat :| k < j && k < |c.actors| && c.actors[k].policy == Block && !c.actors[k].open;
      MoveKeepsActors(c, move, k);
      assert BlockedBefore(c', j);
    }
  }

  lemma MoveKeepsTries(c: Control, move: Move, j: nat, item: Item, tries: seq<bool>)
    requires FailInv(c) && Enabled(c, move) && TryInv(c, j, item, tries)
    ensures TryInv(Effect(c, move), j, item, tries + NewTry(c, move, j, item))
  {
    if move == Route && c.router.item == item && c.router.k == j {
      RouteHere(c, j, item, tries);
    } else {
      assert tries + NewTry(c, move, j, item) == tries;
      if move == Route {
        RouteElsewhere(c, j, item, tries);
      } else if move.Start? {
        StartKeepsTries(c, move.storage, j, item, tries);
      } else {
        OtherMoveKeepsTries(c, move, j, item, tries);
      }
    }
  }

  lemma MoveKeepsFailing(c: Control, move: Move)
    requires OrderInv(c) && FailInv(c) && Enabled(c, move)
    ensures FailInv(Effect(c, move))
  {
    MoveKeepsOrder(c, move);
    if c.router.Failing? && !move.Start? {
      MoveKeepsActors(c, move, c.router.k);
    }
  }

  lemma LastMove(start: State, moves: seq<Move>)
    requires moves != [] && Run(start, moves).Next?
    ensures Run(start, moves[..|moves| - 1]).Next?
    ensures var c, last := Run(start, moves[..|moves| - 1]).state.control, moves[|moves| - 1];
      Enabled(c, last) && Run(start, moves).state.control == Effect(c, last)
  {
  }

  lemma SameSinks(c: Control, move: Move)
    requires Enabled(c, move)
    ensures |Effect(c, move).actors| == |c.actors|
  {
  }

  lemma {:induction false} RunKeepsTries(size: nat, start: State, moves: seq<Move>, j: nat, item: Item)
    requires Initial(start, size) && Run(start, moves).Next? && j < |Run(start, moves).state.control.actors|
    ensures FailInv(Run(start, moves).state.control)
    ensures TryInv(Run(start, moves).state.control, j, item, Tries(start, moves, j, item))
    decreases |moves|
  {
    if moves == [] {
    } else {
      var before, last := moves[..|moves| - 1], moves[|moves| - 1];
      LastMove(start, moves);
      var c, tries := Run(start, before).state.control, Tries(start, before, j, item);
      SameSinks(c, last);
      RunKeepsTries(size, start, before, j, item);
      ControlKeepsOrder(size, start, before);
      MoveKeepsFailing(c, last);
      MoveKeepsTries(c, last, j, item, tries);
      assert Tries(start, moves, j, item) == tries + NewTry(c, last, j, item);
    }
  }

  lemma ControlKeepsOrder(size: nat, start: State, moves: seq<Move>)
    requires Initial(start, size) && Run(start, moves).Next?
    ensures OrderInv(Run(start, moves).state.control)
  {
    RunKeepsInv(size, start, moves);
  }

  // ------------------------------------------------------------------
  // What is enqueued and what is discarded
  // ------------------------------------------------------------------

  /** The i-th move of the run tries the item at sink j, and finds room. */
  ghost predicate FindsRoom(start: State, moves: seq<Move>, j: nat, item: Item, i: nat) {
    && i < |moves| && Run(start, moves[..i]).Next?
    && TryNow(Run(start, moves[..i]).state.control, moves[i], j, item)
    && HasRoom(Run(start, moves[..i]).state.control.actors[j])
  }

  lemma {:induction false} RoomInTries(start: State, moves: seq<Move>, j: nat, item: Item)
    requires Run(start, moves).Next?
    ensures true in Tries(start, moves, j, item) <==> exists i :: FindsRoom(start, moves, j, item, i)
    decreases |moves|
  {
    if moves == [] {
    } else {
      var before, n := moves[..|moves| - 1], |moves| - 1;
      LastMove(start, moves);
      RoomInTries(start, before, j, item);
      assert moves[..n] == before;
      forall i: nat ensures FindsRoom(start, moves, j, item, i) <==>
        FindsRoom(start, before, j, item, i) || (i == n && NewTry(Run(start, before).state.control, moves[n], j, item) == [true])
      {
        if i < n {
          assert before[..i] == moves[..i];
        }
      }
      if true in Tries(start, before, j, item) {
        var i :| FindsRoom(start, before, j, item, i);
        assert FindsRoom(start, moves, j, item, i);
      } else if true in Tries(start, moves, j, item) {
        assert FindsRoom(start, moves, j, item, n);
      }
    }
  }

  /** In every interleaving a sink has been sent exactly the payloads for which
      its queue had room at a moment when the router tried it. */
  lemma EnqueuedExactly(size: nat, start: State, moves: seq<Move>, j: nat, item: Item)
    requires Initial(start, size) && Run(start, moves).Next? && j < |Run(start, moves).state.control.actors|
    ensures item in Run(start, moves).state.control.actors[j].enqueued
       <==> exists i :: FindsRoom(start, moves, j, item, i)
  {
    RunKeepsTries(size, start, moves, j, item);
    RoomInTries(start, moves, j, item);
  }

  /** A payload that the router is done with at sink j is tried there once, or
      under DropOldest again after a first failure; it is not tried only when a
      Block sink before it has terminated.  So it is discarded exactly when it
      was not tried or every try found the queue full or closed: the payload in
      hand goes, never one that is queued. */
  lemma DiscardedExactly(size: nat, start: State, moves: seq<Move>, j: nat, n: nat)
    requires Initial(start, size) && Run(start, moves).Next? && j < |Run(start, moves).state.control.actors|
    requires n < Offered(Run(start, moves).state.control, j)
    ensures var c := Run(start, moves).state.control;
      var a, item := c.actors[j], c.ingress[n];
      var tries := Tries(start, moves, j, item);
      && (if tries == [] then BlockedBefore(c, j) else Complete(a, tries))
      && (item !in a.enqueued <==>
            tries == [] || tries == if a.policy == DropOldest then [false, false] else [false])
  {
    var c := Run(start, moves).state.control;
    RunKeepsTries(size, start, moves, j, c.ingress[n]);
    OfferedIsPast(c, j, n);
  }

  lemma OfferedIsPast(c: Control, j: nat, n: nat)
    requires RouterInv(c) && n < Offered(c, j)
    ensures c.ingress[n] in c.ingress && !Ahead(c.router, j, c.ingress[n]) && !TriedOnce(c.router, j, c.ingress[n])
  {
  }

  // ------------------------------------------------------------------
  // DropOldest drops the newest
  // ------------------------------------------------------------------

  function Items(m: nat): seq<Item> {
    seq(m, i requires 0 <= i < m => Item(i, Unpooled))
  }

  /** One sink with DropOldest whose queue holds the first m payloads. */
  ghost function Holding(limit: nat, m: nat): Actor {
    Actor(DropOldest, limit, true, false, Items(m), multiset{}, Items(m), [])
  }

  /** The router idle after m payloads, or with the next one in hand. */
  ghost function Quiet(limit: nat, size: nat, m: nat): State {
    State(PoolRuns.FRESH.(pool := PoolRuns.FRESH.pool.(bufferSize := BufferPool.Max(size, 1))),
          Control(multiset{}, Idle, [Holding(limit, m)], Items(m)))
  }

  ghost function Busy(limit: nat, size: nat, m: nat, router: Router, a: Actor): State {
    State(Quiet(limit, size, m).world, Control(multiset{}, router, [a], Items(m + 1)))
  }

  lemma RunMore(start: State, moves: seq<Move>, move: Move)
    requires Run(start, moves).Next?
    ensures Run(start, moves + [move]) == MoveStep(Run(start, moves).state, move)
  {
    assert (moves + [move])[..|moves|] == moves;
  }

  lemma Take(limit: nat, size: nat, m: nat)
    ensures MoveStep(Quiet(limit, size, m), Start(Unpooled))
         == Next(Busy(limit, size, m, Choosing(Item(m, Unpooled), 0), Holding(limit, m)))
  {
    assert Items(m) + [Item(m, Unpooled)] == Items(m + 1);
  }

  lemma Choose(limit: nat, size: nat, m: nat, a: Actor)
    ensures MoveStep(Busy(limit, size, m, Choosing(Item(m, Unpooled), 0), a), Route)
         == Next(Busy(limit, size, m, Sending(Item(m, Unpooled), 0), a))
  {
  }

  lemma TrySend(limit: nat, size: nat, m: nat, a: Actor)
    requires a.policy == DropOldest
    ensures MoveStep(Busy(limit, size, m, Sending(Item(m, Unpooled), 0), a), Route)
         == Next(if HasRoom(a) then Busy(limit, size, m, Choosing(Item(m, Unpooled), 1), Enqueue(a, Item(m, Unpooled)))
                 else Busy(limit, size, m, Yielded(Item(m, Unpooled), 0), a))
  {
    var sent := Enqueue(a, Item(m, Unpooled));
    assert [a][0 := sent] == [sent];
  }

  lemma Retry(limit: nat, size: nat, m: nat, a: Actor)
    requires a.policy == DropOldest && !HasRoom(a)
    ensures MoveStep(Busy(limit, size, m, Yielded(Item(m, Unpooled), 0), a), Route)
         == Next(Busy(limit, size, m, Retrying(Item(m, Unpooled), 0), a))
    ensures MoveStep(Busy(limit, size, m, Retrying(Item(m, Unpooled), 0), a), Route)
         == Next(Busy(limit, size, m, Choosing(Item(m, Unpooled), 1), a))
  {
  }

  lemma GoOn(limit: nat, size: nat, m: nat, a: Actor)
    ensures MoveStep(Busy(limit, size, m, Choosing(Item(m, Unpooled), 1), a), Route)
         == Next(Busy(limit, size, m, Idle, a))
  {
  }

  /** The first m payloads fill the queue. */
  lemma {:induction false} Fill(limit: nat, size: nat, m: nat) returns (moves: seq<Move>)
    requires m <= limit
    ensures Run(Quiet(limit, size, 0), moves) == Next(Quiet(limit, size, m))
  {
    if m == 0 {
      moves := [];
    } else {
      var start, k := Quiet(limit, size, 0), m - 1;
      var a := Holding(limit, k);
      moves := Fill(limit, size, k);
      Take(limit, size, k); RunMore(start, moves, Start(Unpooled)); moves := moves + [Start(Unpooled)];
      Choose(limit, size, k, a); RunMore(start, moves, Route); moves := moves + [Route];
      TrySend(limit, size, k, a); RunMore(start, moves, Route); moves := moves + [Route];
      assert Items(k) + [Item(k, Unpooled)] == Items(m);
      GoOn(limit, size, k, Holding(limit, m)); RunMore(start, moves, Route); moves := moves + [Route];
    }
  }

  /** For every limit there is a run in which the newest payload is discarded
      while all the older ones stay queued. */
  lemma DropOldestDropsTheNewest(limit: nat, size: nat) returns (moves: seq<Move>)
    requires limit >= 1
    ensures Initial(Quiet(limit, size, 0), size)
    ensures Run(Quiet(limit, size, 0), moves).Next?
    ensures var c := Run(Quiet(limit, size, 0), moves).state.control;
      && |c.actors| == 1 && c.actors[0].policy == DropOldest && c.actors[0].open && |c.ingress| == limit + 1
      && c.actors[0].queue == c.ingress[..limit] && c.ingress[limit] !in c.actors[0].enqueued
  {
    var start, a := Quiet(limit, size, 0), Holding(limit, limit);
    moves := Fill(limit, size, limit);
    Take(limit, size, limit); RunMore(start, moves, Start(Unpooled)); moves := moves + [Start(Unpooled)];
    Choose(limit, size, limit, a); RunMore(start, moves, Route); moves := moves + [Route];
    TrySend(limit, size, limit, a); RunMore(start, moves, Route); moves := moves + [Route];
    Retry(limit, size, limit, a); RunMore(start, moves, Route); moves := moves + [Route];
    RunMore(start, moves, Route); moves := moves + [Route];
    GoOn(limit, size, limit, a); RunMore(start, moves, Route); moves := moves + [Route];
    assert Items(limit + 1)[..limit] == Items(limit);
  }
}
