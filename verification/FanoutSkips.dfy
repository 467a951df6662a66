/** Which sinks a payload never comes to: those behind a Block sink that was
    found closed, where the router returns its error. */
module FanoutSkips {
  import opened Common
  import opened Fanout
  import opened FanoutRuns
  import opened FanoutTries

  /** The payload's only try at sink k, a Block sink, found it closed. */
  ghost predicate FailedAt(start: State, moves: seq<Move>, k: nat, item: Item)
    requires Run(start, moves).Next?
  {
    var c := Run(start, moves).state.control;
    k < |c.actors| && c.actors[k].policy == Block && Tries(start, moves, k, item) == [false]
  }

  /** Once a try at a Block sink has failed, the router lets go of the payload. */
  ghost predicate SkipInv(c: Control, k: nat, item: Item, tries: seq<bool>, later: seq<bool>) {
    tries == [false] ==>
      later == [] && (c.router.Idle? || c.router.item != item || (c.router.Failing? && c.router.k == k))
  }

  lemma MoveKeepsSkip(c: Control, move: Move, k: nat, j: nat, item: Item, tries: seq<bool>, later: seq<bool>)
    requires FailInv(c) && Enabled(c, move) && k < j < |c.actors| && c.actors[k].policy == Block
    requires TryInv(c, k, item, tries) && TryInv(c, j, item, later) && SkipInv(c, k, item, tries, later)
    ensures SkipInv(Effect(c, move), k, item, tries + NewTry(c, move, k, item), later + NewTry(c, move, j, item))
  {
    if move == Route {
      if TryNow(c, move, k, item) {
        assert Ahead(c.router, k, item) && Ahead(c.router, j, item);
        assert tries + NewTry(c, move, k, item) == [HasRoom(c.actors[k])];
      } else {
        assert tries + NewTry(c, move, k, item) == tries;
      }
    } else {
      assert tries + NewTry(c, move, k, item) == tries && later + NewTry(c, move, j, item) == later;
      if move.Start? && tries == [false] {
        assert item in c.ingress;
      }
    }
  }

  lemma {:induction false} RunSkips(size: nat, start: State, moves: seq<Move>, k: nat, j: nat, item: Item)
    requires Initial(start, size) && Run(start, moves).Next?
    requires k < j < |Run(start, moves).state.control.actors|
    requires Run(start, moves).state.control.actors[k].policy == Block
    ensures SkipInv(Run(start, moves).state.control, k, item, Tries(start, moves, k, item), Tries(start, moves, j, item))
    decreases |moves|
  {
    if moves == [] {
    } else {
      var before, last := moves[..|moves| - 1], moves[|moves| - 1];
      LastMove(start, moves);
      var c := Run(start, before).state.control;
      SameSinks(c, last);
      MoveKeepsActors(c, last, k);
      RunSkips(size, start, before, k, j, item);
      RunKeepsTries(size, start, before, k, item);
      RunKeepsTries(size, start, before, j, item);
      MoveKeepsSkip(c, last, k, j, item, Tries(start, before, k, item), Tries(start, before, j, item));
    }
  }

  /** The router is done with the payload at sink j. */
  ghost predicate Done(c: Control, j: nat, item: Item) {
    item in c.ingress && !Ahead(c.router, j, item) && !TriedOnce(c.router, j, item)
  }

  /** A payload is passed over by a move only when the router lets go of it after
      a failure at an earlier sink. */
  lemma PassedOver(c: Control, move: Move, j: nat, item: Item, tries: seq<bool>)
    requires OrderInv(c) && FailInv(c) && Enabled(c, move) && j < |c.actors| && TryInv(c, j, item, tries)
    requires Done(Effect(c, move), j, item) && tries + NewTry(c, move, j, item) == [] && !Done(c, j, item)
    ensures move == Route && c.router.Failing? && c.router.item == item && c.router.k < j
  {
    assert !TryNow(c, move, j, item);
    assert NewTry(c, move, j, item) == [];
    assert tries == [];
    if move == Route {
      assert item in c.ingress;
      assert Ahead(c.router, j, item);
    }
  }

  /** A failed try at a Block sink stays the only one there. */
  lemma FailureStays(size: nat, start: State, moves: seq<Move>, k: nat, item: Item)
    requires Initial(start, size) && moves != [] && Run(start, moves).Next?
    requires Run(start, moves[..|moves| - 1]).Next? && FailedAt(start, moves[..|moves| - 1], k, item)
    ensures FailedAt(start, moves, k, item)
  {
    var before, last := moves[..|moves| - 1], moves[|moves| - 1];
    LastMove(start, moves);
    var c := Run(start, before).state.control;
    SameSinks(c, last);
    MoveKeepsActors(c, last, k);
    RunKeepsTries(size, start, before, k, item);
    assert !TryNow(c, last, k, item);
  }

  lemma {:induction false} RunCauses(size: nat, start: State, moves: seq<Move>, j: nat, item: Item)
    requires Initial(start, size) && Run(start, moves).Next?
    requires j < |Run(start, moves).state.control.actors|
    requires Done(Run(start, moves).state.control, j, item) && Tries(start, moves, j, item) == []
    ensures exists k: nat :: k < j && FailedAt(start, moves, k, item)
    decreases |moves|
  {
    if moves == [] {
      assert false;
    } else {
      var before, last := moves[..|moves| - 1], moves[|moves| - 1];
      LastMove(start, moves);
      var c := Run(start, before).state.control;
      SameSinks(c, last);
      RunKeepsTries(size, start, before, j, item);
      ControlKeepsOrder(size, start, before);
      if Done(c, j, item) {
        RunCauses(size, start, before, j, item);
        var k: nat :| k < j && FailedAt(start, before, k, item);
        FailureStays(size, start, moves, k, item);
      } else {
        PassedOver(c, last, j, item, Tries(start, before, j, item));
        var k := c.router.k;
        RunKeepsTries(size, start, before, k, item);
        assert TriedOnce(c.router, k, item);
        assert FailedAt(start, before, k, item);
        FailureStays(size, start, moves, k, item);
      }
    }
  }

  /** A payload that the router is done with at a sink was never tried there, if
      and only if a Block sink before it was found closed for that payload: the
      error returns from there, and no later sink is offered the payload. */
  lemma SkippedExactly(size: nat, start: State, moves: seq<Move>, j: nat, n: nat)
    requires Initial(start, size) && Run(start, moves).Next? && j < |Run(start, moves).state.control.actors|
    requires n < Offered(Run(start, moves).state.control, j)
    ensures var item := Run(start, moves).state.control.ingress[n];
      Tries(start, moves, j, item) == [] <==> exists k: nat :: k < j && FailedAt(start, moves, k, item)
  {
    var c := Run(start, moves).state.control;
    var item := c.ingress[n];
    RunKeepsTries(size, start, moves, j, item);
    OfferedIsPast(c, j, n);
    if Tries(start, moves, j, item) == [] {
      RunCauses(size, start, moves, j, item);
    }
    if k: nat :| k < j && FailedAt(start, moves, k, item) {
      RunSkips(size, start, moves, k, j, item);
    }
  }
}
