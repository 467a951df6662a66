/** Whole runs of the WebRTC sink: every interleaving of its caller and its
    sender, with writes that succeed or fail. */
module SinkRuns {
  import opened Common
  import opened SinkQueue
  import opened SinkProtocol
  import opened SinkLog

  const EMPTY_LOG: Log := Log([], [], [], [], [], [], [], [])

  function Start(limit: nat, policy: DropPolicy): State {
    State(limit, policy, Shared([], false, false), false, 0, Idle, Ready, false, EMPTY_LOG)
  }

  /** The state after a list of moves; None when one of them cannot be made. */
  function Run(limit: nat, policy: DropPolicy, moves: seq<Move>): (s: Option<State>)
    requires limit >= 1
    ensures s.Some? ==> s.value.limit == limit && s.value.policy == policy
  {
    if moves == [] then Some(Start(limit, policy))
    else
      match Run(limit, policy, moves[..|moves| - 1])
      case None => None
      case Some(s) =>
        var move := moves[|moves| - 1];
        if !Enabled(s, move) then None else (MoveKeepsConfig(s, move); Some(Apply(s, move)))
  }

  ghost predicate Reachable(s: State) {
    s.limit >= 1 && exists moves :: Run(s.limit, s.policy, moves) == Some(s)
  }

  ghost predicate FullInv(s: State) {
    WakeInv(s) && ControlInv(s) && OrderInv(s) && PolicyInv(s) && (s.policy == Block ==> BlockInv(s))
  }

  lemma MoveKeepsInv(s: State, move: Move)
    requires FullInv(s) && Enabled(s, move)
    ensures FullInv(Apply(s, move))
  {
    MoveKeepsWake(s, move);
    MoveKeepsOrder(s, move);
    MoveKeepsPolicy(s, move);
    MoveKeepsConfig(s, move);
    if s.policy == Block {
      MoveKeepsBlock(s, move);
    }
  }

  lemma {:induction false} RunKeepsInv(limit: nat, policy: DropPolicy, moves: seq<Move>)
    requires limit >= 1
    ensures Run(limit, policy, moves).Some? ==> FullInv(Run(limit, policy, moves).value)
    decreases moves
  {
    if moves == [] {
    } else {
      var before := moves[..|moves| - 1];
      RunKeepsInv(limit, policy, before);
      if Run(limit, policy, moves).Some? {
        MoveKeepsInv(Run(limit, policy, before).value, moves[|moves| - 1]);
      }
    }
  }

  lemma {:induction false} RunConserves(limit: nat, policy: DropPolicy, moves: seq<Move>, kind: Kind)
    requires limit >= 1 && Run(limit, policy, moves).Some?
    ensures var s := Run(limit, policy, moves).value; Places(s, kind) == Count(s.log.submitted, kind)
    decreases moves
  {
    if moves == [] {
    } else {
      var before := moves[..|moves| - 1];
      RunConserves(limit, policy, before, kind);
      MoveConserves(Run(limit, policy, before).value, moves[|moves| - 1], kind);
    }
  }

  lemma ReachableInv(s: State)
    requires Reachable(s)
    ensures FullInv(s)
  {
    var moves :| Run(s.limit, s.policy, moves) == Some(s);
    RunKeepsInv(s.limit, s.policy, moves);
  }

  lemma ReachableConserves(s: State, kind: Kind)
    requires Reachable(s)
    ensures Places(s, kind) == Count(s.log.submitted, kind)
  {
    var moves :| Run(s.limit, s.policy, moves) == Some(s);
    RunConserves(s.limit, s.policy, moves, kind);
  }

  lemma ReachStep(s: State, move: Move)
    requires Reachable(s) && Enabled(s, move)
    ensures Reachable(Apply(s, move))
  {
    var moves :| Run(s.limit, s.policy, moves) == Some(s);
    var longer := moves + [move];
    assert longer[..|longer| - 1] == moves;
    MoveKeepsConfig(s, move);
    assert Run(s.limit, s.policy, longer) == Some(Apply(s, move));
  }

  lemma ReachStart(limit: nat, policy: DropPolicy)
    requires limit >= 1
    ensures Reachable(Start(limit, policy))
  {
    assert Run(limit, policy, []) == Some(Start(limit, policy));
  }

  // ------------------------------------------------------------------
  // Waiting
  // ------------------------------------------------------------------

  /** No lost wake-up.  Unless the policy is Block, a sender that waits while
      packets are queued has a stored permit, a newer epoch or a delivered
      wake-up; a producer that waits while there is room always has one. */
  lemma NoLostWakeUp(s: State)
    requires Reachable(s)
    ensures s.policy != Block && s.shared.queue != [] && s.sender.Asleep? ==> s.sender.woken
    ensures s.policy != Block && s.shared.queue != [] && s.sender.Made? ==> s.permit || s.sender.epoch < s.epoch
    ensures |s.shared.queue| < s.limit && s.producer.Parked? ==> s.producer.woken
    ensures |s.shared.queue| < s.limit && s.producer.Created? ==> s.producer.epoch < s.epoch
  {
    ReachableInv(s);
  }

  /** When a call can hang: exactly under Block, waiting unwoken on a full
      queue beside a sender that sleeps unwoken or has stopped on an error.
      Under the two dropping policies no call ever hangs. */
  lemma HangsExactly(s: State)
    requires Reachable(s)
    ensures Stuck(s) <==>
      && s.policy == Block && |s.shared.queue| == s.limit
      && s.producer.Parked? && !s.producer.woken
      && (s.sender == Asleep(false) || (s.sender.Done? && s.shared.failed))
    ensures s.policy != Block ==> !Stuck(s)
  {
    ReachableInv(s);
    StuckExactly(s);
  }

  /** A submission up to the end of its section under the lock. */
  lemma SubmitOne(s: State) returns (s': State)
    requires Reachable(s) && s.producer.Idle? && !s.shared.failed
    ensures Reachable(s')
    ensures var packet := Packet(|s.log.submitted|, false);
      s' == OfferStep(s.(producer := Locking(packet), log := s.log.(submitted := s.log.submitted + [packet])))
  {
    ReachStep(s, Submit(false));
    s' := Apply(s, Submit(false));
    ReachStep(s', ProducerStep);
    s' := Apply(s', ProducerStep);
    ReachStep(s', ProducerStep);
    s' := Apply(s', ProducerStep);
    ReachStep(s', ProducerStep);
    s' := Apply(s', ProducerStep);
  }

  /** The sink is open under Block, and its sender can neither take a packet
      now nor be woken: it holds an unpolled future, or is writing. */
  predicate Filling(s: State) {
    && s.producer.Idle? && s.policy == Block && !s.shared.failed && !s.shared.closed
    && (s.sender.Made? || s.sender.Writing?)
  }

  /** Submitting until the queue is full stores a permit and wakes nobody. */
  lemma {:induction false} FillUp(s: State) returns (s': State)
    requires Reachable(s) && Filling(s) && |s.shared.queue| < s.limit
    ensures Reachable(s') && Filling(s') && s'.limit == s.limit
    ensures |s'.shared.queue| == s.limit && s'.permit && s'.epoch == s.epoch && s'.sender == s.sender
    decreases s.limit - |s.shared.queue|
  {
    s' := SubmitOne(s);
    assert s'.permit && |s'.shared.queue| == |s.shared.queue| + 1;
    if |s'.shared.queue| < s.limit {
      s' := FillUp(s');
    }
  }

  /** One more submission finds the queue full, takes the permit that was meant
      for the sender, and looks again. */
  lemma TakePermit(s: State) returns (s': State)
    requires Reachable(s) && Filling(s) && |s.shared.queue| == s.limit && s.permit
    ensures Reachable(s') && s'.producer.Locking? && !s'.permit && s'.epoch == s.epoch
    ensures s'.sender == s.sender && s'.shared == s.shared && s'.limit == s.limit && s'.policy == Block
  {
    s' := SubmitOne(s);
    assert s'.producer.Created? && s'.permit;
    ReachStep(s', ProducerStep); s' := Apply(s', ProducerStep);
    ReachStep(s', ProducerStep); s' := Apply(s', ProducerStep);
  }

  /** For every limit a call can hang with the sender asleep. */
  lemma StolenPermitHangs(limit: nat)
    requires limit >= 1
    ensures exists s :: Reachable(s) && Stuck(s) && s.limit == limit && s.policy == Block && s.sender == Asleep(false)
  {
    var s := Start(limit, Block);
    ReachStart(limit, Block);
    // the sender finds the queue empty and holds a future it has not polled
    ReachStep(s, SenderStep); s := Apply(s, SenderStep);
    s := FillUp(s);
    s := TakePermit(s);
    // the caller finds the queue still full and waits for good
    ReachStep(s, ProducerStep); s := Apply(s, ProducerStep);
    assert s.producer.Created? && s.producer.epoch == s.epoch;
    ReachStep(s, ProducerStep); s := Apply(s, ProducerStep);
    assert s.producer.Parked? && !s.producer.woken;
    // and the sender polls too late
    ReachStep(s, SenderStep); s := Apply(s, SenderStep);
    assert Stuck(s);
  }

  /** The sender is writing, the queue is full again, and the caller has
      passed its error check with the permit spent. */
  lemma CheckedBeforeTheError(limit: nat) returns (s: State)
    requires limit >= 1
    ensures Reachable(s) && s.limit == limit && s.policy == Block
    ensures s.producer.Locking? && s.sender.Writing? && !s.permit
    ensures |s.shared.queue| == limit && !s.shared.failed && !s.shared.closed
  {
    s := Start(limit, Block);
    ReachStart(limit, Block);
    ReachStep(s, SenderStep); s := Apply(s, SenderStep);
    s := SubmitOne(s);
    // the sender takes the permit and then the first packet
    ReachStep(s, SenderStep); s := Apply(s, SenderStep);
    ReachStep(s, SenderStep); s := Apply(s, SenderStep);
    assert s.sender.Writing? && s.shared.queue == [];
    s := FillUp(s);
    s := TakePermit(s);
  }

  /** For every limit a call can hang with the sender stopped on an error. */
  lemma ErrorBehindTheCheckHangs(limit: nat)
    requires limit >= 1
    ensures exists s ::
      Reachable(s) && Stuck(s) && s.limit == limit && s.policy == Block && s.sender.Done? && s.shared.failed
  {
    var s := CheckedBeforeTheError(limit);
    // the write fails, and the sender announces it and stops
    ReachStep(s, WriteFails); s := Apply(s, WriteFails);
    ReachStep(s, SenderStep); s := Apply(s, SenderStep);
    ReachStep(s, SenderStep); s := Apply(s, SenderStep);
    assert s.sender.Done? && s.shared.failed;
    // only then does the caller start to wait for room
    ReachStep(s, ProducerStep); s := Apply(s, ProducerStep);
    assert s.producer.Created? && s.producer.epoch == s.epoch;
    ReachStep(s, ProducerStep); s := Apply(s, ProducerStep);
    assert Stuck(s);
  }

  /** Whether a call can hang is decided by the configuration: it can under
      Block, whatever the limit, and under no other policy. */
  lemma CallsCanHangExactly(limit: nat, policy: DropPolicy)
    requires limit >= 1
    ensures (exists s :: Reachable(s) && s.limit == limit && s.policy == policy && Stuck(s)) <==> policy == Block
  {
    if policy == Block {
      StolenPermitHangs(limit);
    } else {
      forall s | Reachable(s) && s.limit == limit && s.policy == policy ensures !Stuck(s) {
        HangsExactly(s);
      }
    }
  }

  // ------------------------------------------------------------------
  // Where packets go
  // ------------------------------------------------------------------

  function Exactly(packet: Packet): Kind {
    (other: Packet) => other == packet
  }

  lemma {:induction false} CountIfDistinct(packets: seq<Packet>, packet: Packet)
    requires forall i, j :: 0 <= i < j < |packets| ==> packets[i] != packets[j]
    ensures Count(packets, Exactly(packet)) == if packet in packets then 1 else 0
  {
    if packets == [] {
    } else {
      CountIfDistinct(packets[1..], packet);
      assert packet in packets <==> packet == packets[0] || packet in packets[1..];
    }
  }

  /** Each submitted packet is in exactly one place, each other one in none. */
  lemma EveryPacketAccountedFor(s: State, packet: Packet)
    requires Reachable(s)
    ensures Places(s, Exactly(packet)) == if packet in s.log.submitted then 1 else 0
  {
    ReachableInv(s);
    ReachableConserves(s, Exactly(packet));
    CountIfDistinct(s.log.submitted, packet);
  }

  /** Packets are written in submission order, without repetition, and none
      overtakes one still queued; the queue stays within its limit, and
      eviction and rejection happen only under their own policies. */
  lemma WrittenInOrder(s: State)
    requires Reachable(s)
    ensures Ordered(s.log.written + InFlight(s.sender) + s.log.lost + s.shared.queue, s.log.submitted, |s.log.submitted|)
    ensures |s.log.lost| <= 1 && |s.shared.queue| <= s.limit
    ensures s.log.evicted != [] ==> s.policy == DropOldest
    ensures s.log.rejected != [] ==> s.policy == DropNewest
  {
    ReachableInv(s);
  }

  /** Under Block nothing is lost before an error or a close: what has been
      written, what is being written and what is queued are all the packets
      answered for, in order.  In general they are all those before the first
      refusal, up to the one packet lost to an error. */
  lemma BlockLosesNothing(s: State)
    requires Reachable(s) && s.policy == Block
    ensures 0 <= Answered(s) <= |s.log.submitted|
    ensures s.log.written + InFlight(s.sender) + s.log.lost + s.shared.queue + s.log.refused
         == s.log.submitted[..Answered(s)]
    ensures !s.shared.failed ==> s.log.lost == []
    ensures !s.shared.failed && !s.shared.closed ==> s.log.refused == []
  {
    ReachableInv(s);
  }

  /** When end of stream returns Ok every packet that was not evicted,
      rejected or refused has been written; under Block that is every packet
      not refused, in order. */
  lemma FlushedMeansWritten(s: State, kind: Kind)
    requires Reachable(s) && s.producer.LastCheck? && !s.shared.failed
    ensures s.shared.queue == []
    ensures Count(s.log.submitted, kind) == Count(s.log.written, kind)
      + Count(s.log.evicted, kind) + Count(s.log.rejected, kind) + Count(s.log.refused, kind)
    ensures s.policy == Block ==> s.log.written + s.log.refused == s.log.submitted
  {
    ReachableConserves(s, kind);
    ReachableInv(s);
    FlushedState(s);
    if s.policy == Block {
      BlockFlushed(s);
    }
  }

  lemma FlushedState(s: State)
    requires ControlInv(s) && s.producer.LastCheck? && !s.shared.failed
    ensures s.shared.queue == [] && s.log.lost == [] && InFlight(s.sender) == [] && Pending(s.producer) == []
  {
  }

  lemma BlockFlushed(s: State)
    requires ControlInv(s) && OrderInv(s) && BlockInv(s) && s.producer.LastCheck? && !s.shared.failed
    ensures s.log.written + s.log.refused == s.log.submitted
  {
    FlushedState(s);
    assert s.log.written + [] + [] == s.log.written;
    assert s.log.accepted == s.log.written;
    assert s.log.submitted[..|s.log.submitted|] == s.log.submitted;
  }

  // ------------------------------------------------------------------
  // Flushing ends
  // ------------------------------------------------------------------

  /** How many sender steps are left at most once closing has been announced. */
  function FlushRank(s: State): nat {
    8 * |s.shared.queue| +
    match s.sender
    case Done => 0
    case Announcing => 1
    case Raising(_) => 2
    case Ready => 3
    case Writing(_) => 4
    case Asleep(_) => 5
    case Made(_) => 5
  }

  lemma FlushStep(s: State, move: Move)
    requires WakeInv(s) && ControlInv(s) && s.producer.Joining? && Enabled(s, move)
    requires move.SenderStep? || move.WriteFails?
    ensures Apply(s, move).producer.Joining? && FlushRank(Apply(s, move)) < FlushRank(s)
  {
  }

  /** The sender running alone; `fails` says which of its writes fail. */
  function SenderRun(s: State, fails: seq<bool>): State
    requires s.limit >= 1
    decreases |fails|
  {
    if fails == [] || !SenderEnabled(s) then s
    else
      var move := if fails[0] && s.sender.Writing? then WriteFails else SenderStep;
      MoveKeepsConfig(s, move);
      SenderRun(Apply(s, move), fails[1..])
  }

  /** While end of stream awaits the sender, the sender is never asleep and is
      done within eight steps a queued packet and five more, however its
      writes turn out; the caller then goes on. */
  lemma {:induction false} FlushEnds(s: State, fails: seq<bool>)
    requires WakeInv(s) && ControlInv(s) && s.producer.Joining?
    ensures FlushRank(s) <= 8 * s.limit + 5
    ensures |fails| >= FlushRank(s) ==>
      var s' := SenderRun(s, fails); s'.sender.Done? && s'.producer.Joining? && ProducerEnabled(s')
    decreases |fails|
  {
    if fails == [] || !SenderEnabled(s) {
    } else {
      var move := if fails[0] && s.sender.Writing? then WriteFails else SenderStep;
      FlushStep(s, move);
      MoveKeepsWake(s, move);
      FlushEnds(Apply(s, move), fails[1..]);
    }
  }

  lemma FlushAlwaysEnds(s: State, fails: seq<bool>)
    requires Reachable(s) && s.producer.Joining? && |fails| >= 8 * s.limit + 5
    ensures SenderRun(s, fails).sender.Done? && ProducerEnabled(SenderRun(s, fails))
  {
    ReachableInv(s);
    FlushEnds(s, fails);
  }

  // ------------------------------------------------------------------
  // Keyframes
  // ------------------------------------------------------------------

  /** A run in which fewer than `limit` keyframes are ever undelivered evicts
      no keyframe. */
  lemma {:induction false} KeyframesSurvive(limit: nat, policy: DropPolicy, moves: seq<Move>)
    requires limit >= 1 && Run(limit, policy, moves).Some?
    requires forall k :: 0 <= k <= |moves| && Run(limit, policy, moves[..k]).Some? ==>
      Undelivered(Run(limit, policy, moves[..k]).value) < limit
    ensures Count(Run(limit, policy, moves).value.log.evicted, KEYFRAME) == 0
    decreases moves
  {
    if moves == [] {
    } else {
      var before, last := moves[..|moves| - 1], moves[|moves| - 1];
      forall k | 0 <= k <= |before| && Run(limit, policy, before[..k]).Some?
        ensures Undelivered(Run(limit, policy, before[..k]).value) < limit
      {
        assert before[..k] == moves[..k];
      }
      KeyframesSurvive(limit, policy, before);
      RunConserves(limit, policy, before, KEYFRAME);
      var s := Run(limit, policy, before).value;
      EvictedGrows(s, last);
      assert Undelivered(s) < limit;
      if Count(Apply(s, last).log.evicted, KEYFRAME) > 0 {
        EvictionNeedsKeyframes(s, last);
      }
    }
  }

  lemma EvictedGrows(s: State, move: Move)
    requires Enabled(s, move) && s.limit >= 1
    ensures Count(Apply(s, move).log.evicted, KEYFRAME) >= Count(s.log.evicted, KEYFRAME)
  {
    EvictionStep(s, move);
    if Apply(s, move).log.evicted != s.log.evicted {
      CountPush(s.log.evicted, s.shared.queue[VictimIndex(s.shared.queue)], KEYFRAME);
    }
  }

  /** Hence under DropOldest and without error every keyframe of such a run is
      written, being written, queued, in the caller's hands, or was refused
      because the sink had been closed. */
  lemma NoKeyframeLost(limit: nat, moves: seq<Move>)
    requires limit >= 1 && Run(limit, DropOldest, moves).Some?
    requires forall k :: 0 <= k <= |moves| && Run(limit, DropOldest, moves[..k]).Some? ==>
      Undelivered(Run(limit, DropOldest, moves[..k]).value) < limit
    requires !Run(limit, DropOldest, moves).value.shared.failed
    ensures var s := Run(limit, DropOldest, moves).value;
      Count(s.log.submitted, KEYFRAME) == Count(s.log.written, KEYFRAME) + Count(InFlight(s.sender), KEYFRAME)
        + Count(s.shared.queue, KEYFRAME) + Count(Pending(s.producer), KEYFRAME) + Count(s.log.refused, KEYFRAME)
  {
    KeyframesSurvive(limit, DropOldest, moves);
    RunConserves(limit, DropOldest, moves, KEYFRAME);
    RunKeepsInv(limit, DropOldest, moves);
  }
}
