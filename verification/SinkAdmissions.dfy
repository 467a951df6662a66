/** When the sink takes a packet, and when it does not: told from its steps and
    from the state they start in. */
module SinkAdmissions {
  import opened Common
  import opened SinkQueue
  import opened SinkProtocol
  import opened SinkLog
  import opened SinkRuns

  /** The caller is about to offer its packet under the lock. */
  predicate Offers(s: State, move: Move) {
    move.ProducerStep? && s.producer.Locking?
  }

  predicate Open(s: State) {
    !s.shared.closed
  }

  predicate HasRoom(s: State) {
    |s.shared.queue| < s.limit
  }

  /** What the locked section does with the packet is decided by three things,
      in this order: whether the sink is closed, whether there is room, and the
      policy.  Exactly one of five things happens. */
  lemma OfferedExactly(s: State)
    requires s.producer.Locking? && s.limit >= 1
    ensures Enabled(s, ProducerStep)
    ensures var log, log', packet := s.log, Apply(s, ProducerStep).log, s.producer.packet;
      && (log'.refused == log.refused + [packet] <==> !Open(s))
      && (log'.accepted == log.accepted + [packet] <==> Open(s) && (HasRoom(s) || s.policy == DropOldest))
      && (log'.evicted != log.evicted <==> Open(s) && !HasRoom(s) && s.policy == DropOldest)
      && (log'.rejected == log.rejected + [packet] <==> Open(s) && !HasRoom(s) && s.policy == DropNewest)
      && (Apply(s, ProducerStep).producer.Created? <==> Open(s) && !HasRoom(s) && s.policy == Block)
  {
    if !Open(s) {
    } else if HasRoom(s) {
    } else {
      FullOffer(s);
    }
  }

  lemma FullOffer(s: State)
    requires s.producer.Locking? && s.limit >= 1 && Open(s) && !HasRoom(s)
    ensures var log, log', packet := s.log, Apply(s, ProducerStep).log, s.producer.packet;
      && log'.refused == log.refused
      && log'.accepted == (if s.policy == DropOldest then log.accepted + [packet] else log.accepted)
      && (log'.evicted != log.evicted <==> s.policy == DropOldest)
      && log'.rejected == (if s.policy == DropNewest then log.rejected + [packet] else log.rejected)
      && (Apply(s, ProducerStep).producer.Created? <==> s.policy == Block)
  {
  }

  /** An accepted packet is at the end of the queue, and with room nothing else
      in the queue has changed; otherwise the queue is as it was. */
  lemma OfferedQueue(s: State)
    requires s.producer.Locking? && s.limit >= 1
    ensures var queue, queue', packet := s.shared.queue, Apply(s, ProducerStep).shared.queue, s.producer.packet;
      if Open(s) && HasRoom(s) then queue' == queue + [packet]
      else if Open(s) && s.policy == DropOldest then |queue'| == |queue| && queue' != [] && queue'[|queue'| - 1] == packet
      else queue' == queue
  {
  }

  lemma OtherStepsAdmitNothing(s: State, move: Move)
    requires Enabled(s, move) && s.limit >= 1 && !Offers(s, move)
    ensures var log, log' := s.log, Apply(s, move).log;
      && log'.accepted == log.accepted && log'.evicted == log.evicted && log'.rejected == log.rejected
      && (log'.refused != log.refused ==>
            move.ProducerStep? && s.shared.failed && (s.producer.Entering? || s.producer.Checking?))
  {
  }

  /** Nothing is rejected, evicted or refused without its reason, at any step. */
  lemma OnlyForItsReason(s: State, move: Move)
    requires Enabled(s, move) && s.limit >= 1
    ensures var log, log' := s.log, Apply(s, move).log;
      && (log'.rejected != log.rejected ==> Offers(s, move) && Open(s) && s.policy == DropNewest && !HasRoom(s))
      && (log'.evicted != log.evicted ==> Offers(s, move) && Open(s) && s.policy == DropOldest && !HasRoom(s))
      && (log'.refused != log.refused ==> !Open(s) || s.shared.failed)
      && (log'.accepted != log.accepted ==> Offers(s, move) && Open(s) && (HasRoom(s) || s.policy == DropOldest))
  {
    if Offers(s, move) {
      OfferedExactly(s);
      OfferedOnlyOnce(s);
    } else {
      OtherStepsAdmitNothing(s, move);
    }
  }

  lemma OfferedOnlyOnce(s: State)
    requires s.producer.Locking? && s.limit >= 1
    ensures var log, log' := s.log, Apply(s, ProducerStep).log;
      && (Open(s) ==> log'.refused == log.refused)
      && (!Open(s) || (!HasRoom(s) && s.policy != DropOldest) ==> log'.accepted == log.accepted)
      && (!Open(s) || HasRoom(s) || s.policy != DropNewest ==> log'.rejected == log.rejected)
  {
    if Open(s) && !HasRoom(s) {
      FullOffer(s);
    }
  }

  // ------------------------------------------------------------------
  // Runs in which nothing stands in the way
  // ------------------------------------------------------------------

  /** Every packet answered for has been accepted and is still there, in order. */
  ghost predicate AllAccepted(s: State) {
    && s.log.accepted == s.log.taken + s.shared.queue
    && 0 <= Answered(s) && s.log.accepted == s.log.submitted[..Answered(s)]
    && s.log.evicted == [] && s.log.rejected == [] && s.log.refused == []
  }

  lemma OfferKeepsAll(s: State)
    requires AllAccepted(s) && OrderInv(s) && s.producer.Locking? && s.limit >= 1 && Open(s) && HasRoom(s)
    ensures AllAccepted(Apply(s, ProducerStep))
  {
    var s', packet := Apply(s, ProducerStep), s.producer.packet;
    OfferedQueue(s);
    assert s'.log.accepted == s.log.accepted + [packet] && s'.log.taken == s.log.taken;
    assert s.log.taken + (s.shared.queue + [packet]) == (s.log.taken + s.shared.queue) + [packet];
    assert Pending(s'.producer) == [] && s'.log.submitted == s.log.submitted;
    assert s.log.submitted[..Answered(s)] + [s.log.submitted[Answered(s)]] == s.log.submitted[..Answered(s) + 1];
  }

  lemma SubmitKeepsAll(s: State, isKeyframe: bool)
    requires AllAccepted(s) && s.producer.Idle?
    ensures s.limit >= 1 ==> AllAccepted(Apply(s, Submit(isKeyframe)))
  {
    var packet := Packet(|s.log.submitted|, isKeyframe);
    assert (s.log.submitted + [packet])[..|s.log.submitted|] == s.log.submitted[..|s.log.submitted|];
  }

  lemma SenderKeepsAll(s: State)
    requires AllAccepted(s) && SenderEnabled(s)
    ensures AllAccepted(SenderNext(s))
  {
    var queue, s' := s.shared.queue, SenderNext(s);
    assert Pending(s'.producer) == Pending(s.producer);
    if s.sender.Ready? && !s.shared.failed && queue != [] {
      assert s.log.taken + queue == (s.log.taken + [queue[0]]) + queue[1..];
    } else {
      assert s'.shared.queue == queue && s'.log.taken == s.log.taken && s'.log.accepted == s.log.accepted;
    }
  }

  lemma MoveKeepsAll(s: State, move: Move)
    requires AllAccepted(s) && OrderInv(s) && Enabled(s, move) && s.limit >= 1
    requires Open(s) && !s.shared.failed && (Offers(s, move) ==> HasRoom(s))
    ensures AllAccepted(Apply(s, move))
  {
    match move
    case Submit(isKeyframe) => SubmitKeepsAll(s, isKeyframe);
    case Finish =>
    case ProducerStep =>
      if s.producer.Locking? {
        OfferKeepsAll(s);
      } else {
        QuietProducer(s);
      }
    case SenderStep => SenderKeepsAll(s);
    case WriteFails =>
  }

  /** Closed and failed are for good. */
  lemma StaysShut(s: State, move: Move)
    requires Enabled(s, move) && s.limit >= 1
    ensures s.shared.closed ==> Apply(s, move).shared.closed
    ensures s.shared.failed ==> Apply(s, move).shared.failed
  {
  }

  /** The queue has had room at every locked section of the run. */
  ghost predicate AlwaysRoom(limit: nat, policy: DropPolicy, moves: seq<Move>)
    requires limit >= 1
  {
    forall k :: 0 <= k < |moves| && Run(limit, policy, moves[..k]).Some? ==> RoomAt(limit, policy, moves, k)
  }

  ghost predicate RoomAt(limit: nat, policy: DropPolicy, moves: seq<Move>, k: nat)
    requires limit >= 1 && k < |moves| && Run(limit, policy, moves[..k]).Some?
  {
    var s := Run(limit, policy, moves[..k]).value;
    Offers(s, moves[k]) ==> HasRoom(s)
  }

  /** Whatever the policy: a sink that is open and without error, and whose
      queue has had room whenever a packet was offered, has accepted every
      packet, and each is written, being written or queued, in order. */
  lemma {:induction false} RoomMeansAccepted(limit: nat, policy: DropPolicy, moves: seq<Move>)
    requires limit >= 1 && Run(limit, policy, moves).Some? && AlwaysRoom(limit, policy, moves)
    requires Open(Run(limit, policy, moves).value) && !Run(limit, policy, moves).value.shared.failed
    ensures AllAccepted(Run(limit, policy, moves).value)
    ensures var s := Run(limit, policy, moves).value;
      s.log.written + InFlight(s.sender) + s.shared.queue + Pending(s.producer) == s.log.submitted
    decreases |moves|
  {
    if moves == [] {
    } else {
      var before, last := moves[..|moves| - 1], moves[|moves| - 1];
      var s := Run(limit, policy, before).value;
      StaysShut(s, last);
      assert RoomAt(limit, policy, moves, |before|);
      forall k | 0 <= k < |before| && Run(limit, policy, before[..k]).Some? ensures RoomAt(limit, policy, before, k) {
        assert before[..k] == moves[..k];
        assert RoomAt(limit, policy, moves, k);
      }
      RoomMeansAccepted(limit, policy, before);
      RunKeepsInv(limit, policy, before);
      MoveKeepsAll(s, last);
    }
    RunKeepsInv(limit, policy, moves);
    AcceptedAreThere(Run(limit, policy, moves).value);
  }

  lemma AcceptedAreThere(s: State)
    requires AllAccepted(s) && OrderInv(s) && ControlInv(s) && !s.shared.failed
    ensures s.log.written + InFlight(s.sender) + s.shared.queue + Pending(s.producer) == s.log.submitted
  {
    assert s.log.lost == [];
    assert s.log.taken == s.log.written + InFlight(s.sender);
    if Pending(s.producer) == [] {
      assert s.log.submitted[..|s.log.submitted|] == s.log.submitted;
    } else {
      assert |Pending(s.producer)| == 1;
      assert s.log.submitted[..Answered(s)] + [s.log.submitted[Answered(s)]] == s.log.submitted;
    }
  }

  // ------------------------------------------------------------------
  // The sender gets on
  // ------------------------------------------------------------------

  /** Whenever a packet is queued or being written, and there is no error, the
      sender alone writes one more packet within three steps, unless under
      Block it sleeps unwoken. */
  lemma SenderWritesOne(s: State)
    requires Reachable(s) && !s.shared.failed && !s.sender.Raising?
    requires s.shared.queue != [] || s.sender.Writing?
    requires s.policy == Block ==> !SenderUnwoken(s)
    ensures |SenderRun(s, [false, false, false]).log.written| > |s.log.written|
  {
    ReachableInv(s);
    assert [false, false, false][1..] == [false, false] && [false, false][1..] == [false] && [false][1..] == [];
    match s.sender
    case Writing(_) => WrittenIsKept(SenderNext(s), [false, false]);
    case Ready => WriteFromReady(s, [false]);
    case Asleep(_) => assert SenderRun(s, [false, false, false]) == SenderRun(SenderNext(s), [false, false]);
                      WriteFromReady(SenderNext(s), []);
    case Made(_) => assert SenderRun(s, [false, false, false]) == SenderRun(SenderNext(s), [false, false]);
                    WriteFromReady(SenderNext(s), []);
    case _ =>
  }

  lemma {:induction false} WrittenIsKept(s: State, fails: seq<bool>)
    requires s.limit >= 1
    ensures |SenderRun(s, fails).log.written| >= |s.log.written|
    decreases |fails|
  {
    if fails == [] || !SenderEnabled(s) {
    } else {
      var move := if fails[0] && s.sender.Writing? then WriteFails else SenderStep;
      MoveKeepsConfig(s, move);
      WrittenIsKept(Apply(s, move), fails[1..]);
    }
  }

  lemma WriteFromReady(s: State, more: seq<bool>)
    requires s.limit >= 1 && s.sender.Ready? && !s.shared.failed && s.shared.queue != []
    ensures |SenderRun(s, [false, false] + more).log.written| > |s.log.written|
  {
    var fails := [false, false] + more;
    var taken := SenderNext(s);
    assert taken.sender.Writing? && taken.log.written == s.log.written;
    var written := SenderNext(taken);
    assert fails[1..] == [false] + more && fails[1..][1..] == more;
    assert SenderRun(s, fails) == SenderRun(taken, fails[1..]);
    assert SenderRun(taken, fails[1..]) == SenderRun(written, more);
    WrittenIsKept(written, more);
  }
}
