/** What the sink's steps do to the packets: nothing is lost track of, nothing
    is reordered. */
module SinkLog {
  import opened Common
  import opened SinkQueue
  import opened SinkProtocol

  /** The packet the caller's call is about, if any. */
  function Pending(p: Producer): seq<Packet> {
    match p
    case Entering(packet) => [packet]
    case Checking(packet) => [packet]
    case Locking(packet) => [packet]
    case Created(packet, _) => [packet]
    case Parked(packet, _) => [packet]
    case _ => []
  }

  function InFlight(sender: Sender): seq<Packet> {
    match sender
    case Writing(packet) => [packet]
    case Raising(packet) => [packet]
    case _ => []
  }

  // ------------------------------------------------------------------
  // Conservation
  // ------------------------------------------------------------------

  type Kind = Packet -> bool

  function Weight(packet: Packet, kind: Kind): nat {
    if kind(packet) then 1 else 0
  }

  /** How many of the packets are of a kind. */
  function Count(packets: seq<Packet>, kind: Kind): nat {
    if packets == [] then 0 else Weight(packets[0], kind) + Count(packets[1..], kind)
  }

  lemma {:induction false} CountAppend(a: seq<Packet>, b: seq<Packet>, kind: Kind)
    ensures Count(a + b, kind) == Count(a, kind) + Count(b, kind)
  {
    if a == [] {
      assert a + b == b;
    } else {
      CountAppend(a[1..], b, kind);
      assert (a + b)[1..] == a[1..] + b;
    }
  }

  lemma CountPush(a: seq<Packet>, packet: Packet, kind: Kind)
    ensures Count(a + [packet], kind) == Count(a, kind) + Weight(packet, kind)
  {
    CountAppend(a, [packet], kind);
  }

  lemma CountOne(packet: Packet, kind: Kind)
    ensures Count([packet], kind) == Weight(packet, kind)
  {
  }

  lemma CountWithout(queue: seq<Packet>, i: nat, kind: Kind)
    requires i < |queue|
    ensures Count(Without(queue, i), kind) + Weight(queue[i], kind) == Count(queue, kind)
  {
    CountAppend(queue[..i], queue[i + 1..], kind);
    CountAppend(queue[..i], queue[i..], kind);
    assert queue == queue[..i] + queue[i..];
  }

  /** All places a packet can be: written, being written, lost to the error,
      queued, evicted, rejected, refused, or still in the caller's hands. */
  function Places(s: State, kind: Kind): nat {
    Count(s.log.written, kind) + Count(InFlight(s.sender), kind) + Count(s.log.lost, kind)
    + Count(s.shared.queue, kind) + Count(s.log.evicted, kind) + Count(s.log.rejected, kind)
    + Count(s.log.refused, kind) + Count(Pending(s.producer), kind)
  }

  /** Places as a sum over its parts, so that a step can be checked part by part. */
  lemma PlacesShift(s: State, s': State, kind: Kind, written: int, flying: int, lost: int, queued: int,
                    evicted: int, rejected: int, refused: int, pending: int)
    requires Count(s'.log.written, kind) == Count(s.log.written, kind) + written
    requires Count(InFlight(s'.sender), kind) == Count(InFlight(s.sender), kind) + flying
    requires Count(s'.log.lost, kind) == Count(s.log.lost, kind) + lost
    requires Count(s'.shared.queue, kind) == Count(s.shared.queue, kind) + queued
    requires Count(s'.log.evicted, kind) == Count(s.log.evicted, kind) + evicted
    requires Count(s'.log.rejected, kind) == Count(s.log.rejected, kind) + rejected
    requires Count(s'.log.refused, kind) == Count(s.log.refused, kind) + refused
    requires Count(Pending(s'.producer), kind) == Count(Pending(s.producer), kind) + pending
    ensures Places(s', kind) == Places(s, kind)
      + written + flying + lost + queued + evicted + rejected + refused + pending
  {
  }

  lemma ReplaceConserves(s: State, kind: Kind)
    requires s.producer.Locking? && s.limit >= 1
    requires !s.shared.closed && |s.shared.queue| >= s.limit && s.policy == DropOldest
    ensures Places(OfferStep(s), kind) == Places(s, kind)
  {
    var packet, queue, i := s.producer.packet, s.shared.queue, VictimIndex(s.shared.queue);
    var w: int, v: int := Weight(packet, kind), Weight(queue[i], kind);
    CountOne(packet, kind);
    CountPush(s.log.evicted, queue[i], kind);
    CountPush(Without(queue, i), packet, kind);
    CountWithout(queue, i, kind);
    PlacesShift(s, OfferStep(s), kind, 0, 0, 0, w - v, v, 0, 0, -w);
  }

  lemma AdmitConserves(s: State, kind: Kind)
    requires s.producer.Locking? && s.limit >= 1
    requires !s.shared.closed && |s.shared.queue| < s.limit
    ensures Places(OfferStep(s), kind) == Places(s, kind)
  {
    var packet, w: int := s.producer.packet, Weight(s.producer.packet, kind);
    CountOne(packet, kind);
    CountPush(s.shared.queue, packet, kind);
    PlacesShift(s, OfferStep(s), kind, 0, 0, 0, w, 0, 0, 0, -w);
  }

  lemma TurnAwayConserves(s: State, kind: Kind)
    requires s.producer.Locking? && s.limit >= 1
    requires s.shared.closed || (|s.shared.queue| >= s.limit && s.policy != DropOldest)
    ensures Places(OfferStep(s), kind) == Places(s, kind)
  {
    var packet, w: int := s.producer.packet, Weight(s.producer.packet, kind);
    CountOne(packet, kind);
    if s.shared.closed {
      CountPush(s.log.refused, packet, kind);
      PlacesShift(s, OfferStep(s), kind, 0, 0, 0, 0, 0, 0, w, -w);
    } else if s.policy == DropNewest {
      CountPush(s.log.rejected, packet, kind);
      PlacesShift(s, OfferStep(s), kind, 0, 0, 0, 0, 0, w, 0, -w);
    } else {
      PlacesShift(s, OfferStep(s), kind, 0, 0, 0, 0, 0, 0, 0, 0);
    }
  }

  lemma OfferConserves(s: State, kind: Kind)
    requires s.producer.Locking? && s.limit >= 1
    ensures Places(OfferStep(s), kind) == Places(s, kind)
  {
    if s.shared.closed || (|s.shared.queue| >= s.limit && s.policy != DropOldest) {
      TurnAwayConserves(s, kind);
    } else if |s.shared.queue| < s.limit {
      AdmitConserves(s, kind);
    } else {
      ReplaceConserves(s, kind);
    }
  }

  lemma RefuseConserves(s: State, kind: Kind)
    requires s.producer.Entering? || s.producer.Checking?
    ensures Places(Refuse(s), kind) == Places(s, kind)
  {
    var w: int := Weight(s.producer.packet, kind);
    CountOne(s.producer.packet, kind);
    CountPush(s.log.refused, s.producer.packet, kind);
    PlacesShift(s, Refuse(s), kind, 0, 0, 0, 0, 0, 0, w, -w);
  }

  /** The producer's other steps move no packet. */
  lemma QuietProducer(s: State)
    requires ProducerEnabled(s) && s.limit >= 1 && !s.producer.Locking?
    requires !(s.shared.failed && (s.producer.Entering? || s.producer.Checking?))
    ensures var s' := ProducerNext(s);
      && s'.log == s.log && s'.shared.queue == s.shared.queue
      && InFlight(s'.sender) == InFlight(s.sender) && Pending(s'.producer) == Pending(s.producer)
  {
  }

  lemma ProducerConserves(s: State, kind: Kind)
    requires ProducerEnabled(s) && s.limit >= 1
    ensures Places(ProducerNext(s), kind) == Places(s, kind)
    ensures ProducerNext(s).log.submitted == s.log.submitted
  {
    if s.producer.Locking? {
      OfferConserves(s, kind);
      OfferEffect(s);
    } else if s.shared.failed && (s.producer.Entering? || s.producer.Checking?) {
      RefuseConserves(s, kind);
    } else {
      QuietProducer(s);
    }
  }

  lemma TakeConserves(s: State, kind: Kind)
    requires s.sender.Ready? && !s.shared.failed && s.shared.queue != []
    ensures Places(SenderNext(s), kind) == Places(s, kind)
    ensures SenderNext(s).log.submitted == s.log.submitted
  {
    var w: int := Weight(s.shared.queue[0], kind);
    CountOne(s.shared.queue[0], kind);
    PlacesShift(s, SenderNext(s), kind, 0, w, 0, -w, 0, 0, 0, 0);
  }

  lemma FinishConserves(s: State, kind: Kind)
    requires s.sender.Writing? || s.sender.Raising?
    ensures Places(SenderNext(s), kind) == Places(s, kind)
    ensures SenderNext(s).log.submitted == s.log.submitted
  {
    var w: int := Weight(s.sender.packet, kind);
    CountOne(s.sender.packet, kind);
    CountPush(s.log.written, s.sender.packet, kind);
    CountPush(s.log.lost, s.sender.packet, kind);
    var written: int, lost: int := if s.sender.Writing? then w else 0, if s.sender.Writing? then 0 else w;
    PlacesShift(s, SenderNext(s), kind, written, -w, lost, 0, 0, 0, 0, 0);
  }

  /** The sender's other steps move no packet. */
  lemma QuietSender(s: State)
    requires SenderEnabled(s) && !s.sender.Writing? && !s.sender.Raising?
    requires s.sender.Ready? ==> s.shared.failed || s.shared.queue == []
    ensures var s' := SenderNext(s);
      && s'.log == s.log && s'.shared.queue == s.shared.queue
      && InFlight(s'.sender) == InFlight(s.sender) && Pending(s'.producer) == Pending(s.producer)
  {
  }

  lemma SenderConserves(s: State, kind: Kind)
    requires SenderEnabled(s)
    ensures Places(SenderNext(s), kind) == Places(s, kind)
    ensures SenderNext(s).log.submitted == s.log.submitted
  {
    if s.sender.Writing? || s.sender.Raising? {
      FinishConserves(s, kind);
    } else if s.sender.Ready? && !s.shared.failed && s.shared.queue != [] {
      TakeConserves(s, kind);
    } else {
      QuietSender(s);
    }
  }

  /** Every step keeps each packet in exactly one place. */
  lemma MoveConserves(s: State, move: Move, kind: Kind)
    requires Enabled(s, move) && s.limit >= 1
    requires Places(s, kind) == Count(s.log.submitted, kind)
    ensures Places(Apply(s, move), kind) == Count(Apply(s, move).log.submitted, kind)
  {
    match move
    case Submit(isKeyframe) =>
      CountOne(Packet(|s.log.submitted|, isKeyframe), kind);
      CountPush(s.log.submitted, Packet(|s.log.submitted|, isKeyframe), kind);
    case Finish =>
    case ProducerStep => ProducerConserves(s, kind);
    case SenderStep => SenderConserves(s, kind);
    case WriteFails =>
  }

  // ------------------------------------------------------------------
  // Order
  // ------------------------------------------------------------------

  /** Submitted packets, each at most once, in submission order, below a bound. */
  ghost predicate Ordered(packets: seq<Packet>, submitted: seq<Packet>, bound: nat) {
    && (forall i :: 0 <= i < |packets| ==>
         packets[i].id < bound && packets[i].id < |submitted| && packets[i] == submitted[packets[i].id])
    && (forall i, j :: 0 <= i < j < |packets| ==> packets[i].id < packets[j].id)
  }

  /** How many submissions the caller has been answered for. */
  ghost function Answered(s: State): int {
    |s.log.submitted| - |Pending(s.producer)|
  }

  ghost predicate OrderInv(s: State) {
    && (forall i :: 0 <= i < |s.log.submitted| ==> s.log.submitted[i].id == i)
    && Answered(s) >= 0
    && (Pending(s.producer) != [] ==> Pending(s.producer)[0] == s.log.submitted[Answered(s)])
    && Ordered(s.log.taken + s.shared.queue, s.log.submitted, Answered(s))
    && s.log.taken == s.log.written + InFlight(s.sender) + s.log.lost
    && (InFlight(s.sender) != [] ==> s.log.lost == [])
  }

  lemma OrderedPush(packets: seq<Packet>, submitted: seq<Packet>, packet: Packet)
    requires packet.id < |submitted| && packet == submitted[packet.id]
    requires Ordered(packets, submitted, packet.id)
    ensures Ordered(packets + [packet], submitted, packet.id + 1)
  {
  }

  lemma OrderedWithout(front: seq<Packet>, queue: seq<Packet>, i: nat, submitted: seq<Packet>, bound: nat)
    requires i < |queue| && Ordered(front + queue, submitted, bound)
    ensures Ordered(front + Without(queue, i), submitted, bound)
  {
    var all, rest := front + queue, front + Without(queue, i);
    forall k | 0 <= k < |rest|
      ensures rest[k] == all[if k < |front| + i then k else k + 1]
    {
    }
  }

  lemma QueuedInOrder(taken: seq<Packet>, queue: seq<Packet>, packet: Packet, submitted: seq<Packet>)
    requires packet.id < |submitted| && packet == submitted[packet.id]
    requires Ordered(taken + queue, submitted, packet.id)
    ensures Ordered(taken + (queue + [packet]), submitted, packet.id + 1)
  {
    OrderedPush(taken + queue, submitted, packet);
    assert taken + (queue + [packet]) == taken + queue + [packet];
  }

  lemma ReplacedInOrder(taken: seq<Packet>, queue: seq<Packet>, i: nat, packet: Packet, submitted: seq<Packet>)
    requires packet.id < |submitted| && packet == submitted[packet.id] && i < |queue|
    requires Ordered(taken + queue, submitted, packet.id)
    ensures Ordered(taken + (Without(queue, i) + [packet]), submitted, packet.id + 1)
  {
    OrderedWithout(taken, queue, i, submitted, packet.id);
    QueuedInOrder(taken, Without(queue, i), packet, submitted);
  }

  lemma OfferKeepsOrder(s: State)
    requires OrderInv(s) && s.producer.Locking? && s.limit >= 1
    ensures OrderInv(OfferStep(s))
  {
    var packet, queue := s.producer.packet, s.shared.queue;
    assert packet.id == Answered(s);
    QueuedInOrder(s.log.taken, queue, packet, s.log.submitted);
    if queue != [] {
      ReplacedInOrder(s.log.taken, queue, VictimIndex(queue), packet, s.log.submitted);
    }
    OfferEffect(s);
  }

  /** The fields the order depends on, after an offer. */
  ghost predicate Offered(s: State, s': State)
    requires s.producer.Locking?
  {
    var packet, queue := s.producer.packet, s.shared.queue;
    && s'.log.submitted == s.log.submitted && s'.log.taken == s.log.taken
    && s'.log.written == s.log.written && s'.log.lost == s.log.lost
    && InFlight(s'.sender) == InFlight(s.sender)
    && (Pending(s'.producer) == [] || (Pending(s'.producer) == [packet] && s'.shared == s.shared))
    && (|| s'.shared.queue == queue || s'.shared.queue == queue + [packet]
        || (queue != [] && s'.shared.queue == Without(queue, VictimIndex(queue)) + [packet]))
  }

  lemma OfferEffect(s: State)
    requires s.producer.Locking? && s.limit >= 1
    ensures Offered(s, OfferStep(s)) && OfferStep(s).log.submitted == s.log.submitted
  {
    if s.shared.closed || |s.shared.queue| < s.limit {
      RoomEffect(s);
    } else {
      FullEffect(s);
    }
  }

  lemma RoomEffect(s: State)
    requires s.producer.Locking? && s.limit >= 1 && (s.shared.closed || |s.shared.queue| < s.limit)
    ensures Offered(s, OfferStep(s))
  {
  }

  lemma FullEffect(s: State)
    requires s.producer.Locking? && s.limit >= 1 && !s.shared.closed && |s.shared.queue| >= s.limit
    ensures Offered(s, OfferStep(s))
  {
    match s.policy
    case Block =>
    case DropNewest =>
    case DropOldest =>
  }

  /** Steps that leave the packets where they are. */
  lemma QuietKeepsOrder(s: State, s': State)
    requires OrderInv(s)
    requires s'.log == s.log && s'.shared.queue == s.shared.queue && InFlight(s'.sender) == InFlight(s.sender)
    requires Pending(s'.producer) == Pending(s.producer)
    ensures OrderInv(s')
  {
  }

  lemma RefuseKeepsOrder(s: State)
    requires OrderInv(s) && (s.producer.Entering? || s.producer.Checking?)
    ensures OrderInv(Refuse(s))
  {
  }

  lemma ProducerKeepsOrder(s: State)
    requires OrderInv(s) && ProducerEnabled(s) && s.limit >= 1
    ensures OrderInv(ProducerNext(s))
  {
    if s.producer.Locking? {
      OfferKeepsOrder(s);
    } else if s.shared.failed && (s.producer.Entering? || s.producer.Checking?) {
      RefuseKeepsOrder(s);
    } else {
      QuietProducer(s);
      QuietKeepsOrder(s, ProducerNext(s));
    }
  }

  lemma TakeKeepsOrder(s: State)
    requires OrderInv(s) && ControlInv(s) && s.sender.Ready? && !s.shared.failed && s.shared.queue != []
    ensures OrderInv(SenderNext(s))
  {
    var queue, s' := s.shared.queue, SenderNext(s);
    assert Pending(s'.producer) == Pending(s.producer) && s'.log.submitted == s.log.submitted;
    assert s.log.taken + queue == (s.log.taken + [queue[0]]) + queue[1..];
    assert s'.log.taken + s'.shared.queue == s.log.taken + queue;
    assert s'.log.taken == s'.log.written + [queue[0]] + s'.log.lost;
  }

  lemma FinishKeepsOrder(s: State)
    requires OrderInv(s) && (s.sender.Writing? || s.sender.Raising?)
    ensures OrderInv(SenderNext(s))
  {
    var s' := SenderNext(s);
    assert Pending(s'.producer) == Pending(s.producer) && s'.log.submitted == s.log.submitted;
    assert s'.log.taken == s.log.taken && s'.shared.queue == s.shared.queue;
    assert s'.log.taken == s'.log.written + InFlight(s'.sender) + s'.log.lost;
  }

  lemma SenderKeepsOrder(s: State)
    requires OrderInv(s) && ControlInv(s) && SenderEnabled(s)
    ensures OrderInv(SenderNext(s))
  {
    if s.sender.Writing? || s.sender.Raising? {
      FinishKeepsOrder(s);
    } else if s.sender.Ready? && !s.shared.failed && s.shared.queue != [] {
      TakeKeepsOrder(s);
    } else {
      QuietSender(s);
      QuietKeepsOrder(s, SenderNext(s));
    }
  }

  lemma MoveKeepsOrder(s: State, move: Move)
    requires OrderInv(s) && ControlInv(s) && Enabled(s, move) && s.limit >= 1
    ensures OrderInv(Apply(s, move))
  {
    match move
    case Submit(_) =>
    case Finish =>
    case ProducerStep => ProducerKeepsOrder(s);
    case SenderStep => SenderKeepsOrder(s);
    case WriteFails =>
  }

  // ------------------------------------------------------------------
  // The Block policy
  // ------------------------------------------------------------------

  /** Everything up to the first refusal is accepted, nothing after it is, and
      what is accepted is taken or queued. */
  ghost predicate BlockInv(s: State) {
    && s.log.evicted == [] && s.log.rejected == []
    && s.log.accepted == s.log.taken + s.shared.queue
    && 0 <= Answered(s)
    && s.log.accepted + s.log.refused == s.log.submitted[..Answered(s)]
    && (s.log.refused != [] ==> s.shared.failed || s.shared.closed)
    && (s.log.refused != [] && Pending(s.producer) != [] && !s.producer.Entering? ==> s.shared.closed)
  }

  lemma AnswerOne(s: State, accepted: seq<Packet>, refused: seq<Packet>)
    requires OrderInv(s) && Pending(s.producer) != []
    requires accepted + refused == s.log.submitted[..Answered(s)] + [Pending(s.producer)[0]]
    ensures accepted + refused == s.log.submitted[..Answered(s) + 1]
  {
  }

  lemma RefuseKeepsBlock(s: State)
    requires BlockInv(s) && OrderInv(s) && (s.shared.failed || s.shared.closed)
    requires s.producer.Entering? || s.producer.Checking? || s.producer.Locking?
    ensures BlockInv(Refuse(s))
  {
    var packet := s.producer.packet;
    assert s.log.accepted + (s.log.refused + [packet]) == s.log.accepted + s.log.refused + [packet];
    AnswerOne(s, s.log.accepted, s.log.refused + [packet]);
  }

  lemma OfferKeepsBlock(s: State)
    requires BlockInv(s) && OrderInv(s) && s.producer.Locking? && s.limit >= 1 && s.policy == Block
    ensures BlockInv(OfferStep(s))
  {
    var packet := s.producer.packet;
    if s.shared.closed {
      RefuseKeepsBlock(s);
    } else if |s.shared.queue| < s.limit {
      assert s.log.accepted + [packet] + [] == s.log.accepted + [] + [packet];
      AnswerOne(s, s.log.accepted + [packet], []);
      assert s.log.taken + (s.shared.queue + [packet]) == s.log.taken + s.shared.queue + [packet];
    }
  }

  lemma ProducerKeepsBlock(s: State)
    requires BlockInv(s) && OrderInv(s) && ControlInv(s) && ProducerEnabled(s) && s.limit >= 1 && s.policy == Block
    ensures BlockInv(ProducerNext(s))
  {
    if s.producer.Locking? {
      OfferKeepsBlock(s);
    } else if (s.producer.Entering? || s.producer.Checking?) && s.shared.failed {
      RefuseKeepsBlock(s);
    } else {
      QuietKeepsBlock(s);
    }
  }

  lemma QuietKeepsBlock(s: State)
    requires BlockInv(s) && ControlInv(s) && ProducerEnabled(s) && s.limit >= 1
    requires !s.producer.Locking? && !((s.producer.Entering? || s.producer.Checking?) && s.shared.failed)
    ensures BlockInv(ProducerNext(s))
  {
    var s' := ProducerNext(s);
    QuietProducer(s);
    assert s'.log == s.log && s'.shared.queue == s.shared.queue && s'.shared.failed == s.shared.failed;
    assert s.shared.closed ==> s'.shared.closed;
    assert Answered(s') == Answered(s);
    assert Pending(s'.producer) != [] && !s'.producer.Entering? ==> Pending(s.producer) != [];
    assert s.producer.Entering? ==> !s.shared.failed;
  }

  lemma TakeKeepsBlock(s: State)
    requires BlockInv(s) && s.sender.Ready? && !s.shared.failed && s.shared.queue != []
    ensures BlockInv(SenderNext(s))
  {
    var queue, s' := s.shared.queue, SenderNext(s);
    assert Pending(s'.producer) == Pending(s.producer);
    assert s'.producer.Entering? == s.producer.Entering?;
    assert s.log.taken + queue == (s.log.taken + [queue[0]]) + queue[1..];
  }

  lemma SenderKeepsBlock(s: State)
    requires BlockInv(s) && SenderEnabled(s)
    ensures BlockInv(SenderNext(s))
  {
    if s.sender.Ready? && !s.shared.failed && s.shared.queue != [] {
      TakeKeepsBlock(s);
    } else {
      var s' := SenderNext(s);
      assert Pending(s'.producer) == Pending(s.producer) && s'.producer.Entering? == s.producer.Entering?;
      assert s'.shared.queue == s.shared.queue && s'.shared.closed == s.shared.closed;
      assert s'.log.(written := s.log.written, lost := s.log.lost) == s.log;
    }
  }

  lemma MoveKeepsBlock(s: State, move: Move)
    requires BlockInv(s) && OrderInv(s) && ControlInv(s) && Enabled(s, move) && s.limit >= 1 && s.policy == Block
    ensures BlockInv(Apply(s, move))
  {
    match move
    case Submit(_) =>
    case Finish =>
    case ProducerStep => ProducerKeepsBlock(s);
    case SenderStep => SenderKeepsBlock(s);
    case WriteFails =>
  }

  /** Only DropOldest evicts and only DropNewest rejects. */
  ghost predicate PolicyInv(s: State) {
    && (s.log.evicted != [] ==> s.policy == DropOldest)
    && (s.log.rejected != [] ==> s.policy == DropNewest)
  }

  lemma MoveKeepsPolicy(s: State, move: Move)
    requires PolicyInv(s) && Enabled(s, move) && s.limit >= 1
    ensures PolicyInv(Apply(s, move))
  {
    match move
    case ProducerStep => ProducerKeepsPolicy(s);
    case SenderStep =>
      assert SenderNext(s).log.evicted == s.log.evicted && SenderNext(s).log.rejected == s.log.rejected;
    case _ =>
  }

  lemma ProducerKeepsPolicy(s: State)
    requires PolicyInv(s) && ProducerEnabled(s) && s.limit >= 1
    ensures PolicyInv(ProducerNext(s))
  {
    if !s.producer.Locking? {
      assert ProducerNext(s).log.evicted == s.log.evicted && ProducerNext(s).log.rejected == s.log.rejected;
    }
  }

  lemma MoveKeepsConfig(s: State, move: Move)
    requires Enabled(s, move) && s.limit >= 1
    ensures Apply(s, move).policy == s.policy && Apply(s, move).limit == s.limit
  {
  }

  // ------------------------------------------------------------------
  // Keyframes
  // ------------------------------------------------------------------

  const KEYFRAME: Kind := (packet: Packet) => packet.isKeyframe

  /** Keyframes submitted and not yet written. */
  ghost function Undelivered(s: State): int {
    Count(s.log.submitted, KEYFRAME) - Count(s.log.written, KEYFRAME)
  }

  lemma {:induction false} CountAllKeyframes(queue: seq<Packet>)
    requires AllKeyframes(queue)
    ensures Count(queue, KEYFRAME) == |queue|
  {
    if queue == [] {
    } else {
      CountAllKeyframes(queue[1..]);
    }
  }

  lemma EvictionStep(s: State, move: Move)
    requires Enabled(s, move) && s.limit >= 1
    ensures Apply(s, move).log.evicted == s.log.evicted ||
      (&& |s.shared.queue| >= s.limit
       && Apply(s, move).log.evicted == s.log.evicted + [s.shared.queue[VictimIndex(s.shared.queue)]])
  {
  }

  /** A step that evicts a keyframe starts with `limit` undelivered ones. */
  lemma EvictionNeedsKeyframes(s: State, move: Move)
    requires Enabled(s, move) && s.limit >= 1
    requires Places(s, KEYFRAME) == Count(s.log.submitted, KEYFRAME)
    requires Count(Apply(s, move).log.evicted, KEYFRAME) > Count(s.log.evicted, KEYFRAME)
    ensures Undelivered(s) >= s.limit && AllKeyframes(s.shared.queue)
  {
    EvictionStep(s, move);
    var victim := s.shared.queue[VictimIndex(s.shared.queue)];
    CountPush(s.log.evicted, victim, KEYFRAME);
    CountAllKeyframes(s.shared.queue);
  }
}
