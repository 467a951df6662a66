/** The WebRTC sink as a protocol between its one caller and its sender task:
    a shared queue behind a lock and one `Notify`.  A step is what a task does
    between two points where the other can run; every release of the lock is
    such a point, and so is every poll. */
module SinkProtocol {
  import opened Common
  import opened SinkQueue

  /** The caller's side.  Created: holding a wake-up future not yet polled, with
      the epoch of its creation.  Parked: registered as a waiter. */
  datatype Producer =
    | Idle
    | Entering(packet: Packet)
    | Checking(packet: Packet)
    | Locking(packet: Packet)
    | Created(packet: Packet, epoch: nat)
    | Parked(packet: Packet, woken: bool)
    | Finishing
    | Closing
    | Notifying
    | Joining
    | LastCheck

  datatype Sender =
    | Ready
    | Made(epoch: nat)
    | Asleep(woken: bool)
    | Writing(packet: Packet)
    | Raising(packet: Packet)
    | Announcing
    | Done

  /** What happened to packets; `taken` is every packet dequeued. */
  datatype Log = Log(submitted: seq<Packet>, accepted: seq<Packet>, taken: seq<Packet>, written: seq<Packet>,
                     lost: seq<Packet>, evicted: seq<Packet>, rejected: seq<Packet>, refused: seq<Packet>)

  /** `permit` and `epoch` are the Notify: a stored wake-up, and how often all
      waiters were woken.  `joined`: the sender task has been awaited. */
  datatype State = State(limit: nat, policy: DropPolicy, shared: Shared, permit: bool, epoch: nat,
                         producer: Producer, sender: Sender, joined: bool, log: Log)

  datatype Move = Submit(isKeyframe: bool) | Finish | ProducerStep | SenderStep | WriteFails

  // ------------------------------------------------------------------
  // Steps
  // ------------------------------------------------------------------

  /** Only the sender can be registered when the producer runs. */
  function NotifyOne(s: State): State {
    if s.sender == Asleep(false) then s.(sender := Asleep(true)) else s.(permit := true)
  }

  function NotifyWaiters(s: State): State {
    s.(epoch := s.epoch + 1,
       sender := if s.sender.Asleep? then Asleep(true) else s.sender,
       producer := if s.producer.Parked? then Parked(s.producer.packet, true) else s.producer)
  }

  function Refuse(s: State): State
    requires s.producer.Entering? || s.producer.Checking? || s.producer.Locking?
  {
    s.(producer := Idle, log := s.log.(refused := s.log.refused + [s.producer.packet]))
  }

  /** The section under the lock, with the wake-up it sends. */
  function OfferStep(s: State): State
    requires s.producer.Locking? && s.limit >= 1
  {
    var packet := s.producer.packet;
    var (shared, admission) := Admit(s.shared, packet, s.limit, s.policy);
    var after := s.(shared := shared, producer := Idle);
    match admission
    case Refused => Refuse(s)
    case Queued => NotifyOne(after.(log := s.log.(accepted := s.log.accepted + [packet])))
    case Replaced(evicted) =>
      NotifyOne(after.(log := s.log.(accepted := s.log.accepted + [packet], evicted := s.log.evicted + [evicted])))
    case Rejected => after.(log := s.log.(rejected := s.log.rejected + [packet]))
    case MustWait => s.(producer := Created(packet, s.epoch))
  }

  predicate ProducerEnabled(s: State) {
    match s.producer
    case Idle => false
    case Parked(_, woken) => woken
    case Joining => s.sender.Done? || s.joined
    case _ => true
  }

  function ProducerNext(s: State): State
    requires ProducerEnabled(s) && s.limit >= 1
  {
    match s.producer
    case Entering(packet) => if s.shared.failed then Refuse(s) else s.(producer := Checking(packet))
    case Checking(packet) => if s.shared.failed then Refuse(s) else s.(producer := Locking(packet))
    case Locking(_) => OfferStep(s)
    case Created(packet, epoch) =>
      if s.permit then s.(permit := false, producer := Checking(packet))
      else if s.epoch != epoch then s.(producer := Checking(packet))
      else s.(producer := Parked(packet, false))
    case Parked(packet, _) => s.(producer := Checking(packet))
    case Finishing => if s.shared.failed then s.(producer := Idle) else s.(producer := Closing)
    case Closing => s.(shared := s.shared.(closed := true), producer := Notifying)
    case Notifying => NotifyWaiters(s).(producer := Joining)
    case Joining => s.(joined := true, producer := LastCheck)
    case LastCheck => s.(producer := Idle)
  }

  predicate SenderEnabled(s: State) {
    match s.sender
    case Asleep(woken) => woken
    case Done => false
    case _ => true
  }

  /** At Writing this is the successful write. */
  function SenderNext(s: State): State
    requires SenderEnabled(s)
  {
    match s.sender
    case Ready => (
      var (shared, pulled) := Pull(s.shared);
      match pulled
      case Stop => s.(sender := Done)
      case Took(packet) =>
        NotifyWaiters(s.(shared := shared, sender := Writing(packet), log := s.log.(taken := s.log.taken + [packet])))
      case Drained => NotifyWaiters(s.(sender := Done))
      case Empty => s.(sender := Made(s.epoch)))
    case Made(epoch) =>
      if s.permit then s.(permit := false, sender := Ready)
      else if s.epoch != epoch then s.(sender := Ready)
      else s.(sender := Asleep(false))
    case Asleep(_) => s.(sender := Ready)
    case Writing(packet) => s.(sender := Ready, log := s.log.(written := s.log.written + [packet]))
    case Raising(packet) =>
      s.(shared := s.shared.(failed := true), sender := Announcing, log := s.log.(lost := s.log.lost + [packet]))
    case Announcing => NotifyWaiters(s.(sender := Done))
  }

  predicate Enabled(s: State, move: Move) {
    match move
    case Submit(_) => s.producer.Idle?
    case Finish => s.producer.Idle?
    case ProducerStep => ProducerEnabled(s)
    case SenderStep => SenderEnabled(s)
    case WriteFails => s.sender.Writing?
  }

  function Apply(s: State, move: Move): State
    requires Enabled(s, move) && s.limit >= 1
  {
    match move
    case Submit(isKeyframe) =>
      var packet := Packet(|s.log.submitted|, isKeyframe);
      s.(producer := Entering(packet), log := s.log.(submitted := s.log.submitted + [packet]))
    case Finish => s.(producer := Finishing)
    case ProducerStep => ProducerNext(s)
    case SenderStep => SenderNext(s)
    case WriteFails => s.(sender := Raising(s.sender.packet))
  }

  // ------------------------------------------------------------------
  // Wake-ups
  // ------------------------------------------------------------------

  /** The sender waits and nothing has been or will be delivered to end it. */
  predicate SenderUnwoken(s: State) {
    || s.sender == Asleep(false)
    || (s.sender.Made? && !s.permit && s.sender.epoch == s.epoch)
  }

  /** The producer waits and no epoch has passed since it looked. */
  predicate ProducerUnwoken(s: State) {
    match s.producer
    case Created(_, epoch) => epoch == s.epoch
    case Parked(_, woken) => !woken
    case _ => false
  }

  ghost predicate ClosedTo(s: State) {
    s.shared.closed && !s.producer.Notifying?
  }

  /** No lost wake-up. */
  ghost predicate WakeInv(s: State) {
    && s.limit >= 1 && |s.shared.queue| <= s.limit
    // a sender that waits on a non-empty queue is being woken, unless the producer can take its permit
    && (s.policy != Block && s.shared.queue != [] ==> !SenderUnwoken(s))
    // a producer that waits on a queue with room is being woken
    && (ProducerUnwoken(s) ==> |s.shared.queue| == s.limit)
    // once closing has been announced no sender waits unwoken
    && (ClosedTo(s) ==> s.sender != Asleep(false) && (s.sender.Made? ==> s.sender.epoch < s.epoch))
    && (s.sender.Made? ==> s.sender.epoch <= s.epoch)
    && (s.producer.Created? ==> s.producer.epoch <= s.epoch)
  }

  /** Which control states go together. */
  ghost predicate ControlInv(s: State) {
    && (s.producer.Created? || s.producer.Parked? ==> s.policy == Block && !s.shared.closed)
    && (s.producer.Notifying? || s.producer.Joining? || s.producer.LastCheck? ==> s.shared.closed)
    && (s.producer.LastCheck? ==> s.sender.Done?)
    && (s.joined ==> s.sender.Done?)
    && (s.shared.failed <==> |s.log.lost| == 1) && |s.log.lost| <= 1
    && (s.sender.Announcing? ==> s.shared.failed)
    && (s.shared.failed ==> s.sender.Announcing? || s.sender.Done?)
    && (s.sender.Done? && !s.shared.failed ==> s.shared.closed && s.shared.queue == [])
  }

  lemma ProducerKeepsWake(s: State)
    requires WakeInv(s) && ControlInv(s) && ProducerEnabled(s)
    ensures WakeInv(ProducerNext(s)) && ControlInv(ProducerNext(s))
  {
    if s.producer.Locking? {
      OfferKeepsWake(s);
    } else if s.producer.Created? {
      WaitKeepsWake(s);
    }
  }

  lemma OfferKeepsWake(s: State)
    requires WakeInv(s) && ControlInv(s) && s.producer.Locking?
    ensures WakeInv(OfferStep(s)) && ControlInv(OfferStep(s))
  {
  }

  lemma WaitKeepsWake(s: State)
    requires WakeInv(s) && ControlInv(s) && s.producer.Created?
    ensures WakeInv(ProducerNext(s)) && ControlInv(ProducerNext(s))
  {
  }

  lemma SenderKeepsWake(s: State)
    requires WakeInv(s) && ControlInv(s) && SenderEnabled(s)
    ensures WakeInv(SenderNext(s)) && ControlInv(SenderNext(s))
  {
  }

  lemma MoveKeepsWake(s: State, move: Move)
    requires WakeInv(s) && ControlInv(s) && Enabled(s, move)
    ensures WakeInv(Apply(s, move)) && ControlInv(Apply(s, move))
  {
    match move
    case Submit(_) =>
    case Finish =>
    case ProducerStep => ProducerKeepsWake(s);
    case SenderStep => SenderKeepsWake(s);
    case WriteFails =>
  }

  /** In the middle of a call, with neither task able to go on. */
  predicate Stuck(s: State) {
    !s.producer.Idle? && !ProducerEnabled(s) && !SenderEnabled(s)
  }

  /** Every way to be stuck: the caller waits on a full queue under Block, and
      the sender sleeps beside it or has stopped on an error. */
  lemma StuckExactly(s: State)
    requires WakeInv(s) && ControlInv(s)
    ensures Stuck(s) <==>
      && s.policy == Block && |s.shared.queue| == s.limit
      && s.producer.Parked? && !s.producer.woken
      && (s.sender == Asleep(false) || (s.sender.Done? && s.shared.failed))
  {
  }
}
