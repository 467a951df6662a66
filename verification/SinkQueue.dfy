/** The state the WebRTC sink shares with its sender task, and the sections
    that run while its lock is held. */
module SinkQueue {
  import opened Common

  /** The id-th packet submitted to the sink. */
  datatype Packet = Packet(id: nat, isKeyframe: bool)

  datatype Shared = Shared(queue: seq<Packet>, closed: bool, failed: bool)

  /** What became of a packet offered under the lock. */
  datatype Admission = Refused | Queued | Replaced(evicted: Packet) | Rejected | MustWait

  /** What the sender finds under the lock. */
  datatype Pulled = Stop | Took(packet: Packet) | Drained | Empty

  predicate AllKeyframes(queue: seq<Packet>) {
    forall i :: 0 <= i < |queue| ==> queue[i].isKeyframe
  }

  /** The position eviction takes: the oldest packet that is not a keyframe,
      or the oldest of all. */
  function VictimIndex(queue: seq<Packet>): (i: nat)
    requires queue != []
    ensures i < |queue|
    ensures queue[i].isKeyframe <==> AllKeyframes(queue)
    ensures forall j :: 0 <= j < i ==> queue[j].isKeyframe
  {
    if AllKeyframes(queue) then 0
    else if !queue[0].isKeyframe then 0
    else 1 + VictimIndex(queue[1..])
  }

  function Without(queue: seq<Packet>, i: nat): seq<Packet>
    requires i < |queue|
  {
    queue[..i] + queue[i + 1..]
  }

  function Admit(sh: Shared, packet: Packet, limit: nat, policy: DropPolicy): (Shared, Admission)
    requires limit >= 1
  {
    if sh.closed then (sh, Refused)
    else if |sh.queue| < limit then (sh.(queue := sh.queue + [packet]), Queued)
    else
      match policy
      case Block => (sh, MustWait)
      case DropNewest => (sh, Rejected)
      case DropOldest =>
        var i := VictimIndex(sh.queue);
        (sh.(queue := Without(sh.queue, i) + [packet]), Replaced(sh.queue[i]))
  }

  function Pull(sh: Shared): (Shared, Pulled) {
    if sh.failed then (sh, Stop)
    else if sh.queue != [] then (sh.(queue := sh.queue[1..]), Took(sh.queue[0]))
    else if sh.closed then (sh, Drained)
    else (sh, Empty)
  }

  class WebRtcShared {
    var queue: seq<Packet>
    var closed: bool
    var failed: bool

    ghost function View(): Shared
      reads this
    {
      Shared(queue, closed, failed)
    }

    constructor ()
      ensures View() == Shared([], false, false)
    {
      queue, closed, failed := [], false, false;
    }

    method DropOldestPreferDelta() returns (evicted: Option<Packet>)
      modifies this`queue
      ensures old(queue) == [] ==> evicted == None && queue == []
      ensures old(queue) != [] ==> var i := VictimIndex(old(queue));
        evicted == Some(old(queue)[i]) && queue == Without(old(queue), i)
    {
      var index := 0;
      while index < |queue|
        invariant index <= |queue| && queue == old(queue)
        invariant forall j :: 0 <= j < index ==> queue[j].isKeyframe
      {
        if !queue[index].isKeyframe {
          VictimIs(queue, index);
          evicted := Some(queue[index]);
          queue := queue[..index] + queue[index + 1..];
          return;
        }
        index := index + 1;
      }
      if queue == [] {
        return None;
      }
      evicted := Some(queue[0]);
      assert queue[..0] + queue[1..] == queue[1..];
      queue := queue[1..];
    }

    /** The section in which a packet is offered. */
    method Offer(packet: Packet, limit: nat, policy: DropPolicy) returns (admission: Admission)
      requires limit >= 1
      modifies this`queue
      ensures (View(), admission) == Admit(old(View()), packet, limit, policy)
    {
      if closed {
        return Refused;
      }
      if |queue| < limit {
        queue := queue + [packet];
        return Queued;
      }
      match policy
      case Block => return MustWait;
      case DropNewest => return Rejected;
      case DropOldest =>
        var evicted := DropOldestPreferDelta();
        queue := queue + [packet];
        return Replaced(evicted.value);
    }

    /** The section in which the sender looks for work. */
    method Take() returns (pulled: Pulled)
      modifies this`queue
      ensures (View(), pulled) == Pull(old(View()))
    {
      if failed {
        return Stop;
      }
      if queue != [] {
        pulled := Took(queue[0]);
        queue := queue[1..];
        return;
      }
      return if closed then Drained else Empty;
    }
  }

  lemma {:induction false} VictimIs(queue: seq<Packet>, i: nat)
    requires i < |queue| && !queue[i].isKeyframe
    requires forall j :: 0 <= j < i ==> queue[j].isKeyframe
    ensures VictimIndex(queue) == i
  {
    if i == 0 {
    } else {
      assert queue[1..][i - 1] == queue[i];
      VictimIs(queue[1..], i - 1);
    }
  }

  /** Eviction takes a keyframe exactly when every queued packet is one. */
  lemma KeyframeEvictedOnlyAmongKeyframes(sh: Shared, packet: Packet, limit: nat)
    requires limit >= 1 && !sh.closed && |sh.queue| >= limit
    ensures var (sh', admission) := Admit(sh, packet, limit, DropOldest);
      && admission.Replaced?
      && (admission.evicted.isKeyframe <==> AllKeyframes(sh.queue))
      && |sh'.queue| == |sh.queue|
  {
  }
}
