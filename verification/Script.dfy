/** Recovery with the scripted mock source: the script is shared by the sources
    of successive runs, so a restart goes on where the failed run stopped. */
module Script {
  import opened Common
  import opened Supervisor

  type Bytes = seq<Byte>

  /** Fail is a recoverable error; Stall never answers and ends in the watchdog. */
  datatype Action = Packet(payload: Bytes) | Fail | Stall | EndOfScript

  /** One run: how it ended, what reached the sink, and what is left. */
  datatype RunResult = RunResult(exit: Exit, delivered: seq<Bytes>, rest: seq<Action>)

  /** One run of the pipeline loop.  A script that has run out is a source
      error, which is not recoverable. */
  function RunOnce(script: seq<Action>): (r: RunResult)
    ensures r.exit != Cancelled && (r.exit == Recoverable ==> |r.rest| < |script|)
  {
    if script == [] then RunResult(Fatal, [], [])
    else
      match script[0]
      case Packet(payload) =>
        var r := RunOnce(script[1..]);
        r.(delivered := [payload] + r.delivered)
      case Fail => RunResult(Recoverable, [], script[1..])
      case Stall => RunResult(Recoverable, [], script[1..])
      case EndOfScript => RunResult(EndOfStream, [], script[1..])
  }

  /** Supervised runs of a script: all that reached the sink and the final
      status.  `elapsed(k)` is how long the run lasts that leaves k actions;
      `number` is the count of restarts so far. */
  function Recovered(policy: RecoveryPolicy, number: nat, script: seq<Action>, elapsed: nat -> nat)
    : (seq<Bytes>, TaskStatus)
    decreases |script|
  {
    var r := RunOnce(script);
    match r.exit
    case Recoverable => (
      match NextRestart(policy, number, elapsed(|r.rest|))
      case None => (r.delivered, Failed)
      case Some(next) =>
        var (more, status) := Recovered(policy, next, r.rest, elapsed);
        (r.delivered + more, status))
    case EndOfStream => (r.delivered, Stopped)
    case _ => (r.delivered, Failed)
  }

  // ------------------------------------------------------------------
  // The loops
  // ------------------------------------------------------------------

  class MockSourcePlan {
    var actions: seq<Action>

    constructor (script: seq<Action>)
      ensures actions == script
    {
      actions := script;
    }

    method Next() returns (r: Result<Option<Bytes>, Exit>)
      modifies this
      ensures actions == if old(actions) == [] then [] else old(actions)[1..]
      ensures r == if old(actions) == [] then Err(Fatal) else
        match old(actions)[0]
        case Packet(payload) => Ok(Some(payload))
        case Fail => Err(Recoverable)
        case Stall => Err(Recoverable)
        case EndOfScript => Ok(None)
    {
      if actions == [] {
        return Err(Fatal);
      }
      var action := actions[0];
      actions := actions[1..];
      match action
      case Packet(payload) => return Ok(Some(payload));
      case Fail => return Err(Recoverable);
      case Stall => return Err(Recoverable);
      case EndOfScript => return Ok(None);
    }
  }

  class MockSinkRecorder {
    var payloads: seq<Bytes>

    constructor ()
      ensures payloads == []
    {
      payloads := [];
    }

    method Consume(payload: Bytes)
      modifies this
      ensures payloads == old(payloads) + [payload]
    {
      payloads := payloads + [payload];
    }
  }

  method RunPipelineLoop(plan: MockSourcePlan, recorder: MockSinkRecorder) returns (exit: Exit)
    modifies plan, recorder
    ensures var r := RunOnce(old(plan.actions));
      && exit == r.exit
      && plan.actions == r.rest
      && recorder.payloads == old(recorder.payloads) + r.delivered
  {
    while true
      invariant var r, all := RunOnce(plan.actions), RunOnce(old(plan.actions));
        && r.exit == all.exit && r.rest == all.rest
        && recorder.payloads + r.delivered == old(recorder.payloads) + all.delivered
      decreases |plan.actions|
    {
      ghost var left, before := RunOnce(plan.actions), recorder.payloads;
      var next := plan.Next();
      match next
      case Err(error) => return error;
      case Ok(payload) =>
        if payload.None? {
          return EndOfStream;
        }
        recorder.Consume(payload.value);
        ghost var more := RunOnce(plan.actions).delivered;
        assert before + ([payload.value] + more) == before + [payload.value] + more;
    }
  }

  method Recover(policy: RecoveryPolicy, plan: MockSourcePlan, recorder: MockSinkRecorder,
                 elapsed: nat -> nat) returns (status: TaskStatus)
    modifies plan, recorder
    ensures var (delivered, final) := Recovered(policy, 0, old(plan.actions), elapsed);
      status == final && recorder.payloads == old(recorder.payloads) + delivered
  {
    var number: nat := 0;
    while true
      invariant var left, all := Recovered(policy, number, plan.actions, elapsed),
                                 Recovered(policy, 0, old(plan.actions), elapsed);
        && left.1 == all.1
        && recorder.payloads + left.0 == old(recorder.payloads) + all.0
      decreases |plan.actions|
    {
      ghost var before, r := recorder.payloads, RunOnce(plan.actions);
      var exit := RunPipelineLoop(plan, recorder);
      match exit
      case Recoverable =>
        var next := NextRestart(policy, number, elapsed(|plan.actions|));
        if next.None? {
          return Failed;
        }
        number := next.value;
        ghost var more := Recovered(policy, number, plan.actions, elapsed).0;
        assert before + (r.delivered + more) == before + r.delivered + more;
      case EndOfStream => return Stopped;
      case _ => return Failed;
    }
  }

  // ------------------------------------------------------------------
  // What the sink receives
  // ------------------------------------------------------------------

  function Packets(script: seq<Action>): seq<Bytes> {
    if script == [] then []
    else (if script[0].Packet? then [script[0].payload] else []) + Packets(script[1..])
  }

  predicate IsFailure(action: Action) {
    action.Fail? || action.Stall?
  }

  function Failures(script: seq<Action>): nat {
    if script == [] then 0 else (if IsFailure(script[0]) then 1 else 0) + Failures(script[1..])
  }

  /** Every run is shorter than the time that resets the restart count. */
  ghost predicate AllShort(policy: RecoveryPolicy, elapsed: nat -> nat) {
    forall k :: elapsed(k) < policy.resetAfter
  }

  /** The length of the part of a script that is played: up to the first end of
      stream, or the first failure once `budget` restarts are used up. */
  function Played(script: seq<Action>, budget: nat): (n: nat)
    ensures n <= |script|
    ensures forall i :: 0 <= i < n ==> script[i] != EndOfScript
    ensures n < |script| ==> script[n] == EndOfScript || (IsFailure(script[n]) && Failures(script[..n]) == budget)
    ensures Failures(script[..n]) <= budget
  {
    if script == [] || script[0] == EndOfScript || (IsFailure(script[0]) && budget == 0) then 0
    else
      var n := 1 + Played(script[1..], if IsFailure(script[0]) then budget - 1 else budget);
      assert script[..n][1..] == script[1..][..n - 1];
      n
  }

  /** Unfolding a supervised script by its first action. */
  lemma RecoveredUnfold(policy: RecoveryPolicy, number: nat, script: seq<Action>, elapsed: nat -> nat)
    requires AllShort(policy, elapsed) && script != []
    ensures var rest := script[1..];
      Recovered(policy, number, script, elapsed) ==
      match script[0]
      case Packet(payload) => (
        var (delivered, status) := Recovered(policy, number, rest, elapsed);
        ([payload] + delivered, status))
      case EndOfScript => ([], Stopped)
      case _ =>
        if number < policy.maxRestarts then Recovered(policy, number + 1, rest, elapsed) else ([], Failed)
  {
    match script[0]
    case Packet(payload) =>
      var r := RunOnce(script[1..]);
      if r.exit == Recoverable && number < policy.maxRestarts {
        var more := Recovered(policy, number + 1, r.rest, elapsed).0;
        assert ([payload] + r.delivered) + more == [payload] + (r.delivered + more);
      }
    case EndOfScript =>
    case Fail => assert [] + Recovered(policy, number + 1, script[1..], elapsed).0
                     == Recovered(policy, number + 1, script[1..], elapsed).0;
    case Stall => assert [] + Recovered(policy, number + 1, script[1..], elapsed).0
                      == Recovered(policy, number + 1, script[1..], elapsed).0;
  }

  /** The first n actions deliver what they should, and the run ends there. */
  ghost predicate DeliversFirst(policy: RecoveryPolicy, number: nat, script: seq<Action>, elapsed: nat -> nat, n: nat)
    requires n <= |script|
  {
    && Recovered(policy, number, script, elapsed).0 == Packets(script[..n])
    && Recovered(policy, number, script, elapsed).1
       == if n < |script| && script[n] == EndOfScript then Stopped else Failed
  }

  lemma PlayedNone(policy: RecoveryPolicy, number: nat, script: seq<Action>, elapsed: nat -> nat)
    requires AllShort(policy, elapsed) && number <= policy.maxRestarts
    requires Played(script, policy.maxRestarts - number) == 0
    ensures DeliversFirst(policy, number, script, elapsed, 0)
  {
    assert script[..0] == [];
    if script != [] {
      RecoveredUnfold(policy, number, script, elapsed);
    }
  }

  lemma PlayedPacket(policy: RecoveryPolicy, number: nat, script: seq<Action>, elapsed: nat -> nat, n: nat)
    requires AllShort(policy, elapsed) && 0 < n <= |script| && script[0].Packet?
    requires DeliversFirst(policy, number, script[1..], elapsed, n - 1)
    ensures DeliversFirst(policy, number, script, elapsed, n)
  {
    RecoveredUnfold(policy, number, script, elapsed);
    assert script[..n][0] == script[0];
    assert script[..n][1..] == script[1..][..n - 1];
  }

  lemma PlayedFailure(policy: RecoveryPolicy, number: nat, script: seq<Action>, elapsed: nat -> nat, n: nat)
    requires AllShort(policy, elapsed) && 0 < n <= |script| && IsFailure(script[0]) && number < policy.maxRestarts
    requires DeliversFirst(policy, number + 1, script[1..], elapsed, n - 1)
    ensures DeliversFirst(policy, number, script, elapsed, n)
  {
    RecoveredUnfold(policy, number, script, elapsed);
    assert script[..n][0] == script[0];
    assert script[..n][1..] == script[1..][..n - 1];
    assert Packets(script[..n]) == [] + Packets(script[1..][..n - 1]);
  }

  /** Across all restarts the sink receives the packets of the played part,
      each once and in order. */
  lemma {:induction false} PlayedIsDelivered(policy: RecoveryPolicy, number: nat, script: seq<Action>, elapsed: nat -> nat)
    requires AllShort(policy, elapsed) && number <= policy.maxRestarts
    ensures DeliversFirst(policy, number, script, elapsed, Played(script, policy.maxRestarts - number))
    decreases |script|
  {
    var n := Played(script, policy.maxRestarts - number);
    if n == 0 {
      PlayedNone(policy, number, script, elapsed);
    } else if IsFailure(script[0]) {
      PlayedIsDelivered(policy, number + 1, script[1..], elapsed);
      PlayedFailure(policy, number, script, elapsed, n);
    } else {
      PlayedIsDelivered(policy, number, script[1..], elapsed);
      PlayedPacket(policy, number, script, elapsed, n);
    }
  }

  lemma {:induction false} FailuresMono(script: seq<Action>, a: nat, b: nat)
    requires a <= b <= |script|
    ensures Failures(script[..a]) <= Failures(script[..b])
    ensures a < b && IsFailure(script[a]) ==> Failures(script[..a]) < Failures(script[..b])
    decreases |script|
  {
    if b == 0 {
    } else {
      assert script[..b][1..] == script[1..][..b - 1];
      if a > 0 {
        assert script[..a][1..] == script[1..][..a - 1];
        FailuresMono(script[1..], a - 1, b - 1);
      }
    }
  }

  /** The script of a mock source under supervision, every run being short.
      With at most max_restarts failures before the first end of stream the
      sink gets every packet before it and the pipeline stops. */
  lemma StopsAtEndOfStream(policy: RecoveryPolicy, script: seq<Action>, elapsed: nat -> nat, e: nat)
    requires AllShort(policy, elapsed)
    requires e < |script| && script[e] == EndOfScript && EndOfScript !in script[..e]
    ensures Failures(script[..e]) <= policy.maxRestarts <==> Recovered(policy, 0, script, elapsed).1 == Stopped
    ensures Failures(script[..e]) <= policy.maxRestarts ==>
      Recovered(policy, 0, script, elapsed).0 == Packets(script[..e])
  {
    PlayedIsDelivered(policy, 0, script, elapsed);
    var n := Played(script, policy.maxRestarts);
    FailuresMono(script, n, e);
    assert n < e ==> script[..e][n] == script[n];
  }

  /** Otherwise, with more failures, it fails after exactly the packets before
      the failure that exceeds max_restarts. */
  lemma FailsAfterTooMany(policy: RecoveryPolicy, script: seq<Action>, elapsed: nat -> nat, f: nat)
    requires AllShort(policy, elapsed)
    requires f < |script| && IsFailure(script[f]) && EndOfScript !in script[..f]
    requires Failures(script[..f]) == policy.maxRestarts
    ensures Recovered(policy, 0, script, elapsed) == (Packets(script[..f]), Failed)
  {
    PlayedIsDelivered(policy, 0, script, elapsed);
    var n := Played(script, policy.maxRestarts);
    assert n < f ==> script[..f][n] == script[n];
    if n < f {
      FailuresMono(script, n, f);
    } else {
      FailuresMono(script, f, n);
    }
  }

  /** A script that runs out delivers all its packets and then fails. */
  lemma FailsWhenExhausted(policy: RecoveryPolicy, script: seq<Action>, elapsed: nat -> nat)
    requires AllShort(policy, elapsed) && EndOfScript !in script && Failures(script) <= policy.maxRestarts
    ensures Recovered(policy, 0, script, elapsed) == (Packets(script), Failed)
  {
    PlayedIsDelivered(policy, 0, script, elapsed);
    var n := Played(script, policy.maxRestarts);
    assert script[..|script|] == script;
    if n < |script| {
      FailuresMono(script, n, |script|);
    }
  }

  // ------------------------------------------------------------------
  // The same runs under the supervisor
  // ------------------------------------------------------------------

  /** The turns of the supervisor's loop that play a script. */
  function AttemptsOf(script: seq<Action>, elapsed: nat -> nat): seq<Attempt>
    decreases |script|
  {
    var r := RunOnce(script);
    [Runs(r.exit, elapsed(|r.rest|), false)] + if r.exit == Recoverable then AttemptsOf(r.rest, elapsed) else []
  }

  /** The final status is the last one the supervisor publishes. */
  lemma {:induction false} RecoveredIsSupervised(policy: RecoveryPolicy, number: nat, script: seq<Action>,
                                                 elapsed: nat -> nat, from: TaskStatus)
    ensures var report := Supervised(policy, number, AttemptsOf(script, elapsed));
      && report.finished
      && Last(from, report.trace) == Recovered(policy, number, script, elapsed).1
    decreases |script|
  {
    var r, attempts := RunOnce(script), AttemptsOf(script, elapsed);
    var (report, next) := Turn(policy, number, attempts[0]);
    if !report.finished {
      RecoveredIsSupervised(policy, next, r.rest, elapsed, Recovering);
      assert attempts[1..] == AttemptsOf(r.rest, elapsed);
      var more := Supervised(policy, next, attempts[1..]);
      assert more.trace != [];
      assert Append(report, more).trace[|report.trace| + |more.trace| - 1] == more.trace[|more.trace| - 1];
    }
  }
}
