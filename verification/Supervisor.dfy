/** The supervisor of one pipeline: it builds and runs the pipeline until it
    ends, restarting it after recoverable failures with growing back-off.
    Run times are whole milliseconds; back-offs are real numbers of them, as the
    multiplier may be any real number. */
module Supervisor {
  import opened Common
  import opened Arithmetic

  datatype TaskStatus = Spawning | Running | Stalled | Recovering | Stopped | Failed

  datatype Exit = Cancelled | EndOfStream | Recoverable | Fatal

  /** One turn of the loop, as the environment decides it.  `cancelled` in Runs
      is a cancellation while the supervisor sleeps before the restart. */
  datatype Attempt =
    | CancelledFirst
    | BuildFails
    | Runs(exit: Exit, elapsed: nat, cancelled: bool)

  datatype RecoveryPolicy = RecoveryPolicy(maxRestarts: nat, initialBackoff: nat, maxBackoff: nat,
                                           multiplier: real, resetAfter: nat)

  /** A restart: its number since the last reset, the sleep before it, and how
      long the failed run had lasted. */
  datatype Restart = Restart(number: nat, backoff: real, elapsed: nat)

  /** `finished`: the loop has ended, rather than the attempts run out. */
  datatype Report = Report(trace: seq<TaskStatus>, restarts: seq<Restart>, finished: bool)

  function Pow(b: real, e: nat): real {
    if e == 0 then 1.0 else b * Pow(b, e - 1)
  }

  function Min(a: real, b: real): real {
    if a < b then a else b
  }

  function Uncut(policy: RecoveryPolicy, number: nat): real
    requires number >= 1
  {
    policy.initialBackoff as real * Pow(policy.multiplier, number - 1)
  }

  function Backoff(policy: RecoveryPolicy, number: nat): real
    requires number >= 1
  {
    Min(Uncut(policy, number), policy.maxBackoff as real)
  }

  /** The number of the next restart after a recoverable failure, if there is one. */
  function NextRestart(policy: RecoveryPolicy, number: nat, elapsed: nat): Option<nat> {
    var base := if elapsed >= policy.resetAfter then 0 else number;
    if base < policy.maxRestarts then Some(base + 1) else None
  }

  function Append(a: Report, b: Report): Report {
    Report(a.trace + b.trace, a.restarts + b.restarts, b.finished)
  }

  /** One turn: what it publishes, whether the loop ends, and the new number. */
  function Turn(policy: RecoveryPolicy, number: nat, attempt: Attempt): (Report, nat) {
    match attempt
    case CancelledFirst => (Report([Stopped], [], true), number)
    case BuildFails => (Report([Failed], [], true), number)
    case Runs(Cancelled, _, _) => (Report([Running, Stopped], [], true), number)
    case Runs(EndOfStream, _, _) => (Report([Running, Stopped], [], true), number)
    case Runs(Fatal, _, _) => (Report([Running, Failed], [], true), number)
    case Runs(Recoverable, elapsed, cancelled) =>
      match NextRestart(policy, number, elapsed)
      case None => (Report([Running, Failed], [], true), number)
      case Some(next) =>
        (Report([Running, Stalled, Recovering] + if cancelled then [Stopped] else [],
                [Restart(next, Backoff(policy, next), elapsed)], cancelled),
         next)
  }

  function Supervised(policy: RecoveryPolicy, number: nat, attempts: seq<Attempt>): Report
    decreases |attempts|
  {
    if attempts == [] then Report([], [], false)
    else
      var (report, next) := Turn(policy, number, attempts[0]);
      if report.finished then report else Append(report, Supervised(policy, next, attempts[1..]))
  }

  lemma AppendAssociative(a: Report, b: Report, c: Report)
    ensures Append(Append(a, b), c) == Append(a, Append(b, c))
  {
    assert (a.trace + b.trace) + c.trace == a.trace + (b.trace + c.trace);
    assert (a.restarts + b.restarts) + c.restarts == a.restarts + (b.restarts + c.restarts);
  }

  /** A turn that does not end the loop, and one that does. */
  lemma TurnGoesOn(policy: RecoveryPolicy, number: nat, attempts: seq<Attempt>, before: Report)
    requires attempts != [] && !Turn(policy, number, attempts[0]).0.finished
    ensures var (report, next) := Turn(policy, number, attempts[0]);
      Append(Append(before, report), Supervised(policy, next, attempts[1..])) == Append(before, Supervised(policy, number, attempts))
  {
    var (report, next) := Turn(policy, number, attempts[0]);
    AppendAssociative(before, report, Supervised(policy, next, attempts[1..]));
  }

  method SupervisePipeline(policy: RecoveryPolicy, attempts: seq<Attempt>) returns (report: Report)
    ensures report == Supervised(policy, 0, attempts)
  {
    var number := 0;
    report := Report([], [], false);
    var i := 0;
    assert attempts[0..] == attempts;
    NothingBefore(Supervised(policy, 0, attempts));
    while i < |attempts|
      invariant i <= |attempts| && !report.finished
      invariant Append(report, Supervised(policy, number, attempts[i..])) == Supervised(policy, 0, attempts)
    {
      ghost var rest := attempts[i..];
      assert rest[0] == attempts[i] && rest[1..] == attempts[i + 1..];
      ghost var before, from := report, number;
      var turn;
      turn, number := SuperviseOnce(policy, number, attempts[i]);
      report := Append(report, turn);
      if report.finished {
        return;
      }
      TurnGoesOn(policy, from, rest, before);
      i := i + 1;
    }
    assert Append(report, Report([], [], false)) == report;
  }

  lemma NothingBefore(report: Report)
    ensures Append(Report([], [], false), report) == report
  {
    assert [] + report.trace == report.trace && [] + report.restarts == report.restarts;
  }

  /** One turn of the loop: build, run, and decide on a restart. */
  method SuperviseOnce(policy: RecoveryPolicy, number: nat, attempt: Attempt) returns (report: Report, attempts: nat)
    ensures var turn := Turn(policy, number, attempt); report == turn.0 && (!report.finished ==> attempts == turn.1)
  {
    attempts := number;
    match attempt
    case CancelledFirst => report := Report([Stopped], [], true);
    case BuildFails => report := Report([Failed], [], true);
    case Runs(exit, elapsed, cancelled) =>
      var trace := [Running];
      match exit
      case Cancelled => report := Report(trace + [Stopped], [], true);
      case EndOfStream => report := Report(trace + [Stopped], [], true);
      case Fatal => report := Report(trace + [Failed], [], true);
      case Recoverable =>
        if elapsed >= policy.resetAfter {
          attempts := 0;
        }
        if attempts < policy.maxRestarts {
          attempts := attempts + 1;
          trace := trace + [Stalled];
          trace := trace + [Recovering];
          assert trace == [Running, Stalled, Recovering];
          var restart := Restart(attempts, Backoff(policy, attempts), elapsed);
          if cancelled {
            report := Report(trace + [Stopped], [restart], true);
          } else {
            report := Report(trace, [restart], false);
            assert trace + [] == trace;
          }
        } else {
          report := Report(trace + [Failed], [], true);
        }
  }

  // ------------------------------------------------------------------
  // The published statuses
  // ------------------------------------------------------------------

  predicate Terminal(status: TaskStatus) {
    status == Stopped || status == Failed
  }

  /** Which status may follow which. */
  predicate MayFollow(a: TaskStatus, b: TaskStatus) {
    match a
    case Spawning => b == Running || Terminal(b)
    case Running => b == Stalled || Terminal(b)
    case Stalled => b == Recovering
    case Recovering => b == Running || Terminal(b)
    case Stopped => false
    case Failed => false
  }

  /** A path of statuses that begins where `from` left off. */
  predicate Path(from: TaskStatus, trace: seq<TaskStatus>)
    decreases |trace|
  {
    trace == [] || (MayFollow(from, trace[0]) && Path(trace[0], trace[1..]))
  }

  function Last(from: TaskStatus, trace: seq<TaskStatus>): TaskStatus {
    if trace == [] then from else trace[|trace| - 1]
  }

  lemma {:induction false} PathAppend(from: TaskStatus, a: seq<TaskStatus>, b: seq<TaskStatus>)
    ensures Path(from, a + b) <==> Path(from, a) && Path(Last(from, a), b)
    ensures Last(from, a + b) == Last(Last(from, a), b)
    decreases |a|
  {
    if a == [] {
      assert a + b == b;
    } else {
      PathAppend(a[0], a[1..], b);
      assert (a + b)[1..] == a[1..] + b;
      assert Last(from, a) == Last(a[0], a[1..]);
      assert Last(from, a + b) == Last(a[0], a[1..] + b);
    }
  }

  lemma OneRestartPath(from: TaskStatus)
    requires from == Spawning || from == Recovering
    ensures Path(from, [Running, Stalled, Recovering])
  {
    assert [Running, Stalled, Recovering][1..] == [Stalled, Recovering];
    assert [Stalled, Recovering][1..] == [Recovering];
    assert [Recovering][1..] == [];
  }

  lemma LastRunPath(from: TaskStatus, end: TaskStatus)
    requires from == Spawning || from == Recovering
    requires Terminal(end)
    ensures Path(from, [Running, end])
  {
    assert [Running, end][1..] == [end];
    assert [end][1..] == [];
  }

  lemma TurnPath(policy: RecoveryPolicy, number: nat, attempt: Attempt, from: TaskStatus)
    requires from == Spawning || from == Recovering
    ensures var report := Turn(policy, number, attempt).0;
      && Path(from, report.trace)
      && (report.finished <==> Terminal(Last(from, report.trace)))
      && (!report.finished ==> Last(from, report.trace) == Recovering)
  {
    var report := Turn(policy, number, attempt).0;
    OneRestartPath(from);
    if report.restarts != [] {
      PathAppend(from, [Running, Stalled, Recovering], if report.finished then [Stopped] else []);
    } else if |report.trace| == 2 {
      LastRunPath(from, report.trace[1]);
      assert report.trace == [Running, report.trace[1]];
    }
  }

  /** Whatever the environment does, the statuses a supervisor publishes follow
      on from Spawning, and the last is terminal exactly when it has finished. */
  lemma {:induction false} TraceIsLegal(policy: RecoveryPolicy, number: nat, attempts: seq<Attempt>, from: TaskStatus)
    requires from == Spawning || from == Recovering
    ensures var report := Supervised(policy, number, attempts);
      && Path(from, report.trace)
      && (report.finished <==> Terminal(Last(from, report.trace)))
    decreases |attempts|
  {
    if attempts == [] {
    } else {
      var (report, next) := Turn(policy, number, attempts[0]);
      TurnPath(policy, number, attempts[0], from);
      if !report.finished {
        TraceIsLegal(policy, next, attempts[1..], Recovering);
        PathAppend(from, report.trace, Supervised(policy, next, attempts[1..]).trace);
      }
    }
  }

  /** A whole life after Spawning: (Running Stalled Recovering)* Running?
      (Stopped | Failed). */
  predicate Lifetime(trace: seq<TaskStatus>)
    decreases |trace|
  {
    || (|trace| == 1 && Terminal(trace[0]))
    || (|trace| == 2 && trace[0] == Running && Terminal(trace[1]))
    || (|trace| > 3 && trace[0] == Running && trace[1] == Stalled && trace[2] == Recovering && Lifetime(trace[3..]))
  }

  /** A life that begins with a path. */
  function Completed(from: TaskStatus, trace: seq<TaskStatus>): seq<TaskStatus>
    decreases |trace|
  {
    if trace != [] then [trace[0]] + Completed(trace[0], trace[1..])
    else
      match from
      case Running => [Stopped]
      case Stalled => [Recovering, Stopped]
      case Stopped => []
      case Failed => []
      case _ => [Stopped]
  }

  /** The rest of a life, seen from any point of it. */
  predicate Continues(from: TaskStatus, rest: seq<TaskStatus>) {
    match from
    case Running => Lifetime([Running] + rest)
    case Stalled => Lifetime([Running, Stalled] + rest)
    case Stopped => rest == []
    case Failed => rest == []
    case _ => Lifetime(rest)
  }

  lemma ContinuesBack(from: TaskStatus, next: TaskStatus, rest: seq<TaskStatus>)
    requires MayFollow(from, next) && Continues(next, rest)
    ensures Continues(from, [next] + rest)
  {
    match next
    case Stalled => assert [Running] + ([Stalled] + rest) == [Running, Stalled] + rest;
    case Recovering => assert ([Running, Stalled] + ([Recovering] + rest))[3..] == rest;
    case _ =>
  }

  lemma ContinuesOn(from: TaskStatus, rest: seq<TaskStatus>)
    requires Continues(from, rest) && rest != []
    ensures MayFollow(from, rest[0]) && Continues(rest[0], rest[1..])
  {
    assert rest == [rest[0]] + rest[1..];
    match from
    case Running => assert [Running] + rest == [Running, rest[0]] + rest[1..];
    case Stalled => assert ([Running, Stalled] + rest)[3..] == rest[1..];
    case _ =>
  }

  lemma {:induction false} CompletedContinues(from: TaskStatus, trace: seq<TaskStatus>)
    requires Path(from, trace)
    ensures Continues(from, Completed(from, trace)) && trace <= Completed(from, trace)
    decreases |trace|
  {
    if trace != [] {
      CompletedContinues(trace[0], trace[1..]);
      ContinuesBack(from, trace[0], Completed(trace[0], trace[1..]));
    } else if from == Stalled {
      assert ([Running, Stalled] + [Recovering, Stopped])[3..] == [Stopped];
    }
  }

  lemma {:induction false} PrefixesArePaths(from: TaskStatus, trace: seq<TaskStatus>, rest: seq<TaskStatus>)
    requires Continues(from, rest) && trace <= rest
    ensures Path(from, trace)
    decreases |trace|
  {
    if trace == [] {
    } else {
      ContinuesOn(from, rest);
      PrefixesArePaths(trace[0], trace[1..], rest[1..]);
    }
  }

  lemma PathBeginsLifetime(trace: seq<TaskStatus>)
    requires Path(Spawning, trace)
    ensures exists life :: Lifetime(life) && trace <= life
  {
    CompletedContinues(Spawning, trace);
    var life := Completed(Spawning, trace);
    assert Lifetime(life) && trace <= life;
  }

  /** The paths from Spawning are exactly the prefixes of whole lives. */
  lemma PathsAreLifetimes(trace: seq<TaskStatus>)
    ensures Path(Spawning, trace) <==> exists life :: Lifetime(life) && trace <= life
  {
    if Path(Spawning, trace) {
      PathBeginsLifetime(trace);
    }
    forall life | Lifetime(life) && trace <= life ensures Path(Spawning, trace) {
      PrefixesArePaths(Spawning, trace, life);
    }
  }

  // ------------------------------------------------------------------
  // Cancellation
  // ------------------------------------------------------------------

  lemma TurnPublishes(policy: RecoveryPolicy, number: nat, attempt: Attempt)
    ensures var report := Turn(policy, number, attempt).0; |report.trace| <= if report.finished then 4 else 3
  {
  }

  /** A turn begun after the cancellation is the last: the m-th is such a turn,
      so the supervisor finishes, and after the turns before the one that was
      going on it publishes at most four more statuses. */
  lemma {:induction false} CancellationEnds(policy: RecoveryPolicy, number: nat, attempts: seq<Attempt>, m: nat)
    requires 0 < m < |attempts| && attempts[m] == CancelledFirst
    ensures var report := Supervised(policy, number, attempts);
      report.finished && |report.trace| <= |Supervised(policy, number, attempts[..m - 1]).trace| + 4
    decreases |attempts|
  {
    var (report, next) := Turn(policy, number, attempts[0]);
    TurnPublishes(policy, number, attempts[0]);
    if report.finished {
      assert m > 1 ==> attempts[..m - 1][0] == attempts[0];
    } else if m == 1 {
      assert attempts[1..][0] == CancelledFirst;
      assert Supervised(policy, next, attempts[1..]) == Report([Stopped], [], true);
    } else {
      CancellationEnds(policy, next, attempts[1..], m - 1);
      assert attempts[..m - 1][0] == attempts[0];
      assert attempts[..m - 1][1..] == attempts[1..][..m - 2];
    }
  }

  // ------------------------------------------------------------------
  // How often it restarts
  // ------------------------------------------------------------------

  /** Total running time. */
  function RunTime(attempts: seq<Attempt>): nat {
    if attempts == [] then 0
    else (if attempts[0].Runs? then attempts[0].elapsed else 0) + RunTime(attempts[1..])
  }

  /** Recoverable failures of runs long enough to reset the count. */
  function Resets(policy: RecoveryPolicy, attempts: seq<Attempt>): nat {
    if attempts == [] then 0
    else (if attempts[0].Runs? && attempts[0].elapsed >= policy.resetAfter then 1 else 0)
         + Resets(policy, attempts[1..])
  }

  lemma {:induction false} ResetsTakeTime(policy: RecoveryPolicy, attempts: seq<Attempt>)
    ensures Resets(policy, attempts) * policy.resetAfter <= RunTime(attempts)
  {
    if attempts == [] {
    } else {
      ResetsTakeTime(policy, attempts[1..]);
      var r := Resets(policy, attempts[1..]);
      assert (r + 1) * policy.resetAfter == r * policy.resetAfter + policy.resetAfter;
    }
  }

  lemma {:induction false} RestartsPerReset(policy: RecoveryPolicy, number: nat, attempts: seq<Attempt>)
    requires number <= policy.maxRestarts
    ensures |Supervised(policy, number, attempts).restarts|
         <= policy.maxRestarts - number + policy.maxRestarts * Resets(policy, attempts)
    decreases |attempts|
  {
    if attempts == [] {
    } else {
      var (report, next) := Turn(policy, number, attempts[0]);
      var m, r := policy.maxRestarts, Resets(policy, attempts[1..]);
      assert m * (r + 1) == m * r + m;
      assert m * r >= 0;
      if !report.finished {
        RestartsPerReset(policy, next, attempts[1..]);
      }
    }
  }

  /** A supervised run that has been running for T in total restarts at most
      max_restarts * (1 + T / reset_after) times. */
  lemma RestartBound(policy: RecoveryPolicy, attempts: seq<Attempt>)
    requires policy.resetAfter > 0
    ensures |Supervised(policy, 0, attempts).restarts|
         <= policy.maxRestarts * (1 + RunTime(attempts) / policy.resetAfter)
  {
    RestartsPerReset(policy, 0, attempts);
    ResetsTakeTime(policy, attempts);
    var r := Resets(policy, attempts);
    DivAtLeast(RunTime(attempts), policy.resetAfter, r);
    AtMostPerReset(policy.maxRestarts, r, RunTime(attempts) / policy.resetAfter);
  }

  lemma AtMostPerReset(m: nat, r: nat, t: nat)
    requires r <= t
    ensures m + m * r <= m * (1 + t)
  {
    MulMono(m, m, r, t);
    assert m * (1 + t) == m + m * t;
  }

  // ------------------------------------------------------------------
  // Back-off
  // ------------------------------------------------------------------

  lemma ScaleReal(a: real, x: real, y: real)
    requires a >= 0.0 && x <= y
    ensures a * x <= a * y
  {
  }

  lemma {:induction false} PowGrows(b: real, e: nat)
    requires b >= 1.0
    ensures 1.0 <= Pow(b, e) <= Pow(b, e + 1)
  {
    if e == 0 {
      assert Pow(b, 1) == b * Pow(b, 0) == b;
    } else {
      PowGrows(b, e - 1);
      ScaleReal(b, Pow(b, e - 1), Pow(b, e));
    }
  }

  lemma BackoffGrows(policy: RecoveryPolicy, number: nat)
    requires number >= 1 && policy.multiplier >= 1.0
    ensures Backoff(policy, number) <= Backoff(policy, number + 1) <= policy.maxBackoff as real
  {
    PowGrows(policy.multiplier, number - 1);
    ScaleReal(policy.initialBackoff as real, Pow(policy.multiplier, number - 1), Pow(policy.multiplier, number));
  }

  lemma BackoffAtLeast(policy: RecoveryPolicy, number: nat)
    requires number >= 1 && policy.multiplier >= 1.0
    ensures Min(policy.initialBackoff as real, policy.maxBackoff as real) <= Backoff(policy, number)
  {
    PowGrows(policy.multiplier, number - 1);
    ScaleReal(policy.initialBackoff as real, 1.0, Pow(policy.multiplier, number - 1));
  }

  /** How each restart of a report relates to the one before it. */
  ghost predicate BacksOff(policy: RecoveryPolicy, number: nat, restarts: seq<Restart>)
    decreases |restarts|
  {
    restarts == [] ||
    var first := restarts[0];
    && 1 <= first.number <= policy.maxRestarts
    && first.number == (if first.elapsed >= policy.resetAfter then 1 else number + 1)
    && first.backoff == Backoff(policy, first.number)
    && BacksOff(policy, first.number, restarts[1..])
  }

  lemma {:induction false} RestartsBackOff(policy: RecoveryPolicy, number: nat, attempts: seq<Attempt>)
    ensures BacksOff(policy, number, Supervised(policy, number, attempts).restarts)
    decreases |attempts|
  {
    if attempts == [] {
    } else {
      var (report, next) := Turn(policy, number, attempts[0]);
      if !report.finished {
        RestartsBackOff(policy, next, attempts[1..]);
        var rest := Supervised(policy, next, attempts[1..]).restarts;
        assert report.restarts == [report.restarts[0]];
        assert (report.restarts + rest)[1..] == rest;
      }
    }
  }

  lemma {:induction false} BackoffAt(policy: RecoveryPolicy, number: nat, restarts: seq<Restart>, i: nat)
    requires BacksOff(policy, number, restarts) && i < |restarts| && policy.multiplier >= 1.0
    ensures 1 <= restarts[i].number <= policy.maxRestarts
    ensures restarts[i].backoff == Backoff(policy, restarts[i].number) <= policy.maxBackoff as real
    ensures i + 1 < |restarts| ==>
      if restarts[i + 1].elapsed >= policy.resetAfter then restarts[i + 1].number == 1
      else restarts[i + 1].number == restarts[i].number + 1 && restarts[i].backoff <= restarts[i + 1].backoff
    decreases i
  {
    if i == 0 {
      BackoffGrows(policy, restarts[0].number);
    } else {
      BackoffAt(policy, restarts[0].number, restarts[1..], i - 1);
    }
  }

  /** Between resets back-offs never decrease; they never exceed the maximum,
      and restarts are numbered 1 to max_restarts, afresh after every run of at
      least reset_after. */
  lemma BackoffsGrowBetweenResets(policy: RecoveryPolicy, attempts: seq<Attempt>, i: nat)
    requires policy.multiplier >= 1.0
    requires i < |Supervised(policy, 0, attempts).restarts|
    ensures var restarts := Supervised(policy, 0, attempts).restarts;
      && 1 <= restarts[i].number <= policy.maxRestarts
      && restarts[i].backoff <= policy.maxBackoff as real
      && (i + 1 < |restarts| ==>
           if restarts[i + 1].elapsed >= policy.resetAfter then restarts[i + 1].number == 1
           else restarts[i + 1].number == restarts[i].number + 1 && restarts[i].backoff <= restarts[i + 1].backoff)
  {
    RestartsBackOff(policy, 0, attempts);
    BackoffAt(policy, 0, Supervised(policy, 0, attempts).restarts, i);
  }
}
