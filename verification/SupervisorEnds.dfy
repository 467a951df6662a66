/** What a supervisor publishes and how it ends, told from the turns alone:
    which turn is the last, for which cause, and with which status. */
module SupervisorEnds {
  import opened Common
  import opened Supervisor

  // ------------------------------------------------------------------
  // Causes
  // ------------------------------------------------------------------

  /** Restarts so far that count against the limit, when the i-th turn begins:
      a run of at least reset_after starts the count afresh. */
  function Counted(policy: RecoveryPolicy, number: nat, attempts: seq<Attempt>, i: nat): nat
    requires i <= |attempts|
  {
    if i == 0 then number
    else 1 + Kept(policy, Counted(policy, number, attempts, i - 1), attempts[i - 1])
  }

  /** What is left of a count after a run. */
  function Kept(policy: RecoveryPolicy, count: nat, attempt: Attempt): nat {
    if attempt.Runs? && attempt.elapsed >= policy.resetAfter then 0 else count
  }

  /** The turn ends in a recoverable failure, with restarts left or without. */
  predicate MayRestart(policy: RecoveryPolicy, count: nat, attempt: Attempt) {
    attempt.Runs? && attempt.exit == Recoverable && Kept(policy, count, attempt) < policy.maxRestarts
  }

  predicate OverBudget(policy: RecoveryPolicy, count: nat, attempt: Attempt) {
    attempt.Runs? && attempt.exit == Recoverable && Kept(policy, count, attempt) >= policy.maxRestarts
  }

  /** Cancelled before the build, during the run, or in the sleep before a
      restart; or the stream has ended. */
  predicate Stops(policy: RecoveryPolicy, count: nat, attempt: Attempt) {
    || attempt.CancelledFirst?
    || (attempt.Runs? && (attempt.exit == Cancelled || attempt.exit == EndOfStream))
    || (MayRestart(policy, count, attempt) && attempt.cancelled)
  }

  /** The build fails, the run fails for good, or once too often. */
  predicate Fails(policy: RecoveryPolicy, count: nat, attempt: Attempt) {
    || attempt.BuildFails?
    || (attempt.Runs? && attempt.exit == Fatal)
    || OverBudget(policy, count, attempt)
  }

  predicate Ends(policy: RecoveryPolicy, number: nat, attempts: seq<Attempt>, i: nat)
    requires i < |attempts|
  {
    var count := Counted(policy, number, attempts, i);
    Stops(policy, count, attempts[i]) || Fails(policy, count, attempts[i])
  }

  /** The i-th turn is the first that ends the supervisor. */
  ghost predicate EndsAt(policy: RecoveryPolicy, number: nat, attempts: seq<Attempt>, i: nat) {
    && i < |attempts| && Ends(policy, number, attempts, i)
    && forall j :: 0 <= j < i ==> !Ends(policy, number, attempts, j)
  }

  // ------------------------------------------------------------------
  // Statuses
  // ------------------------------------------------------------------

  /** Running, Stalled, Recovering, n times over. */
  function Rounds(n: nat): seq<TaskStatus> {
    if n == 0 then [] else [Running, Stalled, Recovering] + Rounds(n - 1)
  }

  /** What a last turn publishes: Stopped or Failed by its cause, behind the
      statuses of the run there has been. */
  function FinalWords(policy: RecoveryPolicy, count: nat, attempt: Attempt): seq<TaskStatus> {
    if !attempt.Runs? then [if attempt.CancelledFirst? then Stopped else Failed]
    else if MayRestart(policy, count, attempt) then [Running, Stalled, Recovering, Stopped]
    else [Running, if attempt.exit == Cancelled || attempt.exit == EndOfStream then Stopped else Failed]
  }

  lemma {:induction false} CountedLater(policy: RecoveryPolicy, number: nat, attempts: seq<Attempt>, i: nat)
    requires 0 < i <= |attempts|
    ensures Counted(policy, number, attempts, i)
         == Counted(policy, 1 + Kept(policy, number, attempts[0]), attempts[1..], i - 1)
    decreases i
  {
    if i == 1 {
    } else {
      CountedLater(policy, number, attempts, i - 1);
      assert attempts[1..][i - 2] == attempts[i - 1];
    }
  }

  lemma EndsLater(policy: RecoveryPolicy, number: nat, attempts: seq<Attempt>, i: nat)
    requires 0 < i < |attempts|
    ensures Ends(policy, number, attempts, i)
       <==> Ends(policy, 1 + Kept(policy, number, attempts[0]), attempts[1..], i - 1)
  {
    CountedLater(policy, number, attempts, i);
  }

  lemma NotEnding(policy: RecoveryPolicy, number: nat, attempt: Attempt)
    requires !Stops(policy, number, attempt) && !Fails(policy, number, attempt)
    ensures var (report, next) := Turn(policy, number, attempt);
      && !report.finished && next == 1 + Kept(policy, number, attempt)
      && report.trace == [Running, Stalled, Recovering] && |report.restarts| == 1
  {
    assert attempt.Runs? && attempt.exit == Recoverable;
    assert [Running, Stalled, Recovering] + [] == [Running, Stalled, Recovering];
  }

  lemma Ending(policy: RecoveryPolicy, number: nat, attempt: Attempt)
    requires Stops(policy, number, attempt) || Fails(policy, number, attempt)
    ensures var report := Turn(policy, number, attempt).0;
      && report.finished && report.trace == FinalWords(policy, number, attempt)
      && |report.restarts| == if MayRestart(policy, number, attempt) then 1 else 0
  {
    assert [Running, Stalled, Recovering] + [Stopped] == [Running, Stalled, Recovering, Stopped];
  }

  lemma MoreRounds(n: nat, words: seq<TaskStatus>)
    ensures [Running, Stalled, Recovering] + (Rounds(n) + words) == Rounds(n + 1) + words
  {
  }

  /** What a supervisor publishes when the e-th turn is the first that ends it:
      three statuses for every turn before, and then those of its last turn.
      There has been one restart for each of these turns, and one more if it
      was cancelled in the sleep before a restart. */
  lemma {:induction false} TraceExactly(policy: RecoveryPolicy, number: nat, attempts: seq<Attempt>, e: nat)
    requires EndsAt(policy, number, attempts, e)
    ensures var report, count := Supervised(policy, number, attempts), Counted(policy, number, attempts, e);
      && report.finished
      && report.trace == Rounds(e) + FinalWords(policy, count, attempts[e])
      && |report.restarts| == e + if MayRestart(policy, count, attempts[e]) then 1 else 0
    decreases e
  {
    if e == 0 {
      Ending(policy, number, attempts[0]);
      assert Rounds(0) + FinalWords(policy, number, attempts[0]) == FinalWords(policy, number, attempts[0]);
    } else {
      assert !Ends(policy, number, attempts, 0);
      NotEnding(policy, number, attempts[0]);
      var next, rest := 1 + Kept(policy, number, attempts[0]), attempts[1..];
      LaterEnd(policy, number, attempts, e);
      TraceExactly(policy, next, rest, e - 1);
      CountedLater(policy, number, attempts, e);
      MoreRounds(e - 1, FinalWords(policy, Counted(policy, number, attempts, e), attempts[e]));
    }
  }

  lemma LaterEnd(policy: RecoveryPolicy, number: nat, attempts: seq<Attempt>, e: nat)
    requires e > 0 && EndsAt(policy, number, attempts, e)
    ensures EndsAt(policy, 1 + Kept(policy, number, attempts[0]), attempts[1..], e - 1)
    ensures attempts[1..][e - 1] == attempts[e]
  {
    var next, rest := 1 + Kept(policy, number, attempts[0]), attempts[1..];
    EndsLater(policy, number, attempts, e);
    forall j | 0 <= j < e - 1 ensures !Ends(policy, next, rest, j) {
      EndsLater(policy, number, attempts, j + 1);
    }
  }

  /** As long as no turn ends it, a supervisor has published three statuses and
      made one restart a turn, and has not finished. */
  lemma {:induction false} GoesOn(policy: RecoveryPolicy, number: nat, attempts: seq<Attempt>)
    requires forall j :: 0 <= j < |attempts| ==> !Ends(policy, number, attempts, j)
    ensures var report := Supervised(policy, number, attempts);
      !report.finished && report.trace == Rounds(|attempts|) && |report.restarts| == |attempts|
    decreases |attempts|
  {
    if attempts == [] {
    } else {
      assert !Ends(policy, number, attempts, 0);
      NotEnding(policy, number, attempts[0]);
      var next, rest := 1 + Kept(policy, number, attempts[0]), attempts[1..];
      forall j | 0 <= j < |rest| ensures !Ends(policy, next, rest, j) {
        EndsLater(policy, number, attempts, j + 1);
      }
      GoesOn(policy, next, rest);
    }
  }

  /** A supervisor finishes exactly when some turn ends it. */
  lemma FinishesExactly(policy: RecoveryPolicy, attempts: seq<Attempt>)
    ensures Supervised(policy, 0, attempts).finished <==> exists e :: EndsAt(policy, 0, attempts, e)
  {
    if exists e :: EndsAt(policy, 0, attempts, e) {
      var e :| EndsAt(policy, 0, attempts, e);
      TraceExactly(policy, 0, attempts, e);
    } else {
      forall j: nat | j < |attempts| ensures !Ends(policy, 0, attempts, j) {
        if Ends(policy, 0, attempts, j) {
          var e := FirstEnd(policy, attempts, j);
        }
      }
      GoesOn(policy, 0, attempts);
    }
  }

  lemma {:induction false} FirstEnd(policy: RecoveryPolicy, attempts: seq<Attempt>, j: nat) returns (e: nat)
    requires j < |attempts| && Ends(policy, 0, attempts, j)
    ensures EndsAt(policy, 0, attempts, e)
    decreases j
  {
    e := j;
    if exists k :: 0 <= k < j && Ends(policy, 0, attempts, k) {
      var k :| 0 <= k < j && Ends(policy, 0, attempts, k);
      e := FirstEnd(policy, attempts, k);
    }
  }

  /** The last status is Stopped exactly when the turn that ended the supervisor
      was a cancellation (before the build, during the run or in the sleep) or
      the end of the stream, and Failed exactly when it was a failed build, a
      fatal exit, or a recoverable failure beyond the budget. */
  lemma EndStatusExactly(policy: RecoveryPolicy, attempts: seq<Attempt>, e: nat)
    requires EndsAt(policy, 0, attempts, e)
    ensures var trace, count := Supervised(policy, 0, attempts).trace, Counted(policy, 0, attempts, e);
      && trace != []
      && (trace[|trace| - 1] == Stopped <==> Stops(policy, count, attempts[e]))
      && (trace[|trace| - 1] == Failed <==> Fails(policy, count, attempts[e]))
  {
    TraceExactly(policy, 0, attempts, e);
    var words := FinalWords(policy, Counted(policy, 0, attempts, e), attempts[e]);
    assert (Rounds(e) + words)[|Rounds(e)| + |words| - 1] == words[|words| - 1];
  }

  // ------------------------------------------------------------------
  // The sleeps between
  // ------------------------------------------------------------------

  lemma MinScaled(m: real, a: real, most: real)
    requires m >= 1.0 && most >= 0.0
    ensures Min(m * a, most) == Min(m * Min(a, most), most)
  {
    if a < most {
    } else {
      ScaleReal(m, most, a);
      ScaleReal(most, 1.0, m);
    }
  }

  lemma FirstBackoff(policy: RecoveryPolicy)
    ensures Backoff(policy, 1) == Min(policy.initialBackoff as real, policy.maxBackoff as real)
  {
    assert Pow(policy.multiplier, 0) == 1.0;
    assert policy.initialBackoff as real * 1.0 == policy.initialBackoff as real;
  }

  lemma Reorder(a: real, m: real, p: real)
    ensures a * (m * p) == m * (a * p)
  {
  }

  lemma NextUncut(policy: RecoveryPolicy, number: nat)
    requires number >= 1
    ensures Uncut(policy, number + 1) == policy.multiplier * Uncut(policy, number)
  {
    Reorder(policy.initialBackoff as real, policy.multiplier, Pow(policy.multiplier, number - 1));
  }

  lemma NextCut(m: real, a: real, b: real, most: real)
    requires m >= 1.0 && most >= 0.0 && b == m * a
    ensures Min(b, most) == Min(m * Min(a, most), most)
  {
    MinScaled(m, a, most);
  }

  /** Each next back-off is the last times the multiplier, cut at the maximum. */
  lemma NextBackoff(policy: RecoveryPolicy, number: nat)
    requires number >= 1 && policy.multiplier >= 1.0
    ensures Backoff(policy, number + 1) == Longer(policy, Backoff(policy, number))
  {
    NextUncut(policy, number);
    NextCut(policy.multiplier, Uncut(policy, number), Uncut(policy, number + 1), policy.maxBackoff as real);
  }

  /** The sleep that follows another. */
  function Longer(policy: RecoveryPolicy, last: real): real {
    Min(policy.multiplier * last, policy.maxBackoff as real)
  }

  lemma NextSleep(policy: RecoveryPolicy, number: nat, last: real, next: real)
    requires number >= 1 && policy.multiplier >= 1.0
    requires last == Backoff(policy, number) && next == Backoff(policy, number + 1)
    ensures next == Longer(policy, last)
  {
    NextBackoff(policy, number);
  }

  lemma Numbers(policy: RecoveryPolicy, attempts: seq<Attempt>, i: nat)
    requires policy.multiplier >= 1.0 && i < |Supervised(policy, 0, attempts).restarts|
    ensures var restarts := Supervised(policy, 0, attempts).restarts;
      && restarts[i].number >= 1 && restarts[i].backoff == Backoff(policy, restarts[i].number)
      && restarts[i].number ==
           if i == 0 || restarts[i].elapsed >= policy.resetAfter then 1 else restarts[i - 1].number + 1
  {
    var restarts := Supervised(policy, 0, attempts).restarts;
    RestartsBackOff(policy, 0, attempts);
    BackoffAt(policy, 0, restarts, i);
    if i > 0 {
      BackoffAt(policy, 0, restarts, i - 1);
    }
  }

  /** The sleeps of a supervised run: each restart after a run of at least
      reset_after sleeps for the initial back-off, and each other one for the
      multiple of the sleep before it, never more than the maximum. */
  lemma SleepsExactly(policy: RecoveryPolicy, attempts: seq<Attempt>, i: nat)
    requires policy.multiplier >= 1.0 && i < |Supervised(policy, 0, attempts).restarts|
    ensures var restarts, most := Supervised(policy, 0, attempts).restarts, policy.maxBackoff as real;
      restarts[i].backoff ==
        if i == 0 || restarts[i].elapsed >= policy.resetAfter then Min(policy.initialBackoff as real, most)
        else Longer(policy, restarts[i - 1].backoff)
  {
    var restarts := Supervised(policy, 0, attempts).restarts;
    Numbers(policy, attempts, i);
    if i == 0 || restarts[i].elapsed >= policy.resetAfter {
      FirstBackoff(policy);
    } else {
      Numbers(policy, attempts, i - 1);
      NextSleep(policy, restarts[i - 1].number, restarts[i - 1].backoff, restarts[i].backoff);
    }
  }
}
