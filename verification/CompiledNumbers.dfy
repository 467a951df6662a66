/** The numbers a manifest compiles to: the memory it asks for, the times it
    waits, and the names it draws. */
module CompiledNumbers {
  import opened Common
  import opened Manifest
  import opened Capabilities
  import opened Compiler
  import opened CompilerResults
  import opened Supervisor
  import opened SupervisorEnds
  import Overlay
  import Template

  // ------------------------------------------------------------------
  // Memory
  // ------------------------------------------------------------------

  /** The size of a pipeline's buffers, in bytes. */
  function SizeAsked(p: PipelineNode): nat {
    if p.network.Some? then p.network.value.packetSizeLimit else 2048
  }

  function BuffersAsked(p: PipelineNode): nat {
    match p.strategy
    case Passthrough => 100
    case Transcode => 64
    case HardwareDecode => 32
  }

  /** A pipeline's pool, its buffers outside the pool, and its watchdog. */
  lemma MemoryOfPipeline(p: PipelineNode, variables: Variables)
    requires CompilePipeline(p, variables).Ok?
    ensures var c := CompilePipeline(p, variables).value;
      && TruePoolOf(c) == Product(SizeAsked(p), BuffersAsked(p))
      && TrueBackendOf(c) ==
           (if p.inputType == Rtsp then 128 * SizeAsked(p)
            else if p.backend == Some(Libcamera) then 49_766_400 else 33_228_800)
      && c.watchdogTimeout == if p.network.Some? then p.network.value.stallTimeout else 10_000
  {
  }

  /** The limit is that for contiguous memory, else that for media, else zero:
      then no pipeline with a pool compiles. */
  lemma LimitOfGraph(m: Manifest, host: Option<Host>, variables: Variables, g: Graph)
    requires Compiled(m, host, variables) == Ok(g)
    ensures m.cmaLimit.Some? ==> g.limit == m.cmaLimit.value
    ensures m.cmaLimit == None && m.mediaLimit.Some? ==> g.limit == m.mediaLimit.value
    ensures m.cmaLimit == None && m.mediaLimit == None ==> g.limit == 0
    ensures g.target == m.target && g.plan.limit == g.limit && g.plan.poolBytes <= g.limit
  {
    CompiledParts(m, host, variables, g);
  }

  // ------------------------------------------------------------------
  // Recovery
  // ------------------------------------------------------------------

  /** The sleeps of a pipeline that keeps failing, in milliseconds. */
  function SleepsOf(p: PipelineNode): seq<real> {
    if p.strategy == HardwareDecode then [2_000.0, 4_000.0, 8_000.0]
    else if p.inputType == Rtsp then [250.0, 500.0, 1_000.0, 2_000.0, 4_000.0]
    else [1_000.0, 2_000.0, 4_000.0]
  }

  /** How long a run must last to count as a recovery, in milliseconds. */
  function RecoveredAfter(p: PipelineNode): nat {
    if p.strategy == HardwareDecode then 120_000 else if p.inputType == Rtsp then 30_000 else 60_000
  }

  /** Every run fails recoverably, none is that long, and nothing is cancelled. */
  ghost predicate KeepsFailing(p: PipelineNode, attempts: seq<Attempt>) {
    forall i :: 0 <= i < |attempts| ==>
      attempts[i].Runs? && attempts[i].exit == Recoverable && attempts[i].elapsed < RecoveredAfter(p) && !attempts[i].cancelled
  }

  lemma PolicyNumbers(p: PipelineNode)
    ensures var policy := RecoveryPolicyFor(p);
      && policy.maxRestarts == |SleepsOf(p)| && policy.resetAfter == RecoveredAfter(p) && policy.multiplier == 2.0
      && policy.initialBackoff as real == SleepsOf(p)[0] && policy.initialBackoff < policy.maxBackoff
      && forall i :: 0 <= i < |SleepsOf(p)| ==> SleepsOf(p)[i] < policy.maxBackoff as real
  {
  }

  lemma SleepsDouble(p: PipelineNode, i: nat)
    requires 0 < i < |SleepsOf(p)|
    ensures SleepsOf(p)[i] == 2.0 * SleepsOf(p)[i - 1]
  {
  }

  lemma {:induction false} CountedFailures(p: PipelineNode, attempts: seq<Attempt>, i: nat)
    requires KeepsFailing(p, attempts) && i <= |attempts|
    ensures Counted(RecoveryPolicyFor(p), 0, attempts, i) == i
    decreases i
  {
    PolicyNumbers(p);
    if i == 0 {
    } else {
      CountedFailures(p, attempts, i - 1);
      assert attempts[i - 1].elapsed < RecoveredAfter(p);
    }
  }

  lemma LastFailureEnds(p: PipelineNode, attempts: seq<Attempt>)
    requires KeepsFailing(p, attempts) && |attempts| == |SleepsOf(p)| + 1
    ensures EndsAt(RecoveryPolicyFor(p), 0, attempts, |SleepsOf(p)|)
    ensures OverBudget(RecoveryPolicyFor(p), |SleepsOf(p)|, attempts[|SleepsOf(p)|])
    ensures Counted(RecoveryPolicyFor(p), 0, attempts, |SleepsOf(p)|) == |SleepsOf(p)|
  {
    var n, policy := |SleepsOf(p)|, RecoveryPolicyFor(p);
    PolicyNumbers(p);
    CountedFailures(p, attempts, n);
    forall j | 0 <= j < n ensures !Ends(policy, 0, attempts, j) {
      CountedFailures(p, attempts, j);
      assert MayRestart(policy, j, attempts[j]);
    }
  }

  lemma {:induction false} SleepAt(p: PipelineNode, attempts: seq<Attempt>, i: nat)
    requires KeepsFailing(p, attempts) && i < |SleepsOf(p)|
    requires i < |Supervised(RecoveryPolicyFor(p), 0, attempts).restarts|
    requires forall k :: 0 <= k < |Supervised(RecoveryPolicyFor(p), 0, attempts).restarts| ==>
      Supervised(RecoveryPolicyFor(p), 0, attempts).restarts[k].elapsed < RecoveredAfter(p)
    ensures Supervised(RecoveryPolicyFor(p), 0, attempts).restarts[i].backoff == SleepsOf(p)[i]
  {
    var policy := RecoveryPolicyFor(p);
    PolicyNumbers(p);
    SleepsExactly(policy, attempts, i);
    if i == 0 {
    } else {
      SleepAt(p, attempts, i - 1);
      SleepsDouble(p, i);
      assert Longer(policy, SleepsOf(p)[i - 1]) == Min(2.0 * SleepsOf(p)[i - 1], policy.maxBackoff as real);
    }
  }

  lemma {:induction false} RestartsWereShort(policy: RecoveryPolicy, number: nat, attempts: seq<Attempt>, limit: nat, k: nat)
    requires forall i :: 0 <= i < |attempts| ==> attempts[i].Runs? && attempts[i].elapsed < limit
    requires k < |Supervised(policy, number, attempts).restarts|
    ensures Supervised(policy, number, attempts).restarts[k].elapsed < limit
    decreases |attempts|
  {
    var (report, next) := Turn(policy, number, attempts[0]);
    if report.finished || k < |report.restarts| {
    } else {
      RestartsWereShort(policy, next, attempts[1..], limit, k - |report.restarts|);
    }
  }

  /** A pipeline that keeps failing sleeps for these times, one after the other,
      and then fails for good. */
  lemma GivesUpAfterItsSleeps(p: PipelineNode, attempts: seq<Attempt>)
    requires KeepsFailing(p, attempts) && |attempts| == |SleepsOf(p)| + 1
    ensures var report := Supervised(RecoveryPolicyFor(p), 0, attempts);
      && report.finished && report.trace != [] && report.trace[|report.trace| - 1] == Failed
      && |report.restarts| == |SleepsOf(p)|
      && forall i :: 0 <= i < |SleepsOf(p)| ==> report.restarts[i].backoff == SleepsOf(p)[i]
  {
    var policy, n := RecoveryPolicyFor(p), |SleepsOf(p)|;
    LastFailureEnds(p, attempts);
    TraceExactly(policy, 0, attempts, n);
    EndStatusExactly(policy, attempts, n);
    var restarts := Supervised(policy, 0, attempts).restarts;
    forall k | 0 <= k < |restarts| ensures restarts[k].elapsed < RecoveredAfter(p) {
      RestartsWereShort(policy, 0, attempts, RecoveredAfter(p), k);
    }
    forall i | 0 <= i < n ensures restarts[i].backoff == SleepsOf(p)[i] {
      SleepAt(p, attempts, i);
    }
  }

  /** After a run that long it never gives up: the failure is the first again. */
  lemma LongRunsRecover(p: PipelineNode, count: nat, elapsed: nat)
    requires elapsed >= RecoveredAfter(p)
    ensures MayRestart(RecoveryPolicyFor(p), count, Runs(Recoverable, elapsed, false))
  {
    PolicyNumbers(p);
  }

  // ------------------------------------------------------------------
  // Names
  // ------------------------------------------------------------------

  /** An overlay that draws its camera's name draws the pipeline's own id,
      whatever the caller says. */
  lemma OverlayDrawsTheId(p: PipelineNode, variables: Variables, i: nat)
    requires CompilePipeline(p, variables).Ok? && p.overlay.Some? && i < |p.overlay.value|
    requires p.overlay.value[i].Text? && p.overlay.value[i].text == "{camera_id}"
    ensures var c := CompilePipeline(p, variables).value;
      && c.overlay.Some? && |c.overlay.value| == |p.overlay.value|
      && c.overlay.value[i].Text? && c.overlay.value[i].text == p.id
  {
    var layers, own := p.overlay.value, Template.VariablesFor(p.id, variables);
    LayersInOrder(layers, own);
    Template.NamesStandForTheId(p.id, variables, [], [], "camera_id");
    assert "{" + ([] + "camera_id" + []) + "}" == "{camera_id}";
    assert CompileLayer(layers[i], own).Ok?;
  }
}
