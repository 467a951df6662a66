/** What can be relied on when a manifest compiles, and exactly when it does. */
module CompilerResults {
  import opened Common
  import opened Manifest
  import opened Capabilities
  import opened Compiler
  import Template
  import Supervisor
  import StatusBoard

  // ------------------------------------------------------------------
  // Pipelines
  // ------------------------------------------------------------------

  lemma {:induction false} CollectedExactly<T, E>(results: seq<Result<T, E>>, n: nat)
    requires n <= |results|
    ensures Collected(results, n).Ok? <==> forall i :: 0 <= i < n ==> results[i].Ok?
    ensures Collected(results, n).Ok? ==> |Collected(results, n).value| == n
    ensures Collected(results, n).Ok? ==> forall i :: 0 <= i < n ==> results[i] == Ok(Collected(results, n).value[i])
  {
    if n == 0 {
    } else {
      CollectedExactly(results, n - 1);
    }
  }

  lemma {:induction false} FirstError<T, E>(results: seq<Result<T, E>>, n: nat) returns (i: nat)
    requires n <= |results| && Collected(results, n).Err?
    ensures i < n && Collected(results, i).Ok? && results[i] == Err(Collected(results, n).error)
  {
    if Collected(results, n - 1).Err? {
      i := FirstError(results, n - 1);
    } else {
      i := n - 1;
    }
  }

  /** A manifest's pipelines compile exactly when each does given those before
      it, and then in manifest order. */
  lemma AllCompileExactly(m: Manifest, host: Option<Host>, variables: Variables)
    ensures var r := CompiledPipelines(m, host, variables);
      && (r.Ok? <==> forall i :: 0 <= i < |m.pipelines| ==> CompileOne(m, host, variables, i).Ok?)
      && (r.Ok? ==> |r.value| == |m.pipelines|)
      && (r.Ok? ==> forall i :: 0 <= i < |m.pipelines| ==> CompileOne(m, host, variables, i) == Ok(r.value[i]))
  {
    var outcomes := Outcomes(m, host, variables);
    CollectedExactly(outcomes, |m.pipelines|);
    forall i | 0 <= i < |m.pipelines| ensures outcomes[i] == CompileOne(m, host, variables, i) {
    }
  }

  /** An error is that of the first pipeline at fault. */
  lemma ErrorOfTheFirst(m: Manifest, host: Option<Host>, variables: Variables) returns (i: nat)
    requires CompiledPipelines(m, host, variables).Err?
    ensures i < |m.pipelines|
    ensures CompileOne(m, host, variables, i) == Err(CompiledPipelines(m, host, variables).error)
    ensures forall j :: 0 <= j < i ==> CompileOne(m, host, variables, j).Ok?
  {
    var outcomes := Outcomes(m, host, variables);
    i := FirstError(outcomes, |m.pipelines|);
    CollectedExactly(outcomes, i);
    forall j | 0 <= j < i ensures CompileOne(m, host, variables, j).Ok? {
      assert outcomes[j].Ok?;
    }
  }

  /** Overlay layers compile one by one and stay in manifest order. */
  lemma {:induction false} LayersInOrder(layers: seq<OverlayLayer>, variables: Variables)
    ensures var r := CompileLayers(layers, variables);
      && (r.Ok? <==> forall i :: 0 <= i < |layers| ==> CompileLayer(layers[i], variables).Ok?)
      && (r.Ok? ==> |r.value| == |layers|)
      && (r.Ok? ==> forall i :: 0 <= i < |layers| ==> CompileLayer(layers[i], variables) == Ok(r.value[i]))
  {
    if layers == [] {
    } else {
      LayersInOrder(layers[1..], variables);
      var r, rest := CompileLayers(layers, variables), CompileLayers(layers[1..], variables);
      assert forall i :: 0 < i < |layers| ==> layers[i] == layers[1..][i - 1];
      if forall i :: 0 <= i < |layers| ==> CompileLayer(layers[i], variables).Ok? {
        assert forall i :: 0 <= i < |layers[1..]| ==> layers[1..][i] == layers[i + 1];
      }
      assert r.Ok? ==> forall i :: 0 < i < |layers| ==> r.value[i] == rest.value[i - 1];
    }
  }

  lemma CompiledId(p: PipelineNode, variables: Variables)
    requires CompilePipeline(p, variables).Ok?
    ensures CompilePipeline(p, variables).value.id == p.id
    ensures CompilePipeline(p, variables).value.requirements == RequirementsFor(p)
    ensures CompilePipeline(p, variables).value.recovery == RecoveryPolicyFor(p)
  {
  }

  lemma OneCompiles(m: Manifest, host: Option<Host>, variables: Variables, i: nat)
    requires i < |m.pipelines| && CompileOne(m, host, variables, i).Ok?
    ensures m.pipelines[i].id !in SeenIds(m, i) && ValidatePipeline(m.target, m.pipelines[i], host) == None
    ensures CompilePipeline(m.pipelines[i], variables) == CompileOne(m, host, variables, i)
  {
  }

  lemma CompiledParts(m: Manifest, host: Option<Host>, variables: Variables, g: Graph)
    ensures Compiled(m, host, variables) == Ok(g) <==>
      && (host.Some? ==> !WrongModel(m.target, host.value))
      && CompiledPipelines(m, host, variables) == Ok(g.pipelines)
      && Planned(m, g.pipelines, U64_MAX) == Ok(g)
  {
  }

  /** The pipelines of a graph are those of the manifest, and their ids are
      distinct. */
  lemma GraphKeepsPipelines(m: Manifest, host: Option<Host>, variables: Variables, g: Graph, i: nat)
    requires Compiled(m, host, variables) == Ok(g) && i < |m.pipelines|
    ensures |g.pipelines| == |m.pipelines|
    ensures CompilePipeline(m.pipelines[i], variables) == Ok(g.pipelines[i])
    ensures g.pipelines[i].id == m.pipelines[i].id
    ensures ValidatePipeline(m.target, m.pipelines[i], host) == None
    ensures forall j :: 0 <= j < i ==> m.pipelines[j].id != m.pipelines[i].id
  {
    CompiledParts(m, host, variables, g);
    AllCompileExactly(m, host, variables);
    assert CompileOne(m, host, variables, i) == Ok(g.pipelines[i]);
    OneCompiles(m, host, variables, i);
    CompiledId(m.pipelines[i], variables);
    forall j | 0 <= j < i ensures m.pipelines[j].id != m.pipelines[i].id {
      assert m.pipelines[j].id in SeenIds(m, i);
    }
  }

  lemma SameLength(m: Manifest, host: Option<Host>, variables: Variables, g: Graph)
    requires Compiled(m, host, variables) == Ok(g)
    ensures |g.pipelines| == |m.pipelines|
  {
    CompiledParts(m, host, variables, g);
    AllCompileExactly(m, host, variables);
  }

  lemma DistinctIds(m: Manifest, host: Option<Host>, variables: Variables, g: Graph, i: nat, j: nat)
    requires Compiled(m, host, variables) == Ok(g) && i < j < |g.pipelines|
    ensures g.pipelines[i].id != g.pipelines[j].id
  {
    SameLength(m, host, variables, g);
    GraphKeepsPipelines(m, host, variables, g, i);
    GraphKeepsPipelines(m, host, variables, g, j);
  }

  /** A compiled graph is a fit start for the engine's status board. */
  lemma GraphStartsBoard(m: Manifest, host: Option<Host>, variables: Variables, g: Graph) returns (board: StatusBoard.State)
    requires Compiled(m, host, variables) == Ok(g)
    ensures StatusBoard.Initial(board)
    ensures |board.ids| == |g.pipelines| && forall i :: 0 <= i < |g.pipelines| ==> board.ids[i] == g.pipelines[i].id
  {
    var ids := seq(|g.pipelines|, i requires 0 <= i < |g.pipelines| => g.pipelines[i].id);
    forall i, j | 0 <= i < j < |ids| ensures ids[i] != ids[j] {
      DistinctIds(m, host, variables, g, i, j);
    }
    board := StatusBoard.Start(ids);
  }

  /** The compiled policy is one of three. */
  lemma PolicyIsSane(p: PipelineNode)
    ensures var policy := RecoveryPolicyFor(p);
      && policy.multiplier == 2.0 && policy.resetAfter >= 30_000
      && 250 <= policy.initialBackoff <= policy.maxBackoff <= 60_000
  {
  }

  lemma PolicyOfCompiled(m: Manifest, host: Option<Host>, variables: Variables, g: Graph, i: nat)
    requires Compiled(m, host, variables) == Ok(g) && i < |g.pipelines|
    ensures |g.pipelines| == |m.pipelines| && g.pipelines[i].recovery == RecoveryPolicyFor(m.pipelines[i])
  {
    SameLength(m, host, variables, g);
    GraphKeepsPipelines(m, host, variables, g, i);
    CompiledId(m.pipelines[i], variables);
  }

  lemma PolicyBounds(policy: Supervisor.RecoveryPolicy, attempts: seq<Supervisor.Attempt>, k: nat)
    requires policy.multiplier == 2.0 && policy.resetAfter > 0 && policy.initialBackoff <= policy.maxBackoff
    ensures var restarts := Supervisor.Supervised(policy, 0, attempts).restarts;
      && |restarts| <= policy.maxRestarts * (1 + Supervisor.RunTime(attempts) / policy.resetAfter)
      && (k < |restarts| ==> policy.initialBackoff as real <= restarts[k].backoff <= policy.maxBackoff as real)
  {
    var restarts := Supervisor.Supervised(policy, 0, attempts).restarts;
    Supervisor.RestartBound(policy, attempts);
    if k < |restarts| {
      Supervisor.RestartsBackOff(policy, 0, attempts);
      Supervisor.BackoffAt(policy, 0, restarts, k);
      Supervisor.BackoffAtLeast(policy, restarts[k].number);
    }
  }

  /** Under its compiled policy a pipeline restarts at most max_restarts times,
      and as often again for each reset period it has been running, and sleeps
      between 250 milliseconds and a minute before each restart. */
  lemma CompiledPolicyBounds(m: Manifest, host: Option<Host>, variables: Variables, g: Graph, i: nat,
                             attempts: seq<Supervisor.Attempt>, k: nat)
    requires Compiled(m, host, variables) == Ok(g) && i < |g.pipelines|
    ensures var policy := g.pipelines[i].recovery;
      var restarts := Supervisor.Supervised(policy, 0, attempts).restarts;
      && policy.resetAfter > 0
      && |restarts| <= policy.maxRestarts * (1 + Supervisor.RunTime(attempts) / policy.resetAfter)
      && (k < |restarts| ==> 250.0 <= restarts[k].backoff <= 60_000.0)
  {
    PolicyOfCompiled(m, host, variables, g, i);
    PolicyIsSane(m.pipelines[i]);
    PolicyBounds(g.pipelines[i].recovery, attempts, k);
  }

  // ------------------------------------------------------------------
  // Memory
  // ------------------------------------------------------------------

  /** The memory really asked for. */
  function TruePoolOf(p: CompiledPipeline): nat {
    Product(p.bufferSize, p.bufferCount)
  }

  function Product(a: nat, b: nat): nat {
    a * b
  }

  function TrueBackendOf(p: CompiledPipeline): nat {
    match p.backend
    case FfmpegRtsp => 128 * p.bufferSize
    case LibcameraDevice => 49_766_400
    case _ => 33_228_800
  }

  function Sum(terms: seq<nat>, n: nat): nat
    requires n <= |terms|
  {
    if n == 0 then 0 else Sum(terms, n - 1) + terms[n - 1]
  }

  function TruePool(pipelines: seq<CompiledPipeline>): nat {
    Sum(seq(|pipelines|, i requires 0 <= i < |pipelines| => TruePoolOf(pipelines[i])), |pipelines|)
  }

  function TrueBackend(pipelines: seq<CompiledPipeline>): nat {
    Sum(seq(|pipelines|, i requires 0 <= i < |pipelines| => TrueBackendOf(pipelines[i])), |pipelines|)
  }

  lemma {:induction false} SaturatingSumIsClamped(cut: seq<nat>, terms: seq<nat>, n: nat, max: nat)
    requires |cut| == |terms| && n <= |terms|
    requires forall i :: 0 <= i < |terms| ==> cut[i] == Clamp(terms[i], max) || cut[i] == terms[i]
    ensures SaturatingSum(cut, n, max) == Clamp(Sum(terms, n), max)
  {
    if n == 0 {
    } else {
      SaturatingSumIsClamped(cut, terms, n - 1, max);
    }
  }

  lemma PoolBytes(p: CompiledPipeline, max: nat)
    ensures PoolPlanOf(p, max).bytes == Clamp(TruePoolOf(p), max)
  {
  }

  lemma BackendBytes(p: CompiledPipeline, max: nat)
    ensures BackendEstimate(p, max) == Clamp(TrueBackendOf(p), max) || BackendEstimate(p, max) == TrueBackendOf(p)
  {
  }

  lemma PoolIsClamped(pipelines: seq<CompiledPipeline>, max: nat)
    ensures SaturatingSum(PoolTerms(pipelines, max), |pipelines|, max) == Clamp(TruePool(pipelines), max)
  {
    var n := |pipelines|;
    var terms := seq(n, i requires 0 <= i < n => TruePoolOf(pipelines[i]));
    forall i | 0 <= i < n ensures PoolTerms(pipelines, max)[i] == Clamp(terms[i], max) {
      PoolBytes(pipelines[i], max);
    }
    SaturatingSumIsClamped(PoolTerms(pipelines, max), terms, n, max);
    assert terms == seq(|pipelines|, i requires 0 <= i < |pipelines| => TruePoolOf(pipelines[i]));
  }

  lemma BackendIsClamped(pipelines: seq<CompiledPipeline>, max: nat)
    ensures SaturatingSum(BackendTerms(pipelines, max), |pipelines|, max) == Clamp(TrueBackend(pipelines), max)
  {
    var n := |pipelines|;
    var terms := seq(n, i requires 0 <= i < n => TrueBackendOf(pipelines[i]));
    forall i | 0 <= i < n
      ensures BackendTerms(pipelines, max)[i] == Clamp(terms[i], max) || BackendTerms(pipelines, max)[i] == terms[i]
    {
      BackendBytes(pipelines[i], max);
    }
    SaturatingSumIsClamped(BackendTerms(pipelines, max), terms, n, max);
    assert terms == seq(|pipelines|, i requires 0 <= i < |pipelines| => TrueBackendOf(pipelines[i]));
  }

  lemma ClampedTerms(a: nat, b: nat, max: nat)
    ensures Clamp(Clamp(a, max) + Clamp(b, max), max) == Clamp(a + b, max)
  {
  }

  lemma ClampedOver(n: nat, limit: nat, max: nat)
    ensures Clamp(n, max) > limit <==> limit < max && n > limit
  {
  }

  /** No saturation is ever visible: the plan reports the true sums, cut at the
      largest 64-bit number; it is refused exactly when the limit is below that
      number and below the memory the pools really ask for, and it carries the
      warning exactly when pools and backends together really ask for more. */
  lemma PlanIsExact(m: Manifest, pipelines: seq<CompiledPipeline>, max: nat)
    ensures var limit, r, pool, backend := LimitOf(m), Planned(m, pipelines, max), TruePool(pipelines), TrueBackend(pipelines);
      && (r.Err? <==> limit < max && pool > limit)
      && (r.Err? ==> r.error == ResourceLimitExceeded(limit, Clamp(pool, max)))
      && (r.Ok? ==> r.value.plan.poolBytes == Clamp(pool, max) && r.value.plan.backendBytes == Clamp(backend, max))
      && (r.Ok? ==> (r.value.plan.highMemoryUsage <==> limit < max && pool + backend > limit))
  {
    var pool, backend := TruePool(pipelines), TrueBackend(pipelines);
    PoolIsClamped(pipelines, max);
    BackendIsClamped(pipelines, max);
    ClampedOver(pool, LimitOf(m), max);
    ClampedTerms(pool, backend, max);
    ClampedOver(pool + backend, LimitOf(m), max);
  }

  lemma {:induction false} LayerErrors(layers: seq<OverlayLayer>, variables: Variables)
    ensures CompileLayers(layers, variables).Err? ==> CompileLayers(layers, variables).error.InvalidTemplate?
  {
    if layers == [] {
    } else {
      LayerErrors(layers[1..], variables);
    }
  }

  lemma PipelineErrors(m: Manifest, host: Option<Host>, variables: Variables, i: nat)
    requires i < |m.pipelines|
    ensures var r := CompileOne(m, host, variables, i); r.Err? ==> !r.error.ResourceLimitExceeded?
  {
    var p := m.pipelines[i];
    if p.overlay.Some? {
      LayerErrors(p.overlay.value, Template.VariablesFor(p.id, variables));
    }
  }

  /** Compilation reports that the limit is exceeded exactly when everything
      else is in order and the pools really ask for more than the limit. */
  lemma LimitExceededExactly(m: Manifest, host: Option<Host>, variables: Variables)
    ensures var r, checked := Compiled(m, host, variables), CompiledPipelines(m, host, variables);
      r.Err? && r.error.ResourceLimitExceeded? <==>
        && (host.Some? ==> !WrongModel(m.target, host.value))
        && checked.Ok?
        && LimitOf(m) < U64_MAX
        && TruePool(checked.value) > LimitOf(m)
  {
    var checked := CompiledPipelines(m, host, variables);
    if checked.Ok? {
      PlanIsExact(m, checked.value, U64_MAX);
    } else {
      var i := ErrorOfTheFirst(m, host, variables);
      PipelineErrors(m, host, variables, i);
    }
  }

  // ------------------------------------------------------------------
  // Hosts
  // ------------------------------------------------------------------

  /** What a pipeline asks of its host, listed in its requirements or not. */
  predicate Serves(target: HardwareTarget, p: PipelineNode, host: Host) {
    && (forall r :: r in RequirementsFor(p) ==> Has(host, r))
    && (target == RaspberryPi4 && AsksForHardwareEncoder(p) ==> Has(host, NeedsPi4HardwareEncoder))
  }

  predicate Fits(m: Manifest, host: Host) {
    && !WrongModel(m.target, host)
    && forall i :: 0 <= i < |m.pipelines| ==> Serves(m.target, m.pipelines[i], host)
  }

  lemma ValidOnHost(target: HardwareTarget, p: PipelineNode, host: Host)
    ensures ValidatePipeline(target, p, Some(host)) == None
       <==> ValidatePipeline(target, p, None) == None && Serves(target, p, host)
  {
    if p.strategy == HardwareDecode {
      assert NeedsPi5StatelessDecoder in RequirementsFor(p);
    }
  }

  lemma CompileOneOnHost(m: Manifest, host: Host, variables: Variables, i: nat)
    requires i < |m.pipelines|
    ensures var probed, unchecked := CompileOne(m, Some(host), variables, i), CompileOne(m, None, variables, i);
      && (probed.Ok? <==> unchecked.Ok? && Serves(m.target, m.pipelines[i], host))
      && (probed.Ok? ==> probed == unchecked)
  {
    ValidOnHost(m.target, m.pipelines[i], host);
  }

  lemma SamePipelines(m: Manifest, host: Host, variables: Variables)
    ensures var probed, unchecked := CompiledPipelines(m, Some(host), variables),
                                     CompiledPipelines(m, None, variables);
      && (probed.Ok? <==>
           unchecked.Ok? && forall i :: 0 <= i < |m.pipelines| ==> Serves(m.target, m.pipelines[i], host))
      && (probed.Ok? ==> probed == unchecked)
  {
    var probed, unchecked := CompiledPipelines(m, Some(host), variables),
                             CompiledPipelines(m, None, variables);
    AllCompileExactly(m, Some(host), variables);
    AllCompileExactly(m, None, variables);
    forall i | 0 <= i < |m.pipelines|
      ensures CompileOne(m, Some(host), variables, i).Ok? <==>
        CompileOne(m, None, variables, i).Ok? && Serves(m.target, m.pipelines[i], host)
      ensures CompileOne(m, Some(host), variables, i).Ok? ==>
        CompileOne(m, Some(host), variables, i) == CompileOne(m, None, variables, i)
    {
      CompileOneOnHost(m, host, variables, i);
    }
    if probed.Ok? {
      forall i | 0 <= i < |m.pipelines| ensures probed.value[i] == unchecked.value[i] {
        assert CompileOne(m, Some(host), variables, i) == CompileOne(m, None, variables, i);
      }
      assert probed.value == unchecked.value;
    }
  }

  /** Probing the host only ever rejects: a manifest compiles on a host exactly
      when it compiles unchecked and the host fits it, and to the same graph. */
  lemma ProbedExactly(m: Manifest, host: Host, variables: Variables, g: Graph)
    ensures Compiled(m, Some(host), variables) == Ok(g) <==> Compiled(m, None, variables) == Ok(g) && Fits(m, host)
  {
    SamePipelines(m, host, variables);
    CompiledParts(m, Some(host), variables, g);
    CompiledParts(m, None, variables, g);
  }

  /** Every requirement listed in a graph compiled with a probe is met. */
  lemma ListedRequirementsMet(m: Manifest, host: Host, variables: Variables, g: Graph, i: nat, r: Requirement)
    requires Compiled(m, Some(host), variables) == Ok(g) && i < |g.pipelines|
    requires r in g.pipelines[i].requirements
    ensures Has(host, r)
  {
    SameLength(m, Some(host), variables, g);
    GraphKeepsPipelines(m, Some(host), variables, g, i);
    CompiledId(m.pipelines[i], variables);
    ProbedExactly(m, host, variables, g);
    assert Serves(m.target, m.pipelines[i], host);
  }

  /** What a pipeline needs, requirement by requirement. */
  predicate Needs(p: PipelineNode, r: Requirement) {
    match r
    case NeedsFfmpeg => p.inputType == Rtsp || p.backend == Some(Ffmpeg)
    case NeedsV4l2 => p.inputType == Device && p.backend == Some(V4l2)
    case NeedsLibcamera => p.inputType == Device && p.backend == Some(Libcamera)
    case NeedsRtpPacketization => exists output :: output in p.outputs && output.WebrtcRtp?
    case NeedsPi4HardwareEncoder => p.strategy == Transcode && AsksForHardwareEncoder(p)
    case NeedsPi5StatelessDecoder => p.strategy == HardwareDecode
    case NeedsDrawText => UsesText(p)
    case _ => UsesWatermark(p)
  }

  lemma {:induction false} RtpOutputs(outputs: seq<OutputProfile>, r: Requirement)
    ensures r in OutputRequirements(outputs)
       <==> r == NeedsRtpPacketization && exists output :: output in outputs && output.WebrtcRtp?
  {
    if outputs == [] {
    } else {
      RtpOutputs(outputs[..|outputs| - 1], r);
      assert outputs == outputs[..|outputs| - 1] + [outputs[|outputs| - 1]];
    }
  }

  /** The list of requirements holds what the pipeline needs and no more. */
  lemma RequirementsExactly(p: PipelineNode, r: Requirement)
    ensures r in RequirementsFor(p) <==> Needs(p, r)
  {
    RtpOutputs(p.outputs, r);
    InputNeeds(p, r);
  }

  lemma InputNeeds(p: PipelineNode, r: Requirement)
    ensures r in InputRequirements(p) <==> (r == NeedsFfmpeg || r == NeedsV4l2 || r == NeedsLibcamera) && Needs(p, r)
  {
  }

  /** The hardware guardrails: no pipeline compiled for a Raspberry Pi 5 encodes
      in hardware, and with a probe hardware is used only where it was found. */
  lemma GuardrailsHold(m: Manifest, host: Option<Host>, variables: Variables, g: Graph, i: nat)
    requires Compiled(m, host, variables) == Ok(g) && i < |g.pipelines|
    ensures g.pipelines[i].codecPath == HardwareTranscode ==> m.target != RaspberryPi5
    ensures g.pipelines[i].codecPath == HardwareTranscode && host.Some? ==> host.value.pi4H264Encoder
    ensures g.pipelines[i].codecPath == HardwareDecodePath && host.Some? ==> host.value.pi5StatelessDecoder
    ensures host.Some? && m.target == RaspberryPi4 ==> host.value.piModel != Some(Pi5)
    ensures host.Some? && m.target == RaspberryPi5 ==> host.value.piModel != Some(Pi4)
  {
    SameLength(m, host, variables, g);
    GraphKeepsPipelines(m, host, variables, g, i);
    CompiledParts(m, host, variables, g);
    PathOfCompiled(m.pipelines[i], variables);
    RequirementsExactly(m.pipelines[i], NeedsPi4HardwareEncoder);
    RequirementsExactly(m.pipelines[i], NeedsPi5StatelessDecoder);
  }

  lemma PathOfCompiled(p: PipelineNode, variables: Variables)
    requires CompilePipeline(p, variables).Ok?
    ensures var c := CompilePipeline(p, variables).value;
      && c.codecPath == ResolveCodecPath(p) && c.strategy == p.strategy && c.network == p.network
      && c.processing == p.processing && (c.overlay.Some? <==> p.overlay.Some?)
      && (c.mode == EncodedPackets <==> p.strategy == Passthrough)
  {
  }

  /** A compiled pipeline passes packets through exactly when it has no
      processing, and then it has a network profile and no overlay. */
  lemma ShapeOfCompiled(m: Manifest, host: Option<Host>, variables: Variables, g: Graph, i: nat)
    requires Compiled(m, host, variables) == Ok(g) && i < |g.pipelines|
    ensures var c := g.pipelines[i];
      && (c.mode == EncodedPackets <==> c.processing.None?)
      && (c.mode == EncodedPackets <==> c.codecPath == PassthroughPath)
      && (c.mode == EncodedPackets ==> c.network.Some? && c.overlay.None?)
  {
    SameLength(m, host, variables, g);
    GraphKeepsPipelines(m, host, variables, g, i);
    PathOfCompiled(m.pipelines[i], variables);
  }

  /** The converse fails for one kind of pipeline and no other: on a Raspberry
      Pi 4 a hardware_decode pipeline with a hardware encoder needs the encoder
      without listing it. */
  lemma UnlistedExactly(target: HardwareTarget, p: PipelineNode)
    requires ValidatePipeline(target, p, None) == None
    ensures (exists host :: (forall r :: r in RequirementsFor(p) ==> Has(host, r))
                            && ValidatePipeline(target, p, Some(host)) != None)
       <==> target == RaspberryPi4 && p.strategy == HardwareDecode && AsksForHardwareEncoder(p)
  {
    var host := Host(true, true, true, true, None, false, true, true, true, true, true);
    ValidOnHost(target, p, host);
    RequirementsExactly(p, NeedsPi4HardwareEncoder);
    if target == RaspberryPi4 && p.strategy == HardwareDecode && AsksForHardwareEncoder(p) {
      forall r | r in RequirementsFor(p) ensures Has(host, r) {
        assert r != NeedsPi4HardwareEncoder;
      }
    }
    forall other | (forall r :: r in RequirementsFor(p) ==> Has(other, r)) && ValidatePipeline(target, p, Some(other)) != None
      ensures target == RaspberryPi4 && p.strategy == HardwareDecode && AsksForHardwareEncoder(p)
    {
      ValidOnHost(target, p, other);
    }
  }

  ghost predicate AtLeast(a: Host, b: Host) {
    a.piModel == b.piModel && forall r :: Has(b, r) ==> Has(a, r)
  }

  /** A host that can do more, of the same model, compiles the same graphs. */
  lemma MoreCapable(m: Manifest, a: Host, b: Host, variables: Variables)
    requires AtLeast(a, b) && Compiled(m, Some(b), variables).Ok?
    ensures Compiled(m, Some(a), variables) == Compiled(m, Some(b), variables)
  {
    var g := Compiled(m, Some(b), variables).value;
    ProbedExactly(m, b, variables, g);
    ProbedExactly(m, a, variables, g);
    forall i | 0 <= i < |m.pipelines| ensures Serves(m.target, m.pipelines[i], a) {
      assert Serves(m.target, m.pipelines[i], b);
    }
  }

  // ------------------------------------------------------------------
  // Entry points
  // ------------------------------------------------------------------

  function CompileWithProbe(m: Manifest, answers: seq<Answer>, variables: Variables): Result<Graph, CompileError> {
    match Folded(NOTHING, answers)
    case Err(e) => Err(e)
    case Ok(host) => Compiled(m, Some(host), variables)
  }

  /** Without a probe only a generic target is accepted. */
  function CompileChecked(m: Manifest, variables: Variables): Result<Graph, CompileError> {
    if m.target != GenericLinux then Err(InvalidConfiguration) else Compiled(m, None, variables)
  }

  /** Neither the order of the probes nor asking one of them again changes
      whether a manifest compiles, or to what. */
  lemma ProbeOrderIrrelevant(m: Manifest, a: seq<Answer>, b: seq<Answer>, variables: Variables)
    requires forall x :: x in a <==> x in b
    ensures CompileWithProbe(m, a, variables).Ok? <==> CompileWithProbe(m, b, variables).Ok?
    ensures CompileWithProbe(m, a, variables).Ok? ==> CompileWithProbe(m, a, variables) == CompileWithProbe(m, b, variables)
  {
    FoldOrderIrrelevant(a, b);
  }

  /** Whatever a probe lets through, the unchecked compiler does too, alike. */
  lemma EntryPointsAgree(m: Manifest, answers: seq<Answer>, variables: Variables, g: Graph)
    requires CompileWithProbe(m, answers, variables) == Ok(g)
    ensures Compiled(m, None, variables) == Ok(g)
    ensures m.target == GenericLinux <==> CompileChecked(m, variables) == Ok(g)
  {
    ProbedExactly(m, Folded(NOTHING, answers).value, variables, g);
  }
}
