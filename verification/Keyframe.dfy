/** Normalising packets: start-code form, with the parameter sets of the
    configuration in front of any keyframe that lacks them. */
module Keyframe {
  import opened Common
  import opened StartCode
  import opened Avcc

  const NAL_SPS: nat := 7
  const NAL_PPS: nat := 8

  /** Some unit of the stream has the given type in its first byte. */
  ghost predicate HasNal(p: Bytes, nalType: nat) {
    HasNalBefore(p, |p|, nalType)
  }

  ghost predicate HasNalBefore(p: Bytes, limit: nat, nalType: nat) {
    exists k: nat :: k < limit && NalAt(p, k, nalType)
  }

  ghost predicate NalAt(p: Bytes, k: nat, nalType: nat) {
    CodeAt(p, k) && k + 3 < |p| && p[k + 3] % 32 == nalType
  }

  /** One scanning step adds exactly the unit at `start`. */
  lemma ScanStep(p: Bytes, cursor: nat, at: nat, len: nat, nalType: nat)
    requires FindStartCode(p, cursor) == Some((at, len)) && 0 < nalType
    ensures var start := at + len; var next := UnitEnd(p, start);
      HasNalBefore(p, next, nalType) <==>
        (HasNalBefore(p, cursor, nalType) || (start < next && p[start] % 32 == nalType))
  {
    var start := at + len;
    var next := UnitEnd(p, start);
    FindsTheFirst(p, cursor);
    FindsTheFirst(p, start);
    if HasNalBefore(p, next, nalType) {
      var k: nat :| k < next && NalAt(p, k, nalType);
      if k >= cursor {
        assert k == start - 3;
      }
    }
    if start < next && p[start] % 32 == nalType {
      assert NalAt(p, start - 3, nalType);
    }
  }

  method AnnexBParameterSets(p: Bytes) returns (hasSps: bool, hasPps: bool)
    ensures hasSps == HasNal(p, NAL_SPS)
    ensures hasPps == HasNal(p, NAL_PPS)
  {
    hasSps, hasPps := false, false;
    var cursor := 0;
    var code := ScanStartCode(p, cursor);
    while code.Some?
      invariant cursor <= |p| && code == FindStartCode(p, cursor)
      invariant hasSps == HasNalBefore(p, cursor, NAL_SPS)
      invariant hasPps == HasNalBefore(p, cursor, NAL_PPS)
      decreases |p| - cursor
    {
      var start := code.value.0 + code.value.1;
      var after := ScanStartCode(p, start);
      var next := if after.Some? then after.value.0 else |p|;
      ScanStep(p, cursor, code.value.0, code.value.1, NAL_SPS);
      ScanStep(p, cursor, code.value.0, code.value.1, NAL_PPS);
      if start < next {
        var nalType := p[start] % 32;
        if nalType == NAL_SPS {
          hasSps := true;
        } else if nalType == NAL_PPS {
          hasPps := true;
        }
      }
      cursor := next;
      code := ScanStartCode(p, cursor);
    }
    FindsTheFirst(p, cursor);
  }

  lemma NalsOfPrefix(a: Bytes, b: Bytes, nalType: nat)
    requires HasNal(a, nalType)
    ensures HasNal(a + b, nalType)
  {
    var k: nat :| k < |a| && NalAt(a, k, nalType);
    assert NalAt(a + b, k, nalType);
  }

  /** The flags of a joined stream, start codes that straddle the join included. */
  lemma NalsOfJoin(a: Bytes, b: Bytes, nalType: nat)
    requires LooksLikeAnnexB(b) && 0 < nalType
    ensures HasNal(a + b, nalType) <==> HasNal(a, nalType) || HasNal(b, nalType)
  {
    if HasNal(a, nalType) {
      NalsOfPrefix(a, b, nalType);
    }
    if HasNal(b, nalType) {
      var k: nat :| k < |b| && NalAt(b, k, nalType);
      assert NalAt(a + b, |a| + k, nalType);
    }
    if HasNal(a + b, nalType) {
      var k: nat :| k < |a + b| && NalAt(a + b, k, nalType);
      assert b[0] == 0 && b[1] == 0;
      if k + 3 < |a| {
        assert NalAt(a, k, nalType);
      } else {
        assert NalAt(b, k - |a|, nalType);
      }
    }
  }

  datatype H264Config = H264Config(lengthSize: nat, parameterSets: Bytes)

  ghost predicate HasBoth(p: Bytes) {
    HasNal(p, NAL_SPS) && HasNal(p, NAL_PPS)
  }

  function LengthSize(config: Option<H264Config>): nat {
    if config.Some? then config.value.lengthSize else 4
  }

  ghost function Normalize(payload: Bytes, isKeyframe: bool, config: Option<H264Config>): Result<Bytes, AvccError> {
    var base := if LooksLikeAnnexB(payload) then Ok(payload) else AvccToAnnexB(payload, LengthSize(config));
    if base.Ok? && isKeyframe && config.Some? && !HasBoth(base.value)
    then Ok(config.value.parameterSets + base.value)
    else base
  }

  method NormalizePayload(payload: Bytes, isKeyframe: bool, config: Option<H264Config>)
    returns (r: Result<Bytes, AvccError>)
    ensures r == Normalize(payload, isKeyframe, config)
  {
    var output := payload;
    if !LooksLikeAnnexB(payload) {
      var converted := ConvertAvcc(payload, LengthSize(config));
      if converted.Err? {
        return converted;
      }
      output := converted.value;
    }
    if isKeyframe && config.Some? {
      var hasSps, hasPps := AnnexBParameterSets(output);
      if !hasSps || !hasPps {
        var prefixed := config.value.parameterSets;
        prefixed := prefixed + output;
        output := prefixed;
      }
    }
    return Ok(output);
  }

  /** A configuration as it is read from a stream: no parameter sets, or some
      behind start codes. */
  predicate FitConfig(config: H264Config) {
    1 <= config.lengthSize <= 4 && (config.parameterSets == [] || LooksLikeAnnexB(config.parameterSets))
  }

  lemma PlainShape(payload: Bytes, config: Option<H264Config>)
    requires Normalize(payload, false, config).Ok?
    ensures var plain := Normalize(payload, false, config).value;
      LooksLikeAnnexB(plain) || plain == [] == payload
  {
    if !LooksLikeAnnexB(payload) {
      var units := NonEmpty(AvccUnits(payload, LengthSize(config)).value);
      if units != [] {
        AnnexBLooksLikeIt(units);
      }
    }
  }

  /** Output is empty or starts with a start code. */
  lemma NormalizedShape(payload: Bytes, isKeyframe: bool, config: Option<H264Config>)
    requires config.Some? ==> FitConfig(config.value)
    requires Normalize(payload, isKeyframe, config).Ok?
    ensures var output := Normalize(payload, isKeyframe, config).value;
      LooksLikeAnnexB(output) || (output == [] == payload)
  {
    PlainShape(payload, config);
    if config.Some? {
      var sets, base := config.value.parameterSets, Normalize(payload, false, config).value;
      assert sets == [] ==> sets + base == base;
      assert LooksLikeAnnexB(sets) ==> LooksLikeAnnexB(sets + base);
    }
  }

  /** A keyframe normalised against parameter sets that hold an SPS and a PPS
      carries both, and is the plain result or the sets followed by it. */
  lemma KeyframesCarryParameterSets(payload: Bytes, config: H264Config)
    requires HasBoth(config.parameterSets)
    requires Normalize(payload, true, Some(config)).Ok?
    ensures HasBoth(Normalize(payload, true, Some(config)).value)
    ensures var plain := Normalize(payload, false, Some(config)).value;
      Normalize(payload, true, Some(config)).value in {plain, config.parameterSets + plain}
  {
    var plain := Normalize(payload, false, Some(config)).value;
    NalsOfPrefix(config.parameterSets, plain, NAL_SPS);
    NalsOfPrefix(config.parameterSets, plain, NAL_PPS);
  }

  /** Each parameter set is in the stream or in the configuration. */
  ghost predicate Completes(base: Bytes, sets: Bytes) {
    && (HasNal(base, NAL_SPS) || HasNal(sets, NAL_SPS))
    && (HasNal(base, NAL_PPS) || HasNal(sets, NAL_PPS))
  }

  lemma PrefixedNals(base: Bytes, sets: Bytes)
    requires LooksLikeAnnexB(base) || base == []
    ensures HasBoth(sets + base) <==> Completes(base, sets)
  {
    if base == [] {
      assert sets + base == sets;
      assert !HasNal(base, NAL_SPS);
    } else {
      NalsOfJoin(sets, base, NAL_SPS);
      NalsOfJoin(sets, base, NAL_PPS);
    }
  }

  lemma OnceMore(output: Bytes, config: H264Config)
    requires FitConfig(config) && (LooksLikeAnnexB(output) || output == [])
    ensures Normalize(output, true, Some(config)) == Ok(if HasBoth(output) then output else config.parameterSets + output)
  {
  }

  /** Normalising twice equals normalising once, except exactly for a keyframe
      with parameter sets to put in front, when some set is neither among them
      nor in the payload, as it stands or converted. */
  lemma NormalizeIdempotent(payload: Bytes, isKeyframe: bool, config: Option<H264Config>)
    requires config.Some? ==> FitConfig(config.value)
    requires Normalize(payload, isKeyframe, config).Ok?
    ensures var base, once := Normalize(payload, false, config).value, Normalize(payload, isKeyframe, config).value;
      (Normalize(once, isKeyframe, config) == Ok(once)) <==>
        || !isKeyframe || config.None?
        || config.value.parameterSets == [] || Completes(base, config.value.parameterSets)
  {
    PlainShape(payload, config);
    if isKeyframe && config.Some? {
      var sets, base := config.value.parameterSets, Normalize(payload, false, config).value;
      var once := Normalize(payload, true, config).value;
      NormalizedShape(payload, true, config);
      OnceMore(once, config.value);
      PrefixedNals(base, sets);
      assert sets == [] ==> sets + once == once && sets + base == base;
      assert sets != [] ==> |sets + once| > |once|;
    }
  }

  /** A packet in plain start-code form, normalised n times as a keyframe. */
  ghost function Repeated(payload: Bytes, config: H264Config, n: nat): Result<Bytes, AvccError> {
    if n == 0 then Normalize(payload, false, Some(config))
    else
      match Repeated(payload, config, n - 1)
      case Err(e) => Err(e)
      case Ok(output) => Normalize(output, true, Some(config))
  }

  /** In the exceptional case the keyframe grows by all parameter sets every
      time, and stays incomplete. */
  lemma {:induction false} IncompleteKeyframesGrow(payload: Bytes, config: H264Config, n: nat)
    requires FitConfig(config) && Normalize(payload, false, Some(config)).Ok?
    requires !Completes(Normalize(payload, false, Some(config)).value, config.parameterSets)
    ensures var base, r := Normalize(payload, false, Some(config)).value, Repeated(payload, config, n);
      && r.Ok? && |r.value| == |base| + n * |config.parameterSets|
      && (LooksLikeAnnexB(r.value) || r.value == []) && !Completes(r.value, config.parameterSets)
  {
    var sets := config.parameterSets;
    if n == 0 {
      PlainShape(payload, Some(config));
    } else {
      IncompleteKeyframesGrow(payload, config, n - 1);
      var before := Repeated(payload, config, n - 1).value;
      OnceMore(before, config);
      PrefixedNals(before, sets);
      assert sets == [] ==> sets + before == before;
      assert LooksLikeAnnexB(sets) ==> LooksLikeAnnexB(sets + before);
      assert (n - 1) * |sets| + |sets| == n * |sets|;
      StillIncomplete(before, sets);
    }
  }

  lemma StillIncomplete(base: Bytes, sets: Bytes)
    requires LooksLikeAnnexB(base) || base == []
    requires !Completes(base, sets)
    ensures !Completes(sets + base, sets)
  {
    if base == [] {
      assert sets + base == sets;
      assert !HasNal(base, NAL_SPS) && !HasNal(base, NAL_PPS);
    } else {
      NalsOfJoin(sets, base, NAL_SPS);
      NalsOfJoin(sets, base, NAL_PPS);
    }
  }

  /** Such an input: a slice of a keyframe, and a configuration with an SPS
      only.  Ten bytes the first time, and five more every time. */
  lemma SpsAloneGrows(n: nat)
    ensures var config, slice := H264Config(4, START_CODE + [0x67]), START_CODE + [0x65];
      Repeated(slice, config, n).Ok? && |Repeated(slice, config, n).value| == 5 + n * 5
  {
    var config, slice := H264Config(4, START_CODE + [0x67]), START_CODE + [0x65];
    assert !HasNal(slice, NAL_PPS) && !HasNal(config.parameterSets, NAL_PPS) by {
      forall k: nat ensures !NalAt(slice, k, NAL_PPS) && !NalAt(config.parameterSets, k, NAL_PPS) {
      }
    }
    IncompleteKeyframesGrow(slice, config, n);
  }
}
