/** The decoder configuration record of section 5.3.3.1 of ISO/IEC 14496-15:2017,
    as far as the length size and the parameter sets go. */
module DecoderRecord {
  import opened Common
  import opened StartCode
  import opened Avcc
  import opened Keyframe

  datatype RecordError = TooShort | MissingUnitLength | TruncatedParameterSet

  function ReadUnit(data: Bytes, cursor: nat): (r: Result<(nat, Bytes), RecordError>)
    ensures r.Ok? ==> cursor + 2 <= r.value.0 <= |data|
  {
    if cursor + 2 > |data| then Err(MissingUnitLength)
    else
      var end := cursor + 2 + data[cursor] as int * 256 + data[cursor + 1] as int;
      if end > |data| then Err(TruncatedParameterSet) else Ok((end, data[cursor + 2..end]))
  }

  function ReadUnits(data: Bytes, cursor: nat, count: nat): Result<(nat, seq<Bytes>), RecordError>
    decreases count
  {
    if count == 0 then Ok((cursor, []))
    else
      match ReadUnit(data, cursor)
      case Err(e) => Err(e)
      case Ok(first) =>
        match ReadUnits(data, first.0, count - 1)
        case Err(e) => Err(e)
        case Ok(rest) => Ok((rest.0, [first.1] + rest.1))
  }

  function ParseRecord(data: Bytes): Result<H264Config, RecordError> {
    if |data| < 7 then Err(TooShort)
    else
      match ReadUnits(data, 6, data[5] % 32)
      case Err(e) => Err(e)
      case Ok(read) => ParsePictureSets(data, read.0, read.1)
  }

  /** The second list; a record may end before it. */
  function ParsePictureSets(data: Bytes, cursor: nat, sps: seq<Bytes>): Result<H264Config, RecordError>
    requires |data| >= 7
  {
    var lengthSize := data[4] % 4 + 1;
    if cursor >= |data| then Ok(H264Config(lengthSize, AnnexB(sps)))
    else
      match ReadUnits(data, cursor + 1, data[cursor])
      case Err(e) => Err(e)
      case Ok(read) => Ok(H264Config(lengthSize, AnnexB(sps + read.1)))
  }

  /** Appending the rest of a list: what has been read plus what is left. */
  ghost predicate Reading(data: Bytes, from: nat, count: nat, prefix: Bytes, cursor: nat, left: nat, output: Bytes) {
    var all := ReadUnits(data, from, count);
    match ReadUnits(data, cursor, left)
    case Err(e) => all == Err(e)
    case Ok(rest) =>
      all.Ok? && all.value.0 == rest.0 && prefix + AnnexB(all.value.1) == output + AnnexB(rest.1)
  }

  lemma ReadingStep(data: Bytes, from: nat, count: nat, prefix: Bytes, cursor: nat, left: nat, output: Bytes)
    requires left > 0 && Reading(data, from, count, prefix, cursor, left, output)
    requires ReadUnit(data, cursor).Ok?
    ensures var (next, unit) := ReadUnit(data, cursor).value;
      Reading(data, from, count, prefix, next, left - 1, output + START_CODE + unit)
  {
    var (next, unit) := ReadUnit(data, cursor).value;
    var rest := ReadUnits(data, next, left - 1);
    if rest.Ok? {
      var units := rest.value.1;
      assert ([unit] + units)[1..] == units;
      assert AnnexB([unit] + units) == (START_CODE + unit) + AnnexB(units);
      Associative(output, START_CODE + unit, AnnexB(units));
      Associative(output, START_CODE, unit);
    }
  }

  /** The loop over one list of parameter sets, appending each to `prefix`. */
  method AppendUnits(data: Bytes, from: nat, count: nat, prefix: Bytes)
    returns (r: Result<(nat, Bytes), RecordError>)
    ensures r == match ReadUnits(data, from, count)
                 case Err(e) => Err(e)
                 case Ok(read) => Ok((read.0, prefix + AnnexB(read.1)))
  {
    var cursor, output := from, prefix;
    for i := 0 to count
      invariant Reading(data, from, count, prefix, cursor, count - i, output)
    {
      var unit := ReadUnit(data, cursor);
      if unit.Err? {
        return Err(unit.error);
      }
      ReadingStep(data, from, count, prefix, cursor, count - i, output);
      cursor := unit.value.0;
      output := output + START_CODE;
      output := output + unit.value.1;
    }
    assert output + AnnexB([]) == output;
    return Ok((cursor, output));
  }

  method ReadRecord(data: Bytes) returns (r: Result<H264Config, RecordError>)
    ensures r == ParseRecord(data)
  {
    if |data| < 7 {
      return Err(TooShort);
    }
    var lengthSize := data[4] % 4 + 1;
    var sps := AppendUnits(data, 6, data[5] % 32, []);
    if sps.Err? {
      return Err(sps.error);
    }
    var cursor := sps.value.0;
    ghost var spsUnits := ReadUnits(data, 6, data[5] % 32).value.1;
    assert [] + AnnexB(spsUnits) == AnnexB(spsUnits);
    if cursor >= |data| {
      return Ok(H264Config(lengthSize, sps.value.1));
    }
    var pps := AppendUnits(data, cursor + 1, data[cursor], sps.value.1);
    if pps.Err? {
      return Err(pps.error);
    }
    AnnexBAppend(spsUnits, ReadUnits(data, cursor + 1, data[cursor]).value.1);
    return Ok(H264Config(lengthSize, pps.value.1));
  }

  ghost predicate Listable(units: seq<Bytes>) {
    forall u :: u in units ==> |u| < 0x1_0000
  }

  /** A list of parameter sets, each behind its 16-bit big-endian length. */
  ghost function Listed(units: seq<Bytes>): Bytes
    requires Listable(units)
  {
    if units == [] then []
    else [|units[0]| / 256, |units[0]| % 256] + units[0] + Listed(units[1..])
  }

  /** The first six bytes of a record end with the number of SPS units. */
  ghost predicate ValidSets(header: Bytes, sps: seq<Bytes>, pps: seq<Bytes>) {
    |header| == 6 && header[5] % 32 == |sps| && |pps| < 256 && Listable(sps) && Listable(pps)
  }

  /** The record for given parameter sets; `extension` is whatever follows them. */
  ghost function Record(header: Bytes, sps: seq<Bytes>, pps: seq<Bytes>, extension: Bytes): Bytes
    requires ValidSets(header, sps, pps)
  {
    header + (Listed(sps) + ([|pps|] + (Listed(pps) + extension)))
  }

  lemma ReadOne(field: Bytes, unit: Bytes, after: Bytes)
    requires |field| == 2 && field[0] as int * 256 + field[1] as int == |unit|
    ensures ReadUnit(field + unit + after, 0) == Ok((2 + |unit|, unit))
  {
    var data := field + unit + after;
    assert data[0] == field[0] && data[1] == field[1];
    assert data[2..2 + |unit|] == unit;
  }

  lemma ReadUnitSuffix(data: Bytes, c: nat, i: nat)
    requires c <= i <= |data|
    ensures ReadUnit(data, i) == match ReadUnit(data[c..], i - c)
                                 case Err(e) => Err(e)
                                 case Ok(read) => Ok((read.0 + c, read.1))
  {
    var r := ReadUnit(data, i);
    if r.Ok? {
      SliceOfSuffix(data, c, i + 2, r.value.0);
    }
  }

  lemma {:induction false} ReadUnitsSuffix(data: Bytes, c: nat, i: nat, count: nat)
    requires c <= i <= |data|
    ensures ReadUnits(data, i, count) == match ReadUnits(data[c..], i - c, count)
                                         case Err(e) => Err(e)
                                         case Ok(read) => Ok((read.0 + c, read.1))
    decreases count
  {
    if count == 0 {
    } else {
      ReadUnitSuffix(data, c, i);
      var r := ReadUnit(data, i);
      if r.Ok? {
        ReadUnitsSuffix(data, c, r.value.0, count - 1);
      }
    }
  }

  /** A list read off from its first unit. */
  lemma FirstListed(units: seq<Bytes>, after: Bytes)
    requires Listable(units) && units != []
    ensures var data, c := Listed(units) + after, 2 + |units[0]|;
      && c <= |data| && |Listed(units)| == c + |Listed(units[1..])|
      && ReadUnit(data, 0) == Ok((c, units[0]))
      && data[c..] == Listed(units[1..]) + after
  {
    var field: Bytes, u, more := [|units[0]| / 256, |units[0]| % 256], units[0], Listed(units[1..]);
    ReadOne(field, u, more + after);
    Associative(field + u, more, after);
    DropPrefix(field + u, more + after);
  }

  lemma {:induction false} ReadListed(units: seq<Bytes>, after: Bytes)
    requires Listable(units)
    ensures ReadUnits(Listed(units) + after, 0, |units|) == Ok((|Listed(units)|, units))
    decreases |units|
  {
    if units == [] {
    } else {
      var rest := units[1..];
      FirstListed(units, after);
      ReadListed(rest, after);
      ReadOn(Listed(units) + after, 2 + |units[0]|, units[0], |rest|, |Listed(rest)|, rest);
      assert units == [units[0]] + rest;
    }
  }

  lemma ReadUnitsUnfold(data: Bytes, cursor: nat, count: nat, next: nat, unit: Bytes)
    requires count > 0 && ReadUnit(data, cursor) == Ok((next, unit))
    ensures ReadUnits(data, cursor, count) ==
      match ReadUnits(data, next, count - 1)
      case Err(e) => Err(e)
      case Ok(rest) => Ok((rest.0, [unit] + rest.1))
  {
  }

  /** Reading on from position c, when what follows it has been read. */
  lemma ReadOn(data: Bytes, c: nat, u: Bytes, count: nat, end: nat, rest: seq<Bytes>)
    requires c <= |data| && ReadUnit(data, 0) == Ok((c, u))
    requires ReadUnits(data[c..], 0, count) == Ok((end, rest))
    ensures ReadUnits(data, 0, count + 1) == Ok((c + end, [u] + rest))
  {
    ReadFrom(data, c, count, end, rest);
    ReadUnitsUnfold(data, 0, count + 1, c, u);
  }

  lemma ReadFrom(data: Bytes, c: nat, count: nat, end: nat, rest: seq<Bytes>)
    requires c <= |data| && ReadUnits(data[c..], 0, count) == Ok((end, rest))
    ensures ReadUnits(data, c, count) == Ok((c + end, rest))
  {
    ReadUnitsSuffix(data, c, c, count);
  }

  lemma DropPrefix(a: Bytes, b: Bytes)
    ensures (a + b)[|a|..] == b
  {
  }

  /** Reading a list that starts at position |before|. */
  lemma ReadListedAt(before: Bytes, units: seq<Bytes>, after: Bytes)
    requires Listable(units)
    ensures ReadUnits(before + (Listed(units) + after), |before|, |units|) == Ok((|before| + |Listed(units)|, units))
  {
    var c, data := |before|, before + (Listed(units) + after);
    DropPrefix(before, Listed(units) + after);
    ReadUnitsSuffix(data, c, c, |units|);
    ReadListed(units, after);
  }

  lemma Layout(head: Bytes, first: Bytes, count: Byte, tail: Bytes)
    ensures head + (first + ([count] + tail)) == (head + first + [count]) + tail
    ensures (head + (first + ([count] + tail)))[|head| + |first|] == count
    ensures forall i :: 0 <= i < |head| ==> (head + (first + ([count] + tail)))[i] == head[i]
  {
  }

  /** The two counted lists of a record read as the given units. */
  ghost predicate ReadsAs(data: Bytes, sps: seq<Bytes>, pps: seq<Bytes>) {
    |data| >= 7 && exists c: nat, end: nat ::
      && c < |data|
      && ReadUnits(data, 6, data[5] % 32) == Ok((c, sps))
      && ReadUnits(data, c + 1, data[c]) == Ok((end, pps))
  }

  lemma ParseTwoLists(data: Bytes, sps: seq<Bytes>, pps: seq<Bytes>, lengthSize: nat)
    requires ReadsAs(data, sps, pps) && lengthSize == data[4] % 4 + 1
    ensures ParseRecord(data) == Ok(H264Config(lengthSize, AnnexB(sps + pps)))
  {
    var c: nat, end: nat :| c < |data| && ReadUnits(data, 6, data[5] % 32) == Ok((c, sps))
      && ReadUnits(data, c + 1, data[c]) == Ok((end, pps));
    assert ParseRecord(data) == ParsePictureSets(data, c, sps);
  }

  lemma RecordReads(header: Bytes, sps: seq<Bytes>, pps: seq<Bytes>, extension: Bytes)
    requires ValidSets(header, sps, pps)
    ensures var data := Record(header, sps, pps, extension);
      ReadsAs(data, sps, pps) && data[4] == header[4]
  {
    var data, c := Record(header, sps, pps, extension), 6 + |Listed(sps)|;
    var first, tail := Listed(sps), Listed(pps) + extension;
    Layout(header, first, |pps|, tail);
    ReadListedAt(header, sps, [|pps|] + tail);
    ReadListedAt(header + first + [|pps|], pps, extension);
    assert ReadUnits(data, 6, data[5] % 32) == Ok((c, sps));
    assert ReadUnits(data, c + 1, data[c]).Ok?;
  }

  /** Parsing a record gives back its length size and its parameter sets. */
  lemma RecordRoundTrip(header: Bytes, sps: seq<Bytes>, pps: seq<Bytes>, extension: Bytes)
    requires ValidSets(header, sps, pps)
    ensures ParseRecord(Record(header, sps, pps, extension)) == Ok(H264Config(header[4] % 4 + 1, AnnexB(sps + pps)))
  {
    RecordReads(header, sps, pps, extension);
    ParseTwoLists(Record(header, sps, pps, extension), sps, pps, header[4] % 4 + 1);
  }

  /** The type of each listed parameter set is found again in the stream. */
  lemma {:induction false} NalsOfUnits(units: seq<Bytes>, i: nat)
    requires i < |units| && units[i] != []
    ensures HasNal(AnnexB(units), units[i][0] % 32)
  {
    var u, rest, t := units[0], AnnexB(units[1..]), units[i][0] % 32;
    var p, m := AnnexB(units), 4 + |u|;
    assert p == START_CODE + u + rest;
    if i == 0 {
      assert NalAt(p, 1, t);
    } else {
      NalsOfUnits(units[1..], i - 1);
      var k: nat :| k < |rest| && NalAt(rest, k, t);
      assert p[m..] == rest;
      assert NalAt(p, m + k, t);
    }
  }

  lemma NalsOfUnit(u: Bytes, nalType: nat)
    requires CodeFree(u)
    ensures HasNal(START_CODE + u, nalType) <==> u != [] && u[0] % 32 == nalType
  {
    var p := START_CODE + u;
    if u != [] && u[0] % 32 == nalType {
      assert NalAt(p, 1, nalType);
    }
    if HasNal(p, nalType) {
      var k: nat :| k < |p| && NalAt(p, k, nalType);
      if k >= 4 {
        assert CodeAt(u, k - 4);
      } else {
        assert k == 1;
      }
    }
  }

  /** The types found in a stream are just those of its units. */
  lemma {:induction false} TypesAreThoseOfUnits(units: seq<Bytes>, nalType: nat)
    requires nalType > 0 && forall u :: u in units ==> CodeFree(u)
    requires HasNal(AnnexB(units), nalType)
    ensures exists i :: 0 <= i < |units| && units[i] != [] && units[i][0] % 32 == nalType
  {
    if units == [] {
      assert false;
    } else {
      var first, rest := START_CODE + units[0], AnnexB(units[1..]);
      NalsOfUnit(units[0], nalType);
      if units[1..] == [] {
        assert AnnexB(units) == first + [] == first;
      } else {
        AnnexBLooksLikeIt(units[1..]);
        NalsOfJoin(first, rest, nalType);
        if HasNal(rest, nalType) {
          TypesAreThoseOfUnits(units[1..], nalType);
        }
      }
    }
  }

  /** A stream has both parameter sets, if and only if one of its units is of
      type 7 and one of type 8. */
  lemma CompleteExactly(units: seq<Bytes>)
    requires forall u :: u in units ==> CodeFree(u)
    ensures HasBoth(AnnexB(units)) <==>
      && (exists i :: 0 <= i < |units| && units[i] != [] && units[i][0] % 32 == 7)
      && (exists i :: 0 <= i < |units| && units[i] != [] && units[i][0] % 32 == 8)
  {
    if HasBoth(AnnexB(units)) {
      TypesAreThoseOfUnits(units, 7);
      TypesAreThoseOfUnits(units, 8);
    }
    if i :| 0 <= i < |units| && units[i] != [] && units[i][0] % 32 == 7 {
      NalsOfUnits(units, i);
    }
    if j :| 0 <= j < |units| && units[j] != [] && units[j][0] % 32 == 8 {
      NalsOfUnits(units, j);
    }
  }

  /** End to end: a record listing an SPS and a PPS makes every keyframe that
      normalises carry both, and normalising it again changes nothing. */
  lemma RecordMakesKeyframesComplete(header: Bytes, sps: seq<Bytes>, pps: seq<Bytes>, extension: Bytes,
                                     i: nat, j: nat, payload: Bytes)
    requires ValidSets(header, sps, pps)
    requires i < |sps| && sps[i] != [] && sps[i][0] % 32 == NAL_SPS
    requires j < |pps| && pps[j] != [] && pps[j][0] % 32 == NAL_PPS
    ensures ParseRecord(Record(header, sps, pps, extension)).Ok?
    ensures var config := Some(ParseRecord(Record(header, sps, pps, extension)).value);
      var first := Normalize(payload, true, config);
      first.Ok? ==> HasBoth(first.value) && Normalize(first.value, true, config) == first
  {
    RecordRoundTrip(header, sps, pps, extension);
    var config := ParseRecord(Record(header, sps, pps, extension)).value;
    var units := sps + pps;
    assert units[i] == sps[i] && units[|sps| + j] == pps[j];
    NalsOfUnits(units, i);
    NalsOfUnits(units, |sps| + j);
    AnnexBLooksLikeIt(units);
    if Normalize(payload, true, Some(config)).Ok? {
      KeyframesCarryParameterSets(payload, config);
      NormalizeIdempotent(payload, true, Some(config));
    }
  }

  // ------------------------------------------------------------------
  // Configurations of a stream
  // ------------------------------------------------------------------

  /** The configuration in a stream's extra data, which may be a record, or
      parameter sets behind start codes, or something else. */
  function ExtractConfig(extradata: Bytes): Result<Option<H264Config>, RecordError> {
    if extradata == [] then Ok(None)
    else if LooksLikeAnnexB(extradata) then Ok(Some(H264Config(4, extradata)))
    else if extradata[0] != 1 then Ok(None)
    else
      match ParseRecord(extradata)
      case Err(e) => Err(e)
      case Ok(config) => Ok(Some(config))
  }

  /** Every configuration a stream can have is one normalising can work with. */
  lemma ConfigsAreFit(extradata: Bytes)
    requires ExtractConfig(extradata).Ok? && ExtractConfig(extradata).value.Some?
    ensures FitConfig(ExtractConfig(extradata).value.value)
  {
    if LooksLikeAnnexB(extradata) {
    } else {
      RecordsAreFit(extradata);
    }
  }

  lemma RecordsAreFit(data: Bytes)
    requires ParseRecord(data).Ok?
    ensures FitConfig(ParseRecord(data).value)
  {
    var read := ReadUnits(data, 6, data[5] % 32).value;
    var sps, cursor := read.1, read.0;
    var pps := if cursor >= |data| then [] else ReadUnits(data, cursor + 1, data[cursor]).value.1;
    assert sps + [] == sps;
    assert ParseRecord(data).value.parameterSets == AnnexB(sps + pps);
    if sps + pps != [] {
      AnnexBLooksLikeIt(sps + pps);
    }
  }

  /** A record and a list of units behind start codes each give a configuration
      of their parameter sets, the record with the size it states and the list
      with four. */
  lemma ConfigurationsRead(header: Bytes, sps: seq<Bytes>, pps: seq<Bytes>, extension: Bytes)
    requires ValidSets(header, sps, pps) && header[0] == 1
    ensures ExtractConfig(Record(header, sps, pps, extension)) == Ok(Some(H264Config(header[4] % 4 + 1, AnnexB(sps + pps))))
    ensures sps + pps != [] ==> ExtractConfig(AnnexB(sps + pps)) == Ok(Some(H264Config(4, AnnexB(sps + pps))))
  {
    RecordRoundTrip(header, sps, pps, extension);
    FirstByte(header, sps, pps, extension);
    if sps + pps != [] {
      AnnexBLooksLikeIt(sps + pps);
    }
  }

  lemma FirstByte(header: Bytes, sps: seq<Bytes>, pps: seq<Bytes>, extension: Bytes)
    requires ValidSets(header, sps, pps)
    ensures Record(header, sps, pps, extension) != [] && Record(header, sps, pps, extension)[0] == header[0]
  {
  }

  /** There is no configuration exactly for no data at all, and for data that
      begins neither with a start code nor with the byte 1; an error comes only
      from data that begins with that byte. */
  lemma NoConfigurationExactly(extradata: Bytes)
    ensures var coded := LongCodeAt(extradata, 0) || CodeAt(extradata, 0);
      var r := ExtractConfig(extradata);
      && (r == Ok(None) <==> extradata == [] || (!coded && extradata[0] != 1))
      && (r.Err? <==> extradata != [] && extradata[0] == 1 && ParseRecord(extradata).Err?)
  {
    var coded := LongCodeAt(extradata, 0) || CodeAt(extradata, 0);
    assert coded ==> extradata[0] == 0;
  }

  /** Parameter sets behind start codes make keyframes complete as well. */
  lemma StartCodesMakeKeyframesComplete(sets: seq<Bytes>, payload: Bytes)
    requires forall u :: u in sets ==> CodeFree(u)
    requires exists i :: 0 <= i < |sets| && sets[i] != [] && sets[i][0] % 32 == 7
    requires exists i :: 0 <= i < |sets| && sets[i] != [] && sets[i][0] % 32 == 8
    ensures ExtractConfig(AnnexB(sets)).Ok? && ExtractConfig(AnnexB(sets)).value.Some?
    ensures var first := Normalize(payload, true, ExtractConfig(AnnexB(sets)).value);
      first.Ok? ==> HasBoth(first.value) && Normalize(first.value, true, ExtractConfig(AnnexB(sets)).value) == first
  {
    CompleteExactly(sets);
    AnnexBLooksLikeIt(sets);
    var config := H264Config(4, AnnexB(sets));
    assert ExtractConfig(AnnexB(sets)) == Ok(Some(config));
    if Normalize(payload, true, Some(config)).Ok? {
      KeyframesCarryParameterSets(payload, config);
      NormalizeIdempotent(payload, true, Some(config));
    }
  }
}
