/** Length-prefixed (AVCC) payloads and their conversion to start-code form.
    `usize` is taken to be 64 bits wide, so a cursor plus a length of at most
    four bytes does not overflow. */
module Avcc {
  import opened Common
  import opened StartCode

  datatype AvccError = InvalidLengthSize | MissingLength | TruncatedUnit | NoUnits

  function BigEndian(b: Bytes): nat {
    if b == [] then 0 else BigEndian(b[..|b| - 1]) * 256 + b[|b| - 1]
  }

  function Pow256(n: nat): (r: nat)
    ensures r > 0
  {
    if n == 0 then 1 else 256 * Pow256(n - 1)
  }

  function ToBigEndian(v: nat, size: nat): (b: Bytes)
    requires v < Pow256(size)
    ensures |b| == size && BigEndian(b) == v
  {
    if size == 0 then []
    else
      var b := ToBigEndian(v / 256, size - 1) + [v % 256];
      assert b[..size - 1] == ToBigEndian(v / 256, size - 1);
      b
  }

  lemma {:induction false} BigEndianUnique(b: Bytes)
    ensures BigEndian(b) < Pow256(|b|)
    ensures ToBigEndian(BigEndian(b), |b|) == b
  {
    if b == [] {
    } else {
      var front, last := b[..|b| - 1], b[|b| - 1];
      BigEndianUnique(front);
      assert (BigEndian(front) * 256 + last) / 256 == BigEndian(front);
      assert b == front + [last];
    }
  }

  /** The length-prefixed units of a payload, empty ones included. */
  function AvccUnits(payload: Bytes, size: nat): (r: Result<seq<Bytes>, AvccError>)
    requires size > 0
    ensures r != Err(NoUnits) && r != Err(InvalidLengthSize)
    ensures payload != [] && r.Ok? ==> r.value != []
  {
    if payload == [] then Ok([])
    else if |payload| < size then Err(MissingLength)
    else
      var length := BigEndian(payload[..size]);
      var rest := payload[size..];
      if length > |rest| then Err(TruncatedUnit)
      else
        match AvccUnits(rest[length..], size)
        case Err(e) => Err(e)
        case Ok(units) => Ok([rest[..length]] + units)
  }

  ghost predicate Fits(units: seq<Bytes>, size: nat) {
    forall u :: u in units ==> |u| < Pow256(size)
  }

  /** The AVCC encoding of a list of units. */
  ghost function AvccEncode(units: seq<Bytes>, size: nat): (p: Bytes)
    requires Fits(units, size)
    ensures size > 0 && units != [] ==> p != []
  {
    if units == [] then []
    else ToBigEndian(|units[0]|, size) + units[0] + AvccEncode(units[1..], size)
  }

  function NonEmpty(units: seq<Bytes>): (r: seq<Bytes>)
    ensures forall u :: u in r <==> u in units && u != []
  {
    if units == [] then []
    else (if units[0] == [] then [] else [units[0]]) + NonEmpty(units[1..])
  }

  function AvccToAnnexB(payload: Bytes, size: nat): Result<Bytes, AvccError> {
    if !(1 <= size <= 4) then Err(InvalidLengthSize)
    else
      match AvccUnits(payload, size)
      case Err(e) => Err(e)
      case Ok(units) =>
        var output := AnnexB(NonEmpty(units));
        if output == [] && payload != [] then Err(NoUnits) else Ok(output)
  }

  /** What remains after `cursor` decides the result: its error, or its units
      behind the output so far. */
  ghost predicate Progress(payload: Bytes, size: nat, cursor: nat, output: Bytes)
    requires size > 0 && cursor <= |payload|
  {
    var all := AvccUnits(payload, size);
    match AvccUnits(payload[cursor..], size)
    case Err(e) => all == Err(e)
    case Ok(rest) => all.Ok? && AnnexB(NonEmpty(all.value)) == output + AnnexB(NonEmpty(rest))
  }

  /** Reading one unit off a payload that starts with a full one. */
  lemma UnitsUnfold(field: Bytes, unit: Bytes, tail: Bytes)
    requires field != [] && |unit| == BigEndian(field)
    ensures AvccUnits(field + unit + tail, |field|) ==
      match AvccUnits(tail, |field|)
      case Err(e) => Err(e)
      case Ok(units) => Ok([unit] + units)
  {
    var p := field + unit + tail;
    assert p == field + (unit + tail);
    assert p[..|field|] == field && p[|field|..] == unit + tail;
    assert (unit + tail)[..|unit|] == unit && (unit + tail)[|unit|..] == tail;
  }

  lemma NonEmptyUnfold(unit: Bytes, units: seq<Bytes>)
    ensures AnnexB(NonEmpty([unit] + units)) ==
      (if unit == [] then [] else START_CODE + unit) + AnnexB(NonEmpty(units))
  {
    var kept := NonEmpty(units);
    assert ([unit] + units)[1..] == units;
    if unit == [] {
      assert NonEmpty([unit] + units) == [] + kept == kept;
      assert [] + AnnexB(kept) == AnnexB(kept);
    } else {
      assert NonEmpty([unit] + units) == [unit] + kept;
      assert ([unit] + kept)[1..] == kept;
    }
  }

  lemma ProgressStep(payload: Bytes, size: nat, cursor: nat, output: Bytes, end: nat)
    requires size > 0 && cursor + size <= |payload| && Progress(payload, size, cursor, output)
    requires end == cursor + size + BigEndian(payload[cursor..cursor + size]) <= |payload|
    ensures Progress(payload, size, end,
      if end == cursor + size then output else output + START_CODE + payload[cursor + size..end])
  {
    var field, unit, tail := payload[cursor..cursor + size], payload[cursor + size..end], payload[end..];
    assert payload[cursor..] == field + unit + tail;
    UnitsUnfold(field, unit, tail);
    var rest := AvccUnits(tail, size);
    if rest.Ok? {
      assert AvccUnits(payload[cursor..], size) == Ok([unit] + rest.value);
      OutputStep(output, unit, rest.value);
    }
  }

  /** Reading a unit moves it from what is left to the output. */
  lemma OutputStep(output: Bytes, unit: Bytes, rest: seq<Bytes>)
    ensures output + AnnexB(NonEmpty([unit] + rest))
         == (if unit == [] then output else output + START_CODE + unit) + AnnexB(NonEmpty(rest))
  {
    var head, more := if unit == [] then [] else START_CODE + unit, AnnexB(NonEmpty(rest));
    NonEmptyUnfold(unit, rest);
    Associative(output, head, more);
    assert output + head == if unit == [] then output else output + START_CODE + unit;
  }

  lemma Associative(a: Bytes, b: Bytes, c: Bytes)
    ensures a + (b + c) == (a + b) + c
  {
  }

  method ConvertAvcc(payload: Bytes, size: nat) returns (r: Result<Bytes, AvccError>)
    ensures r == AvccToAnnexB(payload, size)
  {
    if !(1 <= size <= 4) {
      return Err(InvalidLengthSize);
    }
    var cursor := 0;
    var output: Bytes := [];
    assert payload[0..] == payload;
    while cursor < |payload|
      invariant cursor <= |payload|
      invariant Progress(payload, size, cursor, output)
    {
      if cursor + size > |payload| {
        return Err(MissingLength);
      }
      ghost var field := payload[cursor..cursor + size];
      assert payload[cursor..][..size] == field;
      var length: nat := 0;
      for i := 0 to size
        invariant length == BigEndian(field[..i])
      {
        assert field[..i + 1][..i] == field[..i];
        length := length * 256 + payload[cursor + i] as int;
      }
      assert field[..size] == field;
      var end := cursor + size + length;
      if length == 0 {
        ProgressStep(payload, size, cursor, output, end);
        cursor := cursor + size;
        continue;
      }
      if end > |payload| {
        return Err(TruncatedUnit);
      }
      ProgressStep(payload, size, cursor, output, end);
      output := output + START_CODE;
      output := output + payload[cursor + size..end];
      cursor := end;
    }
    assert payload[cursor..] == [];
    assert output + [] == output;
    if output == [] && payload != [] {
      return Err(NoUnits);
    }
    return Ok(output);
  }

  lemma {:induction false} UnitsOfEncode(units: seq<Bytes>, size: nat)
    requires size > 0 && Fits(units, size)
    ensures AvccUnits(AvccEncode(units, size), size) == Ok(units)
  {
    if units == [] {
    } else {
      var field, rest := ToBigEndian(|units[0]|, size), units[1..];
      UnitsUnfold(field, units[0], AvccEncode(rest, size));
      UnitsOfEncode(rest, size);
      assert [units[0]] + rest == units;
    }
  }

  /** A payload that parses is the encoding of the units read. */
  lemma {:induction false} UnitsAreTheEncoding(p: Bytes, size: nat)
    requires size > 0 && AvccUnits(p, size).Ok?
    ensures Fits(AvccUnits(p, size).value, size)
    ensures AvccEncode(AvccUnits(p, size).value, size) == p
    decreases |p|
  {
    if p == [] {
    } else {
      var field := p[..size];
      var end := size + BigEndian(field);
      var unit, tail := p[size..end], p[end..];
      assert p == field + unit + tail;
      BigEndianUnique(field);
      UnitsUnfold(field, unit, tail);
      UnitsAreTheEncoding(tail, size);
      var units := AvccUnits(tail, size).value;
      assert ([unit] + units)[1..] == units;
    }
  }

  /** Round trip.  Encoding units and converting them fails exactly when there
      are units but all are empty; otherwise splitting the output gives back
      the non-empty units in order exactly when none contains a start code. */
  lemma AvccRoundTrip(units: seq<Bytes>, size: nat)
    requires 1 <= size <= 4 && Fits(units, size)
    ensures match AvccToAnnexB(AvccEncode(units, size), size)
            case Err(e) => e == NoUnits && units != [] && NonEmpty(units) == []
            case Ok(output) => (
              && (units == [] || NonEmpty(units) != [])
              && (Split(output, 0) == NonEmpty(units) <==> forall u :: u in units ==> CodeFree(u)))
  {
    UnitsOfEncode(units, size);
    var kept := NonEmpty(units);
    SplitUnitsCodeFree(AnnexB(kept), 0);
    if forall u :: u in kept ==> CodeFree(u) {
      SplitOfAnnexB(kept);
      forall u | u in units ensures CodeFree(u) {
        if u != [] { assert u in kept; }
      }
    } else {
      var bad :| bad in kept && !CodeFree(bad);
      assert bad in units;
    }
  }

  /** Some units encode to p, and are none at all or include a non-empty one. */
  ghost predicate IsAvcc(p: Bytes, size: nat) {
    exists units :: Fits(units, size) && AvccEncode(units, size) == p && (units == [] || NonEmpty(units) != [])
  }

  /** Conversion accepts exactly the encodings that are empty or hold a
      non-empty unit. */
  lemma AcceptsExactlyEncodings(p: Bytes, size: nat)
    requires 1 <= size <= 4
    ensures AvccToAnnexB(p, size).Ok? <==> IsAvcc(p, size)
  {
    if AvccToAnnexB(p, size).Ok? {
      UnitsAreTheEncoding(p, size);
      var units := AvccUnits(p, size).value;
      assert Fits(units, size) && AvccEncode(units, size) == p && (units == [] || NonEmpty(units) != []);
    }
    if IsAvcc(p, size) {
      var units :| Fits(units, size) && AvccEncode(units, size) == p && (units == [] || NonEmpty(units) != []);
      UnitsOfEncode(units, size);
    }
  }
}
