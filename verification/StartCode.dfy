/** Start codes of an H.264 byte stream (Annex B, section B.1 of ITU-T H.264)
    and the units between them. */
module StartCode {
  import opened Common

  type Bytes = seq<Byte>

  const START_CODE: Bytes := [0, 0, 0, 1]

  /** 00 00 01 at position k. */
  predicate CodeAt(p: Bytes, k: nat) {
    k + 3 <= |p| && p[k] == 0 && p[k + 1] == 0 && p[k + 2] == 1
  }

  /** 00 00 00 01 at position k. */
  predicate LongCodeAt(p: Bytes, k: nat) {
    k + 4 <= |p| && p[k] == 0 && CodeAt(p, k + 1)
  }

  predicate LooksLikeAnnexB(p: Bytes) {
    LongCodeAt(p, 0) || CodeAt(p, 0)
  }

  /** A unit with no start code inside it. */
  ghost predicate CodeFree(u: Bytes) {
    forall k: nat :: !CodeAt(u, k)
  }

  /** Position and length of the first start code at or after `offset`. */
  function FindStartCode(p: Bytes, offset: nat): (r: Option<(nat, nat)>)
    ensures r.Some? ==>
      && (r.value.1 == 3 || r.value.1 == 4)
      && offset <= r.value.0 && r.value.0 + r.value.1 <= |p|
    decreases |p| - offset
  {
    if offset + 3 > |p| then None
    else if LongCodeAt(p, offset) then Some((offset, 4))
    else if CodeAt(p, offset) then Some((offset, 3))
    else FindStartCode(p, offset + 1)
  }

  /** What FindStartCode finds is a start code and the first one; it reports
      the 4-byte form whenever a zero byte precedes 00 00 01. */
  lemma {:induction false} FindsTheFirst(p: Bytes, offset: nat)
    ensures var r := FindStartCode(p, offset);
      match r
      case None => forall k :: offset <= k ==> !CodeAt(p, k)
      case Some((at, len)) =>
        && CodeAt(p, at + len - 3)
        && (len == 4 <==> LongCodeAt(p, at))
        && forall k :: offset <= k < at + len - 3 ==> !CodeAt(p, k)
    decreases |p| - offset
  {
    if offset + 3 > |p| {
    } else {
      FindsTheFirst(p, offset + 1);
    }
  }

  method ScanStartCode(p: Bytes, offset: nat) returns (r: Option<(nat, nat)>)
    ensures r == FindStartCode(p, offset)
  {
    var index := offset;
    while index + 3 <= |p|
      invariant offset <= index
      invariant FindStartCode(p, offset) == FindStartCode(p, index)
      decreases |p| - index
    {
      if index + 4 <= |p| {
        SameFour(p[index..index + 4], START_CODE);
        if p[index..index + 4] == START_CODE {
          return Some((index, 4));
        }
      }
      SameThree(p[index..index + 3], [0, 0, 1]);
      if p[index..index + 3] == [0, 0, 1] {
        return Some((index, 3));
      }
      index := index + 1;
    }
    return None;
  }

  lemma SameFour(a: Bytes, b: Bytes)
    requires |a| == |b| == 4
    ensures a == b <==> a[0] == b[0] && a[1] == b[1] && a[2] == b[2] && a[3] == b[3]
  {
  }

  lemma SameThree(a: Bytes, b: Bytes)
    requires |a| == |b| == 3
    ensures a == b <==> a[0] == b[0] && a[1] == b[1] && a[2] == b[2]
  {
  }

  /** Where the unit that starts at `start` ends: the next start code, or the end. */
  function UnitEnd(p: Bytes, start: nat): (e: nat)
    requires start <= |p|
    ensures start <= e <= |p|
  {
    match FindStartCode(p, start)
    case None => |p|
    case Some(code) => code.0
  }

  /** The units of a start-code stream, from `cursor` on. */
  function Split(p: Bytes, cursor: nat): (units: seq<Bytes>)
    decreases |p| - cursor
  {
    match FindStartCode(p, cursor)
    case None => []
    case Some(code) =>
      var start := code.0 + code.1;
      var next := UnitEnd(p, start);
      [p[start..next]] + Split(p, next)
  }

  /** The stream with every unit behind a 4-byte start code. */
  function AnnexB(units: seq<Bytes>): Bytes {
    if units == [] then [] else START_CODE + units[0] + AnnexB(units[1..])
  }

  lemma {:induction false} AnnexBAppend(a: seq<Bytes>, b: seq<Bytes>)
    ensures AnnexB(a + b) == AnnexB(a) + AnnexB(b)
  {
    if a == [] {
      assert a + b == b;
    } else {
      AnnexBAppend(a[1..], b);
      assert (a + b)[1..] == a[1..] + b;
    }
  }

  lemma AnnexBLooksLikeIt(units: seq<Bytes>)
    requires units != []
    ensures LooksLikeAnnexB(AnnexB(units))
  {
    var p := AnnexB(units);
    assert p == START_CODE + (units[0] + AnnexB(units[1..]));
  }

  lemma {:induction false} FindSuffix(p: Bytes, c: nat, i: nat)
    requires c <= i <= |p|
    ensures FindStartCode(p, i) == match FindStartCode(p[c..], i - c)
                                   case None => None
                                   case Some(code) => Some((code.0 + c, code.1))
    decreases |p| - i
  {
    if i + 3 > |p| {
    } else {
      FindSuffix(p, c, i + 1);
    }
  }

  lemma SplitUnfold(p: Bytes, cursor: nat, start: nat, next: nat)
    requires FindStartCode(p, cursor).Some?
    requires start == FindStartCode(p, cursor).value.0 + FindStartCode(p, cursor).value.1
    requires next == UnitEnd(p, start)
    ensures Split(p, cursor) == [p[start..next]] + Split(p, next)
  {
  }

  lemma SliceOfSuffix(p: Bytes, c: nat, i: nat, j: nat)
    requires c <= i <= j <= |p|
    ensures p[i..j] == p[c..][i - c..j - c]
  {
  }

  /** Splitting from position i depends only on the bytes from c <= i on. */
  lemma {:induction false} SplitSuffix(p: Bytes, c: nat, i: nat)
    requires c <= i <= |p|
    ensures Split(p, i) == Split(p[c..], i - c)
    decreases |p| - i
  {
    FindSuffix(p, c, i);
    var r := FindStartCode(p, i);
    if r.Some? {
      var start := r.value.0 + r.value.1;
      FindSuffix(p, c, start);
      var next := UnitEnd(p, start);
      SplitUnfold(p, i, start, next);
      SplitUnfold(p[c..], i - c, start - c, next - c);
      SliceOfSuffix(p, c, start, next);
      SplitSuffix(p, c, next);
    }
  }

  lemma UnitIsCodeFree(p: Bytes, start: nat)
    requires start <= |p|
    ensures CodeFree(p[start..UnitEnd(p, start)])
  {
    var unit := p[start..UnitEnd(p, start)];
    FindsTheFirst(p, start);
    forall k: nat ensures !CodeAt(unit, k) {
      if CodeAt(unit, k) {
        assert CodeAt(p, start + k);
      }
    }
  }

  /** Every unit that splitting yields is free of start codes. */
  lemma {:induction false} SplitUnitsCodeFree(p: Bytes, cursor: nat)
    ensures forall u :: u in Split(p, cursor) ==> CodeFree(u)
    decreases |p| - cursor
  {
    match FindStartCode(p, cursor)
    case None =>
    case Some(code) =>
      var start := code.0 + code.1;
      var next := UnitEnd(p, start);
      UnitIsCodeFree(p, start);
      SplitUnitsCodeFree(p, next);
  }

  /** The first code at or after s is the 4-byte one at e, when nothing
      between s and e is a code; zero bytes before e do not move it. */
  lemma {:induction false} FirstCodeIsLong(p: Bytes, s: nat, e: nat)
    requires s <= e && LongCodeAt(p, e)
    requires forall k :: s <= k && k + 3 <= e ==> !CodeAt(p, k)
    ensures FindStartCode(p, s) == Some((e, 4))
    decreases e - s
  {
    if s == e {
    } else {
      FirstCodeIsLong(p, s + 1, e);
    }
  }

  /** One unit followed by more stream: the unit is cut off exactly. */
  lemma FirstUnit(u: Bytes, q: Bytes)
    requires CodeFree(u)
    requires q == [] || LongCodeAt(q, 0)
    ensures Split(START_CODE + u + q, 0) == [u] + Split(q, 0)
  {
    var p, e := START_CODE + u + q, 4 + |u|;
    assert FindStartCode(p, 0) == Some((0, 4));
    assert p[4..e] == u && p[e..] == q;
    UnitStops(u, q, p);
    SplitUnfold(p, 0, 4, e);
    SplitSuffix(p, e, e);
  }

  lemma UnitStops(u: Bytes, q: Bytes, p: Bytes)
    requires CodeFree(u) && p == START_CODE + u + q
    requires q == [] || LongCodeAt(q, 0)
    ensures UnitEnd(p, 4) == 4 + |u|
  {
    var e := 4 + |u|;
    forall k | 4 <= k && k + 3 <= e ensures !CodeAt(p, k) {
      assert !CodeAt(u, k - 4);
    }
    if q == [] {
      FindsTheFirst(p, 4);
    } else {
      assert p[e] == q[0] && p[e + 1] == q[1] && p[e + 2] == q[2] && p[e + 3] == q[3];
      FirstCodeIsLong(p, 4, e);
    }
  }

  /** Splitting undoes AnnexB on code-free units, trailing zeros included. */
  lemma {:induction false} SplitOfAnnexB(units: seq<Bytes>)
    requires forall u :: u in units ==> CodeFree(u)
    ensures Split(AnnexB(units), 0) == units
  {
    if units == [] {
    } else {
      var rest := AnnexB(units[1..]);
      if units[1..] != [] {
        assert rest == START_CODE + (units[1] + AnnexB(units[1..][1..]));
        assert LongCodeAt(rest, 0);
      }
      FirstUnit(units[0], rest);
      SplitOfAnnexB(units[1..]);
    }
  }
}
