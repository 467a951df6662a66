/** Why a length-prefixed payload is not converted: what is left of it behind
    the units that can be read. */
module AvccErrors {
  import opened Common
  import opened StartCode
  import opened Avcc

  /** Too little for a length. */
  predicate NoLength(tail: Bytes, size: nat) {
    0 < |tail| < size
  }

  /** A length, and fewer bytes than it says. */
  predicate CutShort(tail: Bytes, size: nat) {
    |tail| >= size && |tail| - size < BigEndian(tail[..size])
  }

  /** The payload is an encoding of these units with this behind it. */
  ghost predicate Leaves(p: Bytes, size: nat, units: seq<Bytes>, tail: Bytes) {
    Fits(units, size) && p == AvccEncode(units, size) + tail
  }

  lemma {:induction false} UnitsBefore(units: seq<Bytes>, size: nat, tail: Bytes)
    requires size > 0 && Fits(units, size)
    ensures var r := AvccUnits(tail, size); AvccUnits(AvccEncode(units, size) + tail, size).Err? == r.Err?
    ensures var r := AvccUnits(tail, size); r.Err? ==> AvccUnits(AvccEncode(units, size) + tail, size) == r
  {
    if units == [] {
      assert AvccEncode(units, size) + tail == tail;
    } else {
      var field, rest := ToBigEndian(|units[0]|, size), units[1..];
      UnitsBefore(rest, size, tail);
      UnitsUnfold(field, units[0], AvccEncode(rest, size) + tail);
      assert AvccEncode(units, size) + tail == field + units[0] + (AvccEncode(rest, size) + tail);
    }
  }

  lemma FitsMore(unit: Bytes, more: seq<Bytes>, size: nat)
    requires |unit| < Pow256(size) && Fits(more, size)
    ensures Fits([unit] + more, size)
  {
  }

  lemma EncodeMore(unit: Bytes, more: seq<Bytes>, size: nat)
    requires |unit| < Pow256(size) && Fits(more, size) && Fits([unit] + more, size)
    ensures AvccEncode([unit] + more, size) == ToBigEndian(|unit|, size) + unit + AvccEncode(more, size)
  {
    assert ([unit] + more)[1..] == more;
  }

  lemma LeavesMore(field: Bytes, unit: Bytes, rest: Bytes, more: seq<Bytes>, tail: Bytes)
    requires field != [] && |unit| == BigEndian(field) && Leaves(rest, |field|, more, tail)
    ensures Leaves(field + unit + rest, |field|, [unit] + more, tail)
  {
    BigEndianUnique(field);
    FitsMore(unit, more, |field|);
    EncodeMore(unit, more, |field|);
    Associative(field + unit, AvccEncode(more, |field|), tail);
  }

  lemma {:induction false} WhatIsLeft(p: Bytes, size: nat) returns (units: seq<Bytes>, tail: Bytes)
    requires size > 0 && AvccUnits(p, size).Err?
    ensures Leaves(p, size, units, tail)
    ensures if AvccUnits(p, size).error == MissingLength then NoLength(tail, size) else CutShort(tail, size)
    decreases |p|
  {
    if |p| < size || BigEndian(p[..size]) > |p| - size {
      units, tail := [], p;
      assert [] + p == p;
    } else {
      var field := p[..size];
      var end := size + BigEndian(field);
      var unit, rest := p[size..end], p[end..];
      assert p == field + unit + rest;
      UnitsUnfold(field, unit, rest);
      var more;
      more, tail := WhatIsLeft(rest, size);
      units := [unit] + more;
      LeavesMore(field, unit, rest, more, tail);
    }
  }

  /** Conversion fails for a missing length or a unit cut short exactly when that
      is what is left behind the units that can be read; for the size of its
      lengths exactly when that is not 1 to 4; and for want of units exactly
      when there are some and all are empty. */
  lemma ErrorsExactly(p: Bytes, size: nat)
    ensures AvccToAnnexB(p, size) == Err(InvalidLengthSize) <==> size < 1 || size > 4
    ensures 1 <= size <= 4 ==>
      (AvccToAnnexB(p, size) == Err(MissingLength) <==> exists units, tail :: Leaves(p, size, units, tail) && NoLength(tail, size))
    ensures 1 <= size <= 4 ==>
      (AvccToAnnexB(p, size) == Err(TruncatedUnit) <==> exists units, tail :: Leaves(p, size, units, tail) && CutShort(tail, size))
    ensures 1 <= size <= 4 ==>
      (AvccToAnnexB(p, size) == Err(NoUnits) <==>
         exists units :: Leaves(p, size, units, []) && units != [] && NonEmpty(units) == [])
  {
    if 1 <= size <= 4 {
      LeftOver(p, size);
      AllEmpty(p, size);
    }
  }

  lemma LeftOver(p: Bytes, size: nat)
    requires 1 <= size <= 4
    ensures AvccToAnnexB(p, size) == Err(MissingLength) <==> exists units, tail :: Leaves(p, size, units, tail) && NoLength(tail, size)
    ensures AvccToAnnexB(p, size) == Err(TruncatedUnit) <==> exists units, tail :: Leaves(p, size, units, tail) && CutShort(tail, size)
  {
    if AvccUnits(p, size).Err? {
      var units, tail := WhatIsLeft(p, size);
      assert Leaves(p, size, units, tail);
    }
    forall units, tail | Leaves(p, size, units, tail) && NoLength(tail, size)
      ensures AvccUnits(p, size) == Err(MissingLength)
    {
      UnitsBefore(units, size, tail);
    }
    forall units, tail | Leaves(p, size, units, tail) && CutShort(tail, size)
      ensures AvccUnits(p, size) == Err(TruncatedUnit)
    {
      UnitsBefore(units, size, tail);
    }
  }

  lemma AllEmpty(p: Bytes, size: nat)
    requires 1 <= size <= 4
    ensures AvccToAnnexB(p, size) == Err(NoUnits) <==>
      exists units :: Leaves(p, size, units, []) && units != [] && NonEmpty(units) == []
  {
    assert p + [] == p;
    if AvccToAnnexB(p, size) == Err(NoUnits) {
      var units := AvccUnits(p, size).value;
      UnitsAreTheEncoding(p, size);
      assert Leaves(p, size, units, []);
      if NonEmpty(units) != [] {
        AnnexBLooksLikeIt(NonEmpty(units));
      }
    }
    forall units | Leaves(p, size, units, []) && units != [] && NonEmpty(units) == []
      ensures AvccToAnnexB(p, size) == Err(NoUnits)
    {
      assert AvccEncode(units, size) + [] == AvccEncode(units, size);
      UnitsOfEncode(units, size);
    }
  }
}
