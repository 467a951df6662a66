/** Length-prefixed payloads that begin like a start code: which they are, and
    when normalising still gives their units. */
module Framing {
  import opened Common
  import opened StartCode
  import opened CodedStream
  import opened Avcc
  import opened Keyframe

  // ------------------------------------------------------------------
  // Payloads taken for Annex B
  // ------------------------------------------------------------------

  /** The i-th unit is there, with a length from lo up to hi. */
  predicate Long(units: seq<Bytes>, i: nat, lo: nat, hi: nat) {
    i < |units| && lo <= |units[i]| < hi
  }

  /** The lengths that make the first four bytes of a payload read 00 00 01, or
      00 00 00 01. */
  predicate Mistaken(units: seq<Bytes>, size: nat) {
    match size
    case 1 => Long(units, 0, 0, 1) && Long(units, 1, 0, 1)
              && (Long(units, 2, 1, 2) || (Long(units, 2, 0, 1) && Long(units, 3, 1, 2)))
    case 2 => Long(units, 0, 0, 1) && (Long(units, 1, 0x100, 0x200) || Long(units, 1, 1, 2))
    case 3 => Long(units, 0, 1, 2) || (Long(units, 0, 0, 1) && Long(units, 1, 0x1_0000, 0x2_0000))
    case 4 => Long(units, 0, 0x100, 0x200) || Long(units, 0, 1, 2)
    case _ => false
  }

  lemma Powers()
    ensures Pow256(0) == 1 && Pow256(1) == 0x100 && Pow256(2) == 0x1_0000
    ensures Pow256(3) == 0x100_0000 && Pow256(4) == 0x1_0000_0000
  {
    assert Pow256(1) == 256 * Pow256(0) && Pow256(2) == 256 * Pow256(1);
    assert Pow256(3) == 256 * Pow256(2) && Pow256(4) == 256 * Pow256(3);
  }

  lemma OneByte(n: nat)
    requires n < 0x100
    ensures n < Pow256(1) && ToBigEndian(n, 1) == [n]
  {
    Powers();
    assert ToBigEndian(n, 1) == ToBigEndian(n / 256, 0) + [n % 256];
  }

  lemma TwoBytes(n: nat)
    requires n < 0x1_0000
    ensures n < Pow256(2) && ToBigEndian(n, 2) == [n / 0x100, n % 0x100]
  {
    Powers();
    OneByte(n / 256);
    assert ToBigEndian(n, 2) == ToBigEndian(n / 256, 1) + [n % 256];
  }

  lemma ThreeBytes(n: nat)
    requires n < 0x100_0000
    ensures n < Pow256(3) && ToBigEndian(n, 3) == [n / 0x100 / 0x100, n / 0x100 % 0x100, n % 0x100]
  {
    Powers();
    TwoBytes(n / 256);
    assert ToBigEndian(n, 3) == ToBigEndian(n / 256, 2) + [n % 256];
  }

  lemma FourBytes(n: nat)
    requires n < 0x1_0000_0000
    ensures n < Pow256(4)
    ensures ToBigEndian(n, 4) == [n / 0x100 / 0x100 / 0x100, n / 0x100 / 0x100 % 0x100, n / 0x100 % 0x100, n % 0x100]
  {
    Powers();
    ThreeBytes(n / 256);
    assert ToBigEndian(n, 4) == ToBigEndian(n / 256, 3) + [n % 256];
  }

  lemma EncodeUnfold(units: seq<Bytes>, size: nat)
    requires Fits(units, size) && units != []
    ensures AvccEncode(units, size) == ToBigEndian(|units[0]|, size) + (units[0] + AvccEncode(units[1..], size))
  {
  }

  /** The first bytes of an encoding are the first length. */
  lemma FirstField(units: seq<Bytes>, size: nat)
    requires size > 0 && Fits(units, size) && units != []
    ensures var p := AvccEncode(units, size);
      && |p| >= size && p[..size] == ToBigEndian(|units[0]|, size)
      && (units[0] == [] ==> p[size..] == AvccEncode(units[1..], size))
  {
    EncodeUnfold(units, size);
  }

  lemma FirstFour(units: seq<Bytes>)
    requires Fits(units, 4) && units != []
    ensures var p, n := AvccEncode(units, 4), |units[0]|;
      && |p| >= 4 && p[0] == n / 0x100 / 0x100 / 0x100 && p[1] == n / 0x100 / 0x100 % 0x100
      && p[2] == n / 0x100 % 0x100 && p[3] == n % 0x100
  {
    var p := AvccEncode(units, 4);
    Powers();
    FirstField(units, 4);
    FourBytes(|units[0]|);
    assert p[0] == p[..4][0] && p[1] == p[..4][1] && p[2] == p[..4][2] && p[3] == p[..4][3];
  }

  lemma MistakenAt4(units: seq<Bytes>)
    requires Fits(units, 4) && units != []
    ensures LooksLikeAnnexB(AvccEncode(units, 4)) <==> Mistaken(units, 4)
  {
    FirstFour(units);
    Looks(AvccEncode(units, 4));
  }

  lemma FirstThree(units: seq<Bytes>)
    requires Fits(units, 3) && units != []
    ensures var p, n := AvccEncode(units, 3), |units[0]|;
      && |p| >= 3 && p[0] == n / 0x100 / 0x100 && p[1] == n / 0x100 % 0x100 && p[2] == n % 0x100
      && (n == 0 ==> p[3..] == AvccEncode(units[1..], 3))
  {
    var p := AvccEncode(units, 3);
    Powers();
    FirstField(units, 3);
    ThreeBytes(|units[0]|);
    assert p[0] == p[..3][0] && p[1] == p[..3][1] && p[2] == p[..3][2];
  }

  lemma MistakenAt3(units: seq<Bytes>)
    requires Fits(units, 3) && units != []
    ensures LooksLikeAnnexB(AvccEncode(units, 3)) <==> Mistaken(units, 3)
  {
    var p := AvccEncode(units, 3);
    FirstThree(units);
    if |units| == 1 {
      assert |units[0]| == 0 ==> p[3..] == [];
    } else {
      FirstThree(units[1..]);
      assert |units[0]| == 0 ==> p[3] == p[3..][0];
    }
  }

  lemma FirstTwo(units: seq<Bytes>)
    requires Fits(units, 2) && units != []
    ensures var p, n := AvccEncode(units, 2), |units[0]|;
      && |p| >= 2 && p[0] == n / 0x100 && p[1] == n % 0x100
      && (n == 0 ==> p[2..] == AvccEncode(units[1..], 2))
  {
    var p := AvccEncode(units, 2);
    Powers();
    FirstField(units, 2);
    TwoBytes(|units[0]|);
    assert p[0] == p[..2][0] && p[1] == p[..2][1];
  }

  lemma MistakenAt2(units: seq<Bytes>)
    requires Fits(units, 2) && units != []
    ensures LooksLikeAnnexB(AvccEncode(units, 2)) <==> Mistaken(units, 2)
  {
    var p := AvccEncode(units, 2);
    FirstTwo(units);
    if |units| == 1 {
      assert |units[0]| == 0 ==> p[2..] == [];
    } else {
      FirstTwo(units[1..]);
      assert |units[0]| == 0 ==> p[2] == p[2..][0] && p[3] == p[2..][1];
    }
  }

  /** The encoding with 1-byte lengths. */
  function EncodeShort(units: seq<Bytes>): Bytes
    requires forall i :: 0 <= i < |units| ==> |units[i]| < 0x100
  {
    if units == [] then [] else [|units[0]|] + (units[0] + EncodeShort(units[1..]))
  }

  lemma FitsShort(units: seq<Bytes>)
    requires Fits(units, 1)
    ensures forall i :: 0 <= i < |units| ==> |units[i]| < 0x100
  {
    Powers();
    forall i | 0 <= i < |units| ensures |units[i]| < 0x100 {
      assert units[i] in units;
    }
  }

  lemma {:induction false} EncodedShort(units: seq<Bytes>)
    requires Fits(units, 1) && forall i :: 0 <= i < |units| ==> |units[i]| < 0x100
    ensures AvccEncode(units, 1) == EncodeShort(units)
  {
    if units == [] {
    } else {
      OneByte(|units[0]|);
      EncodeUnfold(units, 1);
      EncodedShort(units[1..]);
    }
  }

  /** After k empty units the next byte is the next length. */
  lemma {:induction false} ShortByteAt(units: seq<Bytes>, k: nat)
    requires forall i :: 0 <= i < |units| ==> |units[i]| < 0x100
    requires k <= |units| && forall i :: 0 <= i < k ==> units[i] == []
    ensures var p := EncodeShort(units); if k < |units| then k < |p| && p[k] == |units[k]| else |p| == k
    decreases k
  {
    if units == [] || k == 0 {
    } else {
      ShortByteAt(units[1..], k - 1);
      assert EncodeShort(units) == [0] + EncodeShort(units[1..]);
    }
  }

  lemma ByteAt(units: seq<Bytes>, k: nat)
    requires Fits(units, 1) && k <= |units| && forall i :: 0 <= i < k ==> units[i] == []
    ensures var p := AvccEncode(units, 1); if k < |units| then k < |p| && p[k] == |units[k]| else |p| == k
  {
    FitsShort(units);
    EncodedShort(units);
    ShortByteAt(units, k);
  }

  lemma Looks(p: Bytes)
    ensures LooksLikeAnnexB(p) <==>
      |p| >= 3 && p[0] == 0 && p[1] == 0 && (p[2] == 1 || (p[2] == 0 && |p| >= 4 && p[3] == 1))
  {
  }

  lemma MistakenAfterTwo(units: seq<Bytes>)
    requires Fits(units, 1) && Long(units, 0, 0, 1) && Long(units, 1, 0, 1)
    ensures LooksLikeAnnexB(AvccEncode(units, 1)) <==> Long(units, 2, 1, 2) || (Long(units, 2, 0, 1) && Long(units, 3, 1, 2))
  {
    var p := AvccEncode(units, 1);
    Looks(p);
    ByteAt(units, 0);
    ByteAt(units, 1);
    ByteAt(units, 2);
    if Long(units, 2, 0, 1) {
      ByteAt(units, 3);
    }
  }

  /** A byte other than zero among the first two. */
  lemma NoCodeFirst(p: Bytes)
    requires |p| < 2 || p[0] != 0 || p[1] != 0
    ensures !LooksLikeAnnexB(p)
  {
  }

  lemma MistakenAt1(units: seq<Bytes>)
    requires Fits(units, 1) && units != []
    ensures LooksLikeAnnexB(AvccEncode(units, 1)) <==> Mistaken(units, 1)
  {
    var p := AvccEncode(units, 1);
    if Long(units, 0, 0, 1) && Long(units, 1, 0, 1) {
      MistakenAfterTwo(units);
    } else if Long(units, 0, 0, 1) {
      ByteAt(units, 1);
      NoCodeFirst(p);
    } else {
      ByteAt(units, 0);
      NoCodeFirst(p);
    }
  }

  /** A length-prefixed payload is taken for Annex B exactly when its lengths
      read as a start code. */
  lemma MistakenForAnnexB(units: seq<Bytes>, size: nat)
    requires 1 <= size <= 4 && Fits(units, size)
    ensures LooksLikeAnnexB(AvccEncode(units, size)) <==> Mistaken(units, size)
  {
    if units == [] {
    } else if size == 1 {
      MistakenAt1(units);
    } else if size == 2 {
      MistakenAt2(units);
    } else if size == 3 {
      MistakenAt3(units);
    } else {
      MistakenAt4(units);
    }
  }

  // ------------------------------------------------------------------
  // Whether the units come back
  // ------------------------------------------------------------------

  /** Normalising the encoding of units and splitting the result.  It fails
      exactly when there are units and all are empty.  Otherwise the non-empty
      units come back in order exactly when no unit contains a start code, or,
      for a payload taken for Annex B, when that payload spells those units. */
  lemma NormalizeRoundTrip(units: seq<Bytes>, size: nat, config: Option<H264Config>)
    requires 1 <= size <= 4 && Fits(units, size) && LengthSize(config) == size
    ensures var p := AvccEncode(units, size);
      match Normalize(p, false, config)
      case Err(e) => e == NoUnits && units != [] && NonEmpty(units) == []
      case Ok(output) =>
        && (units == [] || NonEmpty(units) != [])
        && (Split(output, 0) == NonEmpty(units) <==>
              if Mistaken(units, size) then exists longs :: Spells(p, NonEmpty(units), longs)
              else forall u :: u in units ==> CodeFree(u))
  {
    MistakenForAnnexB(units, size);
    if Mistaken(units, size) {
      SplitExactly(AvccEncode(units, size), NonEmpty(units));
      SomeUnit(units, size);
    } else {
      AvccRoundTrip(units, size);
    }
  }

  lemma SomeUnit(units: seq<Bytes>, size: nat)
    requires 1 <= size <= 4 && Mistaken(units, size)
    ensures NonEmpty(units) != []
  {
    assert exists i :: 0 <= i < |units| && units[i] != [];
    var i :| 0 <= i < |units| && units[i] != [];
    assert units[i] in units;
    assert units[i] in NonEmpty(units);
  }

  function Total(units: seq<Bytes>): nat {
    if units == [] then 0 else |units[0]| + Total(units[1..])
  }

  function Longs(longs: seq<bool>): (n: nat)
    ensures n <= |longs|
  {
    if longs == [] then 0 else (if longs[0] then 1 else 0) + Longs(longs[1..])
  }

  lemma {:induction false} EncodedLength(units: seq<Bytes>, size: nat)
    requires Fits(units, size)
    ensures |AvccEncode(units, size)| == Total(units) + size * |units|
  {
    if units == [] {
    } else {
      var k := |units[1..]|;
      EncodedLength(units[1..], size);
      OneMoreField(size, k);
      assert |units| == k + 1;
    }
  }

  lemma OneMoreField(size: nat, k: nat)
    ensures size * (k + 1) == size * k + size
  {
  }

  lemma {:induction false} CodedLength(units: seq<Bytes>, longs: seq<bool>)
    requires |units| == |longs|
    ensures |Coded(units, longs)| == Total(units) + 3 * |units| + Longs(longs)
  {
    if units == [] {
    } else {
      CodedLength(units[1..], longs[1..]);
    }
  }

  lemma NonEmptyStep(units: seq<Bytes>)
    requires units != []
    ensures var rest := NonEmpty(units[1..]);
      && NonEmpty(units) == (if units[0] == [] then rest else [units[0]] + rest)
      && Total(NonEmpty(units)) == |units[0]| + Total(rest)
  {
    var rest := NonEmpty(units[1..]);
    if units[0] == [] {
      assert NonEmpty(units) == rest;
    } else {
      assert ([units[0]] + rest)[1..] == rest;
    }
  }

  lemma {:induction false} NonEmptyTotal(units: seq<Bytes>)
    ensures Total(NonEmpty(units)) == Total(units) && |NonEmpty(units)| <= |units|
    ensures |NonEmpty(units)| == |units| ==> NonEmpty(units) == units
  {
    if units == [] {
    } else {
      NonEmptyTotal(units[1..]);
      NonEmptyStep(units);
    }
  }

  lemma {:induction false} AllOneKind(longs: seq<bool>, long: bool)
    requires Longs(longs) == if long then |longs| else 0
    ensures forall i :: 0 <= i < |longs| ==> longs[i] == long
  {
    if longs == [] {
    } else {
      AllOneKind(longs[1..], long);
      assert forall i :: 0 < i < |longs| ==> longs[i] == longs[1..][i - 1];
    }
  }

  lemma CodeIsOne(long: bool)
    ensures BigEndian(Code(long)) == 1 && |Code(long)| == if long then 4 else 3
  {
    var code := Code(long);
    assert BigEndian([0]) == 0;
    assert [0, 0][..1] == [0] && BigEndian([0, 0]) == 0;
    assert [0, 0, 0][..2] == [0, 0] && BigEndian([0, 0, 0]) == 0;
    if long {
      assert code[..3] == [0, 0, 0];
    } else {
      assert code[..2] == [0, 0];
    }
  }

  predicate OneByteEach(units: seq<Bytes>) {
    units == [] || (|units[0]| == 1 && OneByteEach(units[1..]))
  }

  lemma {:induction false} OneByteEachIs(units: seq<Bytes>)
    ensures OneByteEach(units) <==> forall i :: 0 <= i < |units| ==> |units[i]| == 1
  {
    if units == [] {
    } else {
      OneByteEachIs(units[1..]);
      assert forall i :: 0 < i < |units| ==> units[i] == units[1..][i - 1];
    }
  }

  lemma FieldIsCode(n: nat, long: bool)
    requires n < Pow256(|Code(long)|)
    ensures ToBigEndian(n, |Code(long)|) == Code(long) <==> n == 1
  {
    CodeIsOne(long);
    BigEndianUnique(Code(long));
  }

  lemma CodedUnfold(units: seq<Bytes>, longs: seq<bool>)
    requires |units| == |longs| && units != []
    ensures Coded(units, longs) == Code(longs[0]) + (units[0] + Coded(units[1..], longs[1..]))
  {
  }

  /** The first field of an encoding is a start code, and the rest goes on so. */
  lemma FirstFieldIsCode(units: seq<Bytes>, longs: seq<bool>, long: bool)
    requires |units| == |longs| && units != [] && longs[0] == long && Fits(units, |Code(long)|)
    ensures AvccEncode(units, |Code(long)|) == Coded(units, longs) <==>
      |units[0]| == 1 && AvccEncode(units[1..], |Code(long)|) == Coded(units[1..], longs[1..])
  {
    var size := |Code(long)|;
    EncodeUnfold(units, size);
    CodedUnfold(units, longs);
    FieldIsCode(|units[0]|, long);
    SameParts(ToBigEndian(|units[0]|, size), units[0], AvccEncode(units[1..], size),
              Code(long), Coded(units[1..], longs[1..]));
  }

  /** An encoding whose length fields are the start codes themselves. */
  lemma {:induction false} FieldsAreCodes(units: seq<Bytes>, longs: seq<bool>, long: bool)
    requires |units| == |longs| && forall i :: 0 <= i < |longs| ==> longs[i] == long
    requires Fits(units, |Code(long)|)
    ensures AvccEncode(units, |Code(long)|) == Coded(units, longs) <==> OneByteEach(units)
    decreases |units|
  {
    if units == [] {
    } else {
      FirstFieldIsCode(units, longs, long);
      FieldsAreCodes(units[1..], longs[1..], long);
    }
  }

  lemma SameParts(a: Bytes, u: Bytes, x: Bytes, b: Bytes, y: Bytes)
    requires |a| == |b|
    ensures a + (u + x) == b + (u + y) <==> a == b && x == y
  {
    var p, q := a + (u + x), b + (u + y);
    Pieces(a, u, x);
    Pieces(b, u, y);
  }

  /** With 4-byte lengths a stream can only be spelled with a long code for
      every unit and no empty unit. */
  lemma LongCodesOnly(units: seq<Bytes>, longs: seq<bool>)
    requires Fits(units, 4) && Spells(AvccEncode(units, 4), NonEmpty(units), longs)
    ensures NonEmpty(units) == units && forall i :: 0 <= i < |longs| ==> longs[i]
  {
    var kept := NonEmpty(units);
    EncodedLength(units, 4);
    CodedLength(kept, longs);
    NonEmptyTotal(units);
    assert 4 * |units| == 3 * |kept| + Longs(longs);
    AllOneKind(longs, true);
  }

  /** With 3-byte lengths and no empty unit all codes are short. */
  lemma ShortCodesOnly(units: seq<Bytes>, longs: seq<bool>)
    requires Fits(units, 3) && NonEmpty(units) == units && Spells(AvccEncode(units, 3), units, longs)
    ensures forall i :: 0 <= i < |longs| ==> !longs[i]
  {
    EncodedLength(units, 3);
    CodedLength(units, longs);
    AllOneKind(longs, false);
  }

  lemma ShortUnitsAreFree(units: seq<Bytes>)
    requires forall i :: 0 <= i < |units| ==> |units[i]| == 1
    ensures NonEmpty(units) == units && forall u :: u in units ==> CodeFree(u)
  {
    AllKept(units);
  }

  lemma {:induction false} AllKept(units: seq<Bytes>)
    requires forall i :: 0 <= i < |units| ==> |units[i]| == 1
    ensures NonEmpty(units) == units
  {
    if units == [] {
    } else {
      AllKept(units[1..]);
      assert units == [units[0]] + units[1..];
    }
  }

  /** A payload with 4-byte lengths spells its units as Annex B exactly when
      each of them is a single byte. */
  lemma SpelledAt4(units: seq<Bytes>)
    requires Fits(units, 4)
    ensures (exists longs :: Spells(AvccEncode(units, 4), NonEmpty(units), longs))
       <==> forall i :: 0 <= i < |units| ==> |units[i]| == 1
  {
    var all := seq(|units|, i => true);
    FieldsAreCodes(units, all, true);
    OneByteEachIs(units);
    if forall i :: 0 <= i < |units| ==> |units[i]| == 1 {
      ShortUnitsAreFree(units);
      assert Spells(AvccEncode(units, 4), NonEmpty(units), all);
    }
    forall longs | Spells(AvccEncode(units, 4), NonEmpty(units), longs) ensures OneByteEach(units) {
      LongCodesOnly(units, longs);
      assert longs == all;
    }
  }

  /** Single bytes, and none but the last is zero. */
  predicate SingleBytes(units: seq<Bytes>) {
    forall i :: 0 <= i < |units| ==> |units[i]| == 1 && (i + 1 < |units| ==> units[i] != [0])
  }

  lemma SingleBytesSeparate(units: seq<Bytes>)
    requires SingleBytes(units)
    ensures Separated(units, seq(|units|, i => false))
  {
    forall i: nat | i + 1 < |units| ensures !EndsInZero(units[i]) {
      assert units[i] == [units[i][0]];
    }
  }

  lemma SeparatedSingleBytes(units: seq<Bytes>, longs: seq<bool>)
    requires |units| == |longs| && Separated(units, longs)
    requires (forall i :: 0 <= i < |units| ==> |units[i]| == 1) && forall i :: 0 <= i < |longs| ==> !longs[i]
    ensures SingleBytes(units)
  {
    forall i | 0 <= i < |units| && i + 1 < |units| ensures units[i] != [0] {
      assert !longs[i + 1] && !EndsInZero(units[i + 1 - 1]);
    }
  }

  /** With 3-byte lengths, when none is empty: single bytes, and no zero byte
      but the last. */
  lemma SpelledAt3(units: seq<Bytes>)
    requires Fits(units, 3) && NonEmpty(units) == units
    ensures (exists longs :: Spells(AvccEncode(units, 3), units, longs)) <==> SingleBytes(units)
  {
    var none := seq(|units|, i => false);
    FieldsAreCodes(units, none, false);
    OneByteEachIs(units);
    if SingleBytes(units) {
      ShortUnitsAreFree(units);
      SingleBytesSeparate(units);
      assert Spells(AvccEncode(units, 3), units, none);
    }
    forall longs | Spells(AvccEncode(units, 3), units, longs) ensures SingleBytes(units) {
      ShortCodesOnly(units, longs);
      assert longs == none;
      SeparatedSingleBytes(units, longs);
    }
  }

  /** The round trip for 4-byte lengths, by lengths and contents alone. */
  lemma RoundTripAt4(units: seq<Bytes>, config: Option<H264Config>)
    requires Fits(units, 4) && LengthSize(config) == 4
    requires Normalize(AvccEncode(units, 4), false, config).Ok?
    ensures Split(Normalize(AvccEncode(units, 4), false, config).value, 0) == NonEmpty(units) <==>
      if Mistaken(units, 4) then forall i :: 0 <= i < |units| ==> |units[i]| == 1
      else forall u :: u in units ==> CodeFree(u)
  {
    NormalizeRoundTrip(units, 4, config);
    SpelledAt4(units);
  }

  /** The round trip for shorter lengths when no unit is empty. */
  lemma RoundTripWithoutEmpty(units: seq<Bytes>, size: nat, config: Option<H264Config>)
    requires 1 <= size <= 3 && Fits(units, size) && LengthSize(config) == size && NonEmpty(units) == units
    ensures Normalize(AvccEncode(units, size), false, config).Ok?
    ensures Split(Normalize(AvccEncode(units, size), false, config).value, 0) == units <==>
      if size == 3 && units != [] && |units[0]| == 1
      then SingleBytes(units)
      else forall u :: u in units ==> CodeFree(u)
  {
    NormalizeRoundTrip(units, size, config);
    assert units != [] ==> units[0] in NonEmpty(units) && units[0] != [];
    if size == 3 {
      SpelledAt3(units);
    }
  }

  lemma PlainForm(units: seq<Bytes>, config: H264Config)
    requires 1 <= config.lengthSize <= 4 && Fits(units, config.lengthSize) && !Mistaken(units, config.lengthSize)
    requires NonEmpty(units) != []
    ensures Normalize(AvccEncode(units, config.lengthSize), false, Some(config)) == Ok(AnnexB(NonEmpty(units)))
  {
    MistakenForAnnexB(units, config.lengthSize);
    UnitsOfEncode(units, config.lengthSize);
    AnnexBLooksLikeIt(NonEmpty(units));
  }

  /** The units of a normalised keyframe: those of its parameter sets in front
      when one is missing, and its own, when it is not taken for Annex B. */
  lemma KeyframeUnits(units: seq<Bytes>, sets: seq<Bytes>, config: H264Config)
    requires 1 <= config.lengthSize <= 4 && Fits(units, config.lengthSize) && !Mistaken(units, config.lengthSize)
    requires config.parameterSets == AnnexB(sets)
    requires (forall u :: u in units ==> CodeFree(u)) && (forall u :: u in sets ==> CodeFree(u))
    requires NonEmpty(units) != []
    ensures var r := Normalize(AvccEncode(units, config.lengthSize), true, Some(config));
      && r.Ok?
      && Split(r.value, 0) == if HasBoth(AnnexB(NonEmpty(units))) then NonEmpty(units) else sets + NonEmpty(units)
  {
    var kept, p := NonEmpty(units), AvccEncode(units, config.lengthSize);
    PlainForm(units, config);
    if HasBoth(AnnexB(kept)) {
      assert Normalize(p, true, Some(config)) == Ok(AnnexB(kept));
      SplitOfAnnexB(kept);
    } else {
      assert Normalize(p, true, Some(config)) == Ok(config.parameterSets + AnnexB(kept));
      AnnexBAppend(sets, kept);
      SplitOfAnnexB(sets + kept);
    }
  }

  /** Without a configuration lengths are taken to have four bytes, and keyframes
      are like any other packet. */
  lemma WithoutConfiguration(payload: Bytes, isKeyframe: bool, units: seq<Bytes>)
    ensures Normalize(payload, isKeyframe, None) == Normalize(payload, false, Some(H264Config(4, [])))
    ensures Fits(units, 4) && !Mistaken(units, 4) && (forall u :: u in units ==> CodeFree(u)) && NonEmpty(units) != [] ==>
      var r := Normalize(AvccEncode(units, 4), isKeyframe, None);
      r.Ok? && Split(r.value, 0) == NonEmpty(units)
  {
    if Fits(units, 4) && !Mistaken(units, 4) && (forall u :: u in units ==> CodeFree(u)) && NonEmpty(units) != [] {
      NormalizeRoundTrip(units, 4, None);
    }
  }
}
