/** Streams of units behind start codes of either length: exactly what splitting
    can give back. */
module CodedStream {
  import opened Common
  import opened StartCode

  const SHORT_CODE: Bytes := [0, 0, 1]

  function Code(long: bool): Bytes {
    if long then START_CODE else SHORT_CODE
  }

  /** The units, each behind its start code. */
  function Coded(units: seq<Bytes>, longs: seq<bool>): Bytes
    requires |units| == |longs|
  {
    if units == [] then [] else Code(longs[0]) + (units[0] + Coded(units[1..], longs[1..]))
  }

  predicate EndsInZero(u: Bytes) {
    u != [] && u[|u| - 1] == 0
  }

  /** No 3-byte code follows a unit that ends in a zero byte: that byte would be
      taken for the beginning of a 4-byte code. */
  predicate Separated(units: seq<Bytes>, longs: seq<bool>)
    requires |units| == |longs|
  {
    forall i :: 0 < i < |units| && EndsInZero(units[i - 1]) ==> longs[i]
  }

  /** The stream spells these units with these codes, and unambiguously. */
  ghost predicate Spells(p: Bytes, units: seq<Bytes>, longs: seq<bool>) {
    && |units| == |longs| && p == Coded(units, longs) && Separated(units, longs)
    && forall u :: u in units ==> CodeFree(u)
  }

  lemma CodeBegins(long: bool, more: Bytes)
    ensures LongCodeAt(Code(long) + more, 0) <==> long
    ensures LooksLikeAnnexB(Code(long) + more)
    ensures FindStartCode(Code(long) + more, 0) == Some((0, |Code(long)|))
  {
    var p := Code(long) + more;
    assert p[0] == Code(long)[0] && p[1] == Code(long)[1] && p[2] == Code(long)[2];
    assert long ==> p[3] == 1;
  }

  /** The unit after the first code ends where the next code begins. */
  lemma UnitEndsAtCode(p: Bytes, c: nat, e: nat)
    requires c <= e <= |p|
    requires forall k :: c <= k && k + 3 <= e ==> !CodeAt(p, k)
    requires e == |p| || LongCodeAt(p, e) || (CodeAt(p, e) && (e == c || p[e - 1] != 0))
    ensures UnitEnd(p, c) == e
  {
    if e == |p| {
      FindsTheFirst(p, c);
    } else if LongCodeAt(p, e) {
      FirstCodeIsLong(p, c, e);
    } else {
      FirstCodeIsShort(p, c, e);
    }
  }

  lemma {:induction false} FirstCodeIsShort(p: Bytes, s: nat, e: nat)
    requires s <= e && CodeAt(p, e) && !LongCodeAt(p, e) && (e == s || p[e - 1] != 0)
    requires forall k :: s <= k && k + 3 <= e ==> !CodeAt(p, k)
    ensures FindStartCode(p, s) == Some((e, 3))
    decreases e - s
  {
    if s == e {
    } else {
      FirstCodeIsShort(p, s + 1, e);
    }
  }

  lemma Pieces(code: Bytes, u: Bytes, q: Bytes)
    ensures var p, c := code + (u + q), |code|;
      p[..c] == code && p[c..c + |u|] == u && p[c + |u|..] == q
  {
  }

  /** A code inside a slice is one of the whole. */
  lemma CodeInSlice(p: Bytes, c: nat, e: nat, k: nat)
    requires c <= k && k + 3 <= e <= |p|
    ensures CodeAt(p[c..e], k - c) <==> CodeAt(p, k)
  {
  }

  lemma CodeInRest(p: Bytes, e: nat)
    requires e <= |p|
    ensures (CodeAt(p[e..], 0) <==> CodeAt(p, e)) && (LongCodeAt(p[e..], 0) <==> LongCodeAt(p, e))
  {
  }

  lemma LastOfSlice(p: Bytes, c: nat, e: nat)
    requires c <= e <= |p|
    ensures EndsInZero(p[c..e]) <==> c < e && p[e - 1] == 0
  {
  }

  /** Splitting off the first unit of a coded stream. */
  lemma FirstCodedUnit(long: bool, u: Bytes, q: Bytes)
    requires CodeFree(u)
    requires q == [] || LongCodeAt(q, 0) || (CodeAt(q, 0) && !EndsInZero(u))
    ensures Split(Code(long) + (u + q), 0) == [u] + Split(q, 0)
  {
    var p, c := Code(long) + (u + q), |Code(long)|;
    var e := c + |u|;
    CodeBegins(long, u + q);
    Pieces(Code(long), u, q);
    forall k | c <= k && k + 3 <= e ensures !CodeAt(p, k) {
      CodeInSlice(p, c, e, k);
      assert !CodeAt(u, k - c);
    }
    CodeInRest(p, e);
    LastOfSlice(p, c, e);
    UnitEndsAtCode(p, c, e);
    SplitUnfold(p, 0, c, e);
    SplitSuffix(p, e, e);
  }

  lemma {:induction false} SpelledIsSplit(p: Bytes, units: seq<Bytes>, longs: seq<bool>)
    requires Spells(p, units, longs)
    ensures Split(p, 0) == units
    decreases |units|
  {
    if units == [] {
    } else {
      var q := Coded(units[1..], longs[1..]);
      if units[1..] == [] {
        assert q == [];
      } else {
        CodeBegins(longs[1], units[1] + Coded(units[1..][1..], longs[1..][1..]));
      }
      assert forall i :: 0 < i < |units[1..]| ==> units[1..][i - 1] == units[i] && longs[1..][i] == longs[i + 1];
      SpelledIsSplit(q, units[1..], longs[1..]);
      FirstCodedUnit(longs[0], units[0], q);
      assert units == [units[0]] + units[1..];
    }
  }

  /** The search passes over no 4-byte code. */
  lemma {:induction false} NoLongBefore(p: Bytes, s: nat, k: nat)
    requires FindStartCode(p, s).Some? && s <= k < FindStartCode(p, s).value.0
    ensures !LongCodeAt(p, k)
    decreases k - s
  {
    if s == k {
    } else {
      NoLongBefore(p, s + 1, k);
    }
  }

  /** The first unit, what precedes it and what follows. */
  lemma FirstPiece(p: Bytes) returns (long: bool, u: Bytes, q: Bytes)
    requires LooksLikeAnnexB(p)
    ensures p == Code(long) + (u + q) && |q| < |p|
    ensures Split(p, 0) == [u] + Split(q, 0)
    ensures q != [] ==> LooksLikeAnnexB(q) && (EndsInZero(u) ==> LongCodeAt(q, 0))
  {
    long := LongCodeAt(p, 0);
    var c := if long then 4 else 3;
    assert FindStartCode(p, 0) == Some((0, c));
    var e := UnitEnd(p, c);
    u, q := p[c..e], p[e..];
    assert p[..c] == Code(long);
    assert p == p[..c] + (p[c..e] + p[e..]);
    SplitUnfold(p, 0, c, e);
    SplitSuffix(p, e, e);
    CodeInRest(p, e);
    LastOfSlice(p, c, e);
    FindsTheFirst(p, c);
    var r := FindStartCode(p, c);
    if r.Some? && c < e {
      NoLongBefore(p, c, e - 1);
    }
  }

  lemma {:induction false} SplitIsSpelled(p: Bytes) returns (longs: seq<bool>)
    requires LooksLikeAnnexB(p)
    ensures Spells(p, Split(p, 0), longs)
    decreases |p|
  {
    SplitUnitsCodeFree(p, 0);
    var long, u, q := FirstPiece(p);
    if q == [] {
      longs := [long];
      assert Split(q, 0) == [];
      assert p == Code(long) + (u + Coded([], []));
    } else {
      var more := SplitIsSpelled(q);
      longs := [long] + more;
      var rest := Split(q, 0);
      SpellsMore(long, u, q, rest, more);
    }
  }

  lemma SpellsMore(long: bool, u: Bytes, q: Bytes, rest: seq<Bytes>, more: seq<bool>)
    requires Spells(q, rest, more) && q != [] && (EndsInZero(u) ==> LongCodeAt(q, 0))
    ensures Code(long) + (u + q) == Coded([u] + rest, [long] + more)
    ensures Separated([u] + rest, [long] + more)
  {
    var units, longs := [u] + rest, [long] + more;
    assert units[1..] == rest && longs[1..] == more;
    if rest != [] {
      CodeBegins(more[0], rest[0] + Coded(rest[1..], more[1..]));
    }
    forall i | 0 < i < |units| && EndsInZero(units[i - 1]) ensures longs[i] {
      if i > 1 {
        assert EndsInZero(rest[i - 2]) && more[i - 1] == longs[i];
      }
    }
  }

  /** Splitting gives back exactly the units that the stream spells. */
  lemma SplitExactly(p: Bytes, units: seq<Bytes>)
    requires LooksLikeAnnexB(p)
    ensures Split(p, 0) == units <==> exists longs :: Spells(p, units, longs)
  {
    if Split(p, 0) == units {
      var longs := SplitIsSpelled(p);
      assert Spells(p, units, longs);
    }
    forall longs | Spells(p, units, longs) ensures Split(p, 0) == units {
      SpelledIsSplit(p, units, longs);
    }
  }
}
