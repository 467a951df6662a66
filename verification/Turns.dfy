/** The rotation of a pipeline: the angles that are accepted, and what the
    filters written for them do to the pixels of a picture. */
module Turns {
  import opened Common
  import opened FilterGraph
  import opened FilterReader

  function NormalizeRotation(rotation: Option<int>): Result<Rotation, int> {
    var degrees := if rotation.Some? then rotation.value else 0;
    if degrees == 0 then Ok(Unrotated)
    else if degrees == 90 || degrees == -270 then Ok(Clockwise)
    else if degrees == 180 || degrees == -180 then Ok(HalfTurn)
    else if degrees == 270 || degrees == -90 then Ok(CounterClockwise)
    else Err(degrees)
  }

  function RotatedDimensions(width: nat, height: nat, rotation: Rotation): (nat, nat) {
    match rotation
    case Clockwise => (height, width)
    case CounterClockwise => (height, width)
    case Unrotated => (width, height)
    case HalfTurn => (width, height)
  }

  // ------------------------------------------------------------------
  // Pixels
  // ------------------------------------------------------------------

  /** A pixel of a picture, counted from the top left. */
  datatype Pixel = Pixel(width: nat, height: nat, x: int, y: int)

  /** Where a filter puts a pixel: a transposition along the clock puts the top
      row into the right column, and one against it into the left column from
      the bottom; a flip mirrors. */
  function Moved(f: Filter, p: Pixel): Option<Pixel> {
    if f == Filter("null", []) then Some(p)
    else if f == Filter("transpose", [Setting([], "clock")]) then Some(Pixel(p.height, p.width, p.height - 1 - p.y, p.x))
    else if f == Filter("transpose", [Setting([], "cclock")]) then Some(Pixel(p.height, p.width, p.y, p.width - 1 - p.x))
    else if f == Filter("hflip", []) then Some(Pixel(p.width, p.height, p.width - 1 - p.x, p.y))
    else if f == Filter("vflip", []) then Some(Pixel(p.width, p.height, p.x, p.height - 1 - p.y))
    else None
  }

  function MovedByAll(chain: seq<Filter>, p: Pixel): Option<Pixel> {
    if chain == [] then Some(p)
    else
      match Moved(chain[0], p)
      case None => None
      case Some(q) => MovedByAll(chain[1..], q)
  }

  /** Twice the way from the middle of the picture, to the right and down. */
  function FromMiddle(p: Pixel): (int, int) {
    (2 * p.x - (p.width - 1), 2 * p.y - (p.height - 1))
  }

  /** A way after so many quarter turns along the clock: what points up points
      right, and what points right points down. */
  function Turned(way: (int, int), quarters: nat): (int, int) {
    if quarters == 0 then way
    else
      var turned := Turned(way, quarters - 1);
      (-turned.1, turned.0)
  }

  lemma FourTurns(way: (int, int), quarters: nat)
    ensures Turned(way, 2) == (-way.0, -way.1)
    ensures Turned(way, 3) == (way.1, -way.0)
    ensures Turned(way, 4) == way && Turned(way, quarters + 4) == Turned(way, quarters)
  {
    assert Turned(way, 1) == (-way.1, way.0);
    var turned := Turned(way, quarters);
    assert Turned(way, quarters + 2) == (-turned.0, -turned.1) by {
      assert Turned(way, quarters + 1) == (-turned.1, turned.0);
    }
    assert Turned(way, quarters + 3) == (turned.1, -turned.0);
  }

  // ------------------------------------------------------------------
  // The text of a rotation
  // ------------------------------------------------------------------

  lemma TwoNames(a: string, b: string)
    requires Word(a) && Word(b)
    ensures ReadChain(a + ([','] + b)) == [Filter(a, [])] + [Filter(b, [])]
  {
    NameRead(a);
    NameAlone(a);
    NameAlone(b);
    NextFilter(a, b);
  }

  lemma HalfTurnRead()
    ensures ReadChain("hflip,vflip") == [Filter("hflip", [])] + [Filter("vflip", [])]
  {
    assert "hflip,vflip" == "hflip" + ([','] + "vflip");
    TwoNames("hflip", "vflip");
  }

  lemma TransposeRead()
    ensures ReadChain("transpose=clock") == [Filter("transpose", [Setting([], "clock")])]
    ensures ReadChain("transpose=cclock") == [Filter("transpose", [Setting([], "cclock")])]
  {
    OneWord("transpose", "clock");
    OneWord("transpose", "cclock");
    assert "transpose=clock" == Keyed("transpose", "clock");
    assert "transpose=cclock" == Keyed("transpose", "cclock");
  }

  function FiltersOf(rotation: Rotation): seq<Filter> {
    match rotation
    case Unrotated => [Filter("null", [])]
    case Clockwise => [Filter("transpose", [Setting([], "clock")])]
    case HalfTurn => [Filter("hflip", []), Filter("vflip", [])]
    case CounterClockwise => [Filter("transpose", [Setting([], "cclock")])]
  }

  lemma RotationRead(font: string, rotation: Rotation)
    ensures ReadChain(ChainText(font, Rotate(rotation))) == FiltersOf(rotation)
  {
    match rotation
    case Unrotated => NameRead("null");
    case Clockwise => TransposeRead();
    case HalfTurn => HalfTurnRead();
    case CounterClockwise => TransposeRead();
  }

  lemma MovedByOne(f: Filter, p: Pixel)
    ensures MovedByAll([f], p) == Moved(f, p)
  {
  }

  lemma MovedByTwo(f: Filter, g: Filter, p: Pixel)
    requires Moved(f, p).Some?
    ensures MovedByAll([f, g], p) == Moved(g, Moved(f, p).value)
  {
    assert [f, g][1..] == [g];
    MovedByOne(g, Moved(f, p).value);
  }

  lemma NamesApart()
    ensures "null" != "transpose" && "clock" != "cclock" && "hflip" != "vflip"
    ensures "hflip" != "null" && "vflip" != "null" && "hflip" != "transpose" && "vflip" != "transpose"
  {
    assert |"null"| == 4 && |"transpose"| == 9 && |"hflip"| == 5 && |"vflip"| == 5;
    assert |"clock"| == 5 && |"cclock"| == 6;
    assert "hflip"[0] == 'h' && "vflip"[0] == 'v';
  }

  /** Where a pixel of the picture is after a rotation, and after how many
      quarter turns along the clock. */
  function Put(rotation: Rotation, p: Pixel): Pixel {
    match rotation
    case Unrotated => p
    case Clockwise => Pixel(p.height, p.width, p.height - 1 - p.y, p.x)
    case HalfTurn => Pixel(p.width, p.height, p.width - 1 - p.x, p.height - 1 - p.y)
    case CounterClockwise => Pixel(p.height, p.width, p.y, p.width - 1 - p.x)
  }

  function Quarters(rotation: Rotation): nat {
    match rotation
    case Unrotated => 0
    case Clockwise => 1
    case HalfTurn => 2
    case CounterClockwise => 3
  }

  lemma FiltersPut(rotation: Rotation, p: Pixel)
    ensures MovedByAll(FiltersOf(rotation), p) == Some(Put(rotation, p))
  {
    NamesApart();
    match rotation
    case Unrotated => MovedByOne(Filter("null", []), p);
    case Clockwise => MovedByOne(Filter("transpose", [Setting([], "clock")]), p);
    case HalfTurn => MovedByTwo(Filter("hflip", []), Filter("vflip", []), p);
    case CounterClockwise => MovedByOne(Filter("transpose", [Setting([], "cclock")]), p);
  }

  /** What the text of a rotation does to a pixel. */
  lemma RotationPuts(font: string, rotation: Rotation, p: Pixel)
    ensures MovedByAll(ReadChain(ChainText(font, Rotate(rotation))), p) == Some(Put(rotation, p))
  {
    RotationRead(font, rotation);
    FiltersPut(rotation, p);
  }

  lemma PutTurns(rotation: Rotation, p: Pixel)
    ensures FromMiddle(Put(rotation, p)) == Turned(FromMiddle(p), Quarters(rotation))
  {
    FourTurns(FromMiddle(p), 0);
    assert Turned(FromMiddle(p), 1) == (-FromMiddle(p).1, FromMiddle(p).0);
  }

  /** Just the quarter turns of less than a whole turn either way are accepted. */
  lemma AcceptsQuarterTurns(degrees: int)
    ensures NormalizeRotation(Some(degrees)).Ok? <==> -360 < degrees < 360 && degrees % 90 == 0
    ensures NormalizeRotation(None) == NormalizeRotation(Some(0))
  {
  }

  /** The filters written for an accepted angle turn every picture by that angle
      along the clock: each pixel goes where so many quarter turns about the
      middle take it, and the picture has the rotated dimensions. */
  lemma TurnsByTheAngle(font: string, degrees: int, quarters: nat, p: Pixel)
    requires NormalizeRotation(Some(degrees)).Ok?
    requires (degrees - 90 * quarters) % 360 == 0
    ensures var rotation := NormalizeRotation(Some(degrees)).value;
      var moved := MovedByAll(ReadChain(ChainText(font, Rotate(rotation))), p);
      && moved.Some?
      && (moved.value.width, moved.value.height) == RotatedDimensions(p.width, p.height, rotation)
      && FromMiddle(moved.value) == Turned(FromMiddle(p), quarters)
  {
    var rotation := NormalizeRotation(Some(degrees)).value;
    RotationPuts(font, rotation, p);
    PutTurns(rotation, p);
    TurnsCount(FromMiddle(p), quarters);
    QuartersOf(degrees, quarters);
  }

  /** Only the remainder of the quarters counts. */
  lemma {:induction false} TurnsCount(way: (int, int), quarters: nat)
    ensures Turned(way, quarters) == Turned(way, quarters % 4)
  {
    if quarters < 4 {
    } else {
      var k := quarters - 4;
      TurnsCount(way, k);
      FourTurns(way, k);
      assert quarters % 4 == k % 4;
    }
  }

  lemma QuartersOf(degrees: int, quarters: nat)
    requires NormalizeRotation(Some(degrees)).Ok?
    requires (degrees - 90 * quarters) % 360 == 0
    ensures quarters % 4 == Quarters(NormalizeRotation(Some(degrees)).value)
  {
    var r := quarters % 4;
    assert quarters == 4 * (quarters / 4) + r;
    assert (degrees - 90 * r) % 360 == 0;
  }

  lemma PutBack(p: Pixel)
    ensures Put(CounterClockwise, Put(Clockwise, p)) == p && Put(Clockwise, Put(CounterClockwise, p)) == p
    ensures Put(Clockwise, Put(Clockwise, p)) == Put(HalfTurn, p) && Put(HalfTurn, Put(HalfTurn, p)) == p
  {
  }

  /** What the texts of two rotations do one after the other. */
  function AfterBoth(font: string, first: Rotation, second: Rotation, p: Pixel): Option<Pixel> {
    match MovedByAll(ReadChain(ChainText(font, Rotate(first))), p)
    case None => None
    case Some(q) => MovedByAll(ReadChain(ChainText(font, Rotate(second))), q)
  }

  lemma BothPut(font: string, first: Rotation, second: Rotation, p: Pixel)
    ensures AfterBoth(font, first, second, p) == Some(Put(second, Put(first, p)))
  {
    RotationPuts(font, first, p);
    RotationPuts(font, second, Put(first, p));
  }

  /** A turn against the clock undoes one along it, and the other way round. */
  lemma ClockUndone(font: string, p: Pixel)
    ensures AfterBoth(font, Clockwise, CounterClockwise, p) == Some(p)
    ensures AfterBoth(font, CounterClockwise, Clockwise, p) == Some(p)
  {
    BothPut(font, Clockwise, CounterClockwise, p);
    BothPut(font, CounterClockwise, Clockwise, p);
    PutBack(p);
  }

  /** Two turns along the clock are half a turn, and four leave every pixel where
      it was. */
  lemma FourTurnsUndone(font: string, p: Pixel)
    ensures var half := AfterBoth(font, Clockwise, Clockwise, p);
      && half.Some? && AfterBoth(font, HalfTurn, Unrotated, p) == half
      && AfterBoth(font, Clockwise, Clockwise, half.value) == Some(p)
  {
    BothPut(font, Clockwise, Clockwise, p);
    BothPut(font, HalfTurn, Unrotated, p);
    PutBack(p);
    BothPut(font, Clockwise, Clockwise, Put(HalfTurn, p));
    PutBack(Put(HalfTurn, p));
  }

  /** The filter behind the last layer leaves the picture as it is. */
  lemma PassMovesNothing(font: string, p: Pixel)
    ensures MovedByAll(ReadChain(ChainText(font, Pass)), p) == Some(p)
  {
    NameRead("null");
    MovedByOne(Filter("null", []), p);
  }
}
