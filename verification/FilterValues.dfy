/** What the values of filter options stand for: numbers, fractions, positions
    and times. */
module FilterValues {
  import opened Common
  import opened Overlay
  import opened Escape
  import opened FilterGraph
  import opened FilterWiring
  import opened FilterText
  import opened FilterReader

  // ------------------------------------------------------------------
  // Numbers
  // ------------------------------------------------------------------

  predicate IsNumber(s: string) {
    s != [] && forall i :: 0 <= i < |s| ==> '0' <= s[i] <= '9'
  }

  function ReadNumber(s: string): Option<nat> {
    if IsNumber(s) then Some(Number(s)) else None
  }

  lemma DigitIsDigit(n: nat)
    requires n < 10
    ensures '0' <= Digit(n) <= '9'
  {
  }

  lemma {:induction false} DecimalIsNumber(n: nat)
    ensures IsNumber(Decimal(n))
  {
    if n < 10 {
      DigitIsDigit(n);
    } else {
      DecimalIsNumber(n / 10);
      DigitIsDigit(n % 10);
    }
  }

  lemma NumberIsWord(s: string)
    requires IsNumber(s)
    ensures Word(s) && '-' !in s && '.' !in s && '@' !in s
  {
  }

  /** Decimals read back as their numbers. */
  lemma DecimalRead(n: nat)
    ensures ReadNumber(Decimal(n)) == Some(n)
    ensures Word(Decimal(n)) && '-' !in Decimal(n) && '.' !in Decimal(n)
  {
    DecimalIsNumber(n);
    NumberOfDecimal(n);
    NumberIsWord(Decimal(n));
  }

  /** A fraction with two decimals, in hundredths. */
  function ReadHundredths(s: string): Option<nat> {
    var parts := SplitAt(s, '.');
    if |parts| == 2 && |parts[1]| == 2 && IsNumber(parts[0]) && IsNumber(parts[1])
    then Some(100 * Number(parts[0]) + Number(parts[1]))
    else None
  }

  lemma NumberOfTwo(a: nat, b: nat)
    requires a < 10 && b < 10
    ensures var s := [Digit(a), Digit(b)]; IsNumber(s) && Number(s) == 10 * a + b
  {
    var s := [Digit(a), Digit(b)];
    DigitIsDigit(a);
    DigitIsDigit(b);
    NumberOfDecimal(a);
    NumberOfDecimal(b);
    assert s[..1] == Decimal(a);
    assert Number(s) == 10 * Number(s[..1]) + Place(s[1]);
    assert Decimal(b)[..0] == [] && Number([]) == 0;
  }

  lemma SplitPointed(whole: string, rest: string)
    requires '.' !in whole && '.' !in rest
    ensures SplitAt(whole + ['.'] + rest, '.') == [whole, rest]
  {
    SplitFirst(whole, rest, '.');
    SplitNone(rest, '.');
  }

  lemma HundredthsOf(whole: string, rest: string)
    requires IsNumber(whole) && IsNumber(rest) && |rest| == 2
    ensures ReadHundredths(whole + ['.'] + rest) == Some(100 * Number(whole) + Number(rest))
  {
    NumberIsWord(whole);
    NumberIsWord(rest);
    SplitPointed(whole, rest);
  }

  lemma Digits(value: nat)
    ensures 100 * (value / 100) + (10 * (value / 10 % 10) + value % 10) == value
  {
  }

  lemma PointedIsWord(whole: string, rest: string)
    requires IsNumber(whole) && IsNumber(rest)
    ensures Word(whole + ['.'] + rest) && '@' !in whole + ['.'] + rest
  {
  }

  lemma PartsOfPercentage(value: Byte)
    ensures var whole, rest := Decimal(value / 100), [Digit(value / 10 % 10), Digit(value % 10)];
      && IsNumber(whole) && IsNumber(rest)
      && 100 * Number(whole) + Number(rest) == value as nat
      && AlphaPercentToDecimal(value) == whole + ['.'] + rest
  {
    DecimalRead(value / 100);
    NumberOfTwo(value / 10 % 10, value % 10);
    Digits(value as nat);
    assert Number(Decimal(value / 100)) == value as nat / 100;
  }

  /** A percentage reads back as so many hundredths. */
  lemma AlphaRead(value: Byte)
    ensures ReadHundredths(AlphaPercentToDecimal(value)) == Some(value as nat)
    ensures Word(AlphaPercentToDecimal(value)) && '@' !in AlphaPercentToDecimal(value)
  {
    var whole, rest := Decimal(value / 100), [Digit(value / 10 % 10), Digit(value % 10)];
    PartsOfPercentage(value);
    HundredthsOf(whole, rest);
    PointedIsWord(whole, rest);
  }

  // ------------------------------------------------------------------
  // Colours
  // ------------------------------------------------------------------

  /** A colour and its opacity in hundredths, which stands behind the last `@`. */
  function ReadColor(s: string): Option<(string, nat)> {
    if s == [] then None
    else if s[|s| - 1] == '@' then None
    else ReadColorAt(s, |s| - 1)
  }

  function ReadColorAt(s: string, n: nat): Option<(string, nat)>
    requires n < |s|
  {
    if s[n] == '@' then
      match ReadHundredths(s[n + 1..])
      case None => None
      case Some(alpha) => Some((s[..n], alpha))
    else if n == 0 then None
    else ReadColorAt(s, n - 1)
  }

  lemma {:induction false} ReadColorFrom(color: string, alpha: string, n: nat)
    requires '@' !in alpha && |color| <= n < |color + "@" + alpha|
    ensures ReadColorAt(color + "@" + alpha, n)
         == (match ReadHundredths(alpha) case None => None case Some(h) => Some((color, h)))
  {
    var s := color + "@" + alpha;
    if n == |color| {
      assert s[n + 1..] == alpha && s[..n] == color;
    } else {
      assert s[n] == alpha[n - |color| - 1];
      ReadColorFrom(color, alpha, n - 1);
    }
  }

  lemma ColorRead(color: string, value: Byte)
    ensures ReadColor(color + "@" + AlphaPercentToDecimal(value)) == Some((color, value as nat))
  {
    var alpha := AlphaPercentToDecimal(value);
    AlphaRead(value);
    var s := color + "@" + alpha;
    assert s[|s| - 1] == alpha[|alpha| - 1];
    ReadColorFrom(color, alpha, |s| - 1);
  }

  // ------------------------------------------------------------------
  // Positions
  // ------------------------------------------------------------------

  type Sizes = map<string, int>

  function Term(s: string, sizes: Sizes): Option<int> {
    if s in sizes then Some(sizes[s])
    else match ReadNumber(s) case None => None case Some(n) => Some(n)
  }

  /** The first term less all others. */
  function Difference(parts: seq<string>, sizes: Sizes): Option<int> {
    if parts == [] then None
    else if |parts| == 1 then Term(parts[0], sizes)
    else
      match (Difference(parts[..|parts| - 1], sizes), Term(parts[|parts| - 1], sizes))
      case (Some(a), Some(b)) => Some(a - b)
      case _ => None
  }

  /** An expression of sizes, numbers and minus signs. */
  function Eval(s: string, sizes: Sizes): Option<int> {
    Difference(SplitAt(s, '-'), sizes)
  }

  lemma MarginTerm(margin: nat, sizes: Sizes)
    requires forall name :: name in sizes ==> !IsNumber(name)
    ensures Term(Decimal(margin), sizes) == Some(margin)
  {
    DecimalRead(margin);
  }

  lemma EvalMargin(margin: nat, sizes: Sizes)
    requires forall name :: name in sizes ==> !IsNumber(name)
    ensures Eval(Decimal(margin), sizes) == Some(margin)
  {
    MarginTerm(margin, sizes);
    DecimalRead(margin);
    SplitNone(Decimal(margin), '-');
  }

  lemma DifferenceOfThree(a: string, b: string, c: string, sizes: Sizes)
    requires a in sizes && b in sizes && Term(c, sizes).Some?
    ensures Difference([a, b, c], sizes) == Some(sizes[a] - sizes[b] - Term(c, sizes).value)
  {
    assert [a, b, c][..2] == [a, b] && [a, b][..1] == [a];
    assert Difference([a], sizes) == Some(sizes[a]);
    assert Difference([a, b], sizes) == Some(sizes[a] - sizes[b]);
  }

  lemma EvalFar(a: string, b: string, front: string, margin: nat, sizes: Sizes)
    requires a in sizes && b in sizes && '-' !in a && '-' !in b
    requires forall name :: name in sizes ==> !IsNumber(name)
    requires front == a + ['-'] + b + ['-']
    ensures Eval(front + Decimal(margin), sizes) == Some(sizes[a] - sizes[b] - margin)
  {
    var m := Decimal(margin);
    MarginTerm(margin, sizes);
    DecimalRead(margin);
    assert front + m == a + ['-'] + (b + ['-'] + m);
    SplitFirst(a, b + ['-'] + m, '-');
    SplitFirst(b, m, '-');
    SplitNone(m, '-');
    assert [a] + ([b] + [m]) == [a, b, m];
    DifferenceOfThree(a, b, m, sizes);
  }

  /** A rectangle at a place in a frame stands at this corner, so far from its
      two sides. */
  predicate InCorner(x: Option<int>, y: Option<int>, position: Position, margin: nat,
                     frameWidth: int, frameHeight: int, width: int, height: int)
  {
    && x.Some? && y.Some?
    && (position.TopLeft? || position.BottomLeft? ==> x.value == margin)
    && (position.TopRight? || position.BottomRight? ==> frameWidth - (x.value + width) == margin)
    && (position.TopLeft? || position.TopRight? ==> y.value == margin)
    && (position.BottomLeft? || position.BottomRight? ==> frameHeight - (y.value + height) == margin)
  }

  /** The sizes as the drawing filter names them: the frame's and the text's. */
  function TextSizes(frameWidth: int, frameHeight: int, width: int, height: int): Sizes {
    map["w" := frameWidth, "h" := frameHeight, "text_w" := width, "text_h" := height]
  }

  /** And as the overlaying filter names them: the video's and the image's. */
  function OverlaySizes(frameWidth: int, frameHeight: int, width: int, height: int): Sizes {
    map["W" := frameWidth, "H" := frameHeight, "w" := width, "h" := height]
  }

  lemma SizesAreTheirs(frameWidth: int, frameHeight: int, width: int, height: int)
    ensures var sizes := TextSizes(frameWidth, frameHeight, width, height);
      && "w" in sizes && "h" in sizes && "text_w" in sizes && "text_h" in sizes
      && sizes["w"] == frameWidth && sizes["h"] == frameHeight && sizes["text_w"] == width && sizes["text_h"] == height
      && forall name :: name in sizes ==> !IsNumber(name)
    ensures var sizes := OverlaySizes(frameWidth, frameHeight, width, height);
      && "W" in sizes && "H" in sizes && "w" in sizes && "h" in sizes
      && sizes["W"] == frameWidth && sizes["H"] == frameHeight && sizes["w"] == width && sizes["h"] == height
      && forall name :: name in sizes ==> !IsNumber(name)
  {
    assert "w"[0] == 'w' && "h"[0] == 'h' && "W"[0] == 'W' && "H"[0] == 'H' && |"w"| == 1;
    assert "text_w"[5] == 'w' && "text_h"[5] == 'h' && "text_w"[0] == 't' && "text_h"[0] == 't';
    assert |"text_w"| == 6 && |"text_h"| == 6 && |"h"| == 1;
  }

  /** The text stands in its corner, whatever the sizes. */
  lemma TextInCorner(position: Position, margin: nat, frameWidth: int, frameHeight: int, width: int, height: int)
    ensures var (x, y) := DrawtextPosition(position, margin);
      var sizes := TextSizes(frameWidth, frameHeight, width, height);
      InCorner(Eval(x, sizes), Eval(y, sizes), position, margin, frameWidth, frameHeight, width, height)
  {
    var sizes := TextSizes(frameWidth, frameHeight, width, height);
    SizesAreTheirs(frameWidth, frameHeight, width, height);
    EvalMargin(margin, sizes);
    EvalFar("w", "text_w", "w-text_w-", margin, sizes);
    EvalFar("h", "text_h", "h-text_h-", margin, sizes);
  }

  function OverlayX(position: Position, margin: nat): string {
    if position.TopLeft? || position.BottomLeft? then Decimal(margin) else "W-w-" + Decimal(margin)
  }

  function OverlayY(position: Position, margin: nat): string {
    if position.TopLeft? || position.TopRight? then Decimal(margin) else "H-h-" + Decimal(margin)
  }

  lemma ImageInCorner(position: Position, margin: nat, frameWidth: int, frameHeight: int, width: int, height: int)
    ensures var sizes := OverlaySizes(frameWidth, frameHeight, width, height);
      InCorner(Eval(OverlayX(position, margin), sizes), Eval(OverlayY(position, margin), sizes),
               position, margin, frameWidth, frameHeight, width, height)
  {
    var sizes := OverlaySizes(frameWidth, frameHeight, width, height);
    SizesAreTheirs(frameWidth, frameHeight, width, height);
    EvalMargin(margin, sizes);
    EvalFar("W", "w", "W-w-", margin, sizes);
    EvalFar("H", "h", "H-h-", margin, sizes);
  }
}
