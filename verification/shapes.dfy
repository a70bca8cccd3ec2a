/** The integer geometry of the site's pixel-art shapes: colour parsing, the
    shaded diamond and the 8×8 digit glyphs. A canvas is a grid of cells, each
    standing for one `fillRect` square of `pixelSize` pixels; a cell holds the
    style it was last filled with. */
module Shapes {

  import opened Wrappers
  import opened JsNumbers

  // ------------------------------------------------------------------ colours

  datatype Rgb = Rgb(red: int, green: int, blue: int)

  /** The number `parseInt(hex.slice(1), 16)`; `NaN` is 0 once a shift
      converts it to a 32-bit integer. */
  function PackedColour(hex: string): int {
    match ParseInt(if |hex| == 0 then "" else hex[1..], 16)
    case None => 0
    case Some(v) => v
  }

  /** `hexToRgb`: bits 16-23, 8-15 and 0-7 of the packed number. An arithmetic
      shift of the 32-bit value is floor division, and `& 255` is the
      non-negative remainder, so Euclidean `/` and `%` give the same bytes for
      every integer. */
  function HexToRgb(hex: string): (c: Rgb)
    ensures 0 <= c.red < 256 && 0 <= c.green < 256 && 0 <= c.blue < 256
    ensures c.red * 65536 + c.green * 256 + c.blue == PackedColour(hex) % 16777216
  {
    var v := PackedColour(hex);
    ThreeBytes(v);
    Rgb((v / 65536) % 256, (v / 256) % 256, v % 256)
  }

  lemma ThreeBytes(v: int)
    ensures ((v / 65536) % 256) * 65536 + ((v / 256) % 256) * 256 + v % 256 == v % 16777216
  {
    var a := v % 16777216;
    var q := v / 16777216;
    assert v == q * 16777216 + a;
    assert v / 65536 == q * 256 + a / 65536;
    assert v / 256 == q * 65536 + a / 256;
    assert v % 256 == a % 256;
    assert a / 65536 < 256;
    assert (v / 65536) % 256 == a / 65536;
    assert (v / 256) % 256 == (a / 256) % 256;
    assert a == (a / 65536) * 65536 + ((a / 256) % 256) * 256 + a % 256;
  }

  /** Three bytes are read back from their base-256 packing. */
  lemma UnpackBytes(a: int, b: int, c: int, a': int, b': int, c': int)
    requires 0 <= a < 256 && 0 <= b < 256 && 0 <= c < 256
    requires 0 <= a' < 256 && 0 <= b' < 256 && 0 <= c' < 256
    requires a * 65536 + b * 256 + c == a' * 65536 + b' * 256 + c'
    ensures a == a' && b == b' && c == c'
  {
    Regroup(a, 256, b, 256, c);
    Regroup(a', 256, b', 256, c');
    LastDigit(a * 256 + b, c, 256);
    LastDigit(a' * 256 + b', c', 256);
    LastDigit(a, b, 256);
    LastDigit(a', b', 256);
  }

  /** Two hexadecimal digits for a byte. */
  function ByteHex(v: nat): string
    requires v < 256
  {
    PadStart(NatToString(v, 16), 2, '0')
  }

  lemma ByteHexDigits(v: nat)
    requires v < 256
    ensures |ByteHex(v)| == 2 && AllDigits(ByteHex(v), 16) && DigitsValue(ByteHex(v), 16) == v
  {
    var s := NatToString(v, 16);
    assert Pow(16, 2) == 256;
    NatToStringLength(v, 16, 2);
    LeadingZeros(2 - |s|, s, 16);
  }

  /** `"#RRGGBB"` for a colour, the format of the palette. */
  function RgbToHex(c: Rgb): string
    requires 0 <= c.red < 256 && 0 <= c.green < 256 && 0 <= c.blue < 256
  {
    "#" + ByteHex(c.red) + ByteHex(c.green) + ByteHex(c.blue)
  }

  /** For `"#RRGGBB"`, the channels pack back to the six digits' value. */
  lemma {:induction false} HexToRgbPacks(digits: string)
    requires |digits| == 6 && AllDigits(digits, 16)
    ensures var c := HexToRgb("#" + digits);
            c.red * 65536 + c.green * 256 + c.blue == DigitsValue(digits, 16)
  {
    assert ("#" + digits)[1..] == digits;
    ParseDigits(digits, 16);
    var v := DigitsValue(digits, 16);
    assert PackedColour("#" + digits) == v;
    SixHexDigits(digits);
    SmallRemainder(v, 16777216);
  }

  lemma SmallRemainder(v: int, m: int)
    requires 0 <= v < m
    ensures v % m == v
  {
  }

  lemma SixHexDigits(digits: string)
    requires |digits| == 6 && AllDigits(digits, 16)
    ensures DigitsValue(digits, 16) < 16777216
  {
    DigitsValueBound(digits, 16);
    assert Pow(16, 6) == 16777216;
  }

  /** The six digits of `RgbToHex` are worth the base-256 packing. */
  lemma {:induction false} RgbToHexValue(red: nat, green: nat, blue: nat)
    requires red < 256 && green < 256 && blue < 256
    ensures var digits := ByteHex(red) + ByteHex(green) + ByteHex(blue);
            |digits| == 6 && AllDigits(digits, 16)
            && DigitsValue(digits, 16) == red * 65536 + green * 256 + blue
  {
    var r, g, b := ByteHex(red), ByteHex(green), ByteHex(blue);
    ByteHexDigits(red);
    ByteHexDigits(green);
    ByteHexDigits(blue);
    assert Pow(16, 2) == 256;
    DigitsValueAppend(r, g, 16);
    DigitsValueAppend(r + g, b, 16);
    Regroup(red, 256, green, 256, blue);
  }

  /** `hexToRgb` reads back every colour written as `"#RRGGBB"`. */
  lemma {:induction false} HexToRgbRoundTrip(c: Rgb)
    requires 0 <= c.red < 256 && 0 <= c.green < 256 && 0 <= c.blue < 256
    ensures HexToRgb(RgbToHex(c)) == c
  {
    RgbToHexPacks(c);
    var d := HexToRgb(RgbToHex(c));
    UnpackBytes(d.red, d.green, d.blue, c.red, c.green, c.blue);
  }

  /** Reading `"#RRGGBB"` back gives channels with the colour's packing. */
  lemma RgbToHexPacks(c: Rgb)
    requires 0 <= c.red < 256 && 0 <= c.green < 256 && 0 <= c.blue < 256
    ensures var d := HexToRgb(RgbToHex(c));
            d.red * 65536 + d.green * 256 + d.blue == c.red * 65536 + c.green * 256 + c.blue
  {
    RgbToHexValue(c.red, c.green, c.blue);
    var digits := ByteHex(c.red) + ByteHex(c.green) + ByteHex(c.blue);
    assert RgbToHex(c) == "#" + digits;
    HexToRgbPacks(digits);
  }

  // ------------------------------------------------------------------- canvas

  /** What a cell was filled with: a colour, or a blend of `base` toward
      `toward` by `factor` (the rounding to an `rgb(...)` string is not
      modelled); `Transparent` is a new canvas. */
  datatype Style = Transparent | Solid(colour: string) | Blend(base: string, toward: string, factor: real)

  /** The pixels a cell's `fillRect` covers along one axis are
      `[cell * size, cell * size + size)`: every pixel lies in the square of
      exactly one cell, `pixel / size`. */
  lemma PixelInOneCell(size: nat, pixel: nat, cell: nat)
    requires 1 <= size
    ensures cell * size <= pixel < cell * size + size <==> cell == pixel / size
  {
    DivMod(pixel, size);
    if cell < pixel / size {
      MulMono(size, cell + 1, pixel / size);
    } else if cell > pixel / size {
      MulMono(size, pixel / size + 1, cell);
    }
  }

  /** The cells of a `width`×`height` grid in the order of two nested loops,
      rows outer: cell `(x, y)`. */
  function RowMajor(width: nat, height: nat): (order: seq<(int, int)>)
    ensures |order| == width * height
  {
    seq(width * height, i requires 0 <= i < width * height => (i % width, i / width))
  }

  /** Row-major order visits every cell of the grid, and each one once: cell
      `(x, y)` is step `y * width + x` and no other. */
  lemma RowMajorOnce(width: nat, height: nat)
    ensures forall i :: 0 <= i < width * height ==>
              0 <= RowMajor(width, height)[i].0 < width && 0 <= RowMajor(width, height)[i].1 < height
    ensures forall x, y, i :: 0 <= x < width && 0 <= y < height && 0 <= i < width * height ==>
              (RowMajor(width, height)[i] == (x, y) <==> i == y * width + x)
  {
    var order := RowMajor(width, height);
    forall i | 0 <= i < width * height
      ensures 0 <= order[i].0 < width && 0 <= order[i].1 < height
    {
      DivBound(i, width, height);
      assert i < width * height;
    }
    forall x, y, i | 0 <= x < width && 0 <= y < height && 0 <= i < width * height
      ensures order[i] == (x, y) <==> i == y * width + x
    {
      DivMod(i, width);
      if i == y * width + x {
        LastDigit(y, x, width);
      }
    }
  }

  // ------------------------------------------------------------------ diamond

  /** The colours `generateDiamondPattern` is given. */
  datatype Palette = Palette(base: string, shadow: string, highlight: string, background: string)

  const CanvasPixels: nat := 200
  const DiamondPixel: nat := 5
  const GridSize: nat := CanvasPixels / DiamondPixel
  const Centre: nat := GridSize / 2
  const DiamondSize: nat := 20

  function Abs(n: int): nat {
    if n < 0 then -n else n
  }

  /** Manhattan distance of a cell from the centre cell. */
  function Distance(x: int, y: int): nat {
    Abs(x - Centre) + Abs(y - Centre)
  }

  /** The classification of one cell of the diamond: the background outside
      distance 20; inside, a blend toward the highlight or the shadow, the
      stronger the nearer the centre. */
  function DiamondCell(p: Palette, x: int, y: int): (s: Style)
    ensures s.Solid? <==> Distance(x, y) >= DiamondSize
    ensures s.Solid? ==> s.colour == p.background
    ensures s.Blend? ==> s.base == p.base && (s.toward == p.highlight || s.toward == p.shadow)
    ensures s.Blend? ==> 1.0 / DiamondSize as real <= s.factor <= 1.0
    ensures s.Blend? ==> (s.factor == 1.0 <==> x == Centre && y == Centre)
  {
    var d := Distance(x, y);
    if d < DiamondSize then
      var factor := (DiamondSize - d) as real / DiamondSize as real;
      if (x + y) % (2 * DiamondSize) < DiamondSize then Blend(p.base, p.highlight, factor)
      else Blend(p.base, p.shadow, factor)
    else Solid(p.background)
  }

  /** Inside the diamond, the `(x + y) mod 40 < 20` test picks the cells on
      or past the anti-diagonal through the centre (`x + y >= 40`): the
      highlight covers the lower-right half and the shadow the upper-left. */
  lemma HighlightHalf(x: int, y: int)
    requires Distance(x, y) < DiamondSize
    ensures (x + y) % (2 * DiamondSize) < DiamondSize <==> x + y >= 2 * Centre
  {
    assert 2 * Centre - DiamondSize < x + y < 2 * Centre + DiamondSize;
  }

  /** Inside the diamond, a cell takes the highlight exactly when it is in
      the lower-right half. */
  lemma DiamondSides(p: Palette, x: int, y: int)
    requires Distance(x, y) < DiamondSize
    ensures x + y >= 2 * Centre ==> DiamondCell(p, x, y).toward == p.highlight
    ensures x + y < 2 * Centre ==> DiamondCell(p, x, y).toward == p.shadow
  {
    HighlightHalf(x, y);
  }

  /** The body of the diamond's inner loop: the colour of cell `(x, y)`. */
  method CellColour(p: Palette, x: int, y: int) returns (colour: Style)
    ensures colour == DiamondCell(p, x, y)
  {
    var offsetX := Abs(x - Centre);
    var offsetY := Abs(y - Centre);
    var distanceFromCenter := offsetX + offsetY;
    colour := Solid(p.background);
    if distanceFromCenter < DiamondSize {
      var blendFactor := (DiamondSize - distanceFromCenter) as real / DiamondSize as real;
      if (x + y) % (2 * DiamondSize) < DiamondSize {
        colour := Blend(p.base, p.highlight, blendFactor);
      } else {
        colour := Blend(p.base, p.shadow, blendFactor);
      }
    }
  }

  /** `generateDiamondPattern`: a new 200×200 canvas of 5-pixel cells, filled
      row by row; `order` is the sequence of cells filled. */
  method GenerateDiamondPattern(p: Palette) returns (canvas: array2<Style>, ghost order: seq<(int, int)>)
    ensures fresh(canvas) && canvas.Length0 == GridSize && canvas.Length1 == GridSize
    ensures forall y, x :: 0 <= y < GridSize && 0 <= x < GridSize ==> canvas[y, x] == DiamondCell(p, x, y)
    ensures order == RowMajor(GridSize, GridSize)
  {
    canvas := new Style[GridSize, GridSize]((y, x) => Transparent);
    order := [];
    var y := 0;
    while y < GridSize
      invariant 0 <= y <= GridSize
      invariant forall j, i :: 0 <= j < y && 0 <= i < GridSize ==> canvas[j, i] == DiamondCell(p, i, j)
      invariant y * GridSize <= GridSize * GridSize
      invariant order == RowMajor(GridSize, GridSize)[..y * GridSize]
    {
      var x := 0;
      while x < GridSize
        invariant 0 <= x <= GridSize
        invariant forall j, i :: 0 <= j < y && 0 <= i < GridSize ==> canvas[j, i] == DiamondCell(p, i, j)
        invariant forall i :: 0 <= i < x ==> canvas[y, i] == DiamondCell(p, i, y)
        invariant y * GridSize + x <= GridSize * GridSize
        invariant order == RowMajor(GridSize, GridSize)[..y * GridSize + x]
      {
        var colour := CellColour(p, x, y);
        canvas[y, x] := colour;
        RowMajorStep(GridSize, GridSize, x, y);
        order := order + [(x, y)];
        x := x + 1;
      }
      assert y * GridSize + GridSize == (y + 1) * GridSize;
      y := y + 1;
    }
  }

  /** Step `y * width + x` of row-major order is cell `(x, y)`. */
  lemma RowMajorStep(width: nat, height: nat, x: nat, y: nat)
    requires x < width && y < height
    ensures y * width + x < width * height
    ensures RowMajor(width, height)[..y * width + x] + [(x, y)] == RowMajor(width, height)[..y * width + x + 1]
  {
    MulMono(width, y + 1, height);
    LastDigit(y, x, width);
  }

  // ------------------------------------------------------------------- digits

  /** The palette entries `drawNumber` uses: orange on white. */
  const Foreground: string := "#A81000"
  const Background: string := "#F8F8F8"
  const NumberPixel: nat := 30
  const GlyphSize: nat := 8

  /** The digit glyphs 0-9, eight rows of eight cells, '1' for ink. */
  const Glyphs: seq<seq<string>> := [
    ["00111100", "01000010", "01000110", "01001010", "01010010", "01100010", "01000010", "00111100"],
    ["00011000", "00111000", "00011000", "00011000", "00011000", "00011000", "00011000", "00111100"],
    ["00111100", "01000010", "00000010", "00000100", "00001000", "00010000", "00100000", "01111110"],
    ["00111100", "01000010", "00000010", "00011100", "00000010", "00000010", "01000010", "00111100"],
    ["00000100", "00001100", "00010100", "00100100", "01000100", "01111110", "00000100", "00000100"],
    ["01111110", "01000000", "01000000", "01111100", "00000010", "00000010", "01000010", "00111100"],
    ["00111100", "01000010", "01000000", "01111100", "01000010", "01000010", "01000010", "00111100"],
    ["01111110", "00000010", "00000100", "00001000", "00010000", "00100000", "00100000", "00100000"],
    ["00111100", "01000010", "01000010", "00111100", "01000010", "01000010", "01000010", "00111100"],
    ["00111100", "01000010", "01000010", "00111110", "00000010", "00000010", "01000010", "00111100"]
  ]

  /** Ten glyphs, each eight rows of eight characters. */
  lemma GlyphTableShape()
    ensures |Glyphs| == 10
    ensures forall n :: 0 <= n < 10 ==> |Glyphs[n]| == GlyphSize
    ensures forall n, y :: 0 <= n < 10 && 0 <= y < GlyphSize ==> |Glyphs[n][y]| == GlyphSize
  {
  }

  /** Every glyph cell is '0' or '1'. */
  lemma GlyphTableInk()
    ensures forall n, y, x :: 0 <= n < |Glyphs| && 0 <= y < |Glyphs[n]| && 0 <= x < |Glyphs[n][y]| ==>
              Glyphs[n][y][x] == '0' || Glyphs[n][y][x] == '1'
  {
  }

  /** The colour `drawNumber` gives cell `(x, y)` of digit `n`. */
  function NumberCell(n: int, x: int, y: int): (s: Style)
    requires 0 <= n < |Glyphs| && 0 <= y < |Glyphs[n]| && 0 <= x < |Glyphs[n][y]|
    ensures s == Solid(Foreground) <==> Glyphs[n][y][x] == '1'
    ensures s.Solid? && (s.colour == Foreground || s.colour == Background)
  {
    Solid(if Glyphs[n][y][x] == '1' then Foreground else Background)
  }

  /** Different digits are drawn differently: some cell of the 8×8 picture
      tells them apart. */
  lemma DigitsDrawnApart(m: int, n: int)
    requires 0 <= m < 10 && 0 <= n < 10 && m != n
    ensures exists y, x :: 0 <= y < GlyphSize && 0 <= x < GlyphSize && NumberCell(m, x, y) != NumberCell(n, x, y)
  {
    GlyphTableShape();
    // rows 0 and 3 alone tell the ten glyphs apart
    var y := if Glyphs[m][3] != Glyphs[n][3] then 3 else 0;
    assert Glyphs[m][y] != Glyphs[n][y];
    var x :| 0 <= x < GlyphSize && Glyphs[m][y][x] != Glyphs[n][y][x];
    GlyphTableInk();
    assert NumberCell(m, x, y) != NumberCell(n, x, y);
  }

  /** `drawNumber`: `numbers[number]` is undefined outside 0..9 (also for
      `NaN`), so reading its length throws before anything is drawn; otherwise
      each glyph cell is filled, at pixel `(30x, 30y)`, with the foreground
      colour for '1' and the background colour for '0'. Cells past the
      canvas edge are clipped. */
  method DrawNumber(number: int, canvas: array2<Style>) returns (r: Result<(), string>)
    modifies canvas
    ensures !(0 <= number < |Glyphs|) ==> r.Err? && unchanged(canvas)
    ensures 0 <= number < |Glyphs| ==> r.Ok?
    ensures 0 <= number < |Glyphs| ==>
              forall y, x :: 0 <= y < canvas.Length0 && 0 <= x < canvas.Length1 ==>
                canvas[y, x] == if y < GlyphSize && x < GlyphSize then NumberCell(number, x, y) else old(canvas[y, x])
  {
    if !(0 <= number < |Glyphs|) {
      return Err("Cannot read properties of undefined (reading 'length')");
    }
    GlyphTableShape();
    var pattern := Glyphs[number];
    var y := 0;
    while y < |pattern|
      invariant 0 <= y <= |pattern|
      invariant forall j, i :: 0 <= j < canvas.Length0 && 0 <= i < canvas.Length1 ==>
                  canvas[j, i] == if j < y && i < GlyphSize then NumberCell(number, i, j) else old(canvas[j, i])
    {
      var x := 0;
      while x < |pattern[y]|
        invariant 0 <= x <= |pattern[y]|
        invariant forall j, i :: 0 <= j < canvas.Length0 && 0 <= i < canvas.Length1 ==>
                    canvas[j, i] == if j < y && i < GlyphSize then NumberCell(number, i, j)
                                    else if j == y && i < x then NumberCell(number, i, j)
                                    else old(canvas[j, i])
      {
        var colour := if pattern[y][x] == '1' then Foreground else Background;
        if y < canvas.Length0 && x < canvas.Length1 {
          canvas[y, x] := Solid(colour);
        }
        x := x + 1;
      }
      y := y + 1;
    }
    return Ok(());
  }
}
