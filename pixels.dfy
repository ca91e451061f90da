/**
 * Per-pixel colour formulas and the RGBA pixel buffer the analyzers read
 * (src/imageAnalysis.js:62-73, duplicated at src/app.js:810-821), and the stride scan
 * orders their nested loops walk.
 */
module Pixels {

  /** One channel value of the canvas pixel buffer. */
  type Byte = b: int | 0 <= b <= 255

  /** Rec. 709 relative luminance with exact coefficients. */
  function Luminance(r: int, g: int, b: int): (y: real)
    ensures r == g == b ==> y == r as real
    ensures 0 <= r <= 255 && 0 <= g <= 255 && 0 <= b <= 255 ==> 0.0 <= y <= 255.0
  {
    0.2126 * r as real + 0.7152 * g as real + 0.0722 * b as real
  }

  function Max3(r: int, g: int, b: int): (m: int)
    ensures m >= r && m >= g && m >= b && (m == r || m == g || m == b)
  {
    if r >= g && r >= b then r else if g >= b then g else b
  }

  function Min3(r: int, g: int, b: int): (m: int)
    ensures m <= r && m <= g && m <= b && (m == r || m == g || m == b)
  {
    if r <= g && r <= b then r else if g <= b then g else b
  }

  /** HSV-style saturation: (max - min) / max, and 0 when max is 0. */
  function Saturation(r: int, g: int, b: int): (s: real)
    requires 0 <= r && 0 <= g && 0 <= b
    ensures 0.0 <= s <= 1.0
    ensures s == 0.0 <==> Max3(r, g, b) == 0 || Max3(r, g, b) == Min3(r, g, b)
    ensures r == g == b ==> s == 0.0
  {
    var max, min := Max3(r, g, b), Min3(r, g, b);
    if max == 0 then 0.0
    else
      UnitFraction((max - min) as real, max as real);
      (max - min) as real / max as real
  }

  /** A share of a positive whole lies in [0, 1], and is 0 only for a zero share. */
  lemma UnitFraction(d: real, m: real)
    requires 0.0 <= d <= m && m > 0.0
    ensures 0.0 <= d / m <= 1.0
    ensures d / m == 0.0 <==> d == 0.0
  {
    var q := d / m;
    assert q * m == d;
  }

  /** A canvas pixel buffer: row-major RGBA, four bytes per pixel. */
  datatype Image = Image(width: nat, height: nat, data: seq<Byte>)
  {
    predicate Valid()
    {
      |data| == width * height * 4
    }
  }

  /** A sampled pixel position (x is the column, y the row). */
  datatype Cell = Cell(x: int, y: int)

  predicate InFrame(img: Image, c: Cell)
  {
    0 <= c.x < img.width && 0 <= c.y < img.height
  }

  /** The byte offset of a pixel, `(y * width + x) * 4`. */
  function Offset(img: Image, c: Cell): int
  {
    (c.y * img.width + c.x) * 4
  }

  /** The four bytes of an in-frame pixel lie inside the buffer. */
  lemma {:induction false} OffsetInBuffer(img: Image, c: Cell)
    requires img.Valid() && InFrame(img, c)
    ensures 0 <= Offset(img, c) && Offset(img, c) + 3 < |img.data|
  {
    var w, h := img.width, img.height;
    assert c.y * w <= (h - 1) * w by {
      MulMono(c.y, h - 1, w);
    }
    assert (h - 1) * w == h * w - w;
    assert 0 <= c.y * w by {
      MulMono(0, c.y, w);
    }
  }

  lemma {:induction false} MulMono(a: int, b: int, k: nat)
    requires a <= b
    ensures a * k <= b * k
  {
    var d := b - a;
    assert b * k == a * k + d * k;
    assert d * k >= 0 by {
      assert d >= 0;
    }
  }

  /**
   * The red, green and blue bytes of a pixel. A position outside the frame reads as black;
   * no scan of the analyzers produces one (see the membership lemmas below).
   */
  function RgbAt(img: Image, c: Cell): (Byte, Byte, Byte)
  {
    if img.Valid() && InFrame(img, c) then
      OffsetInBuffer(img, c);
      var i := Offset(img, c);
      (img.data[i], img.data[i + 1], img.data[i + 2])
    else (0, 0, 0)
  }

  function LumAt(img: Image, c: Cell): (y: real)
    ensures 0.0 <= y <= 255.0
  {
    var (r, g, b) := RgbAt(img, c);
    Luminance(r, g, b)
  }

  function SatAt(img: Image, c: Cell): (s: real)
    ensures 0.0 <= s <= 1.0
  {
    var (r, g, b) := RgbAt(img, c);
    Saturation(r, g, b)
  }

  /** Reading the bytes at a pixel's offset gives that pixel's luminance and saturation. */
  lemma PixelRead(img: Image, c: Cell, index: int)
    requires img.Valid() && InFrame(img, c) && index == Offset(img, c)
    ensures 0 <= index && index + 3 < |img.data|
    ensures LumAt(img, c) == Luminance(img.data[index], img.data[index + 1], img.data[index + 2])
  {
    OffsetInBuffer(img, c);
  }

  /** The same for saturation. */
  lemma PixelSatRead(img: Image, c: Cell, index: int)
    requires img.Valid() && InFrame(img, c) && index == Offset(img, c)
    ensures 0 <= index && index + 3 < |img.data|
    ensures SatAt(img, c) == Saturation(img.data[index], img.data[index + 1], img.data[index + 2])
  {
    OffsetInBuffer(img, c);
  }

  /** Every byte of the buffer is `v`: a frame of one grey shade (255 is all white). */
  predicate SingleShade(img: Image, v: Byte)
  {
    forall i :: 0 <= i < |img.data| ==> img.data[i] == v
  }

  /** An in-frame pixel of a single-shade frame has luminance `v` and no saturation. */
  lemma ShadePixel(img: Image, c: Cell, v: Byte)
    requires img.Valid() && SingleShade(img, v) && InFrame(img, c)
    ensures LumAt(img, c) == v as real && SatAt(img, c) == 0.0
  {
    OffsetInBuffer(img, c);
  }

  /** The row-offset form of the index, `y * width * 4 + x * 4`, is the pixel's offset. */
  lemma RowOffsetIndex(img: Image, c: Cell, rowOffset: int)
    requires rowOffset == c.y * img.width * 4
    ensures rowOffset + c.x * 4 == Offset(img, c)
  {
  }

  // ---------------------------------------------------------------- scan orders

  /** The cells `x = x0, x0 + dx, ...` with `x < xEnd` of row `y`, in loop order. */
  function RowFrom(y: int, x0: int, xEnd: int, dx: nat): seq<Cell>
    requires dx > 0
    decreases xEnd - x0
  {
    if x0 >= xEnd then [] else [Cell(x0, y)] + RowFrom(y, x0 + dx, xEnd, dx)
  }

  /** The rows `y = y0, y0 + dy, ...` with `y < yEnd`, each scanned from x = 0 by `dx`. */
  function ScanRows(y0: int, yEnd: int, dy: nat, xEnd: int, dx: nat): seq<Cell>
    requires dy > 0 && dx > 0
    decreases yEnd - y0
  {
    if y0 >= yEnd then [] else RowFrom(y0, 0, xEnd, dx) + ScanRows(y0 + dy, yEnd, dy, xEnd, dx)
  }

  lemma {:induction false} RowFromMembers(y: int, x0: int, xEnd: int, dx: nat, c: Cell)
    requires dx > 0
    ensures c in RowFrom(y, x0, xEnd, dx) <==> c.y == y && x0 <= c.x < xEnd && (c.x - x0) % dx == 0
    decreases xEnd - x0
  {
    if x0 < xEnd {
      RowFromMembers(y, x0 + dx, xEnd, dx, c);
      if c.y == y && x0 < c.x && (c.x - x0) % dx == 0 {
        ModStep(c.x - x0, dx);
      }
      if c.y == y && x0 + dx <= c.x && (c.x - x0 - dx) % dx == 0 {
        ModStepBack(c.x - x0, dx);
      }
    }
  }

  lemma {:induction false} ModStep(a: int, d: nat)
    requires d > 0 && a > 0 && a % d == 0
    ensures a >= d && (a - d) % d == 0
  {
    var q := a / d;
    assert a == d * q;
    assert q >= 1;
    MulMono(1, q, d);
    assert a - d == d * (q - 1);
    ModOfMultiple(q - 1, d);
  }

  lemma {:induction false} ModStepBack(a: int, d: nat)
    requires d > 0 && (a - d) % d == 0
    ensures a % d == 0
  {
    var q := (a - d) / d;
    assert a - d == d * q;
    assert a == d * (q + 1);
    ModOfMultiple(q + 1, d);
  }

  lemma {:induction false} ModOfMultiple(q: int, d: nat)
    requires d > 0
    ensures (d * q) % d == 0
  {
    var a := d * q;
    var r := a % d;
    var q' := a / d;
    assert a == d * q' + r && 0 <= r < d;
    assert d * (q - q') == r;
    if q - q' >= 1 {
      MulMono(1, q - q', d);
      assert false;
    } else if q - q' <= -1 {
      MulMono(q - q', -1, d);
      assert false;
    }
  }

  lemma {:induction false} ScanRowsMembers(y0: int, yEnd: int, dy: nat, xEnd: int, dx: nat, c: Cell)
    requires dy > 0 && dx > 0
    ensures c in ScanRows(y0, yEnd, dy, xEnd, dx) <==>
              y0 <= c.y < yEnd && (c.y - y0) % dy == 0 && 0 <= c.x < xEnd && c.x % dx == 0
    decreases yEnd - y0
  {
    if y0 < yEnd {
      ScanRowsMembers(y0 + dy, yEnd, dy, xEnd, dx, c);
      RowFromMembers(y0, 0, xEnd, dx, c);
      if y0 < c.y && (c.y - y0) % dy == 0 {
        ModStep(c.y - y0, dy);
      }
      if y0 + dy <= c.y && (c.y - y0 - dy) % dy == 0 {
        ModStepBack(c.y - y0, dy);
      }
    }
  }

  /** One step of a row loop: the cell at `x` moves from the pending row to the done prefix. */
  lemma RowFromStep(y: int, x: int, xEnd: int, dx: nat, done: seq<Cell>)
    requires dx > 0 && x < xEnd
    ensures done + RowFrom(y, x, xEnd, dx) == (done + [Cell(x, y)]) + RowFrom(y, x + dx, xEnd, dx)
  {
  }

  /** One step of a scan's outer loop: row `y` moves from the pending rows to the done prefix. */
  lemma ScanRowsStep(y: int, yEnd: int, dy: nat, xEnd: int, dx: nat, done: seq<Cell>)
    requires dy > 0 && dx > 0 && y < yEnd
    ensures done + ScanRows(y, yEnd, dy, xEnd, dx) ==
            (done + RowFrom(y, 0, xEnd, dx)) + ScanRows(y + dy, yEnd, dy, xEnd, dx)
  {
  }

  // ---------------------------------------------------------------- sub-rectangles

  /** The four RGBA bytes of a pixel; a position outside the frame reads as four zeros. */
  function PixelBytes(img: Image, c: Cell): (p: seq<Byte>)
    ensures |p| == 4
  {
    if img.Valid() && InFrame(img, c) then
      OffsetInBuffer(img, c);
      var i := Offset(img, c);
      img.data[i..i + 4]
    else [0, 0, 0, 0]
  }

  /** The bytes of pixels `xs .. xe - 1` of row `y`, left to right. */
  function CropRow(img: Image, xs: int, xe: int, y: int): (r: seq<Byte>)
    ensures |r| == if xs < xe then 4 * (xe - xs) else 0
    decreases xe - xs
  {
    if xe <= xs then [] else CropRow(img, xs, xe - 1, y) + PixelBytes(img, Cell(xe - 1, y))
  }

  /**
   * `getImageData(xs, y0, xe - xs, yEnd - y0)`: the pixel bytes of rows `y0 .. yEnd - 1`
   * of the rectangle, top to bottom, each row left to right.
   */
  function CropRows(img: Image, xs: int, xe: int, y0: int, yEnd: int): (d: seq<Byte>)
    ensures |d| % 4 == 0
    ensures xs < xe && y0 < yEnd ==> |d| >= 4 * (xe - xs)
    decreases yEnd - y0
  {
    if yEnd <= y0 then [] else CropRows(img, xs, xe, y0, yEnd - 1) + CropRow(img, xs, xe, yEnd - 1)
  }

  /** The cut-out holds `(yEnd - y0) * (xe - xs)` pixels of four bytes each. */
  lemma {:induction false} CropRowsLength(img: Image, xs: int, xe: int, y0: int, yEnd: int)
    requires xs < xe
    ensures |CropRows(img, xs, xe, y0, yEnd)| == if y0 < yEnd then 4 * (xe - xs) * (yEnd - y0) else 0
    decreases yEnd - y0
  {
    if y0 < yEnd {
      CropRowsLength(img, xs, xe, y0, yEnd - 1);
      assert 4 * (xe - xs) * (yEnd - y0) == 4 * (xe - xs) * (yEnd - 1 - y0) + 4 * (xe - xs);
    }
  }

  /** A byte sequence all of whose bytes are `v`. */
  predicate AllBytes(d: seq<Byte>, v: Byte)
  {
    forall i :: 0 <= i < |d| ==> d[i] == v
  }

  lemma AllBytesConcat(a: seq<Byte>, b: seq<Byte>, v: Byte)
    requires AllBytes(a, v) && AllBytes(b, v)
    ensures AllBytes(a + b, v)
  {
  }

  /** A pixel read from a single-shade frame is four bytes of that shade. */
  lemma ShadePixelBytes(img: Image, c: Cell, v: Byte)
    requires img.Valid() && SingleShade(img, v) && InFrame(img, c)
    ensures PixelBytes(img, c) == [v, v, v, v]
  {
    OffsetInBuffer(img, c);
  }

  lemma {:induction false} CropRowShade(img: Image, xs: int, xe: int, y: int, v: Byte)
    requires img.Valid() && SingleShade(img, v) && 0 <= xs && xe <= img.width && 0 <= y < img.height
    ensures AllBytes(CropRow(img, xs, xe, y), v)
    decreases xe - xs
  {
    if xs < xe {
      CropRowShade(img, xs, xe - 1, y, v);
      ShadePixelBytes(img, Cell(xe - 1, y), v);
      AllBytesConcat(CropRow(img, xs, xe - 1, y), PixelBytes(img, Cell(xe - 1, y)), v);
    }
  }

  /** Every byte of a cut-out inside a single-shade frame has that shade. */
  lemma CropRowsShade(img: Image, xs: int, xe: int, y0: int, yEnd: int, v: Byte)
    requires img.Valid() && SingleShade(img, v) && 0 <= xs && xe <= img.width && 0 <= y0 && yEnd <= img.height
    ensures AllBytes(CropRows(img, xs, xe, y0, yEnd), v)
  {
    forall y | y0 <= y < yEnd
      ensures AllBytes(CropRow(img, xs, xe, y), v)
    {
      CropRowShade(img, xs, xe, y, v);
    }
    CropRowsAll(img, xs, xe, y0, yEnd, v);
  }

  /** Rows that are each all `v` give a cut-out that is all `v`. */
  lemma {:induction false} CropRowsAll(img: Image, xs: int, xe: int, y0: int, yEnd: int, v: Byte)
    requires forall y | y0 <= y < yEnd :: AllBytes(CropRow(img, xs, xe, y), v)
    ensures AllBytes(CropRows(img, xs, xe, y0, yEnd), v)
    decreases yEnd - y0
  {
    if y0 < yEnd {
      CropRowsAll(img, xs, xe, y0, yEnd - 1, v);
      AllBytesConcat(CropRows(img, xs, xe, y0, yEnd - 1), CropRow(img, xs, xe, yEnd - 1), v);
    }
  }
}
