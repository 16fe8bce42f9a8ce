/** Images as their pixels, and the summed-area table of an image's grey values. */
module Images {

  type Channel = c: nat | c < 256

  datatype Pixel = Rgb(r: Channel, g: Channel, b: Channel)

  datatype Image = Image(width: nat, height: nat, rows: seq<seq<Pixel>>) {
    ghost predicate Valid() {
      |rows| == height && forall y :: 0 <= y < height ==> |rows[y]| == width
    }
  }

  /** A rectangle of pixels by its corners, the right and the bottom one inside. */
  datatype Rect = Rect(left: int, top: int, right: int, bottom: int)

  predicate Contains(rect: Rect, x: int, y: int) {
    rect.left <= x <= rect.right && rect.top <= y <= rect.bottom
  }

  /** A rectangle by its corner and size. */
  function RectAt(x: int, y: int, width: int, height: int): Rect {
    Rect(x, y, x + width - 1, y + height - 1)
  }

  newtype int32 = x: int | -0x8000_0000 <= x < 0x8000_0000
}

module IntegralImages {
  import opened Images

  /** The luma weights of Recommendation ITU-R BT.601, section 2.5.1, in thousandths. */
  function Grey(p: Pixel): (v: Channel)
  {
    (p.r * 299 + p.g * 587 + p.b * 114) / 1000
  }

  /** The luma signal of that section. */
  ghost function Luma(p: Pixel): real {
    0.299 * p.r as real + 0.587 * p.g as real + 0.114 * p.b as real
  }

  /** The grey value is the luma rounded down. */
  lemma GreyIsLuma(p: Pixel)
    ensures Grey(p) as real <= Luma(p) < Grey(p) as real + 1.0
  {
    var n := p.r * 299 + p.g * 587 + p.b * 114;
    assert n as real == 1000.0 * Luma(p);
    assert 1000 * Grey(p) <= n < 1000 * Grey(p) + 1000;
  }

  /** The weights add up to one: a grey pixel keeps its value, and brightening a channel never
      darkens the grey. */
  lemma GreyKeepsGrey(p: Pixel, q: Pixel)
    ensures p.r == p.g == p.b ==> Grey(p) == p.r
    ensures p.r <= q.r && p.g <= q.g && p.b <= q.b ==> Grey(p) <= Grey(q)
  {
  }

  function GreyAt(img: Image, x: int, y: int): Channel
    requires img.Valid() && 0 <= x < img.width && 0 <= y < img.height
  {
    Grey(img.rows[y][x])
  }

  // The naive sum

  /** The grey value of a pixel if the rectangle contains it. */
  function Part(img: Image, rect: Rect, x: int, y: int): int
    requires img.Valid() && 0 <= x < img.width && 0 <= y < img.height
  {
    if Contains(rect, x, y) then GreyAt(img, x, y) else 0
  }

  /** Over the first n pixels of a row. */
  function SumInRow(img: Image, rect: Rect, y: int, n: nat): int
    requires img.Valid() && 0 <= y < img.height && n <= img.width
  {
    if n == 0 then 0 else SumInRow(img, rect, y, n - 1) + Part(img, rect, n - 1, y)
  }

  /** Over the first m rows. */
  function SumInRows(img: Image, rect: Rect, m: nat): int
    requires img.Valid() && m <= img.height
  {
    if m == 0 then 0 else SumInRows(img, rect, m - 1) + SumInRow(img, rect, m - 1, img.width)
  }

  /** The sum of the grey values of all pixels of the image that lie in the rectangle. */
  function NaiveSum(img: Image, rect: Rect): int
    requires img.Valid()
  {
    SumInRows(img, rect, img.height)
  }

  // The table

  /** The first x pixels of a row. */
  function RowSum(img: Image, x: nat, y: int): int
    requires img.Valid() && 0 <= y < img.height && x <= img.width
  {
    if x == 0 then 0 else RowSum(img, x - 1, y) + GreyAt(img, x - 1, y)
  }

  /** The first x pixels of the first y rows. */
  function Block(img: Image, x: nat, y: nat): int
    requires img.Valid() && x <= img.width && y <= img.height
  {
    if y == 0 then 0 else Block(img, x, y - 1) + RowSum(img, x, y - 1)
  }

  /** The table's entry at a position of the row-major array. */
  ghost function Entry(img: Image, k: nat): int
    requires img.Valid() && k < img.width * img.height
  {
    PositionFits(img, k);
    Block(img, k % img.width + 1, k / img.width + 1)
  }

  lemma PositionFits(img: Image, k: nat)
    requires k < img.width * img.height
    ensures img.width > 0 && k % img.width < img.width && k / img.width < img.height
  {
    var w, h := img.width, img.height;
    if w == 0 {
      assert false;
    }
    assert k == w * (k / w) + k % w;
    if k / w >= h {
      Times(w, h, k / w);
      assert false;
    }
  }

  lemma Times(w: nat, a: int, b: int)
    requires a <= b
    ensures w * a <= w * b
  {
  }

  lemma Position(w: nat, h: nat, x: nat, y: nat)
    requires x < w && y < h
    ensures 0 <= y * w + x < w * h
    ensures (y * w + x) % w == x && (y * w + x) / w == y
    ensures (y + 1) * w == y * w + w <= w * h
  {
    assert y * w == w * y && (y + 1) * w == w * (y + 1);
    Times(w, y + 1, h);
    var k := y * w + x;
    Quotient(w, k / w, k % w, y, x);
  }

  lemma Quotient(w: nat, q: int, r: int, y: int, x: int)
    requires 0 <= r < w && 0 <= x < w && w * q + r == y * w + x
    ensures q == y && r == x
  {
    assert y * w == w * y;
    if q < y {
      Times(w, q + 1, y);
      assert false;
    } else if y < q {
      Times(w, y + 1, q);
      assert false;
    }
  }

  lemma {:induction false} RowSumBounds(img: Image, x: nat, y: int)
    requires img.Valid() && 0 <= y < img.height && x <= img.width
    ensures 0 <= RowSum(img, x, y) <= 255 * x
    ensures x > 0 ==> RowSum(img, x - 1, y) <= RowSum(img, x, y)
  {
    if x > 0 {
      RowSumBounds(img, x - 1, y);
    }
  }

  /** No entry of the table is larger than 255 for each pixel it covers. */
  lemma {:induction false} BlockBounds(img: Image, x: nat, y: nat)
    requires img.Valid() && x <= img.width && y <= img.height
    ensures 0 <= Block(img, x, y) <= 255 * (img.width * y)
  {
    if y > 0 {
      BlockBounds(img, x, y - 1);
      RowSumBounds(img, x, y - 1);
      assert img.width * (y - 1) + img.width == img.width * y;
    }
  }

  lemma BlockFits(img: Image, x: nat, y: nat)
    requires img.Valid() && x <= img.width && y <= img.height
    requires 255 * (img.width * img.height) < 0x8000_0000
    ensures 0 <= Block(img, x, y) < 0x8000_0000
  {
    BlockBounds(img, x, y);
    Times(img.width, y, img.height);
  }

  // From the naive sum to the four corners

  function Max(a: int, b: int): int {
    if a < b then b else a
  }

  function Min(a: int, b: int): int {
    if b < a then b else a
  }

  /** In a row the rectangle cuts, the naive sum is the difference of two prefixes. */
  lemma {:induction false} SumInRowIsADifference(img: Image, rect: Rect, y: int, n: nat, x1: nat, x2: int)
    requires img.Valid() && 0 <= y < img.height && n <= img.width
    requires x1 == Max(0, rect.left) && x2 == Min(rect.right, img.width - 1) && x1 <= x2
    ensures SumInRow(img, rect, y, n) ==
            if !(rect.top <= y <= rect.bottom) || n <= x1 then 0
            else RowSum(img, Min(n, x2 + 1), y) - RowSum(img, x1, y)
  {
    if n > 0 {
      SumInRowIsADifference(img, rect, y, n - 1, x1, x2);
    }
  }

  lemma {:induction false} SumInRowsIsADifference(img: Image, rect: Rect, m: nat, x1: nat, x2: int, y1: nat, y2: int)
    requires img.Valid() && m <= img.height
    requires x1 == Max(0, rect.left) && x2 == Min(rect.right, img.width - 1) && x1 <= x2
    requires y1 == Max(0, rect.top) && y2 == Min(rect.bottom, img.height - 1) && y1 <= y2
    ensures SumInRows(img, rect, m) ==
            if m <= y1 then 0
            else Block(img, x2 + 1, Min(m, y2 + 1)) - Block(img, x1, Min(m, y2 + 1)) -
                 Block(img, x2 + 1, y1) + Block(img, x1, y1)
  {
    if m > 0 {
      SumInRowsIsADifference(img, rect, m - 1, x1, x2, y1, y2);
      SumInRowIsADifference(img, rect, m - 1, img.width, x1, x2);
      hide SumInRow, RowSum, GreyAt, Part;
      if y1 <= m - 1 <= y2 {
        assert Min(m, y2 + 1) == m && Min(m - 1, y2 + 1) == m - 1;
      }
    }
  }

  lemma {:induction false} NothingInRow(img: Image, rect: Rect, y: int, n: nat)
    requires img.Valid() && 0 <= y < img.height && n <= img.width
    requires Max(0, rect.left) > Min(rect.right, img.width - 1) || Max(0, rect.top) > Min(rect.bottom, img.height - 1)
    ensures SumInRow(img, rect, y, n) == 0
  {
    if n > 0 {
      NothingInRow(img, rect, y, n - 1);
    }
  }

  lemma {:induction false} NothingInRows(img: Image, rect: Rect, m: nat)
    requires img.Valid() && m <= img.height
    requires Max(0, rect.left) > Min(rect.right, img.width - 1) || Max(0, rect.top) > Min(rect.bottom, img.height - 1)
    ensures SumInRows(img, rect, m) == 0
  {
    if m > 0 {
      NothingInRows(img, rect, m - 1);
      NothingInRow(img, rect, m - 1, img.width);
    }
  }

  /** The sum over a rectangle, of any position and size, from the four corners of its
      intersection with the image. */
  lemma NaiveSumIsFourCorners(img: Image, rect: Rect)
    requires img.Valid()
    ensures var x1, y1 := Max(0, rect.left), Max(0, rect.top);
            var x2, y2 := Min(rect.right, img.width - 1), Min(rect.bottom, img.height - 1);
            NaiveSum(img, rect) ==
              if x1 > x2 || y1 > y2 then 0
              else Block(img, x2 + 1, y2 + 1) - Block(img, x2 + 1, y1) - Block(img, x1, y2 + 1) + Block(img, x1, y1)
  {
    var x1, y1 := Max(0, rect.left), Max(0, rect.top);
    var x2, y2 := Min(rect.right, img.width - 1), Min(rect.bottom, img.height - 1);
    if x1 > x2 || y1 > y2 {
      NothingInRows(img, rect, img.height);
    } else {
      SumInRowsIsADifference(img, rect, img.height, x1, x2, y1, y2);
    }
  }

  // The same sum, over the cells of the rectangle

  function Clamp(x: int, limit: nat): nat {
    if x < 0 then 0 else if x > limit then limit else x
  }

  /** The grey value at a place inside the image, and nothing outside. */
  ghost function CellAt(img: Image, x: int, y: int): int
    requires img.Valid()
  {
    if 0 <= x < img.width && 0 <= y < img.height then GreyAt(img, x, y) else 0
  }

  /** Over the w places from (x, y) to the right. */
  ghost function CellsInRow(img: Image, x: int, y: int, w: nat): int
    requires img.Valid()
  {
    if w == 0 then 0 else CellsInRow(img, x, y, w - 1) + CellAt(img, x + w - 1, y)
  }

  /** Over the w by h places from (x, y) to the right and down. */
  ghost function Cells(img: Image, x: int, y: int, w: nat, h: nat): int
    requires img.Valid()
  {
    if h == 0 then 0 else Cells(img, x, y, w, h - 1) + CellsInRow(img, x, y + h - 1, w)
  }

  lemma {:induction false} CellsInRowAreADifference(img: Image, x: int, y: int, w: nat)
    requires img.Valid()
    ensures CellsInRow(img, x, y, w) ==
            if 0 <= y < img.height
            then RowSum(img, Clamp(x + w, img.width), y) - RowSum(img, Clamp(x, img.width), y)
            else 0
  {
    hide GreyAt, Image.Valid;
    if w > 0 {
      CellsInRowAreADifference(img, x, y, w - 1);
    }
  }

  lemma {:induction false} CellsAreADifference(img: Image, x: int, y: int, w: nat, h: nat)
    requires img.Valid()
    ensures var x1, x2 := Clamp(x, img.width), Clamp(x + w, img.width);
            var y1, y2 := Clamp(y, img.height), Clamp(y + h, img.height);
            Cells(img, x, y, w, h) == Block(img, x2, y2) - Block(img, x2, y1) - Block(img, x1, y2) + Block(img, x1, y1)
  {
    hide GreyAt, Image.Valid, CellsInRow, RowSum;
    if h > 0 {
      CellsAreADifference(img, x, y, w, h - 1);
      CellsInRowAreADifference(img, x, y + h - 1, w);
    }
  }

  /** The naive sum over a rectangle given by its corner and size is the sum over the w by h places
      it covers, those outside the image counting nothing. */
  lemma NaiveSumIsOverTheCells(img: Image, x: int, y: int, w: nat, h: nat)
    requires img.Valid()
    ensures NaiveSum(img, RectAt(x, y, w, h)) == Cells(img, x, y, w, h)
  {
    NaiveSumIsFourCorners(img, RectAt(x, y, w, h));
    CellsAreADifference(img, x, y, w, h);
    hide NaiveSum, Cells, Block, Image.Valid;
  }

  /** The luma of those places. */
  ghost function LumaInRow(img: Image, x: int, y: int, w: nat): real
    requires img.Valid()
  {
    if w == 0 then 0.0
    else LumaInRow(img, x, y, w - 1) +
         if 0 <= x + w - 1 < img.width && 0 <= y < img.height then Luma(img.rows[y][x + w - 1]) else 0.0
  }

  ghost function LumaSum(img: Image, x: int, y: int, w: nat, h: nat): real
    requires img.Valid()
  {
    if h == 0 then 0.0 else LumaSum(img, x, y, w, h - 1) + LumaInRow(img, x, y + h - 1, w)
  }

  lemma {:induction false} RowIsNearLuma(img: Image, x: int, y: int, w: nat)
    requires img.Valid()
    ensures CellsInRow(img, x, y, w) as real <= LumaInRow(img, x, y, w) <= (CellsInRow(img, x, y, w) + w) as real
  {
    hide Grey, Luma;
    if w > 0 {
      RowIsNearLuma(img, x, y, w - 1);
      if 0 <= x + w - 1 < img.width && 0 <= y < img.height {
        GreyIsLuma(img.rows[y][x + w - 1]);
      }
    }
  }

  /** The sum over a rectangle falls short of the sum of the lumas by at most one for each place. */
  lemma SumIsNearLuma(img: Image, x: int, y: int, w: nat, h: nat)
    requires img.Valid()
    ensures NaiveSum(img, RectAt(x, y, w, h)) as real <= LumaSum(img, x, y, w, h) <=
            (NaiveSum(img, RectAt(x, y, w, h)) + w * h) as real
  {
    NaiveSumIsOverTheCells(img, x, y, w, h);
    CellsAreNearLuma(img, x, y, w, h);
    hide NaiveSum, Cells, LumaSum;
  }

  lemma {:induction false} CellsAreNearLuma(img: Image, x: int, y: int, w: nat, h: nat)
    requires img.Valid()
    ensures Cells(img, x, y, w, h) as real <= LumaSum(img, x, y, w, h) <= (Cells(img, x, y, w, h) + w * h) as real
  {
    hide CellsInRow, LumaInRow;
    if h > 0 {
      CellsAreNearLuma(img, x, y, w, h - 1);
      RowIsNearLuma(img, x, y + h - 1, w);
      assert w * (h - 1) + w == w * h;
    }
  }

  class IntegralImage {
    var width: int
    var height: int
    var data: array<int32>

    /** The default size is -1 by -1, and its array has one element. */
    ghost predicate Valid()
      reads this
    {
      data.Length == width * height && (width < 0 <==> height < 0)
    }

    /** The first n entries are those of the image's table. */
    ghost predicate HoldsUpTo(img: Image, n: int)
      reads this, data
    {
      && img.Valid() && width == img.width && height == img.height
      && n <= data.Length == img.width * img.height
      && forall k :: 0 <= k < n ==> data[k] as int == Entry(img, k)
    }

    /** The table is that of the image. A table without an area stands for an image without pixels. */
    ghost predicate Holds(img: Image)
      reads this, data
    {
      && Valid() && img.Valid() && 255 * (img.width * img.height) < 0x8000_0000
      && if width <= 0 || height <= 0 then img.width == 0 || img.height == 0
         else HoldsUpTo(img, data.Length)
    }

    constructor ()
      ensures Holds(Image(0, 0, [])) && width == -1 && height == -1 && fresh(data)
    {
      width, height := -1, -1;
      data := new int32[1](_ => 0);
    }

    /** One row of the table: the running sum of the row added to the entry above. */
    method FillRow(img: Image, y: nat)
      requires y < img.height && HoldsUpTo(img, y * width)
      requires 255 * (img.width * img.height) < 0x8000_0000
      modifies data
      ensures HoldsUpTo(img, (y + 1) * width)
    {
      hide Entry, Block, RowSum, GreyAt, Image.Valid;
      var rowSum: int32 := 0;
      var x := 0;
      var row := y * width;
      RowSumStarts(img, y);
      assert (y + 1) * width == row + width;
      while x < width
        invariant 0 <= x <= width && row + x <= data.Length
        invariant rowSum as int == RowSum(img, x, y)
        invariant HoldsUpTo(img, row + x)
      {
        Position(width, height, x, y);
        NextSums(img, x, y);
        EntryAt(img, x, y);
        rowSum := rowSum + GreyAt(img, x, y) as int32;
        var above: int32 := 0;
        if y > 0 {
          EntryAt(img, x, y - 1);
          assert (y - 1) * width + x == row - width + x;
          above := data[(y - 1) * width + x];
        }
        data[y * width + x] := rowSum + above;
        x := x + 1;
      }
    }

    /** Fills the table row by row; while 255 for every pixel fits an int, no sum overflows. */
    method Set(img: Image)
      requires Valid() && img.Valid() && 255 * (img.width * img.height) < 0x8000_0000
      modifies this, data
      ensures Holds(img) && width == img.width && height == img.height
      ensures data == old(data) || fresh(data)
    {
      hide Entry, Block, RowSum, GreyAt, Image.Valid;
      if img.width != width || img.height != height {
        width, height := img.width, img.height;
        data := new int32[width * height](_ => 0);
      }
      var y := 0;
      while y < height
        invariant 0 <= y <= height && y * width <= data.Length
        invariant HoldsUpTo(img, y * width)
        modifies data
      {
        Times(width, y + 1, height);
        FillRow(img, y);
        y := y + 1;
      }
      assert y * width == width * height;
    }

    /** The sum over a rectangle, from at most four entries of the table. */
    method SumInRect(rect: Rect, ghost img: Image) returns (sum: int32)
      requires Holds(img)
      ensures sum as int == NaiveSum(img, rect)
    {
      hide Entry, Block, NaiveSum, Image.Valid;
      NaiveSumIsFourCorners(img, rect);
      var x1, y1 := Max(0, rect.left), Max(0, rect.top);
      var x2, y2 := Min(rect.right, width - 1), Min(rect.bottom, height - 1);
      if x1 > x2 || y1 > y2 {
        return 0;
      }
      Corners(img, x1, y1, x2, y2);
      var A: int32 := if x1 > 0 && y1 > 0 then data[(y1 - 1) * width + (x1 - 1)] else 0;
      var B: int32 := if y1 > 0 then data[(y1 - 1) * width + x2] else 0;
      var C: int32 := if x1 > 0 then data[y2 * width + (x1 - 1)] else 0;
      var D: int32 := data[y2 * width + x2];
      return D - B - C + A;
    }
  }

  /** The four entries a sum needs, and their order: no difference of them leaves the ints. */
  lemma Corners(img: Image, x1: nat, y1: nat, x2: nat, y2: nat)
    requires img.Valid() && x1 <= x2 < img.width && y1 <= y2 < img.height
    requires 255 * (img.width * img.height) < 0x8000_0000
    ensures 0 <= y2 * img.width + x2 < img.width * img.height
    ensures Entry(img, y2 * img.width + x2) == Block(img, x2 + 1, y2 + 1)
    ensures y1 > 0 ==> 0 <= (y1 - 1) * img.width + x2 < img.width * img.height &&
                       Entry(img, (y1 - 1) * img.width + x2) == Block(img, x2 + 1, y1)
    ensures x1 > 0 ==> 0 <= y2 * img.width + (x1 - 1) < img.width * img.height &&
                       Entry(img, y2 * img.width + (x1 - 1)) == Block(img, x1, y2 + 1)
    ensures x1 > 0 && y1 > 0 ==> 0 <= (y1 - 1) * img.width + (x1 - 1) < img.width * img.height &&
                                 Entry(img, (y1 - 1) * img.width + (x1 - 1)) == Block(img, x1, y1)
    ensures y1 == 0 ==> Block(img, x2 + 1, y1) == 0 == Block(img, x1, y1)
    ensures x1 == 0 ==> Block(img, x1, y2 + 1) == 0 == Block(img, x1, y1)
    ensures 0 <= Block(img, x1, y1) < 0x8000_0000 && 0 <= Block(img, x2 + 1, y1) < 0x8000_0000
    ensures 0 <= Block(img, x1, y2 + 1) < 0x8000_0000 && 0 <= Block(img, x2 + 1, y2 + 1) < 0x8000_0000
    ensures 0 <= Block(img, x2 + 1, y2 + 1) - Block(img, x2 + 1, y1) - Block(img, x1, y2 + 1) + Block(img, x1, y1)
    ensures 0x8000_0000 >
            Block(img, x2 + 1, y2 + 1) - Block(img, x2 + 1, y1) - Block(img, x1, y2 + 1) + Block(img, x1, y1)
  {
    hide Entry, Block, Image.Valid;
    EntryAt(img, x2, y2);
    if y1 > 0 {
      EntryAt(img, x2, y1 - 1);
    } else {
      EmptyBlock(img, x2 + 1, y1);
      EmptyBlock(img, x1, y1);
    }
    if x1 > 0 {
      EntryAt(img, x1 - 1, y2);
      if y1 > 0 {
        EntryAt(img, x1 - 1, y1 - 1);
      }
    } else {
      EmptyBlock(img, x1, y2 + 1);
      EmptyBlock(img, x1, y1);
    }
    BlockFits(img, x1, y1);
    BlockFits(img, x2 + 1, y1);
    BlockFits(img, x1, y2 + 1);
    BlockFits(img, x2 + 1, y2 + 1);
    BlocksGrow(img, x1, x2 + 1, y1, y2 + 1);
  }

  lemma {:induction false} EmptyBlock(img: Image, x: nat, y: nat)
    requires img.Valid() && x <= img.width && y <= img.height
    requires x == 0 || y == 0
    ensures Block(img, x, y) == 0
  {
    if y > 0 {
      EmptyBlock(img, x, y - 1);
    }
  }

  lemma {:induction false} RowsGrow(img: Image, x1: nat, x2: nat, y: int)
    requires img.Valid() && 0 <= y < img.height && x1 <= x2 <= img.width
    ensures RowSum(img, x1, y) <= RowSum(img, x2, y)
  {
    if x1 < x2 {
      RowsGrow(img, x1, x2 - 1, y);
    }
  }

  /** A wider block gains at least as much from more rows as a narrower one. */
  lemma {:induction false} BlocksGrow(img: Image, x1: nat, x2: nat, y1: nat, y2: nat)
    requires img.Valid() && x1 <= x2 <= img.width && y1 <= y2 <= img.height
    ensures Block(img, x1, y1) <= Block(img, x1, y2)
    ensures Block(img, x1, y2) - Block(img, x1, y1) <= Block(img, x2, y2) - Block(img, x2, y1)
    decreases y2 - y1
  {
    if y1 < y2 {
      BlocksGrow(img, x1, x2, y1, y2 - 1);
      RowsGrow(img, x1, x2, y2 - 1);
      RowSumBounds(img, x1, y2 - 1);
    }
  }

  lemma RowSumStarts(img: Image, y: int)
    requires img.Valid() && 0 <= y < img.height
    ensures RowSum(img, 0, y) == 0
  {
  }

  lemma EntryAt(img: Image, x: nat, y: nat)
    requires img.Valid() && x < img.width && y < img.height
    ensures 0 <= y * img.width + x < img.width * img.height
    ensures Entry(img, y * img.width + x) == Block(img, x + 1, y + 1)
  {
    Position(img.width, img.height, x, y);
  }

  /** One more pixel: its row's sum, the block above it and their sum all fit an int. */
  lemma NextSums(img: Image, x: nat, y: nat)
    requires img.Valid() && x < img.width && y < img.height
    requires 255 * (img.width * img.height) < 0x8000_0000
    ensures RowSum(img, x + 1, y) == RowSum(img, x, y) + GreyAt(img, x, y)
    ensures 0 <= RowSum(img, x, y) && 0 <= RowSum(img, x + 1, y) < 0x8000_0000
    ensures Block(img, x + 1, y + 1) == Block(img, x + 1, y) + RowSum(img, x + 1, y)
    ensures y == 0 ==> Block(img, x + 1, y) == 0
    ensures 0 <= Block(img, x + 1, y) <= Block(img, x + 1, y + 1) < 0x8000_0000
  {
    RowSumBounds(img, x, y);
    RowSumBounds(img, x + 1, y);
    BlockFits(img, x + 1, y);
    BlockFits(img, x + 1, y + 1);
  }
}
