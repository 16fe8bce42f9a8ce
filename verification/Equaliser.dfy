/** Histogram equalisation of an image. */
module Equaliser {
  import opened Images

  /** Qt's grey level of a pixel. */
  function QGray(p: Pixel): Channel {
    (p.r * 11 + p.g * 16 + p.b * 5) / 32
  }

  /** A level is 11 parts of red, 16 of green and 5 of blue, rounded down. */
  lemma QGrayIsWeighted(p: Pixel)
    ensures QGray(p) as real <= 0.34375 * p.r as real + 0.5 * p.g as real + 0.15625 * p.b as real <
            QGray(p) as real + 1.0
  {
    var n := p.r * 11 + p.g * 16 + p.b * 5;
    assert n as real == 32.0 * (0.34375 * p.r as real + 0.5 * p.g as real + 0.15625 * p.b as real);
    assert 32 * QGray(p) <= n < 32 * QGray(p) + 32;
  }

  function LevelAt(img: Image, x: int, y: int): Channel
    requires img.Valid() && 0 <= x < img.width && 0 <= y < img.height
  {
    QGray(img.rows[y][x])
  }

  // Counting pixels, straight from the image

  /** How many of the first n pixels of a row have a level in the given range. */
  function CountInRow(img: Image, lo: int, hi: int, y: int, n: nat): nat
    requires img.Valid() && 0 <= y < img.height && n <= img.width
  {
    if n == 0 then 0
    else CountInRow(img, lo, hi, y, n - 1) + if lo <= LevelAt(img, n - 1, y) <= hi then 1 else 0
  }

  function CountInRows(img: Image, lo: int, hi: int, m: nat): nat
    requires img.Valid() && m <= img.height
  {
    if m == 0 then 0 else CountInRows(img, lo, hi, m - 1) + CountInRow(img, lo, hi, m - 1, img.width)
  }

  /** How many pixels of the image have a level in the given range. */
  function Count(img: Image, lo: int, hi: int): nat
    requires img.Valid()
  {
    CountInRows(img, lo, hi, img.height)
  }

  lemma {:induction false} RowSplits(img: Image, lo: int, mid: int, hi: int, y: int, n: nat)
    requires img.Valid() && 0 <= y < img.height && n <= img.width && lo <= mid + 1 <= hi + 1
    ensures CountInRow(img, lo, mid, y, n) + CountInRow(img, mid + 1, hi, y, n) == CountInRow(img, lo, hi, y, n)
  {
    if n > 0 {
      RowSplits(img, lo, mid, hi, y, n - 1);
    }
  }

  lemma {:induction false} RowsSplit(img: Image, lo: int, mid: int, hi: int, m: nat)
    requires img.Valid() && m <= img.height && lo <= mid + 1 <= hi + 1
    ensures CountInRows(img, lo, mid, m) + CountInRows(img, mid + 1, hi, m) == CountInRows(img, lo, hi, m)
  {
    if m > 0 {
      RowsSplit(img, lo, mid, hi, m - 1);
      RowSplits(img, lo, mid, hi, m - 1, img.width);
    }
  }

  lemma {:induction false} WholeRow(img: Image, y: int, n: nat)
    requires img.Valid() && 0 <= y < img.height && n <= img.width
    ensures CountInRow(img, 0, 255, y, n) == n
  {
    if n > 0 {
      WholeRow(img, y, n - 1);
    }
  }

  lemma {:induction false} WholeRows(img: Image, m: nat)
    requires img.Valid() && m <= img.height
    ensures CountInRows(img, 0, 255, m) == img.width * m
  {
    if m > 0 {
      WholeRows(img, m - 1);
      WholeRow(img, m - 1, img.width);
      assert img.width * (m - 1) + img.width == img.width * m;
    }
  }

  lemma {:induction false} RowCountsPresent(img: Image, lo: int, hi: int, y: int, n: nat)
    requires img.Valid() && 0 <= y < img.height && n <= img.width
    ensures CountInRow(img, lo, hi, y, n) <= n
    ensures CountInRow(img, lo, hi, y, n) > 0 <==> exists x :: 0 <= x < n && lo <= LevelAt(img, x, y) <= hi
  {
    if n > 0 {
      RowCountsPresent(img, lo, hi, y, n - 1);
    }
  }

  lemma {:induction false} RowsCountPresent(img: Image, lo: int, hi: int, m: nat)
    requires img.Valid() && m <= img.height
    ensures CountInRows(img, lo, hi, m) > 0 <==>
            exists x, y :: 0 <= x < img.width && 0 <= y < m && lo <= LevelAt(img, x, y) <= hi
  {
    if m > 0 {
      RowsCountPresent(img, lo, hi, m - 1);
      RowCountsPresent(img, lo, hi, m - 1, img.width);
      hide LevelAt;
    }
  }

  /** Some pixel has a level in the given range. */
  ghost predicate Present(img: Image, lo: int, hi: int)
    requires img.Valid()
  {
    exists x, y :: 0 <= x < img.width && 0 <= y < img.height && lo <= LevelAt(img, x, y) <= hi
  }

  lemma CountMeansPresent(img: Image, lo: int, hi: int)
    requires img.Valid()
    ensures Count(img, lo, hi) > 0 <==> Present(img, lo, hi)
  {
    RowsCountPresent(img, lo, hi, img.height);
  }

  /** The divisor of the remap is the number of pixels above level 0. */
  lemma DivisorIsTheLight(img: Image)
    requires img.Valid()
    ensures img.width * img.height - Count(img, 0, 0) == Count(img, 1, 255)
    ensures Count(img, 1, 255) == 0 <==> !Present(img, 1, 255)
  {
    WholeRows(img, img.height);
    RowsSplit(img, 0, 0, 255, img.height);
    CountMeansPresent(img, 1, 255);
  }

  /** There is a pixel to remap, and the divisor is zero. */
  ghost predicate DividesByZero(img: Image)
    requires img.Valid()
  {
    img.width > 0 && img.height > 0 && img.width * img.height - Count(img, 0, 0) == 0
  }

  /** A division by zero is made exactly for an image that has pixels, all of them at level 0. */
  lemma DividesByZeroExactlyWhenBlack(img: Image)
    requires img.Valid()
    ensures DividesByZero(img) <==> img.width > 0 && img.height > 0 && !Present(img, 1, 255)
    ensures !Present(img, 1, 255) <==>
              forall x, y :: 0 <= x < img.width && 0 <= y < img.height ==> LevelAt(img, x, y) == 0
  {
    DivisorIsTheLight(img);
    hide Count, LevelAt;
  }

  lemma OneBlackPixel()
    ensures Image(1, 1, [[Rgb(0, 0, 0)]]).Valid() && DividesByZero(Image(1, 1, [[Rgb(0, 0, 0)]]))
  {
    var img := Image(1, 1, [[Rgb(0, 0, 0)]]);
    assert LevelAt(img, 0, 0) == 0;
    hide LevelAt, Count, Present, DividesByZero;
    DividesByZeroExactlyWhenBlack(img);
  }

  lemma RemapFits(img: Image, level: Channel)
    requires img.Valid() && Count(img, 1, 255) > 0
    ensures 0 <= Scale(Count(img, 0, level) - Count(img, 0, 0), Count(img, 1, 255)) <= 255
  {
    CountTo(img, level);
    hide Count, Scale;
    ScaleIsBounded(Count(img, 1, level), Count(img, 1, 255));
  }

  /** The new level of an old one: its place among the pixels above level 0, scaled to 255. */
  function Remap(img: Image, level: Channel): Channel
    requires img.Valid() && Count(img, 1, 255) > 0
  {
    RemapFits(img, level);
    Scale(Count(img, 0, level) - Count(img, 0, 0), Count(img, 1, 255))
  }

  lemma CountTo(img: Image, level: Channel)
    requires img.Valid()
    ensures Count(img, 0, level) - Count(img, 0, 0) == Count(img, 1, level)
    ensures Count(img, 1, level) + Count(img, level + 1, 255) == Count(img, 1, 255)
  {
    RowsSplit(img, 0, 0, level, img.height);
    RowsSplit(img, 1, level, 255, img.height);
  }

  /** A share of a whole, out of 255. */
  function Scale(part: int, whole: int): int
    requires whole > 0
  {
    part * 255 / whole
  }

  lemma Floor(n: int, d: nat)
    requires d > 0
    ensures d * (n / d) <= n < d * (n / d) + d
  {
  }

  lemma ScaleIsMonotone(a: int, b: int, d: nat)
    requires a <= b && d > 0
    ensures Scale(a, d) <= Scale(b, d)
  {
    var p, q := Scale(a, d), Scale(b, d);
    Floor(a * 255, d);
    Floor(b * 255, d);
    hide Scale;
    if q < p {
      Product(d, q + 1, p);
      assert false;
    }
  }

  /** A part reaches 255 exactly when it is the whole. */
  lemma ScaleIsBounded(a: nat, d: nat)
    requires a <= d && d > 0
    ensures 0 <= Scale(a, d) <= 255
    ensures Scale(a, d) == 255 <==> a == d
  {
    var p := Scale(a, d);
    Floor(a * 255, d);
    hide Scale;
    if p < 0 {
      Product(d, p, -1);
      assert false;
    }
    if p > 255 {
      Product(d, 256, p);
      assert false;
    }
    if p == 255 {
      assert d * p == 255 * d;
    } else {
      Product(d, p, 254);
    }
  }

  lemma NothingScales(d: nat)
    requires d > 0
    ensures Scale(0, d) == 0
  {
    assert 0 / d == 0;
  }

  lemma Product(d: nat, p: int, q: int)
    requires p <= q
    ensures d * p <= d * q && d * (p + 1) == d * p + d
  {
  }

  lemma Factored(x: real, d: real, product: real)
    requires d > 0.0 && x * d == product
    ensures product >= 0.0 ==> x >= 0.0
    ensures product > 0.0 ==> x > 0.0
  {
    if x < 0.0 {
      assert x * d < 0.0;
    }
  }

  lemma QuotientIsNear(part: nat, whole: nat, q: int)
    requires whole > 0 && whole * q <= part * 255 < whole * q + whole
    ensures q as real <= 255.0 * (part as real / whole as real) < q as real + 1.0
  {
    var share := part as real / whole as real;
    assert share * whole as real == part as real;
    Factored(255.0 * share - q as real, whole as real, (part * 255 - whole * q) as real);
    Factored(q as real + 1.0 - 255.0 * share, whole as real, (whole * q + whole - part * 255) as real);
  }

  /** The new level is 255 times the share of the pixels above level 0 that are not brighter than the
      old one, rounded down. */
  lemma RemapIsTheShare(img: Image, level: Channel)
    requires img.Valid() && Count(img, 1, 255) > 0
    ensures var share := Count(img, 1, level) as real / Count(img, 1, 255) as real;
            Remap(img, level) as real <= 255.0 * share < Remap(img, level) as real + 1.0
  {
    CountTo(img, level);
    var part, whole := Count(img, 1, level), Count(img, 1, 255);
    Floor(part * 255, whole);
    assert Remap(img, level) == part * 255 / whole;
    hide Count, Remap;
    QuotientIsNear(part, whole, part * 255 / whole);
  }

  /** Equalising keeps the order of the levels, maps into 0..255, leaves black black, and sends a
      level to 255 exactly when no pixel is brighter. */
  lemma EqualisingIsMonotone(img: Image, u: Channel, v: Channel)
    requires img.Valid() && Present(img, 1, 255) && u <= v
    ensures Count(img, 1, 255) > 0
    ensures Remap(img, u) <= Remap(img, v)
    ensures Remap(img, 0) == 0
    ensures Remap(img, v) == 255 <==> !Present(img, v + 1, 255)
  {
    DivisorIsTheLight(img);
    CountTo(img, u);
    CountTo(img, v);
    assert Count(img, 0, u) + Count(img, u + 1, v) == Count(img, 0, v) by { RowsSplit(img, 0, u, v, img.height); }
    CountMeansPresent(img, v + 1, 255);
    hide CountInRows, Count, Present, LevelAt, Scale;
    ScaleIsMonotone(Count(img, 1, u), Count(img, 1, v), Count(img, 1, 255));
    ScaleIsBounded(Count(img, 1, v), Count(img, 1, 255));
    NothingScales(Count(img, 1, 255));
  }

  /** The histogram adds up to the number of pixels, level by level to the cumulative table. */
  lemma {:induction false} HistogramAddsUp(img: Image, level: nat)
    requires img.Valid() && level < 256
    ensures Count(img, 0, level) == (if level == 0 then 0 else Count(img, 0, level - 1)) + Count(img, level, level)
    ensures Count(img, 0, 255) == img.width * img.height
  {
    WholeRows(img, img.height);
    if level > 0 {
      RowsSplit(img, 0, level - 1, level, img.height);
    }
  }

  /** Counting one more pixel, for one bin of the histogram. */
  ghost function Bin(img: Image, v: int, x: nat, y: nat): int
    requires img.Valid() && x <= img.width && y < img.height
  {
    CountInRows(img, v, v, y) + CountInRow(img, v, v, y, x)
  }

  /** The histogram: each level's number of pixels. */
  method Histogram(wip: Image) returns (histogram: array<int32>)
    requires wip.Valid() && 255 * (wip.width * wip.height) < 0x8000_0000
    ensures fresh(histogram) && histogram.Length == 256
    ensures forall v :: 0 <= v < 256 ==> histogram[v] as int == Count(wip, v, v)
  {
    hide CountInRow, CountInRows, LevelAt, Image.Valid;
    histogram := new int32[256](_ => 0);
    forall v ensures CountInRows(wip, v, v, 0) == 0 {
      NoRows(wip, v);
    }
    var y := 0;
    while y < wip.height
      invariant 0 <= y <= wip.height
      invariant forall v :: 0 <= v < 256 ==> histogram[v] as int == CountInRows(wip, v, v, y)
    {
      forall v ensures CountInRow(wip, v, v, y, 0) == 0 {
        NoPixels(wip, v, y);
      }
      var x := 0;
      while x < wip.width
        invariant 0 <= x <= wip.width
        invariant forall v :: 0 <= v < 256 ==> histogram[v] as int == Bin(wip, v, x, y)
      {
        var intensity := LevelAt(wip, x, y);
        forall v ensures Bin(wip, v, x + 1, y) == Bin(wip, v, x, y) + if v == intensity then 1 else 0 {
          NextPixel(wip, v, x, y);
        }
        BinFits(wip, intensity, x + 1, y);
        histogram[intensity] := histogram[intensity] + 1;
        x := x + 1;
      }
      forall v ensures CountInRows(wip, v, v, y + 1) == Bin(wip, v, wip.width, y) {
        NextRow(wip, v, y);
      }
      y := y + 1;
    }
  }

  lemma NoRows(img: Image, v: int)
    requires img.Valid()
    ensures CountInRows(img, v, v, 0) == 0
  {
  }

  lemma NoPixels(img: Image, v: int, y: nat)
    requires img.Valid() && y < img.height
    ensures CountInRow(img, v, v, y, 0) == 0
  {
  }

  lemma NextPixel(img: Image, v: int, x: nat, y: nat)
    requires img.Valid() && x < img.width && y < img.height
    ensures Bin(img, v, x + 1, y) == Bin(img, v, x, y) + if v == LevelAt(img, x, y) then 1 else 0
  {
  }

  lemma NextRow(img: Image, v: int, y: nat)
    requires img.Valid() && y < img.height
    ensures CountInRows(img, v, v, y + 1) == Bin(img, v, img.width, y)
  {
  }

  lemma {:induction false} RowsAreBounded(img: Image, lo: int, hi: int, m: nat)
    requires img.Valid() && m <= img.height
    ensures CountInRows(img, lo, hi, m) <= img.width * m
  {
    if m > 0 {
      RowsAreBounded(img, lo, hi, m - 1);
      RowCountsPresent(img, lo, hi, m - 1, img.width);
      assert img.width * (m - 1) + img.width == img.width * m;
    }
  }

  lemma Area(w: nat, m: nat, h: nat)
    requires m <= h
    ensures w * m <= w * h
  {
  }

  /** No count passes the number of pixels. */
  lemma CountFits(img: Image, lo: int, hi: int)
    requires img.Valid()
    ensures 0 <= Count(img, lo, hi) <= img.width * img.height
  {
    RowsAreBounded(img, lo, hi, img.height);
  }

  lemma BinFits(img: Image, v: int, x: nat, y: nat)
    requires img.Valid() && x <= img.width && y < img.height
    ensures 0 <= Bin(img, v, x, y) <= img.width * img.height
  {
    RowsAreBounded(img, v, v, y);
    RowCountsPresent(img, v, v, y, x);
    Area(img.width, y + 1, img.height);
    assert img.width * (y + 1) == img.width * y + img.width;
  }

  /** The cumulative distribution: how many pixels are at most that bright. */
  method CumulativeDistribution(wip: Image, histogram: array<int32>) returns (cdf: array<int32>)
    requires wip.Valid() && 255 * (wip.width * wip.height) < 0x8000_0000
    requires histogram.Length == 256
    requires forall v :: 0 <= v < 256 ==> histogram[v] as int == Count(wip, v, v)
    ensures fresh(cdf) && cdf.Length == 256
    ensures forall v :: 0 <= v < 256 ==> cdf[v] as int == Count(wip, 0, v)
    ensures cdf[255] as int == wip.width * wip.height
  {
    hide Count;
    cdf := new int32[256](_ => 0);
    cdf[0] := histogram[0];
    for i := 1 to 256
      invariant forall v :: 0 <= v < i ==> cdf[v] as int == Count(wip, 0, v)
    {
      HistogramAddsUp(wip, i);
      CountFits(wip, 0, i);
      assert cdf[i - 1] as int == Count(wip, 0, i - 1);
      cdf[i] := cdf[i - 1] + histogram[i];
    }
    HistogramAddsUp(wip, 255);
    assert cdf[255] as int == Count(wip, 0, 255);
  }

  /** The grey pixel of a level. */
  function Shade(level: Channel): Pixel {
    Rgb(level, level, level)
  }

  lemma ShadeHasItsLevel(level: Channel)
    ensures QGray(Shade(level)) == level && Shade(level).r == Shade(level).g == Shade(level).b
  {
  }

  datatype Outcome<T> = Value(value: T) | DividedByZero

  /** Every pixel becomes grey, with the new level of its old one, unless the first one is divided
      by zero. While 255 for every pixel fits an int nothing overflows. */
  method PreprocessImage(wip: Image) returns (outcome: Outcome<array2<Pixel>>)
    requires wip.Valid() && 255 * (wip.width * wip.height) < 0x8000_0000
    ensures outcome.DividedByZero? <==> wip.width > 0 && wip.height > 0 && !Present(wip, 1, 255)
    ensures outcome.Value? ==>
      fresh(outcome.value) && outcome.value.Length0 == wip.width && outcome.value.Length1 == wip.height
    ensures Present(wip, 1, 255) ==> Count(wip, 1, 255) > 0
    ensures outcome.Value? ==> forall x, y :: 0 <= x < wip.width && 0 <= y < wip.height ==>
              Present(wip, 1, 255) && outcome.value[x, y] == Shade(Remap(wip, LevelAt(wip, x, y)))
  {
    hide Count, LevelAt, Present, Remap, Image.Valid, Shade;
    CountMeansPresent(wip, 1, 255);
    var normalized := new Pixel[wip.width, wip.height]((x, y) => Rgb(0, 0, 0));
    var histogram := Histogram(wip);
    var cdf := CumulativeDistribution(wip, histogram);
    for y := 0 to wip.height
      invariant y > 0 && wip.width > 0 ==> Present(wip, 1, 255)
      invariant forall i, j :: 0 <= i < wip.width && 0 <= j < y ==>
        Present(wip, 1, 255) && normalized[i, j] == Shade(Remap(wip, LevelAt(wip, i, j)))
      modifies normalized
    {
      for x := 0 to wip.width
        invariant x > 0 ==> Present(wip, 1, 255)
        invariant forall i, j :: 0 <= i < wip.width && 0 <= j < wip.height && (j < y || (j == y && i < x)) ==>
          Present(wip, 1, 255) && normalized[i, j] == Shade(Remap(wip, LevelAt(wip, i, j)))
        modifies normalized
      {
        var intensity := LevelAt(wip, x, y);
        var equalized := Equalize(wip, cdf, intensity);
        if equalized.DividedByZero? {
          return DividedByZero;
        }
        normalized[x, y] := Shade(equalized.value);
      }
    }
    return Value(normalized);
  }

  /** The new level, computed in ints without overflow. */
  method Equalize(wip: Image, cdf: array<int32>, intensity: Channel) returns (equalized: Outcome<Channel>)
    requires wip.Valid() && 255 * (wip.width * wip.height) < 0x8000_0000
    requires cdf.Length == 256 && forall v :: 0 <= v < 256 ==> cdf[v] as int == Count(wip, 0, v)
    ensures equalized.DividedByZero? <==> !Present(wip, 1, 255)
    ensures equalized.Value? ==> Count(wip, 1, 255) > 0 && equalized.value == Remap(wip, intensity)
  {
    hide Count, Present, Remap, Image.Valid;
    DivisorIsTheLight(wip);
    CountTo(wip, intensity);
    CountFits(wip, 0, 0);
    CountFits(wip, 1, intensity);
    var above: int32 := cdf[intensity] - cdf[0];
    var light: int32 := (wip.width * wip.height) as int32 - cdf[0];
    if light == 0 {
      return DividedByZero;
    }
    Equalised(wip, intensity);
    return Value((above * 255 / light) as int);
  }

  lemma Equalised(img: Image, level: Channel)
    requires img.Valid() && 255 * (img.width * img.height) < 0x8000_0000 && Present(img, 1, 255)
    ensures Count(img, 1, 255) > 0
    ensures 0 <= (Count(img, 0, level) - Count(img, 0, 0)) * 255 < 0x8000_0000
    ensures img.width * img.height - Count(img, 0, 0) == Count(img, 1, 255)
    ensures Remap(img, level) ==
            Scale(Count(img, 0, level) - Count(img, 0, 0), img.width * img.height - Count(img, 0, 0))
  {
    DivisorIsTheLight(img);
    CountTo(img, level);
    CountFits(img, 1, level);
    hide Count, Present, Scale;
  }
}
