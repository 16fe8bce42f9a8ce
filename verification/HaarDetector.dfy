/** The detector: a cascade of features evaluated at every window of a grid, at several scales. */
module HaarDetector {
  import opened Images
  import opened IntegralImages

  datatype HaarRect = HaarRect(x: int, y: int, width: int, height: int, weight: real)

  datatype HaarFeature = HaarFeature(rects: seq<HaarRect>)

  datatype WeakClassifier = WeakClassifier(featureIndex: int, threshold: real, leftVal: real, rightVal: real)

  datatype HaarStage = HaarStage(weakClassifiers: seq<WeakClassifier>, stageThreshold: real)

  datatype HaarCascade = HaarCascade(
    windowWidth: int,
    windowHeight: int,
    features: seq<HaarFeature>,
    stages: seq<HaarStage>)
  {
    predicate Valid() {
      forall i :: 0 <= i < |stages| ==> ValidStage(this, stages[i])
    }
  }

  /** Every classifier names a feature the cascade has. */
  predicate ValidStage(c: HaarCascade, stage: HaarStage) {
    forall j :: 0 <= j < |stage.weakClassifiers| ==> 0 <= stage.weakClassifiers[j].featureIndex < |c.features|
  }

  datatype MaybeCascade = NoCascade | Given(cascade: HaarCascade)

  /** A window: its scale and its corner. */
  datatype Window = Window(scale: int, y: int, x: int)

  // What a window is worth, by naive pixel sums

  function Scaled(rect: HaarRect, w: Window): Rect {
    RectAt(w.x + rect.x * w.scale, w.y + rect.y * w.scale, rect.width * w.scale, rect.height * w.scale)
  }

  /** The weighted sum of the first n rectangles of a feature. */
  ghost function FeatureValue(img: Image, feature: HaarFeature, w: Window, n: nat): real
    requires img.Valid() && n <= |feature.rects|
  {
    if n == 0 then 0.0
    else FeatureValue(img, feature, w, n - 1) +
         feature.rects[n - 1].weight * NaiveSum(img, Scaled(feature.rects[n - 1], w)) as real
  }

  /** What one classifier votes. */
  ghost function Vote(img: Image, c: HaarCascade, classifier: WeakClassifier, w: Window): real
    requires img.Valid() && 0 <= classifier.featureIndex < |c.features|
  {
    var feature := c.features[classifier.featureIndex];
    if FeatureValue(img, feature, w, |feature.rects|) < classifier.threshold then classifier.leftVal
    else classifier.rightVal
  }

  /** The votes of the first n classifiers of a stage. */
  ghost function StageSum(img: Image, c: HaarCascade, stage: HaarStage, w: Window, n: nat): real
    requires img.Valid() && ValidStage(c, stage) && n <= |stage.weakClassifiers|
  {
    if n == 0 then 0.0
    else StageSum(img, c, stage, w, n - 1) + Vote(img, c, stage.weakClassifiers[n - 1], w)
  }

  ghost predicate PassesStage(img: Image, c: HaarCascade, stage: HaarStage, w: Window)
    requires img.Valid() && ValidStage(c, stage)
  {
    StageSum(img, c, stage, w, |stage.weakClassifiers|) >= stage.stageThreshold
  }

  ghost predicate PassesAll(img: Image, c: HaarCascade, w: Window)
    requires img.Valid() && c.Valid()
  {
    forall i :: 0 <= i < |c.stages| ==> PassesStage(img, c, c.stages[i], w)
  }

  /** The windows of the grid that lie inside the image. */
  predicate OnGrid(img: Image, c: HaarCascade, maxScale: int, stepSize: int, w: Window)
    requires stepSize > 0
  {
    && 1 <= w.scale <= maxScale
    && 0 <= w.y && w.y + c.windowHeight * w.scale <= img.height && w.y % stepSize == 0
    && 0 <= w.x && w.x + c.windowWidth * w.scale <= img.width && w.x % stepSize == 0
  }

  ghost predicate IsHit(img: Image, c: HaarCascade, maxScale: int, stepSize: int, w: Window)
    requires img.Valid() && c.Valid() && stepSize > 0
  {
    OnGrid(img, c, maxScale, stepSize, w) && PassesAll(img, c, w)
  }

  /** The order of the scan. */
  predicate Before(v: Window, w: Window) {
    v.scale < w.scale || (v.scale == w.scale && (v.y < w.y || (v.y == w.y && v.x < w.x)))
  }

  function RegionOf(c: HaarCascade, w: Window): Rect {
    RectAt(w.x, w.y, c.windowWidth * w.scale, c.windowHeight * w.scale)
  }

  /** The scan has reached a window: the regions found are those of exactly the hits before it,
      in the order of the scan and each once. */
  ghost predicate Scanned(img: Image, c: HaarCascade, maxScale: int, stepSize: int,
                          found: seq<Rect>, hits: seq<Window>, at: Window)
    requires img.Valid() && c.Valid() && stepSize > 0
  {
    && |found| == |hits|
    && (forall i :: 0 <= i < |hits| ==> found[i] == RegionOf(c, hits[i]))
    && (forall i, j :: 0 <= i < j < |hits| ==> Before(hits[i], hits[j]))
    && (forall w :: w in hits <==> IsHit(img, c, maxScale, stepSize, w) && Before(w, at))
  }

  // What the specification means

  lemma FloorFits(n: int, s: int, a: int)
    requires s > 0
    ensures a <= n / s <==> a * s <= n
  {
    var q := n / s;
    assert q * s <= n < q * s + s;
    if a <= q {
      assert a * s <= q * s;
    } else {
      assert a * s >= (q + 1) * s == q * s + s;
    }
  }

  /** Pixels in steps of the scale from the corner of the window: a pixel belongs to a scaled
      rectangle exactly when its step belongs to the rectangle, and to the region of the window
      exactly when its step is inside the window's own size. */
  lemma ScalingIsBySteps(c: HaarCascade, rect: HaarRect, w: Window, x: int, y: int)
    requires w.scale > 0
    ensures var i, j := (x - w.x) / w.scale, (y - w.y) / w.scale;
            && (Contains(Scaled(rect, w), x, y) <==>
                  rect.x <= i < rect.x + rect.width && rect.y <= j < rect.y + rect.height)
            && (Contains(RegionOf(c, w), x, y) <==> 0 <= i < c.windowWidth && 0 <= j < c.windowHeight)
  {
    StepsWithin(x - w.x, w.scale, rect.x, rect.width);
    StepsWithin(y - w.y, w.scale, rect.y, rect.height);
    StepsWithin(x - w.x, w.scale, 0, c.windowWidth);
    StepsWithin(y - w.y, w.scale, 0, c.windowHeight);
  }

  lemma StepsWithin(n: int, s: int, a: int, size: int)
    requires s > 0
    ensures a <= n / s < a + size <==> a * s <= n <= a * s + size * s - 1
  {
    FloorFits(n, s, a);
    FloorFits(n, s, a + size);
    assert (a + size) * s == a * s + size * s;
  }

  ghost predicate IsEven(img: Image, grey: int)
    requires img.Valid()
  {
    forall x, y :: 0 <= x < img.width && 0 <= y < img.height ==> GreyAt(img, x, y) == grey
  }

  predicate IsInside(rect: Rect, img: Image) {
    0 <= rect.left <= rect.right + 1 <= img.width && 0 <= rect.top <= rect.bottom + 1 <= img.height
  }

  lemma {:induction false} EvenRow(img: Image, grey: int, x: nat, y: nat, w: nat)
    requires img.Valid() && IsEven(img, grey) && x + w <= img.width && y < img.height
    ensures CellsInRow(img, x, y, w) == grey * w
  {
    hide GreyAt;
    if w > 0 {
      EvenRow(img, grey, x, y, w - 1);
    }
  }

  lemma {:induction false} EvenCells(img: Image, grey: int, x: nat, y: nat, w: nat, h: nat)
    requires img.Valid() && IsEven(img, grey) && x + w <= img.width && y + h <= img.height
    ensures Cells(img, x, y, w, h) == grey * w * h
  {
    hide CellsInRow, IsEven;
    if h > 0 {
      EvenCells(img, grey, x, y, w, h - 1);
      EvenRow(img, grey, x, y + h - 1, w);
      assert grey * w * (h - 1) + grey * w == grey * w * h;
    }
  }

  /** The total of the first n weights, each times the area of its rectangle. */
  ghost function WeightedArea(feature: HaarFeature, n: nat): real
    requires n <= |feature.rects|
  {
    if n == 0 then 0.0
    else
      var rect := feature.rects[n - 1];
      WeightedArea(feature, n - 1) + rect.weight * (rect.width * rect.height) as real
  }

  lemma ScaledSize(n: int, s: int)
    requires n >= 0 && s > 0
    ensures n * s >= 0
  {
  }

  lemma EvenRectangle(img: Image, grey: int, rect: HaarRect, w: Window)
    requires img.Valid() && IsEven(img, grey) && w.scale > 0
    requires rect.width >= 0 && rect.height >= 0 && IsInside(Scaled(rect, w), img)
    ensures NaiveSum(img, Scaled(rect, w)) == grey * w.scale * w.scale * (rect.width * rect.height)
  {
    hide NaiveSum, IsEven, Cells, Image.Valid;
    var width, height := rect.width * w.scale, rect.height * w.scale;
    ScaledSize(rect.width, w.scale);
    ScaledSize(rect.height, w.scale);
    EvenCells(img, grey, w.x + rect.x * w.scale, w.y + rect.y * w.scale, width, height);
    NaiveSumIsOverTheCells(img, w.x + rect.x * w.scale, w.y + rect.y * w.scale, width, height);
    Regrouped(grey, w.scale, rect.width, rect.height);
  }

  lemma Regrouped(grey: int, s: int, width: int, height: int)
    ensures grey * (width * s) * (height * s) == grey * s * s * (width * height)
  {
    assert (width * s) * (height * s) == (s * s) * (width * height);
    assert grey * (width * s) * (height * s) == grey * ((width * s) * (height * s));
    assert grey * ((s * s) * (width * height)) == grey * s * s * (width * height);
  }

  lemma OnePart(k: int, m: int, weight: real, area: real)
    ensures k as real * area + weight * (k * m) as real == k as real * (area + weight * m as real)
  {
    assert (k * m) as real == k as real * m as real;
    assert weight * (k as real * m as real) == k as real * (weight * m as real);
  }

  /** On an even image the value of a feature is its weighted area, times the grey value and the
      square of the scale, wherever the window is. */
  lemma {:induction false} EvenImage(img: Image, grey: int, feature: HaarFeature, w: Window, n: nat)
    requires img.Valid() && IsEven(img, grey) && w.scale > 0 && n <= |feature.rects|
    requires forall i :: 0 <= i < n ==>
      feature.rects[i].width >= 0 && feature.rects[i].height >= 0 && IsInside(Scaled(feature.rects[i], w), img)
    ensures FeatureValue(img, feature, w, n) == (grey * w.scale * w.scale) as real * WeightedArea(feature, n)
  {
    hide NaiveSum, IsEven, IsInside, Scaled, Image.Valid;
    if n > 0 {
      EvenImage(img, grey, feature, w, n - 1);
      var rect := feature.rects[n - 1];
      EvenRectangle(img, grey, rect, w);
      OnePart(grey * w.scale * w.scale, rect.width * rect.height, rect.weight, WeightedArea(feature, n - 1));
    }
  }

  /** A stage with one classifier passes by the left vote below its threshold, and by the right vote
      from its threshold on. */
  lemma OneVoteDecides(img: Image, c: HaarCascade, classifier: WeakClassifier, limit: real, w: Window)
    requires img.Valid() && 0 <= classifier.featureIndex < |c.features|
    ensures var feature := c.features[classifier.featureIndex];
            var value := FeatureValue(img, feature, w, |feature.rects|);
            PassesStage(img, c, HaarStage([classifier], limit), w) <==>
              (value < classifier.threshold && limit <= classifier.leftVal) ||
              (value >= classifier.threshold && limit <= classifier.rightVal)
  {
    hide FeatureValue;
    assert StageSum(img, c, HaarStage([classifier], limit), w, 0) == 0.0;
  }

  /** With a step of one the grid is every window, at one of the scales, whose region lies inside the
      image; with a larger step it is those of them whose corner is a multiple of the step. */
  lemma GridIsTheWindowsInside(img: Image, c: HaarCascade, maxScale: int, stepSize: int, w: Window)
    requires img.Valid() && stepSize > 0 && c.windowWidth >= 0 && c.windowHeight >= 0
    ensures OnGrid(img, c, maxScale, 1, w) <==> 1 <= w.scale <= maxScale && IsInside(RegionOf(c, w), img)
    ensures OnGrid(img, c, maxScale, stepSize, w) <==>
              OnGrid(img, c, maxScale, 1, w) && exists i, j :: w.x == stepSize * i && w.y == stepSize * j
  {
    if w.scale > 0 {
      ScaledSize(c.windowWidth, w.scale);
      ScaledSize(c.windowHeight, w.scale);
    }
    MultipleOf(stepSize, w.x);
    MultipleOf(stepSize, w.y);
    if w.x % stepSize == 0 && w.y % stepSize == 0 {
      assert w.x == stepSize * (w.x / stepSize) && w.y == stepSize * (w.y / stepSize);
    }
  }

  lemma MultipleOf(s: int, x: int)
    requires s > 0
    ensures x % s == 0 <==> exists i :: x == s * i
  {
    assert x == s * (x / s) + x % s;
    if exists i :: x == s * i {
      var i :| x == s * i;
      Quotient(s, x / s, x % s, i, 0);
    }
  }

  /** Every stage has its say. */
  lemma NoStageIsSkipped(img: Image, c: HaarCascade, w: Window)
    requires img.Valid() && c.Valid()
    ensures PassesAll(img, c, w) <==>
              forall stage :: stage in c.stages ==> ValidStage(c, stage) && PassesStage(img, c, stage, w)
  {
    hide PassesStage, ValidStage;
    if PassesAll(img, c, w) {
      forall stage | stage in c.stages ensures ValidStage(c, stage) && PassesStage(img, c, stage, w) {
        var i :| 0 <= i < |c.stages| && c.stages[i] == stage;
      }
    }
  }

  /** Every classifier of a stage votes once. */
  lemma VotesAddUp(img: Image, c: HaarCascade, a: seq<WeakClassifier>, b: seq<WeakClassifier>,
                   limit: real, w: Window)
    requires img.Valid() && ValidStage(c, HaarStage(a, limit)) && ValidStage(c, HaarStage(b, limit))
    ensures ValidStage(c, HaarStage(a + b, limit))
    ensures StageSum(img, c, HaarStage(a + b, limit), w, |a + b|) ==
            StageSum(img, c, HaarStage(a, limit), w, |a|) + StageSum(img, c, HaarStage(b, limit), w, |b|)
  {
    FirstVotes(img, c, a, b, limit, w, |a|);
    LastVotes(img, c, a, b, limit, w, |b|);
  }

  lemma {:induction false} FirstVotes(img: Image, c: HaarCascade, a: seq<WeakClassifier>, b: seq<WeakClassifier>,
                                      limit: real, w: Window, n: nat)
    requires img.Valid() && ValidStage(c, HaarStage(a, limit)) && ValidStage(c, HaarStage(a + b, limit)) && n <= |a|
    ensures StageSum(img, c, HaarStage(a + b, limit), w, n) == StageSum(img, c, HaarStage(a, limit), w, n)
  {
    hide Vote;
    if n > 0 {
      FirstVotes(img, c, a, b, limit, w, n - 1);
    }
  }

  lemma {:induction false} LastVotes(img: Image, c: HaarCascade, a: seq<WeakClassifier>, b: seq<WeakClassifier>,
                                     limit: real, w: Window, n: nat)
    requires img.Valid() && ValidStage(c, HaarStage(b, limit)) && ValidStage(c, HaarStage(a + b, limit)) && n <= |b|
    ensures StageSum(img, c, HaarStage(a + b, limit), w, |a| + n) ==
            StageSum(img, c, HaarStage(a + b, limit), w, |a|) + StageSum(img, c, HaarStage(b, limit), w, n)
  {
    hide Vote;
    if n > 0 {
      LastVotes(img, c, a, b, limit, w, n - 1);
    }
  }

  lemma NothingBetween(stepSize: int, x: int, z: int)
    requires stepSize > 0 && x % stepSize == 0 && x < z < x + stepSize
    ensures z % stepSize != 0
  {
    var q := x / stepSize;
    assert x == stepSize * q;
    if z % stepSize == 0 {
      assert z == stepSize * (z / stepSize);
      NoMultiple(stepSize, q, z / stepSize);
    }
  }

  lemma NoMultiple(stepSize: int, q: int, p: int)
    requires stepSize > 0
    ensures !(stepSize * q < stepSize * p < stepSize * q + stepSize)
  {
    if p <= q {
      assert stepSize * p <= stepSize * q;
    } else {
      assert stepSize * (q + 1) <= stepSize * p;
    }
  }

  lemma NextOnGrid(stepSize: int, x: int)
    requires stepSize > 0 && x % stepSize == 0
    ensures (x + stepSize) % stepSize == 0
  {
    var q, k := x / stepSize, x + stepSize;
    assert x == stepSize * q;
    assert k == (q + 1) * stepSize + 0;
    Quotient(stepSize, k / stepSize, k % stepSize, q + 1, 0);
  }

  /** One window further in its row. */
  lemma StepRight(img: Image, c: HaarCascade, maxScale: int, stepSize: int,
                  found: seq<Rect>, hits: seq<Window>, at: Window, passed: bool)
    requires img.Valid() && c.Valid() && stepSize > 0
    requires Scanned(img, c, maxScale, stepSize, found, hits, at)
    requires OnGrid(img, c, maxScale, stepSize, at) && passed == PassesAll(img, c, at)
    ensures var next := at.(x := at.x + stepSize);
            if passed then Scanned(img, c, maxScale, stepSize, found + [RegionOf(c, at)], hits + [at], next)
            else Scanned(img, c, maxScale, stepSize, found, hits, next)
  {
    var next := at.(x := at.x + stepSize);
    forall w | IsHit(img, c, maxScale, stepSize, w) && Before(w, next)
      ensures Before(w, at) || w == at
    {
      if w.scale == at.scale && w.y == at.y && at.x < w.x {
        NothingBetween(stepSize, at.x, w.x);
      }
    }
    hide PassesAll, OnGrid, RegionOf;
    if passed {
      assert IsHit(img, c, maxScale, stepSize, at);
    } else {
      assert !IsHit(img, c, maxScale, stepSize, at);
    }
  }

  /** Past the end of a row: on to the next one. */
  lemma StepDown(img: Image, c: HaarCascade, maxScale: int, stepSize: int,
                 found: seq<Rect>, hits: seq<Window>, at: Window)
    requires img.Valid() && c.Valid() && stepSize > 0
    requires Scanned(img, c, maxScale, stepSize, found, hits, at)
    requires at.y % stepSize == 0 && at.x > img.width - c.windowWidth * at.scale
    ensures Scanned(img, c, maxScale, stepSize, found, hits, Window(at.scale, at.y + stepSize, 0))
  {
    hide PassesAll, RegionOf;
    var next := Window(at.scale, at.y + stepSize, 0);
    forall w | IsHit(img, c, maxScale, stepSize, w) && Before(w, next)
      ensures Before(w, at)
    {
      if w.scale == at.scale && at.y < w.y {
        NothingBetween(stepSize, at.y, w.y);
      }
    }
  }

  /** Past the last row: on to the next scale. */
  lemma StepUp(img: Image, c: HaarCascade, maxScale: int, stepSize: int,
               found: seq<Rect>, hits: seq<Window>, at: Window)
    requires img.Valid() && c.Valid() && stepSize > 0
    requires Scanned(img, c, maxScale, stepSize, found, hits, at)
    requires at.y > img.height - c.windowHeight * at.scale
    ensures Scanned(img, c, maxScale, stepSize, found, hits, Window(at.scale + 1, 0, 0))
  {
    hide PassesAll, RegionOf;
    forall w | IsHit(img, c, maxScale, stepSize, w) && Before(w, Window(at.scale + 1, 0, 0))
      ensures Before(w, at)
    {
    }
  }

  class HaarFeatureExtractor {
    const integralImage: IntegralImage

    constructor (table: IntegralImage)
      ensures integralImage == table
    {
      integralImage := table;
    }

    method EvaluateFeature(feature: HaarFeature, scale: int, offsetX: int, offsetY: int, ghost img: Image)
      returns (featureSum: real)
      requires integralImage.Holds(img)
      ensures featureSum == FeatureValue(img, feature, Window(scale, offsetY, offsetX), |feature.rects|)
    {
      hide NaiveSum;
      featureSum := 0.0;
      for i := 0 to |feature.rects|
        invariant featureSum == FeatureValue(img, feature, Window(scale, offsetY, offsetX), i)
      {
        var rect := feature.rects[i];
        var sum := integralImage.SumInRect(
          RectAt(offsetX + rect.x * scale, offsetY + rect.y * scale, rect.width * scale, rect.height * scale), img);
        assert sum as int as real == sum as real;
        featureSum := featureSum + rect.weight * sum as real;
      }
    }

    /** Runs the stages in order and stops at the first that fails. */
    method PassesCascade(cascade: HaarCascade, scale: int, x: int, y: int, ghost img: Image) returns (passed: bool)
      requires integralImage.Holds(img) && cascade.Valid()
      ensures passed == PassesAll(img, cascade, Window(scale, y, x))
    {
      ghost var w := Window(scale, y, x);
      for i := 0 to |cascade.stages|
        invariant forall k :: 0 <= k < i ==> PassesStage(img, cascade, cascade.stages[k], w)
      {
        var stage := cascade.stages[i];
        assert ValidStage(cascade, stage);
        var stageSum := 0.0;
        for j := 0 to |stage.weakClassifiers|
          invariant stageSum == StageSum(img, cascade, stage, w, j)
        {
          var classifier := stage.weakClassifiers[j];
          var feature := cascade.features[classifier.featureIndex];
          var featureValue := EvaluateFeature(feature, scale, x, y, img);
          if featureValue < classifier.threshold {
            stageSum := stageSum + classifier.leftVal;
          } else {
            stageSum := stageSum + classifier.rightVal;
          }
        }
        if stageSum < stage.stageThreshold {
          assert !PassesStage(img, cascade, cascade.stages[i], w);
          return false;
        }
      }
      return true;
    }

    /** The regions of exactly those grid windows inside the image whose every stage sum, over
        naive weighted pixel sums, reaches its threshold; in scan order, each once. */
    method Extract(given: MaybeCascade, maxScale: int, stepSize: int, ghost img: Image)
      returns (detectedRegions: seq<Rect>, ghost hits: seq<Window>)
      requires integralImage.Holds(img) && stepSize > 0
      requires given.Given? ==> given.cascade.Valid()
      ensures given.NoCascade? || img.width == 0 || img.height == 0 ==> detectedRegions == []
      ensures given.Given? && img.width > 0 && img.height > 0 ==>
        && |detectedRegions| == |hits|
        && (forall i :: 0 <= i < |hits| ==> detectedRegions[i] == RegionOf(given.cascade, hits[i]))
        && (forall i, j :: 0 <= i < j < |hits| ==> Before(hits[i], hits[j]))
        && (forall w :: w in hits <==>
              OnGrid(img, given.cascade, maxScale, stepSize, w) && PassesAll(img, given.cascade, w))
    {
      detectedRegions, hits := [], [];
      if given.NoCascade? {
        return;
      }
      if integralImage.width <= 0 || integralImage.height <= 0 {
        return;
      }
      hide PassesAll, RegionOf, Before;
      var cascade := given.cascade;
      var imageWidth, imageHeight := integralImage.width, integralImage.height;
      var scale := 1;
      AtStart(img, cascade, maxScale, stepSize);
      while scale <= maxScale
        invariant 1 <= scale
        invariant Scanned(img, cascade, maxScale, stepSize, detectedRegions, hits, Window(scale, 0, 0))
      {
        var scaledWidth, scaledHeight := cascade.windowWidth * scale, cascade.windowHeight * scale;
        var y := 0;
        while y <= imageHeight - scaledHeight
          invariant 0 <= y && y % stepSize == 0
          invariant Scanned(img, cascade, maxScale, stepSize, detectedRegions, hits, Window(scale, y, 0))
        {
          var x := 0;
          while x <= imageWidth - scaledWidth
            invariant 0 <= x && x % stepSize == 0
            invariant Scanned(img, cascade, maxScale, stepSize, detectedRegions, hits, Window(scale, y, x))
          {
            var passed := PassesCascade(cascade, scale, x, y, img);
            StepRight(img, cascade, maxScale, stepSize, detectedRegions, hits, Window(scale, y, x), passed);
            if passed {
              detectedRegions := detectedRegions + [RegionOf(cascade, Window(scale, y, x))];
              hits := hits + [Window(scale, y, x)];
            }
            NextOnGrid(stepSize, x);
            x := x + stepSize;
          }
          StepDown(img, cascade, maxScale, stepSize, detectedRegions, hits, Window(scale, y, x));
          NextOnGrid(stepSize, y);
          y := y + stepSize;
        }
        StepUp(img, cascade, maxScale, stepSize, detectedRegions, hits, Window(scale, y, 0));
        scale := scale + 1;
      }
      AtEnd(img, cascade, maxScale, stepSize, detectedRegions, hits, scale);
    }
  }

  lemma AtStart(img: Image, c: HaarCascade, maxScale: int, stepSize: int)
    requires img.Valid() && c.Valid() && stepSize > 0
    ensures Scanned(img, c, maxScale, stepSize, [], [], Window(1, 0, 0))
  {
  }

  lemma AtEnd(img: Image, c: HaarCascade, maxScale: int, stepSize: int, found: seq<Rect>, hits: seq<Window>, scale: int)
    requires img.Valid() && c.Valid() && stepSize > 0
    requires Scanned(img, c, maxScale, stepSize, found, hits, Window(scale, 0, 0)) && scale > maxScale
    ensures forall w :: w in hits <==> IsHit(img, c, maxScale, stepSize, w)
  {
    hide PassesAll, RegionOf;
  }
}
