/** The target size of an image (vendor-fastembed/src/models/qwen3.rs), over exact reals: sides become multiples of
    `factor`, the pixel count is kept between the two limits when it can be, and the patch grid always splits into
    merge blocks. `root` stands for the square root. */
module SmartResize {
  import opened Division
  import opened PatchGrid
  import opened Wrappers

  ghost predicate IsRoot(root: real -> real) {
    forall x | x > 0.0 :: root(x) > 0.0 && root(x) * root(x) == x
  }

  datatype ResizeError = ZeroSide | AspectTooLarge

  /** Round half to even, by cases on the fraction as the code has it. */
  function RoundTiesToEven(value: real): (r: nat)
    requires value >= 0.0
  {
    var floor := value.Floor;
    var frac := value - floor as real;
    if frac < 0.5 then floor
    else if frac > 0.5 then floor + 1
    else if floor % 2 == 0 then floor
    else floor + 1
  }

  /** No integer is nearer, and of two equally near ones the even one is taken. */
  lemma RoundedIsNearest(value: real, n: int)
    requires value >= 0.0
    ensures var r := RoundTiesToEven(value);
            var off := if r as real >= value then r as real - value else value - r as real;
            var other := if n as real >= value then n as real - value else value - n as real;
            off <= other && (off == other && n != r ==> r % 2 == 0)
  {
    var r := RoundTiesToEven(value);
    if n < r {
      assert n as real <= r as real - 1.0;
    } else if n > r {
      assert n as real >= r as real + 1.0;
    }
  }

  function AtLeast(n: nat, least: nat): nat {
    if n < least then least else n
  }

  /** A positive multiple of the factor. */
  predicate WholeBlocks(side: nat, factor: nat)
    requires factor > 0
  {
    side >= factor && side % factor == 0
  }

  lemma BlocksAreWhole(blocks: nat, factor: nat)
    requires factor > 0
    ensures WholeBlocks(AtLeast(blocks * factor, factor), factor)
    ensures blocks >= 1 ==> AtLeast(blocks * factor, factor) == blocks * factor
    ensures blocks == 0 ==> AtLeast(blocks * factor, factor) == factor
  {
    QuotientIsUnique(blocks * factor, factor, blocks, 0);
    QuotientIsUnique(factor, factor, 1, 0);
    if blocks >= 1 {
      AtLeastOne(blocks, factor);
    }
  }

  function Rounded(side: nat, factor: nat): (r: nat)
    requires factor > 0
    ensures WholeBlocks(r, factor)
  {
    BlocksAreWhole(RoundTiesToEven(side as real / factor as real), factor);
    AtLeast(RoundTiesToEven(side as real / factor as real) * factor, factor)
  }

  /** Whole blocks left of a side divided by `beta`. */
  function ShrunkBlocks(side: nat, beta: real, factor: nat): nat
    requires beta > 0.0 && factor > 0
  {
    NonNegativeQuotient(side as real, beta);
    NonNegativeQuotient(side as real / beta, factor as real);
    (side as real / beta / factor as real).Floor
  }

  function Shrunk(side: nat, beta: real, factor: nat): (r: nat)
    requires beta > 0.0 && factor > 0
    ensures WholeBlocks(r, factor)
  {
    BlocksAreWhole(ShrunkBlocks(side, beta, factor), factor);
    AtLeast(ShrunkBlocks(side, beta, factor) * factor, factor)
  }

  function Ceiling(x: real): (r: int)
    ensures x <= r as real < x + 1.0
  {
    if x.Floor as real == x then x.Floor else x.Floor + 1
  }

  /** Blocks that cover a side multiplied by `beta`. */
  function GrownBlocks(side: nat, beta: real, factor: nat): nat
    requires beta > 0.0 && factor > 0
  {
    NonNegativeQuotient(side as real * beta, factor as real);
    Ceiling(side as real * beta / factor as real)
  }

  function Grown(side: nat, beta: real, factor: nat): (r: nat)
    requires beta > 0.0 && factor > 0
    ensures WholeBlocks(r, factor)
  {
    BlocksAreWhole(GrownBlocks(side, beta, factor), factor);
    AtLeast(GrownBlocks(side, beta, factor) * factor, factor)
  }

  lemma NonNegativeQuotient(x: real, y: real)
    requires x >= 0.0 && y > 0.0
    ensures x / y >= 0.0
  {
  }

  /** How much too large, or too small, a picture is: the square of the scale. */
  function Ratio(a: nat, b: nat): (r: real)
    requires a > 0 && b > 0
    ensures r > 0.0 && r * b as real == a as real
  {
    PositiveQuotient(a as real, b as real);
    a as real / b as real
  }

  lemma PositiveQuotient(x: real, y: real)
    requires x > 0.0 && y > 0.0
    ensures x / y > 0.0 && x / y * y == x
  {
  }

  function Area(height: nat, width: nat): (r: nat)
    ensures height > 0 && width > 0 ==> r > 0
  {
    ProductOfSides(height, width);
    height * width
  }

  lemma ProductOfSides(height: nat, width: nat)
    ensures height * width >= 0
    ensures height > 0 && width > 0 ==> height * width > 0
  {
    if height > 0 {
      AtLeastOne(height, width);
    }
  }

  /** The size for sides that pass the checks. A ceiling of zero makes the scale infinite, so both sides clamp. */
  function Resized(height: nat, width: nat, factor: nat, minPixels: nat, maxPixels: nat, root: real -> real): (nat, nat)
    requires height > 0 && width > 0 && factor > 0 && IsRoot(root)
  {
    var h, w := Rounded(height, factor), Rounded(width, factor);
    if h * w > maxPixels then
      if maxPixels == 0 then (factor, factor)
      else
        var beta := root(Ratio(Area(height, width), maxPixels));
        (Shrunk(height, beta, factor), Shrunk(width, beta, factor))
    else if h * w < minPixels then
      var beta := root(Ratio(minPixels, Area(height, width)));
      (Grown(height, beta, factor), Grown(width, beta, factor))
    else (h, w)
  }

  /** `smart_resize`. */
  method SmartResize(height: nat, width: nat, factor: nat, minPixels: nat, maxPixels: nat, root: real -> real)
    returns (r: Result<(nat, nat), ResizeError>)
    requires factor > 0 && IsRoot(root)
    ensures height == 0 || width == 0 ==> r == Err(ZeroSide)
    ensures height > 0 && width > 0 && (height > 200 * width || width > 200 * height) ==> r == Err(AspectTooLarge)
    ensures height > 0 && width > 0 && height <= 200 * width && width <= 200 * height ==>
              r == Ok(Resized(height, width, factor, minPixels, maxPixels, root))
              && IsTargetSize(r.value.0, r.value.1, height, width, factor, minPixels, maxPixels)
  {
    hide IsTargetSize;
    if height == 0 || width == 0 {
      return Err(ZeroSide);
    }
    ResizedIsTheTarget(height, width, factor, minPixels, maxPixels, root);
    var longer, shorter := if height >= width then height else width, if height >= width then width else height;
    AspectCompared(longer, shorter);
    if longer as real / shorter as real > 200.0 {
      return Err(AspectTooLarge);
    }
    var hBar := AtLeast(RoundTiesToEven(height as real / factor as real) * factor, factor);
    var wBar := AtLeast(RoundTiesToEven(width as real / factor as real) * factor, factor);
    var area := Area(height, width);
    if hBar * wBar > maxPixels {
      if maxPixels == 0 {
        return Ok((factor, factor));
      }
      var beta := root(Ratio(area, maxPixels));
      hBar := Shrunk(height, beta, factor);
      wBar := Shrunk(width, beta, factor);
    } else if hBar * wBar < minPixels {
      var beta := root(Ratio(minPixels, area));
      hBar := Grown(height, beta, factor);
      wBar := Grown(width, beta, factor);
    }
    r := Ok((hBar, wBar));
  }

  lemma AspectCompared(longer: nat, shorter: nat)
    requires shorter > 0
    ensures longer as real / shorter as real > 200.0 <==> longer > 200 * shorter
  {
    Quotient(longer as real, shorter as real);
    RatioCompared(longer as real / shorter as real, 200.0, shorter as real);
  }

  lemma RatioCompared(q: real, limit: real, n: real)
    requires n > 0.0
    ensures q > limit <==> q * n > limit * n
  {
    SameSign(q - limit, n);
    assert (q - limit) * n == q * n - limit * n;
  }

  lemma Quotient(x: real, y: real)
    requires y > 0.0
    ensures x / y * y == x
  {
  }

  lemma SameSign(x: real, y: real)
    requires y > 0.0
    ensures x > 0.0 <==> x * y > 0.0
    ensures x < 0.0 <==> x * y < 0.0
  {
  }

  // ---------- what the sizes promise ----------

  /** In every branch both sides are positive multiples of the factor. */
  lemma SidesAreWholeBlocks(height: nat, width: nat, factor: nat, minPixels: nat, maxPixels: nat, root: real -> real)
    requires height > 0 && width > 0 && factor > 0 && IsRoot(root)
    ensures var (h, w) := Resized(height, width, factor, minPixels, maxPixels, root);
            WholeBlocks(h, factor) && WholeBlocks(w, factor)
  {
    BlocksAreWhole(1, factor);
  }

  /** The branch that enlarges. */
  predicate Enlarges(height: nat, width: nat, factor: nat, minPixels: nat, maxPixels: nat)
    requires factor > 0
  {
    Rounded(height, factor) * Rounded(width, factor) <= maxPixels
    && Rounded(height, factor) * Rounded(width, factor) < minPixels
  }

  /** The branch that reduces. */
  predicate Reduces(height: nat, width: nat, factor: nat, maxPixels: nat)
    requires factor > 0
  {
    Rounded(height, factor) * Rounded(width, factor) > maxPixels
  }

  lemma GrownCovers(side: nat, beta: real, factor: nat)
    requires beta > 0.0 && factor > 0
    ensures Grown(side, beta, factor) as real >= side as real * beta
  {
    var target, f, blocks := side as real * beta, factor as real, GrownBlocks(side, beta, factor);
    Quotient(target, f);
    assert blocks as real >= target / f;
    Product(target / f, blocks as real, f);
    assert (blocks * factor) as real == blocks as real * f;
  }

  lemma Product(x: real, y: real, z: real)
    requires x <= y && z >= 0.0
    ensures x * z <= y * z
  {
  }

  lemma ShrunkFits(side: nat, beta: real, factor: nat)
    requires beta > 0.0 && factor > 0 && ShrunkBlocks(side, beta, factor) >= 1
    ensures Shrunk(side, beta, factor) as real <= side as real / beta
  {
    var target, f, blocks := side as real / beta, factor as real, ShrunkBlocks(side, beta, factor);
    Quotient(target, f);
    BlocksAreWhole(blocks, factor);
    assert blocks as real <= target / f;
    Product(blocks as real, target / f, f);
    assert (blocks * factor) as real == blocks as real * f;
  }

  lemma ProductsOrdered(a: real, b: real, c: real, d: real)
    requires 0.0 <= a <= c && 0.0 <= b <= d
    ensures a * b <= c * d
  {
    Product(a, c, b);
    Product(b, d, c);
  }

  lemma FitsWithin(h: nat, w: nat, x: real, y: real, pixels: nat)
    requires h as real <= x && w as real <= y && x * y == pixels as real
    ensures h * w <= pixels
  {
    ProductsOrdered(h as real, w as real, x, y);
    assert (h * w) as real == h as real * w as real;
  }

  lemma Covers(h: nat, w: nat, x: real, y: real, pixels: nat)
    requires 0.0 <= x <= h as real && 0.0 <= y <= w as real && x * y == pixels as real
    ensures h * w >= pixels
  {
    ProductsOrdered(x, y, h as real, w as real);
    assert (h * w) as real == h as real * w as real;
  }

  lemma NonNegativeProduct(x: real, y: real)
    requires x >= 0.0 && y >= 0.0
    ensures x * y >= 0.0
  {
  }

  /** Enlarging always reaches the lower limit. */
  lemma EnlargedReachesTheMinimum(height: nat, width: nat, factor: nat, minPixels: nat, maxPixels: nat,
                                  root: real -> real)
    requires height > 0 && width > 0 && factor > 0 && IsRoot(root)
    requires Enlarges(height, width, factor, minPixels, maxPixels)
    ensures var (h, w) := Resized(height, width, factor, minPixels, maxPixels, root); h * w >= minPixels
  {
    hide Rounded, Grown, Ratio, Area;
    var beta := root(Ratio(minPixels, Area(height, width)));
    GrownCovers(height, beta, factor);
    GrownCovers(width, beta, factor);
    NonNegativeProduct(height as real, beta);
    NonNegativeProduct(width as real, beta);
    GrownArea(height, width, beta, minPixels);
    Covers(Grown(height, beta, factor), Grown(width, beta, factor), height as real * beta, width as real * beta,
           minPixels);
  }

  /** Multiplying both sides by the scale gives exactly the pixels asked for. */
  lemma GrownArea(height: nat, width: nat, beta: real, minPixels: nat)
    requires height > 0 && width > 0 && minPixels > 0 && beta > 0.0
    requires beta * beta == Ratio(minPixels, Area(height, width))
    ensures height as real * beta * (width as real * beta) == minPixels as real
  {
    Scaled(height as real, width as real, beta);
    assert (height * width) as real == height as real * width as real;
  }

  lemma Scaled(x: real, y: real, b: real)
    ensures x * b * (y * b) == b * b * (x * y)
  {
  }

  /** Reducing stays within the upper limit when neither side had to be clamped up to one block. */
  lemma ReducedStaysWithinTheMaximum(height: nat, width: nat, factor: nat, minPixels: nat, maxPixels: nat,
                                     root: real -> real)
    requires height > 0 && width > 0 && factor > 0 && maxPixels > 0 && IsRoot(root)
    requires Reduces(height, width, factor, maxPixels)
    requires var beta := root(Ratio(Area(height, width), maxPixels));
             ShrunkBlocks(height, beta, factor) >= 1 && ShrunkBlocks(width, beta, factor) >= 1
    ensures var (h, w) := Resized(height, width, factor, minPixels, maxPixels, root); h * w <= maxPixels
  {
    hide Rounded, Shrunk, ShrunkBlocks, Ratio, Area;
    var beta := root(Ratio(Area(height, width), maxPixels));
    ShrunkFits(height, beta, factor);
    ShrunkFits(width, beta, factor);
    ScaledArea(height, width, beta, maxPixels);
    FitsWithin(Shrunk(height, beta, factor), Shrunk(width, beta, factor), height as real / beta, width as real / beta,
               maxPixels);
  }

  /** Dividing both sides by the scale leaves exactly the allowed number of pixels. */
  lemma ScaledArea(height: nat, width: nat, beta: real, maxPixels: nat)
    requires height > 0 && width > 0 && maxPixels > 0 && beta > 0.0
    requires beta * beta == Ratio(Area(height, width), maxPixels)
    ensures height as real / beta * (width as real / beta) == maxPixels as real
  {
    var x, y := height as real / beta, width as real / beta;
    Quotient(height as real, beta);
    Quotient(width as real, beta);
    SplitScale(x, y, beta, height as real, width as real);
    assert (height * width) as real == height as real * width as real;
    Cancelled(beta * beta, x * y, maxPixels as real);
  }

  lemma SplitScale(x: real, y: real, b: real, h: real, w: real)
    requires x * b == h && y * b == w
    ensures b * b * (x * y) == h * w
  {
    Scaled(x, y, b);
  }

  lemma Cancelled(r: real, p: real, q: real)
    requires r > 0.0 && r * p == r * q
    ensures p == q
  {
    assert r * (p - q) == 0.0;
  }

  lemma BlockArea(blocks: nat, factor: nat)
    ensures blocks * factor * factor == blocks * (factor * factor)
    ensures factor * (blocks * factor) == blocks * (factor * factor)
  {
  }

  // ---------- the exact condition, on the inputs ----------

  /** What `n` blocks along one side ask of it: the integer whose comparison replaces the square root. */
  function Demand(n: nat, factor: nat, other: nat): int {
    n * n * (factor * factor) * other
  }

  /** Scaled to `pixels`, a side is at least `n` blocks long. */
  predicate AtLeastBlocks(n: nat, side: nat, other: nat, pixels: nat, factor: nat) {
    Demand(n, factor, other) <= side * pixels
  }

  /** Scaled to `pixels`, a side is at most `n` blocks long. */
  predicate AtMostBlocks(n: nat, side: nat, other: nat, pixels: nat, factor: nat) {
    side * pixels <= Demand(n, factor, other)
  }

  lemma SquaresCompared(x: real, y: real)
    requires x >= 0.0 && y >= 0.0
    ensures x <= y <==> x * x <= y * y
  {
    if x <= y {
      ProductsOrdered(x, x, y, y);
    } else {
      SameSign(x - y, x);
      NonNegativeProduct(x - y, y);
      assert (x - y) * x + (x - y) * y == x * x - y * y;
    }
  }

  lemma OrderScaled(x: real, y: real, c: real)
    requires c > 0.0
    ensures x <= y <==> x * c <= y * c
  {
    SameSign(x - y, c);
    assert (x - y) * c == x * c - y * c;
  }

  lemma LengthInBlocks(length: real, n: real, f: real)
    requires f > 0.0
    ensures length / f >= n <==> n * f <= length
    ensures length / f <= n <==> length <= n * f
  {
    Quotient(length, f);
    OrderScaled(length / f, n, f);
    OrderScaled(n, length / f, f);
  }

  /** A scaled side compared with `n` blocks, without the root: `length` is a side whose square, times the other
      side, is known. */
  lemma BlocksWithoutTheRoot(length: real, n: nat, factor: nat, side: nat, other: nat, pixels: nat)
    requires length >= 0.0 && factor > 0 && other > 0
    requires length * length * other as real == (side * pixels) as real
    ensures length / factor as real >= n as real <==> AtLeastBlocks(n, side, other, pixels, factor)
    ensures length / factor as real <= n as real <==> AtMostBlocks(n, side, other, pixels, factor)
  {
    var f, m, o := factor as real, n as real, other as real;
    LengthInBlocks(length, m, f);
    NonNegativeProduct(m, f);
    SquaresCompared(length, m * f);
    SquaresCompared(m * f, length);
    OrderScaled(length * length, m * f * (m * f), o);
    OrderScaled(m * f * (m * f), length * length, o);
    DemandAsReal(n, factor, other);
  }

  lemma DemandAsReal(n: nat, factor: nat, other: nat)
    ensures Demand(n, factor, other) as real
            == n as real * factor as real * (n as real * factor as real) * other as real
  {
    Scaled(1.0, 1.0, n as real);
    assert (n * n) as real == n as real * n as real;
    assert (factor * factor) as real == factor as real * factor as real;
    assert (n * n * (factor * factor)) as real == (n * n) as real * (factor * factor) as real;
    assert Demand(n, factor, other) as real == (n * n * (factor * factor)) as real * other as real;
    FourFactors(n as real, factor as real);
  }

  lemma FourFactors(m: real, f: real)
    ensures m * m * (f * f) == m * f * (m * f)
  {
  }

  /** Dividing by the scale: how many whole blocks survive is a question about integers. */
  lemma ShrunkBlocksAtLeast(side: nat, other: nat, area: nat, beta: real, factor: nat, pixels: nat, n: nat)
    requires side > 0 && other > 0 && area == side * other && area > 0 && pixels > 0 && factor > 0
    requires beta > 0.0 && beta * beta == Ratio(area, pixels)
    ensures ShrunkBlocks(side, beta, factor) >= n <==> AtLeastBlocks(n, side, other, pixels, factor)
  {
    hide Ratio, AtMostBlocks, AtLeastBlocks;
    NonNegativeQuotient(side as real, beta);
    ShrunkLength(side, other, area, beta, pixels);
    BlocksWithoutTheRoot(side as real / beta, n, factor, side, other, pixels);
    FloorAtLeast(side as real / beta / factor as real, n);
  }

  lemma ShrunkLength(side: nat, other: nat, area: nat, beta: real, pixels: nat)
    requires side > 0 && other > 0 && area == side * other && area > 0 && pixels > 0
    requires beta > 0.0 && beta * beta == Ratio(area, pixels)
    ensures side as real / beta * (side as real / beta) * other as real == (side * pixels) as real
  {
    Quotient(side as real, beta);
    assert (side * other) as real == side as real * other as real;
    assert (side * pixels) as real == side as real * pixels as real;
    ShrunkSquare(side as real / beta, beta, side as real, other as real, pixels as real);
  }

  lemma ShrunkSquare(x: real, beta: real, side: real, other: real, pixels: real)
    requires side > 0.0 && x * beta == side && beta * beta * pixels == side * other
    ensures x * x * other == side * pixels
  {
    assert x * beta * (x * beta) == side * side;
    Scaled(x, x, beta);
    assert x * x * (beta * beta * pixels) == side * side * pixels by {
      Regroup(beta * beta, x * x, pixels);
    }
    assert side * (x * x * other) == side * (side * pixels) by {
      Regroup(x * x, side, other);
      Regroup(side, side, pixels);
    }
    Cancelled(side, x * x * other, side * pixels);
  }

  lemma Regroup(a: real, b: real, c: real)
    ensures b * (a * c) == a * b * c && a * (b * c) == a * b * c && b * (a * c) == a * (b * c)
  {
  }

  lemma FloorAtLeast(x: real, n: nat)
    ensures x.Floor >= n <==> x >= n as real
  {
  }

  /** Multiplying by the scale: how many blocks are needed is a question about integers. */
  lemma GrownBlocksAtMost(side: nat, other: nat, area: nat, beta: real, factor: nat, pixels: nat, n: nat)
    requires side > 0 && other > 0 && area == side * other && area > 0 && pixels > 0 && factor > 0
    requires beta > 0.0 && beta * beta == Ratio(pixels, area)
    ensures GrownBlocks(side, beta, factor) <= n <==> AtMostBlocks(n, side, other, pixels, factor)
  {
    hide Ratio, GrownBlocks, AtMostBlocks;
    GrownLength(side, other, area, beta, pixels);
    NonNegativeProduct(side as real, beta);
    GrownBlocksOfLength(side, beta, factor, n);
    BlocksWithoutTheRoot(side as real * beta, n, factor, side, other, pixels);
  }

  lemma GrownBlocksOfLength(side: nat, beta: real, factor: nat, n: nat)
    requires beta > 0.0 && factor > 0
    ensures GrownBlocks(side, beta, factor) <= n <==> side as real * beta / factor as real <= n as real
  {
    CeilingAtMost(side as real * beta / factor as real, n);
  }

  lemma GrownLength(side: nat, other: nat, area: nat, beta: real, pixels: nat)
    requires side > 0 && other > 0 && area == side * other && area > 0 && pixels > 0
    requires beta > 0.0 && beta * beta == Ratio(pixels, area)
    ensures side as real * beta * (side as real * beta) * other as real == (side * pixels) as real
  {
    assert (side * other) as real == side as real * other as real;
    assert (side * pixels) as real == side as real * pixels as real;
    GrownSquare(beta, side as real, other as real, pixels as real);
  }

  lemma GrownSquare(beta: real, side: real, other: real, pixels: real)
    requires beta * beta * (side * other) == pixels
    ensures side * beta * (side * beta) * other == side * pixels
  {
    Scaled(side, side, beta);
    Regroup(beta * beta, side, side * other);
    Regroup(side, side, other);
    Regroup(beta * beta, side * side, other);
  }

  lemma CeilingAtMost(x: real, n: nat)
    ensures Ceiling(x) <= n <==> x <= n as real
  {
  }

  // ---------- each side, on the inputs ----------

  /** By how much `n` blocks miss a side. */
  function Miss(n: nat, side: nat, factor: nat): nat {
    if n * factor >= side then n * factor - side else side - n * factor
  }

  /** `n` blocks are nearest the side among one block and more; of two equally near numbers the even one. */
  ghost predicate IsNearest(n: nat, side: nat, factor: nat) {
    n >= 1 && forall m: nat | m >= 1 && m != n ::
      Miss(n, side, factor) <= Miss(m, side, factor)
      && (Miss(n, side, factor) == Miss(m, side, factor) ==> n % 2 == 0)
  }

  /** `blocks` is as many whole blocks as the side scaled to `pixels` has room for, and one in any case. */
  ghost predicate HasRoomFor(blocks: nat, side: nat, other: nat, pixels: nat, factor: nat) {
    forall n: nat :: blocks >= n <==> n <= 1 || AtLeastBlocks(n, side, other, pixels, factor)
  }

  /** `blocks` is as few blocks as cover the side scaled to `pixels`. */
  ghost predicate IsCoveredBy(blocks: nat, side: nat, other: nat, pixels: nat, factor: nat) {
    forall n: nat :: blocks <= n <==> AtMostBlocks(n, side, other, pixels, factor)
  }

  /** What `smart_resize` should answer, side by side: kept, each side is the nearest number of blocks; reduced, it has
      `n` blocks exactly when the side scaled down to the upper limit has room for them, and one in any case;
      enlarged, `n` blocks are enough exactly when they cover the side scaled up to the lower limit. */
  ghost predicate IsTargetSize(h: nat, w: nat, height: nat, width: nat, factor: nat, minPixels: nat, maxPixels: nat)
    requires factor > 0
  {
    && WholeBlocks(h, factor) && WholeBlocks(w, factor)
    && exists a: nat, b: nat ::
         && IsNearest(a, height, factor) && IsNearest(b, width, factor)
         && FromNearest(a, b, h, w, height, width, factor, minPixels, maxPixels)
  }

  ghost predicate FromNearest(a: nat, b: nat, h: nat, w: nat, height: nat, width: nat, factor: nat, minPixels: nat,
                              maxPixels: nat)
    requires factor > 0
  {
    if a * factor * (b * factor) > maxPixels then
      && HasRoomFor(h / factor, height, width, maxPixels, factor)
      && HasRoomFor(w / factor, width, height, maxPixels, factor)
    else if a * factor * (b * factor) < minPixels then
      && IsCoveredBy(h / factor, height, width, minPixels, factor)
      && IsCoveredBy(w / factor, width, height, minPixels, factor)
    else
      h == a * factor && w == b * factor
  }

  /** The blocks a rounded side is made of. */
  function RoundedBlocks(side: nat, factor: nat): nat
    requires factor > 0
  {
    AtLeast(RoundTiesToEven(side as real / factor as real), 1)
  }

  function Distance(x: real, y: real): real {
    if x >= y then x - y else y - x
  }

  lemma MissIsDistance(n: nat, side: nat, factor: nat)
    requires factor > 0
    ensures Miss(n, side, factor) as real == Distance(n as real, side as real / factor as real) * factor as real
  {
    var q, f := side as real / factor as real, factor as real;
    Quotient(side as real, f);
    assert (n * factor) as real == n as real * f;
    OrderScaled(q, n as real, f);
    assert (n as real - q) * f == n as real * f - q * f;
    assert (q - n as real) * f == q * f - n as real * f;
  }

  lemma MissesCompared(m: nat, n: nat, side: nat, factor: nat)
    requires factor > 0
    ensures var q := side as real / factor as real;
            && (Miss(m, side, factor) <= Miss(n, side, factor) <==> Distance(m as real, q) <= Distance(n as real, q))
            && (Miss(n, side, factor) <= Miss(m, side, factor) <==> Distance(n as real, q) <= Distance(m as real, q))
  {
    hide Miss, Distance;
    var q := side as real / factor as real;
    MissIsDistance(m, side, factor);
    MissIsDistance(n, side, factor);
    OrderScaled(Distance(m as real, q), Distance(n as real, q), factor as real);
    OrderScaled(Distance(n as real, q), Distance(m as real, q), factor as real);
  }

  lemma RoundedIsNearestBlocks(side: nat, factor: nat)
    requires factor > 0
    ensures IsNearest(RoundedBlocks(side, factor), side, factor)
    ensures Rounded(side, factor) == RoundedBlocks(side, factor) * factor
  {
    hide Miss;
    var q := side as real / factor as real;
    NonNegativeQuotient(side as real, factor as real);
    var r, n := RoundTiesToEven(q), RoundedBlocks(side, factor);
    BlocksAreWhole(r, factor);
    forall m: nat | m >= 1 && m != n
      ensures Miss(n, side, factor) <= Miss(m, side, factor)
      ensures Miss(n, side, factor) == Miss(m, side, factor) ==> n % 2 == 0
    {
      MissesCompared(n, m, side, factor);
      RoundedIsNearest(q, m);
    }
  }

  lemma ClampedBlocks(blocks: nat, factor: nat, n: nat)
    requires factor > 0
    ensures AtLeast(blocks * factor, factor) / factor >= n <==> n <= 1 || blocks >= n
    ensures blocks >= 1 ==> (AtLeast(blocks * factor, factor) / factor <= n <==> blocks <= n)
  {
    BlocksAreWhole(blocks, factor);
    QuotientIsUnique(blocks * factor, factor, blocks, 0);
    QuotientIsUnique(factor, factor, 1, 0);
  }

  lemma ReducedSide(side: nat, other: nat, area: nat, beta: real, factor: nat, pixels: nat)
    requires side > 0 && other > 0 && area == side * other && area > 0 && pixels > 0 && factor > 0
    requires beta > 0.0 && beta * beta == Ratio(area, pixels)
    ensures HasRoomFor(Shrunk(side, beta, factor) / factor, side, other, pixels, factor)
  {
    hide AtLeastBlocks, ShrunkBlocks, Ratio;
    forall n: nat
      ensures Shrunk(side, beta, factor) / factor >= n <==> n <= 1 || AtLeastBlocks(n, side, other, pixels, factor)
    {
      ShrunkBlocksAtLeast(side, other, area, beta, factor, pixels, n);
      ClampedBlocks(ShrunkBlocks(side, beta, factor), factor, n);
    }
  }

  lemma EnlargedSide(side: nat, other: nat, area: nat, beta: real, factor: nat, pixels: nat)
    requires side > 0 && other > 0 && area == side * other && area > 0 && pixels > 0 && factor > 0
    requires beta > 0.0 && beta * beta == Ratio(pixels, area)
    ensures IsCoveredBy(Grown(side, beta, factor) / factor, side, other, pixels, factor)
  {
    hide GrownBlocks, AtMostBlocks, Ratio;
    GrownBlocksAtMost(side, other, area, beta, factor, pixels, 0);
    NothingCovers(side, other, factor, pixels);
    forall n: nat
      ensures Grown(side, beta, factor) / factor <= n <==> AtMostBlocks(n, side, other, pixels, factor)
    {
      GrownBlocksAtMost(side, other, area, beta, factor, pixels, n);
      ClampedBlocks(GrownBlocks(side, beta, factor), factor, n);
    }
  }

  lemma NothingCovers(side: nat, other: nat, factor: nat, pixels: nat)
    requires side > 0 && pixels > 0
    ensures !AtMostBlocks(0, side, other, pixels, factor)
  {
    AtLeastOne(side, pixels);
  }

  /** A ceiling of zero leaves each side its one block. */
  lemma OneBlockEach(side: nat, other: nat, factor: nat)
    requires other > 0 && factor > 0
    ensures HasRoomFor(factor / factor, side, other, 0, factor)
  {
    QuotientIsUnique(factor, factor, 1, 0);
    forall n: nat | n > 1 ensures !AtLeastBlocks(n, side, other, 0, factor) {
      AtLeastOne(n, n);
      AtLeastOne(factor, factor);
      AtLeastOne(n * n, factor * factor);
      AtLeastOne(n * n * (factor * factor), other);
    }
  }

  lemma ResizedIsTheTarget(height: nat, width: nat, factor: nat, minPixels: nat, maxPixels: nat, root: real -> real)
    requires height > 0 && width > 0 && factor > 0 && IsRoot(root)
    ensures var (h, w) := Resized(height, width, factor, minPixels, maxPixels, root);
            IsTargetSize(h, w, height, width, factor, minPixels, maxPixels)
  {
    hide IsNearest, RoundedBlocks, Rounded, Shrunk, Grown, Ratio, Area, HasRoomFor, IsCoveredBy;
    SidesAreWholeBlocks(height, width, factor, minPixels, maxPixels, root);
    RoundedIsNearestBlocks(height, factor);
    RoundedIsNearestBlocks(width, factor);
    var (h, w) := Resized(height, width, factor, minPixels, maxPixels, root);
    var a, b := RoundedBlocks(height, factor), RoundedBlocks(width, factor);
    AreaOfSides(height, width);
    if a * factor * (b * factor) > maxPixels {
      if maxPixels == 0 {
        OneBlockEach(height, width, factor);
        OneBlockEach(width, height, factor);
      } else {
        var beta := root(Ratio(Area(height, width), maxPixels));
        ReducedSide(height, width, Area(height, width), beta, factor, maxPixels);
        ReducedSide(width, height, Area(height, width), beta, factor, maxPixels);
      }
    } else if a * factor * (b * factor) < minPixels {
      var beta := root(Ratio(minPixels, Area(height, width)));
      EnlargedSide(height, width, Area(height, width), beta, factor, minPixels);
      EnlargedSide(width, height, Area(height, width), beta, factor, minPixels);
    }
    assert FromNearest(a, b, h, w, height, width, factor, minPixels, maxPixels);
  }

  lemma AreaOfSides(height: nat, width: nat)
    ensures Area(height, width) == height * width == width * height
  {
  }

  /** Between two numbers that miss a side equally there is one that misses it by less. */
  lemma NearerBetween(a: nat, b: nat, side: nat, factor: nat)
    requires factor > 0 && a + 2 <= b && Miss(a, side, factor) == Miss(b, side, factor)
    ensures Miss(a + 1, side, factor) < Miss(a, side, factor)
  {
    Monotone(a + 2, b, factor);
    Distribute(a, 1, factor);
    Distribute(a, 2, factor);
  }

  lemma NearestIsUnique(a: nat, b: nat, side: nat, factor: nat)
    requires factor > 0 && IsNearest(a, side, factor) && IsNearest(b, side, factor)
    ensures a == b
  {
    hide Miss;
    if a != b {
      NearerBetween(if a < b then a else b, if a < b then b else a, side, factor);
      assert false;
    }
  }

  lemma WholeBlocksAre(side: nat, factor: nat)
    requires factor > 0 && WholeBlocks(side, factor)
    ensures side == side / factor * factor
  {
  }

  /** There is only one such size, so the answer is determined by the inputs alone. */
  lemma TargetSizeIsUnique(h: nat, w: nat, k: nat, v: nat, height: nat, width: nat, factor: nat, minPixels: nat,
                           maxPixels: nat)
    requires factor > 0
    requires IsTargetSize(h, w, height, width, factor, minPixels, maxPixels)
    requires IsTargetSize(k, v, height, width, factor, minPixels, maxPixels)
    ensures h == k && w == v
  {
    hide IsNearest, HasRoomFor, IsCoveredBy;
    var a: nat, b: nat :| IsNearest(a, height, factor) && IsNearest(b, width, factor)
                          && FromNearest(a, b, h, w, height, width, factor, minPixels, maxPixels);
    var c: nat, d: nat :| IsNearest(c, height, factor) && IsNearest(d, width, factor)
                          && FromNearest(c, d, k, v, height, width, factor, minPixels, maxPixels);
    NearestIsUnique(a, c, height, factor);
    NearestIsUnique(b, d, width, factor);
    WholeBlocksAre(h, factor);
    WholeBlocksAre(w, factor);
    WholeBlocksAre(k, factor);
    WholeBlocksAre(v, factor);
    SameBlocks(a, b, h, w, k, v, height, width, factor, minPixels, maxPixels);
  }

  lemma SameRoom(x: nat, y: nat, side: nat, other: nat, pixels: nat, factor: nat)
    requires HasRoomFor(x, side, other, pixels, factor) && HasRoomFor(y, side, other, pixels, factor)
    ensures x == y
  {
    hide AtLeastBlocks;
    var one: nat := 1;
    assert AtLeastBlocks(one, side, other, pixels, factor) || one <= 1;
    assert x >= x <==> x <= 1 || AtLeastBlocks(x, side, other, pixels, factor);
    assert y >= y <==> y <= 1 || AtLeastBlocks(y, side, other, pixels, factor);
  }

  lemma SameNeed(x: nat, y: nat, side: nat, other: nat, pixels: nat, factor: nat)
    requires IsCoveredBy(x, side, other, pixels, factor) && IsCoveredBy(y, side, other, pixels, factor)
    ensures x == y
  {
    hide AtMostBlocks;
    assert x <= x <==> AtMostBlocks(x, side, other, pixels, factor);
    assert y <= y <==> AtMostBlocks(y, side, other, pixels, factor);
  }

  lemma SameBlocks(a: nat, b: nat, h: nat, w: nat, k: nat, v: nat, height: nat, width: nat, factor: nat,
                   minPixels: nat, maxPixels: nat)
    requires factor > 0
    requires FromNearest(a, b, h, w, height, width, factor, minPixels, maxPixels)
    requires FromNearest(a, b, k, v, height, width, factor, minPixels, maxPixels)
    ensures h / factor == k / factor && w / factor == v / factor
  {
    hide HasRoomFor, IsCoveredBy;
    if a * factor * (b * factor) > maxPixels {
      SameRoom(h / factor, k / factor, height, width, maxPixels, factor);
      SameRoom(w / factor, v / factor, width, height, maxPixels, factor);
    } else if a * factor * (b * factor) < minPixels {
      SameNeed(h / factor, k / factor, height, width, minPixels, factor);
      SameNeed(w / factor, v / factor, width, height, minPixels, factor);
    }
  }

  /** Whether the size comes out within `limit` pixels, decided on the inputs alone. Kept sizes do. An enlarged one
      does when some grid of blocks within the limit is at least as tall and as wide as the scaled picture. Of a
      reduced one: both sides long enough for a block do; a side clamped up to one block leaves the other room for
      `limit / factor^2` blocks; two clamped sides are one block. */
  ghost predicate StaysWithin(height: nat, width: nat, factor: nat, minPixels: nat, maxPixels: nat, limit: nat)
    requires factor > 0 && factor * factor > 0
  {
    if Reduces(height, width, factor, maxPixels) then
      var tall := AtLeastBlocks(1, height, width, maxPixels, factor);
      var wide := AtLeastBlocks(1, width, height, maxPixels, factor);
      var room := limit / (factor * factor);
      if tall && wide then true
      else if tall then !AtLeastBlocks(room + 1, height, width, maxPixels, factor)
      else if wide then !AtLeastBlocks(room + 1, width, height, maxPixels, factor)
      else factor * factor <= limit
    else if Enlarges(height, width, factor, minPixels, maxPixels) then
      exists a: nat, b: nat ::
        AtMostBlocks(a, height, width, minPixels, factor) && AtMostBlocks(b, width, height, minPixels, factor)
        && a * b * (factor * factor) <= limit
    else true
  }

  /** The exact condition for every branch of `smart_resize` and every limit from its ceiling up. */
  lemma StaysWithinIff(height: nat, width: nat, factor: nat, minPixels: nat, maxPixels: nat, limit: nat,
                       root: real -> real)
    requires height > 0 && width > 0 && factor > 0 && IsRoot(root) && limit >= maxPixels
    ensures factor * factor > 0
    ensures var (h, w) := Resized(height, width, factor, minPixels, maxPixels, root);
            h * w <= limit <==> StaysWithin(height, width, factor, minPixels, maxPixels, limit)
  {
    hide Rounded, AtLeastBlocks, AtMostBlocks;
    AtLeastOne(factor, factor);
    if Reduces(height, width, factor, maxPixels) {
      ReducedFitsIff(height, width, factor, minPixels, maxPixels, limit, root);
    } else if Enlarges(height, width, factor, minPixels, maxPixels) {
      EnlargedFitsIff(height, width, factor, minPixels, maxPixels, limit, root);
    }
  }

  /** The reducing branch. */
  lemma ReducedFitsIff(height: nat, width: nat, factor: nat, minPixels: nat, maxPixels: nat, limit: nat,
                       root: real -> real)
    requires height > 0 && width > 0 && factor > 0 && IsRoot(root) && limit >= maxPixels
    requires Reduces(height, width, factor, maxPixels) && factor * factor > 0
    ensures var (h, w) := Resized(height, width, factor, minPixels, maxPixels, root);
            h * w <= limit <==> StaysWithin(height, width, factor, minPixels, maxPixels, limit)
  {
    hide Rounded, AtLeastBlocks, AtMostBlocks, ShrunkBlocks, Ratio, Area;
    if maxPixels == 0 {
      NoBlocksOfNothing(height, width, factor);
      NoBlocksOfNothing(width, height, factor);
    } else {
      var beta := root(Ratio(Area(height, width), maxPixels));
      var a, b := ShrunkBlocks(height, beta, factor), ShrunkBlocks(width, beta, factor);
      var room: nat := limit / (factor * factor);
      SurvivingBlocks(height, width, factor, maxPixels, beta, 1);
      SurvivingBlocks(height, width, factor, maxPixels, beta, room + 1);
      BlocksAreWhole(a, factor);
      BlocksAreWhole(b, factor);
      if a >= 1 && b >= 1 {
        ReducedStaysWithinTheMaximum(height, width, factor, minPixels, maxPixels, root);
      } else {
        ClampedArea(a, factor, limit);
        ClampedArea(b, factor, limit);
      }
    }
  }

  lemma NoBlocksOfNothing(side: nat, other: nat, factor: nat)
    requires other > 0 && factor * factor > 0
    ensures !AtLeastBlocks(1, side, other, 0, factor)
  {
    AtLeastOne(factor * factor, other);
  }

  lemma SurvivingBlocks(height: nat, width: nat, factor: nat, maxPixels: nat, beta: real, n: nat)
    requires height > 0 && width > 0 && factor > 0 && maxPixels > 0
    requires beta > 0.0 && beta * beta == Ratio(Area(height, width), maxPixels)
    ensures ShrunkBlocks(height, beta, factor) >= n <==> AtLeastBlocks(n, height, width, maxPixels, factor)
    ensures ShrunkBlocks(width, beta, factor) >= n <==> AtLeastBlocks(n, width, height, maxPixels, factor)
  {
    hide ShrunkBlocks, AtLeastBlocks, Ratio;
    ShrunkBlocksAtLeast(height, width, Area(height, width), beta, factor, maxPixels, n);
    ShrunkBlocksAtLeast(width, height, Area(height, width), beta, factor, maxPixels, n);
  }

  /** Beside a clamped side, `blocks` blocks fit into the limit exactly when there is room for them. */
  lemma ClampedArea(blocks: nat, factor: nat, limit: nat)
    requires factor * factor > 0
    ensures blocks * factor * factor == factor * (blocks * factor) == blocks * (factor * factor)
    ensures blocks * (factor * factor) <= limit <==> blocks < limit / (factor * factor) + 1
  {
    BlockArea(blocks, factor);
    var room := limit / (factor * factor);
    if blocks <= room {
      Monotone(blocks, room, factor * factor);
    } else {
      Monotone(room + 1, blocks, factor * factor);
      Distribute(room, 1, factor * factor);
    }
  }

  /** The enlarging branch. */
  lemma EnlargedFitsIff(height: nat, width: nat, factor: nat, minPixels: nat, maxPixels: nat, limit: nat,
                        root: real -> real)
    requires height > 0 && width > 0 && factor > 0 && IsRoot(root)
    requires Enlarges(height, width, factor, minPixels, maxPixels) && factor * factor > 0
    ensures var (h, w) := Resized(height, width, factor, minPixels, maxPixels, root);
            h * w <= limit <==> StaysWithin(height, width, factor, minPixels, maxPixels, limit)
  {
    hide Rounded, AtMostBlocks, AtLeastBlocks, GrownBlocks, Ratio, Area;
    var beta := root(Ratio(minPixels, Area(height, width)));
    var a, b := GrownBlocks(height, beta, factor), GrownBlocks(width, beta, factor);
    NeededBlocks(height, width, factor, minPixels, beta, a, b);
    BlocksAreWhole(a, factor);
    BlocksAreWhole(b, factor);
    GridArea(a, b, factor);
    forall c: nat, d: nat | AtMostBlocks(c, height, width, minPixels, factor)
                            && AtMostBlocks(d, width, height, minPixels, factor)
      ensures a * b * (factor * factor) <= c * d * (factor * factor)
    {
      NeededBlocks(height, width, factor, minPixels, beta, c, d);
      SmallerGrid(a, b, c, d, factor * factor);
    }
  }

  lemma NeededBlocks(height: nat, width: nat, factor: nat, minPixels: nat, beta: real, c: nat, d: nat)
    requires height > 0 && width > 0 && factor > 0 && minPixels > 0
    requires beta > 0.0 && beta * beta == Ratio(minPixels, Area(height, width))
    ensures GrownBlocks(height, beta, factor) <= c <==> AtMostBlocks(c, height, width, minPixels, factor)
    ensures GrownBlocks(width, beta, factor) <= d <==> AtMostBlocks(d, width, height, minPixels, factor)
    ensures GrownBlocks(height, beta, factor) >= 1 && GrownBlocks(width, beta, factor) >= 1
  {
    hide AtMostBlocks, Ratio;
    GrownBlocksAtMost(height, width, Area(height, width), beta, factor, minPixels, c);
    GrownBlocksAtMost(width, height, Area(height, width), beta, factor, minPixels, d);
    SomeBlock(height, beta, factor);
    SomeBlock(width, beta, factor);
  }

  lemma SomeBlock(side: nat, beta: real, factor: nat)
    requires side > 0 && beta > 0.0 && factor > 0
    ensures GrownBlocks(side, beta, factor) >= 1
  {
    SameSign(side as real, beta);
    PositiveQuotient(side as real * beta, factor as real);
  }

  lemma GridArea(a: nat, b: nat, factor: nat)
    ensures a * factor * (b * factor) == a * b * (factor * factor)
  {
  }

  lemma SmallerGrid(a: nat, b: nat, c: nat, d: nat, unit: nat)
    requires a <= c && b <= d
    ensures a * b * unit <= c * d * unit
  {
    Monotone(a, c, b);
    Monotone(b, d, c);
    assert c * b == b * c && c * d == d * c;
    Monotone(a * b, c * d, unit);
  }

  /** Two clamped sides never fit into the ceiling they were reduced to. */
  lemma TwoClampedSidesExceed(height: nat, width: nat, factor: nat, maxPixels: nat)
    requires height > 0 && width > 0
    requires !AtLeastBlocks(1, height, width, maxPixels, factor) && !AtLeastBlocks(1, width, height, maxPixels, factor)
    ensures factor * factor > maxPixels
  {
    if factor * factor <= maxPixels {
      if height >= width {
        LongerSideKeepsABlock(height, width, maxPixels, factor);
      } else {
        LongerSideKeepsABlock(width, height, maxPixels, factor);
      }
    }
  }

  lemma LongerSideKeepsABlock(longer: nat, shorter: nat, maxPixels: nat, factor: nat)
    requires longer >= shorter && factor * factor <= maxPixels
    ensures AtLeastBlocks(1, longer, shorter, maxPixels, factor)
  {
    ProductOfSides(factor, factor);
    Monotone(factor * factor, maxPixels, shorter);
    Monotone(shorter, longer, maxPixels);
    assert maxPixels * shorter == shorter * maxPixels;
  }

  /** The limit can be exceeded: a strip 1 by 200 with blocks of one pixel and a ceiling of 16 is scaled by the root
      of 12.5, which clamps its short side up and leaves more than 50 pixels along the other. */
  lemma ReducedCanExceedTheMaximum(root: real -> real)
    requires IsRoot(root)
    ensures Resized(1, 200, 1, 0, 16, root).0 * Resized(1, 200, 1, 0, 16, root).1 > 16
  {
    var beta := root(12.5);
    assert Ratio(Area(1, 200), 16) == 12.5;
    assert beta * beta == 12.5;
    assert 3.5 < beta < 3.6 by {
      if beta <= 3.5 {
        ProductsOrdered(beta, beta, 3.5, 3.5);
      } else if beta >= 3.6 {
        ProductsOrdered(3.6, 3.6, beta, beta);
      }
    }
  }

  /** So it can be by enlarging, with no side clamped: one pixel between a floor of 2 and a ceiling of 3 comes out
      2 by 2. */
  lemma EnlargedCanExceedTheMaximum(root: real -> real)
    requires IsRoot(root)
    ensures Enlarges(1, 1, 1, 2, 3) && Resized(1, 1, 1, 2, 3, root) == (2, 2)
  {
    var beta := root(2.0);
    assert Ratio(2, Area(1, 1)) == 2.0;
    assert beta * beta == 2.0;
    assert 1.0 < beta < 2.0 by {
      if beta <= 1.0 {
        ProductsOrdered(beta, beta, 1.0, 1.0);
      } else if beta >= 2.0 {
        ProductsOrdered(2.0, 2.0, beta, beta);
      }
    }
  }

  // ---------- the grid that follows ----------

  /** `preprocess_image`'s effective ceiling. */
  function EffectiveMax(maxPixels: nat, maxImageTokens: nat, factor: nat): nat {
    ProductOfSides(maxImageTokens, factor);
    ProductOfSides(maxImageTokens * factor, factor);
    var byTokens: nat := maxImageTokens * factor * factor;
    if maxPixels < byTokens then maxPixels else byTokens
  }

  /** A side of whole blocks holds a whole number of merge blocks of patches, so the divisibility check on the
      patch grid never fires. */
  lemma PatchesDivide(side: nat, patch: nat, merge: nat)
    requires patch > 0 && merge > 0 && patch * merge > 0 && WholeBlocks(side, patch * merge)
    ensures 0 <= side / patch && side / patch % merge == 0
    ensures side / patch / merge == side / (patch * merge)
  {
    var blocks := side / (patch * merge);
    assert side == blocks * merge * patch by {
      assert side == blocks * (patch * merge);
      Reordered(blocks, patch, merge);
    }
    ProductOfSides(blocks, merge);
    QuotientIsUnique(side, patch, blocks * merge, 0);
    QuotientIsUnique(blocks * merge, merge, blocks, 0);
  }

  lemma Reordered(blocks: nat, patch: nat, merge: nat)
    ensures blocks * (patch * merge) == blocks * merge * patch
  {
  }

  /** Every image that passes the size checks gets a patch grid that splits into merge blocks and as many language
      tokens as it has such blocks; and those are no more than allowed exactly when the size stays within the pixels
      that many tokens stand for. */
  lemma EveryResizedImageIsPatched(height: nat, width: nat, patch: nat, merge: nat, minPixels: nat, maxPixels: nat,
                                   maxImageTokens: nat, root: real -> real)
    requires height > 0 && width > 0 && patch > 0 && merge > 0 && patch * merge > 0 && IsRoot(root)
    ensures var factor := patch * merge;
            var ceiling := EffectiveMax(maxPixels, maxImageTokens, factor);
            var (h, w) := Resized(height, width, factor, minPixels, ceiling, root);
            && 0 <= h / patch && 0 <= w / patch
            && Divisible(h / patch, w / patch, merge)
            && (h / patch) * (w / patch) / (merge * merge) * (merge * merge) == (h / patch) * (w / patch)
            && factor * factor > 0
            && ((h / patch) * (w / patch) / (merge * merge) <= maxImageTokens
                <==> StaysWithin(height, width, factor, minPixels, ceiling, maxImageTokens * (factor * factor)))
  {
    hide WholeBlocks, Resized, Rounded;
    var factor := patch * merge;
    var ceiling := EffectiveMax(maxPixels, maxImageTokens, factor);
    var (h, w) := Resized(height, width, factor, minPixels, ceiling, root);
    SidesAreWholeBlocks(height, width, factor, minPixels, ceiling, root);
    PatchesDivide(h, patch, merge);
    PatchesDivide(w, patch, merge);
    MergedTokens(h / patch, w / patch, merge);
    TokensWithin(h, w, factor, maxImageTokens);
    BlockArea(maxImageTokens, factor);
    StaysWithinIff(height, width, factor, minPixels, ceiling, maxImageTokens * (factor * factor), root);
  }

  lemma TokensWithin(h: nat, w: nat, factor: nat, tokens: nat)
    requires factor > 0 && WholeBlocks(h, factor) && WholeBlocks(w, factor)
    ensures (h / factor) * (w / factor) <= tokens <==> h * w <= tokens * (factor * factor)
  {
    var a, b := h / factor, w / factor;
    ProductOfSides(a, b);
    AtLeastOne(factor, factor);
    assert h * w == a * b * (factor * factor) by {
      assert h == a * factor && w == b * factor;
      Regrouped(a, b, factor);
    }
    if a * b <= tokens {
      Monotone(a * b, tokens, factor * factor);
    } else {
      Distribute(a * b - tokens, tokens, factor * factor);
      AtLeastOne(a * b - tokens, factor * factor);
    }
  }

  lemma Regrouped(a: nat, b: nat, f: nat)
    ensures a * f * (b * f) == a * b * (f * f)
  {
  }

  /** A token limit below `min_pixels` is exceeded: 100 by 100 pixels, patches of 16 merged by 2, at least 65536 pixels
      and at most 30 tokens come out 256 by 256, which is 64 tokens. */
  lemma TokenLimitCanBeExceeded(maxPixels: nat, root: real -> real)
    requires IsRoot(root) && maxPixels >= 65536
    ensures EffectiveMax(maxPixels, 30, 32) == 30720
    ensures Resized(100, 100, 32, 65536, 30720, root) == (256, 256)
    ensures (256 / 16) * (256 / 16) / (2 * 2) == 64
  {
    var beta := root(Ratio(65536, Area(100, 100)));
    assert beta * beta == 6.5536;
    assert beta == 2.56 by {
      if beta < 2.56 {
        OrderScaled(2.56, beta, 2.56);
        OrderScaled(2.56, beta, beta);
      } else if beta > 2.56 {
        OrderScaled(beta, 2.56, 2.56);
        OrderScaled(beta, 2.56, beta);
      }
    }
    assert GrownBlocks(100, 2.56, 32) == 8;
  }
}
