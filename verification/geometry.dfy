/** `Geometry`: scaling a dimension so that no part of it lies outside a
    bounding width and height while keeping its aspect ratio, and the centre
    of an integer bounding area. */
module Geometry {
  import opened JavaLang
  import opened Awt
  import opened ImmutableDimension
  import Ratios

  /** A dimension fits a bounding box when neither side exceeds its bound. */
  predicate FitsWithin(width: real, height: real, maxWidth: real, maxHeight: real) {
    width <= maxWidth && height <= maxHeight
  }

  /** The two sides of a dimension stand in the ratio `width : height`. */
  predicate SameAspect(width: real, height: real, ratioWidth: real, ratioHeight: real) {
    width * ratioHeight == height * ratioWidth
  }

  /** `constrainedBy(Dimension2D, double, double)`. A dimension with a side
      that is not strictly positive is rejected; a zero bound gives the
      origin; a dimension that already fits is returned unchanged;
      otherwise the side whose bound is tighter relative to the aspect
      ratio is set to its bound and the other is derived from the ratio.
      The bounds must be non-negative (the parameters are `@Nonnegative`;
      the `IllegalArgumentException` documented for negative bounds is
      never thrown). */
  function ConstrainedBy(dimension: Dimension2D, maxWidth: real, maxHeight: real): (r: Result<Dimension2D>)
    requires maxWidth >= 0.0 && maxHeight >= 0.0
    ensures r.IllegalArgumentException? <==> !(dimension.Width() > 0.0 && dimension.Height() > 0.0)
    ensures !r.UnsupportedOperationException?
    ensures r.Success? ==> FitsWithin(r.value.Width(), r.value.Height(), maxWidth, maxHeight)
    ensures r.Success? ==> r.value.Width() >= 0.0 && r.value.Height() >= 0.0
  {
    var width := dimension.Width();
    if !(width > 0.0) then IllegalArgumentException("Cannot constrain dimension by a negative width.")
    else
      var height := dimension.Height();
      if !(height > 0.0) then IllegalArgumentException("Cannot constrain dimension by a negative height.")
      else if maxWidth == 0.0 || maxHeight == 0.0 then Success(Immutable(ORIGIN))
      else if width <= maxWidth && height <= maxHeight then Success(dimension)
      else
        var ratio := width / height;
        var constrainingRatio := maxWidth / maxHeight;
        if constrainingRatio < ratio then
          WidthBoundFits(width, height, maxWidth, maxHeight);
          Success(Immutable(Of(maxWidth, maxWidth / ratio)))
        else if constrainingRatio > ratio then
          HeightBoundFits(width, height, maxWidth, maxHeight);
          Success(Immutable(Of(maxHeight * ratio, maxHeight)))
        else
          Success(Immutable(Of(maxWidth, maxHeight)))
  }

  /** When the bound is relatively narrower than the dimension, the height
      derived from the width bound stays within the height bound. */
  lemma WidthBoundFits(width: real, height: real, maxWidth: real, maxHeight: real)
    requires width > 0.0 && height > 0.0 && maxWidth > 0.0 && maxHeight > 0.0
    requires maxWidth / maxHeight < width / height
    ensures 0.0 < maxWidth / (width / height) < maxHeight
  {
    var ratio := width / height;
    Ratios.DivCompare(width, height, 0.0);
    Ratios.DivCompare(maxWidth, maxHeight, ratio);
    Ratios.DivCompare(maxWidth, ratio, maxHeight);
    Ratios.RatioRoundTrip(maxWidth, ratio);
  }

  /** When the bound is relatively wider than the dimension, the width
      derived from the height bound stays within the width bound. */
  lemma HeightBoundFits(width: real, height: real, maxWidth: real, maxHeight: real)
    requires width > 0.0 && height > 0.0 && maxWidth > 0.0 && maxHeight > 0.0
    requires maxWidth / maxHeight > width / height
    ensures 0.0 < maxHeight * (width / height) < maxWidth
  {
    var ratio := width / height;
    Ratios.DivCompare(width, height, 0.0);
    Ratios.DivCompare(maxWidth, maxHeight, ratio);
    Ratios.RatioRoundTrip(maxHeight, ratio);
  }

  /** `constrainedBy(Dimension2D, Dimension2D)`: the bound is read from the
      outer dimension's width and height. */
  function ConstrainedByDimension(dimension: Dimension2D, maxDimension: Dimension2D): (r: Result<Dimension2D>)
    requires maxDimension.Width() >= 0.0 && maxDimension.Height() >= 0.0
    ensures r.IllegalArgumentException? <==> !(dimension.Width() > 0.0 && dimension.Height() > 0.0)
    ensures r.Success? ==> FitsWithin(r.value.Width(), r.value.Height(), maxDimension.Width(), maxDimension.Height())
  {
    ConstrainedBy(dimension, maxDimension.Width(), maxDimension.Height())
  }

  /** The overload with a bounding dimension is the scalar form applied to
      that dimension's width and height, so every property of
      `ConstrainedBy` carries over to it. */
  lemma ConstrainedByDimensionDelegates(dimension: Dimension2D, maxDimension: Dimension2D)
    requires maxDimension.Width() >= 0.0 && maxDimension.Height() >= 0.0
    ensures ConstrainedByDimension(dimension, maxDimension)
            == ConstrainedBy(dimension, maxDimension.Width(), maxDimension.Height())
  {
  }

  /** A zero bound on either side collapses every valid dimension to the
      origin. */
  lemma ZeroBoundGivesOrigin(dimension: Dimension2D, maxWidth: real, maxHeight: real)
    requires dimension.Width() > 0.0 && dimension.Height() > 0.0
    requires maxWidth >= 0.0 && maxHeight >= 0.0
    requires maxWidth == 0.0 || maxHeight == 0.0
    ensures ConstrainedBy(dimension, maxWidth, maxHeight) == Success(Immutable(ORIGIN))
  {
  }

  /** With non-zero bounds, a dimension that already fits comes back as the
      very same value. */
  lemma FittingDimensionUnchanged(dimension: Dimension2D, maxWidth: real, maxHeight: real)
    requires dimension.Width() > 0.0 && dimension.Height() > 0.0
    requires maxWidth > 0.0 && maxHeight > 0.0
    requires FitsWithin(dimension.Width(), dimension.Height(), maxWidth, maxHeight)
    ensures ConstrainedBy(dimension, maxWidth, maxHeight) == Success(dimension)
  {
  }

  /** Constraining is idempotent: constraining the result again by the
      same bounds gives it back unchanged. */
  lemma ConstrainedByIdempotent(dimension: Dimension2D, maxWidth: real, maxHeight: real)
    requires dimension.Width() > 0.0 && dimension.Height() > 0.0
    requires maxWidth > 0.0 && maxHeight > 0.0
    ensures ConstrainedBy(dimension, maxWidth, maxHeight).Success?
    ensures ConstrainedBy(ConstrainedBy(dimension, maxWidth, maxHeight).value, maxWidth, maxHeight)
            == ConstrainedBy(dimension, maxWidth, maxHeight)
  {
    var r := ConstrainedBy(dimension, maxWidth, maxHeight).value;
    AspectRatioKept(dimension, maxWidth, maxHeight);
    assert r.Width() > 0.0;
  }

  /** With non-zero bounds the result is a proper dimension with the
      aspect ratio of the input: `width / height` is unchanged. */
  lemma AspectRatioKept(dimension: Dimension2D, maxWidth: real, maxHeight: real)
    requires dimension.Width() > 0.0 && dimension.Height() > 0.0
    requires maxWidth > 0.0 && maxHeight > 0.0
    ensures ConstrainedBy(dimension, maxWidth, maxHeight).Success?
    ensures var r := ConstrainedBy(dimension, maxWidth, maxHeight).value;
            && r.Width() > 0.0 && r.Height() > 0.0
            && r.Width() / r.Height() == dimension.Width() / dimension.Height()
            && SameAspect(r.Width(), r.Height(), dimension.Width(), dimension.Height())
  {
    var width, height := dimension.Width(), dimension.Height();
    var r := ConstrainedBy(dimension, maxWidth, maxHeight).value;
    var ratio := width / height;
    Ratios.DivCompare(width, height, 0.0);
    if !FitsWithin(width, height, maxWidth, maxHeight) {
      var constrainingRatio := maxWidth / maxHeight;
      if constrainingRatio < ratio {
        WidthBoundFits(width, height, maxWidth, maxHeight);
        assert r.Width() == maxWidth && r.Height() == maxWidth / ratio;
        Ratios.RatioRoundTrip(maxWidth, ratio);
      } else if constrainingRatio > ratio {
        HeightBoundFits(width, height, maxWidth, maxHeight);
        assert r.Width() == maxHeight * ratio && r.Height() == maxHeight;
        Ratios.RatioRoundTrip(maxHeight, ratio);
      } else {
        assert r.Width() == maxWidth && r.Height() == maxHeight;
      }
    }
    Ratios.CrossMultiply(r.Width(), r.Height(), width, height);
  }

  /** When scaling happens, the side whose bound is relatively tighter
      meets its bound exactly: the width when the bound ratio is smaller
      than the dimension's, the height when it is larger, and both when the
      ratios are equal. */
  lemma BindingSide(dimension: Dimension2D, maxWidth: real, maxHeight: real)
    requires dimension.Width() > 0.0 && dimension.Height() > 0.0
    requires maxWidth > 0.0 && maxHeight > 0.0
    requires !FitsWithin(dimension.Width(), dimension.Height(), maxWidth, maxHeight)
    ensures var r := ConstrainedBy(dimension, maxWidth, maxHeight).value;
            var ratio := dimension.Width() / dimension.Height();
            && (maxWidth / maxHeight < ratio ==> r.Width() == maxWidth && r.Height() < maxHeight)
            && (maxWidth / maxHeight > ratio ==> r.Height() == maxHeight && r.Width() < maxWidth)
            && (maxWidth / maxHeight == ratio ==> r == Immutable(ImmutableDimension2D(maxWidth, maxHeight)))
  {
    var ratio := dimension.Width() / dimension.Height();
    if maxWidth / maxHeight < ratio {
      WidthBoundFits(dimension.Width(), dimension.Height(), maxWidth, maxHeight);
    } else if maxWidth / maxHeight > ratio {
      HeightBoundFits(dimension.Width(), dimension.Height(), maxWidth, maxHeight);
    }
  }

  /** Constraining only ever scales down: neither side of the result is
      larger than the corresponding side of the input. */
  lemma NeverEnlarges(dimension: Dimension2D, maxWidth: real, maxHeight: real)
    requires dimension.Width() > 0.0 && dimension.Height() > 0.0
    requires maxWidth >= 0.0 && maxHeight >= 0.0
    ensures var r := ConstrainedBy(dimension, maxWidth, maxHeight).value;
            r.Width() <= dimension.Width() && r.Height() <= dimension.Height()
  {
    var width, height := dimension.Width(), dimension.Height();
    if maxWidth > 0.0 && maxHeight > 0.0 && !FitsWithin(width, height, maxWidth, maxHeight) {
      var r := ConstrainedBy(dimension, maxWidth, maxHeight).value;
      AspectRatioKept(dimension, maxWidth, maxHeight);
      Ratios.ShrinksBoth(r.Width(), r.Height(), width, height, maxWidth, maxHeight);
    }
  }

  /** When scaling happens, the result is the largest dimension with the
      input's aspect ratio that fits the bounds: every other such dimension
      is no larger on either side. */
  lemma LargestFittingScale(dimension: Dimension2D, maxWidth: real, maxHeight: real, width: real, height: real)
    requires dimension.Width() > 0.0 && dimension.Height() > 0.0
    requires maxWidth > 0.0 && maxHeight > 0.0
    requires !FitsWithin(dimension.Width(), dimension.Height(), maxWidth, maxHeight)
    requires FitsWithin(width, height, maxWidth, maxHeight)
    requires SameAspect(width, height, dimension.Width(), dimension.Height())
    ensures var r := ConstrainedBy(dimension, maxWidth, maxHeight).value;
            width <= r.Width() && height <= r.Height()
  {
    var r := ConstrainedBy(dimension, maxWidth, maxHeight).value;
    AspectRatioKept(dimension, maxWidth, maxHeight);
    BindingSide(dimension, maxWidth, maxHeight);
    Ratios.LargestInRatio(r.Width(), r.Height(), width, height,
                          dimension.Width(), dimension.Height(), maxWidth, maxHeight);
  }

  /** The landscape cases of the repository's unit test: a 3000 x 2000
      dimension (ratio 1.5) against various bounds. */
  lemma LandscapeScenarios()
    ensures var d, ratio := Immutable(Of(3000.0, 2000.0)), 3000.0 / 2000.0;
            && ConstrainedBy(d, 9000.0, 9000.0) == Success(d)
            && ConstrainedBy(d, 3000.0, 2000.0) == Success(d)
            && ConstrainedBy(d, 400.0, 500.0) == Success(Immutable(Of(400.0, 400.0 / ratio)))
            && ConstrainedBy(d, 400.0, 400.0) == Success(Immutable(Of(400.0, 400.0 / ratio)))
            && ConstrainedBy(d, 500.0, 400.0) == Success(Immutable(Of(500.0, 500.0 / ratio)))
            && ConstrainedBy(d, 600.0, 400.0) == Success(Immutable(Of(600.0, 400.0)))
            && ConstrainedBy(d, 700.0, 400.0) == Success(Immutable(Of(400.0 * ratio, 400.0)))
            && ConstrainedBy(d, 0.0, 1000.0) == Success(Immutable(ORIGIN))
            && ConstrainedBy(d, 1000.0, 0.0) == Success(Immutable(ORIGIN))
            && ConstrainedBy(d, 0.0, 0.0) == Success(Immutable(ORIGIN))
  {
  }

  /** The portrait cases of the repository's unit test: a 2000 x 3000
      dimension (ratio 2/3) against various bounds. */
  lemma PortraitScenarios()
    ensures var d, ratio := Immutable(Of(2000.0, 3000.0)), 2000.0 / 3000.0;
            && ConstrainedBy(d, 9000.0, 9000.0) == Success(d)
            && ConstrainedBy(d, 2000.0, 3000.0) == Success(d)
            && ConstrainedBy(d, 400.0, 700.0) == Success(Immutable(Of(400.0, 400.0 / ratio)))
            && ConstrainedBy(d, 400.0, 600.0) == Success(Immutable(Of(400.0, 600.0)))
            && ConstrainedBy(d, 400.0, 500.0) == Success(Immutable(Of(500.0 * ratio, 500.0)))
            && ConstrainedBy(d, 400.0, 400.0) == Success(Immutable(Of(400.0 * ratio, 400.0)))
            && ConstrainedBy(d, 500.0, 400.0) == Success(Immutable(Of(400.0 * ratio, 400.0)))
            && ConstrainedBy(d, 0.0, 1000.0) == Success(Immutable(ORIGIN))
            && ConstrainedBy(d, 1000.0, 0.0) == Success(Immutable(ORIGIN))
            && ConstrainedBy(d, 0.0, 0.0) == Success(Immutable(ORIGIN))
  {
  }

  /** The centre coordinate of the span from `origin` over `extent` (either
      sign): it lies within the span, splits it into two parts that differ
      by at most one, and of the two middle points of an odd span it is the
      one nearer the origin. When the Java `int` addition overflows, the
      centre wraps around by 2^32. */
  predicate CentersSpan(c: int, origin: int32, extent: int32) {
    if INT_MIN <= origin + Half(extent) <= INT_MAX then
      && (if extent >= 0 then origin <= c <= origin + extent else origin + extent <= c <= origin)
      && Abs((origin + extent - c) - (c - origin)) <= 1
      && Abs(c - origin) <= Abs(origin + extent - c)
    else
      c == origin + Half(extent) - INT_RANGE || c == origin + Half(extent) + INT_RANGE
  }

  /** Without overflow the centring property leaves exactly one coordinate:
      the origin moved by half the extent, rounded toward the origin. */
  lemma CenterIsUnique(c: int, origin: int32, extent: int32)
    requires INT_MIN <= origin + Half(extent) <= INT_MAX
    ensures CentersSpan(c, origin, extent) <==> c == origin + Half(extent)
  {
  }

  /** `getCenter(int, int, int, int)`: the point half the width and half
      the height (Java `int` division) from the corner, with `int`
      wrap-around on the additions. */
  function GetCenter(x: int32, y: int32, width: int32, height: int32): (r: Point)
    ensures CentersSpan(r.x, x, width) && CentersSpan(r.y, y, height)
  {
    Point(Add(x, Half(width)), Add(y, Half(height)))
  }
}
