/** Facts about positive ratios of reals that the constraining rules rely
    on, each proved in isolation so that the geometry proofs can cite them
    without unfolding any arithmetic themselves. */
module Ratios {

  /** Dividing by a positive number compares like multiplying the other
      side by it. */
  lemma DivCompare(a: real, d: real, b: real)
    requires d > 0.0
    ensures a / d < b <==> a < b * d
    ensures a / d > b <==> a > b * d
    ensures a / d == b <==> a == b * d
  {
    assert a == (a / d) * d;
    MulCancel(a / d, b, d);
  }

  /** Multiplying by a positive number preserves and reflects order. */
  lemma MulCancel(a: real, b: real, c: real)
    requires c > 0.0
    ensures a * c < b * c <==> a < b
    ensures a * c == b * c <==> a == b
  {
    assert b * c - a * c == (b - a) * c;
  }

  /** Two ratios with positive denominators are equal exactly when their
      cross products are. */
  lemma CrossMultiply(a: real, b: real, c: real, d: real)
    requires b > 0.0 && d > 0.0
    ensures a / b == c / d <==> a * d == c * b
  {
    DivCompare(a, b, c / d);
    DivCompare(c, d, a / b);
    assert (c / d) * b * d == c * b by {
      assert (c / d) * d == c;
    }
    MulCancel(a, (c / d) * b, d);
  }

  /** A side computed from a positive bound and a positive ratio is
      positive, and taking the ratio back gives the ratio. */
  lemma RatioRoundTrip(bound: real, ratio: real)
    requires bound > 0.0 && ratio > 0.0
    ensures bound / ratio > 0.0 && bound * ratio > 0.0
    ensures bound / (bound / ratio) == ratio
    ensures (bound * ratio) / bound == ratio
  {
    DivCompare(bound, ratio, 0.0);
    DivCompare(bound, bound / ratio, ratio);
    DivCompare(bound * ratio, bound, ratio);
  }

  /** A box in the ratio `width : height` that meets one side of a bound it
      fits, where the original `width x height` exceeds that bound on some
      side, is no larger than the original on either side. */
  lemma ShrinksBoth(rw: real, rh: real, width: real, height: real, maxWidth: real, maxHeight: real)
    requires width > 0.0 && height > 0.0
    requires rw * height == rh * width
    requires rw <= maxWidth && rh <= maxHeight
    requires width > maxWidth || height > maxHeight
    ensures rw <= width && rh <= height
  {
    if width > maxWidth {
      assert rw < width;
      MulCancel(rw, width, height);
      MulCancel(rh, height, width);
    } else {
      assert rh < height;
      MulCancel(rh, height, width);
      MulCancel(rw, width, height);
    }
  }

  /** Among the boxes in the ratio `width : height` that fit the bound, one
      that meets the bound on some side is the largest. */
  lemma LargestInRatio(rw: real, rh: real, a: real, b: real, width: real, height: real, maxWidth: real, maxHeight: real)
    requires width > 0.0 && height > 0.0
    requires rw * height == rh * width && (rw == maxWidth || rh == maxHeight)
    requires a * height == b * width && a <= maxWidth && b <= maxHeight
    ensures a <= rw && b <= rh
  {
    if rw == maxWidth {
      assert a <= rw;
      if b > rh {
        MulCancel(rh, b, width);
        MulCancel(rw, a, height);
      }
    } else {
      assert b <= rh;
      if a > rw {
        MulCancel(rw, a, height);
        MulCancel(rh, b, width);
      }
    }
  }
}
