/** `GeometryUtilities`: the older, integer form of the constraining rule,
    over `java.awt.Dimension`, and its copy of `getCenter`. It tries the
    width bound first and falls back to the height bound, truncating each
    derived side to an `int`; it has neither the zero-bound short-circuit
    nor the positivity check of `Geometry.constrainedBy`. */
module GeometryUtilities {
  import opened JavaLang
  import opened Awt
  import ImmutableDimension
  import Geometry
  import Ratios

  /** `(double) width / height`: the ratio of the sides. Converting an `int`
      to a `double` is exact, so the ratio times the height is the width,
      and a non-zero ratio is positive exactly when the sides have the same
      sign. */
  function Relation(width: int32, height: int32): (r: real)
    requires height != 0
    ensures r * height as real == width as real
    ensures width != 0 ==> (r > 0.0 <==> (width > 0 <==> height > 0))
    ensures width != 0 ==> r != 0.0
  {
    var w, h := width as real, height as real;
    if h > 0.0 then
      Ratios.DivCompare(w, h, 0.0);
      w / h
    else
      Ratios.DivCompare(0.0 - w, 0.0 - h, 0.0);
      assert w / h == (0.0 - w) / (0.0 - h);
      w / h
  }

  /** The precondition under which the computation stays in the reals:
      either the dimension already fits, and is returned before any
      division, or neither of its sides is zero. With a zero height Java
      divides by zero in `double`, and with a zero width the ratio is zero
      and the next division is by zero; both continue with an infinity or
      NaN. */
  predicate Constrainable(dimension: Dimension, constrainingDimension: Dimension) {
    || (dimension.width <= constrainingDimension.width && dimension.height <= constrainingDimension.height)
    || (dimension.width != 0 && dimension.height != 0)
  }

  /** `constrain(Dimension, Dimension)`. A dimension that fits is returned
      unchanged. Otherwise one side is set to its bound and the other is
      derived from the ratio and cast to `int`; with non-negative bounds no
      part of the result lies outside the constraining dimension. */
  function Constrain(dimension: Dimension, constrainingDimension: Dimension): (r: Dimension)
    requires Constrainable(dimension, constrainingDimension)
    ensures dimension.width <= constrainingDimension.width && dimension.height <= constrainingDimension.height
            ==> r == dimension
    ensures !(dimension.width <= constrainingDimension.width && dimension.height <= constrainingDimension.height)
            ==> r.width == constrainingDimension.width || r.height == constrainingDimension.height
    ensures constrainingDimension.width >= 0 && constrainingDimension.height >= 0
            ==> r.width <= constrainingDimension.width && r.height <= constrainingDimension.height
  {
    var width := dimension.width;
    var height := dimension.height;
    var constrainingWidth := constrainingDimension.width;
    var constrainingHeight := constrainingDimension.height;
    if width <= constrainingWidth && height <= constrainingHeight then dimension
    else
      var relation := Relation(width, height);
      var newHeight := DoubleToInt(constrainingWidth as real / relation);
      if newHeight <= constrainingHeight then
        Dimension(constrainingWidth, newHeight)
      else
        var newWidth := DoubleToInt(constrainingHeight as real * relation);
        assert constrainingWidth >= 0 && constrainingHeight >= 0 ==> newWidth < constrainingWidth by {
          if constrainingWidth >= 0 && constrainingHeight >= 0 {
            NegativeRelationFits(relation, constrainingWidth);
            HeightFallbackFits(relation, constrainingWidth, constrainingHeight);
          }
        }
        Dimension(newWidth, constrainingHeight)
  }

  /** When the height derived from the width bound overflows the height
      bound, the width derived from the height bound stays within the
      width bound: truncation never rounds up, so the overflowing height
      shows `constrainingHeight * relation < constrainingWidth`. */
  lemma HeightFallbackFits(relation: real, constrainingWidth: int32, constrainingHeight: int32)
    requires relation > 0.0 && constrainingWidth >= 0 && constrainingHeight >= 0
    requires DoubleToInt(constrainingWidth as real / relation) > constrainingHeight
    ensures DoubleToInt(constrainingHeight as real * relation) < constrainingWidth
  {
    var cw, ch := constrainingWidth as real, constrainingHeight as real;
    var x, y := cw / relation, ch * relation;
    assert x >= 0.0 by {
      Ratios.DivCompare(cw, relation, 0.0);
    }
    DoubleToIntNonNegative(x);
    assert y < cw by {
      Ratios.DivCompare(cw, relation, ch);
    }
    assert y >= 0.0;
    DoubleToIntNonNegative(y);
  }

  /** With a negative ratio (sides of opposite signs) and a non-negative
      width bound, the height derived from the width bound is at most zero,
      so it fits any non-negative height bound: the fallback to the height
      bound is only reached with a positive ratio. */
  lemma NegativeRelationFits(relation: real, constrainingWidth: int32)
    requires relation != 0.0 && constrainingWidth >= 0
    ensures relation < 0.0 ==> DoubleToInt(constrainingWidth as real / relation) <= 0
  {
    if relation < 0.0 {
      var cw := constrainingWidth as real;
      Ratios.DivCompare(0.0 - cw, 0.0 - relation, 0.0);
      assert cw / relation == (0.0 - cw) / (0.0 - relation);
      DoubleToIntMonotone(cw / relation, 0.0);
      DoubleToIntNonNegative(0.0);
    }
  }

  /** The legacy rule against the real-valued `Geometry.constrainedBy` on
      the same positive sizes and bounds: its height is the real height
      truncated, and its width is at least the real width truncated and
      within the bound. The width can come out larger than the truncated
      real width when the truncated height just reaches the height bound
      (see LegacyWidthBias). */
  lemma AgreesWithGeometry(dimension: Dimension, constrainingDimension: Dimension)
    requires dimension.width > 0 && dimension.height > 0
    requires constrainingDimension.width > 0 && constrainingDimension.height > 0
    ensures var exact := Geometry.ConstrainedBy(
                           ImmutableDimension.Other(dimension.width as real, dimension.height as real),
                           constrainingDimension.width as real, constrainingDimension.height as real).value;
            var r := Constrain(dimension, constrainingDimension);
            && r.height == exact.Height().Floor
            && exact.Width().Floor <= r.width <= constrainingDimension.width
  {
    var w, h := dimension.width as real, dimension.height as real;
    var cw, ch := constrainingDimension.width, constrainingDimension.height;
    var exact := Geometry.ConstrainedBy(ImmutableDimension.Other(w, h), cw as real, ch as real).value;
    if !Geometry.FitsWithin(w, h, cw as real, ch as real) {
      var ratio := Relation(dimension.width, dimension.height);
      assert ratio == w / h;
      var x := cw as real / ratio;
      if cw as real / ch as real < ratio {
        WidthBoundCase(ratio, cw, ch);
        assert exact.Width() == cw as real && exact.Height() == x;
      } else if cw as real / ch as real > ratio {
        HeightBoundCase(ratio, cw, ch);
        assert exact.Width() == ch as real * ratio && exact.Height() == ch as real;
      } else {
        SameRatioCase(ratio, cw, ch);
        assert exact.Width() == cw as real && exact.Height() == ch as real;
      }
    }
  }

  /** The legacy computation when the bound is relatively narrower: the
      truncated height from the width bound fits, and is the floor of the
      exact height. */
  lemma WidthBoundCase(ratio: real, constrainingWidth: int32, constrainingHeight: int32)
    requires ratio > 0.0 && constrainingWidth > 0 && constrainingHeight > 0
    requires constrainingWidth as real / constrainingHeight as real < ratio
    ensures var x := constrainingWidth as real / ratio;
            DoubleToInt(x) == x.Floor <= constrainingHeight
  {
    var cw, ch := constrainingWidth as real, constrainingHeight as real;
    var x := cw / ratio;
    Ratios.DivCompare(cw, ch, ratio);
    Ratios.DivCompare(cw, ratio, ch);
    DoubleToIntNonNegative(x);
  }

  /** The legacy computation when the bound is relatively wider: the
      truncated height from the width bound reaches at least the height
      bound, and the truncated width from the height bound is the floor of
      the exact width, which is below the width bound. */
  lemma HeightBoundCase(ratio: real, constrainingWidth: int32, constrainingHeight: int32)
    requires ratio > 0.0 && constrainingWidth > 0 && constrainingHeight > 0
    requires constrainingWidth as real / constrainingHeight as real > ratio
    ensures DoubleToInt(constrainingWidth as real / ratio) >= constrainingHeight
    ensures var y := constrainingHeight as real * ratio;
            DoubleToInt(y) == y.Floor && y < constrainingWidth as real
  {
    var cw, ch := constrainingWidth as real, constrainingHeight as real;
    var x, y := cw / ratio, ch * ratio;
    assert y < cw by {
      Ratios.DivCompare(cw, ch, ratio);
    }
    assert x > ch by {
      Ratios.DivCompare(cw, ratio, ch);
    }
    DoubleToIntMonotone(ch, x);
    DoubleToIntNonNegative(ch);
    assert y >= 0.0;
    DoubleToIntNonNegative(y);
  }

  /** The legacy computation when the ratios are equal: the height from the
      width bound is exactly the height bound. */
  lemma SameRatioCase(ratio: real, constrainingWidth: int32, constrainingHeight: int32)
    requires ratio > 0.0 && constrainingWidth > 0 && constrainingHeight > 0
    requires constrainingWidth as real / constrainingHeight as real == ratio
    ensures DoubleToInt(constrainingWidth as real / ratio) == constrainingHeight
  {
    var cw, ch := constrainingWidth as real, constrainingHeight as real;
    Ratios.DivCompare(cw, ch, ratio);
    Ratios.DivCompare(cw, ratio, ch);
    DoubleToIntNonNegative(ch);
  }

  /** Unlike `Geometry.constrainedBy`, a zero height bound does not collapse
      the result to zero: 3000 x 2000 constrained to 1 x 0 gives 1 x 0,
      where the real-valued rule gives the origin. */
  lemma LegacyZeroBound()
    ensures Constrain(Dimension(3000, 2000), Dimension(1, 0)) == Dimension(1, 0)
    ensures Geometry.ConstrainedBy(ImmutableDimension.Other(3000.0, 2000.0), 1.0, 0.0)
            == Success(ImmutableDimension.Immutable(ImmutableDimension.ORIGIN))
  {
  }

  /** Trying the width first lets truncation distort the ratio: 3000 x 2000
      constrained to 700 x 466 gives 700 x 466 (466.67 truncated to 466 just
      fits), where the real-valued rule gives 699 x 466. */
  lemma LegacyWidthBias()
    ensures Constrain(Dimension(3000, 2000), Dimension(700, 466)) == Dimension(700, 466)
    ensures Geometry.ConstrainedBy(ImmutableDimension.Other(3000.0, 2000.0), 700.0, 466.0)
            == Success(ImmutableDimension.Immutable(ImmutableDimension.ImmutableDimension2D(699.0, 466.0)))
  {
  }

  /** `getCenter(int, int, int, int)`: the same computation as
      `Geometry.getCenter`. */
  function GetCenter(x: int32, y: int32, width: int32, height: int32): (r: Point)
    ensures Geometry.CentersSpan(r.x, x, width) && Geometry.CentersSpan(r.y, y, height)
  {
    Point(Add(x, Half(width)), Add(y, Half(height)))
  }

  /** Both copies of `getCenter` agree on every input. */
  lemma GetCenterAgrees(x: int32, y: int32, width: int32, height: int32)
    ensures GetCenter(x, y, width, height) == Geometry.GetCenter(x, y, width, height)
  {
  }
}
