/** The two `constrainedBy` methods of `ImmutableDimension2D`. They delegate
    to `Geometry.constrainedBy` and wrap its answer with `of(Dimension2D)`.
    They live in a module of their own because `Geometry` already depends
    on `ImmutableDimension`, and Dafny modules cannot depend on each other
    in a cycle. */
module ImmutableDimensionConstraint {
  import opened JavaLang
  import opened ImmutableDimension
  import Geometry

  /** `constrainedBy(double, double)` on the dimension `d`: the immutable
      form of `Geometry.constrainedBy(d, maxWidth, maxHeight)`. */
  function ConstrainedBy(d: ImmutableDimension2D, maxWidth: real, maxHeight: real): (r: Result<ImmutableDimension2D>)
    requires maxWidth >= 0.0 && maxHeight >= 0.0
    ensures r.IllegalArgumentException? <==> !(d.width > 0.0 && d.height > 0.0)
    ensures r.Success? ==> Geometry.FitsWithin(r.value.width, r.value.height, maxWidth, maxHeight)
    ensures r.Success? ==> Equals(r.value, DimensionObject(Geometry.ConstrainedBy(Immutable(d), maxWidth, maxHeight).value))
  {
    match Geometry.ConstrainedBy(Immutable(d), maxWidth, maxHeight)
    case Success(constrained) => Success(OfDimension(constrained))
    case IllegalArgumentException(message) => IllegalArgumentException(message)
    case UnsupportedOperationException(message) => UnsupportedOperationException(message)
  }

  /** `constrainedBy(Dimension2D)` on the dimension `d`: the bound is read
      from the given dimension's width and height. */
  function ConstrainedByDimension(d: ImmutableDimension2D, maxDimension: Dimension2D): (r: Result<ImmutableDimension2D>)
    requires maxDimension.Width() >= 0.0 && maxDimension.Height() >= 0.0
    ensures r.IllegalArgumentException? <==> !(d.width > 0.0 && d.height > 0.0)
    ensures r.Success? ==> Geometry.FitsWithin(r.value.width, r.value.height, maxDimension.Width(), maxDimension.Height())
  {
    ConstrainedBy(d, maxDimension.Width(), maxDimension.Height())
  }

  /** Because `Geometry.constrainedBy` only ever answers with the input
      itself or with an immutable dimension, the `of` wrapping changes
      nothing: both methods give exactly what `Geometry` gives, and a
      dimension that already fits non-zero bounds comes back as itself. */
  lemma DelegatesToGeometry(d: ImmutableDimension2D, maxWidth: real, maxHeight: real, maxDimension: Dimension2D)
    requires maxWidth >= 0.0 && maxHeight >= 0.0
    requires maxDimension.Width() >= 0.0 && maxDimension.Height() >= 0.0
    ensures var g := Geometry.ConstrainedBy(Immutable(d), maxWidth, maxHeight);
            g.Success? ==> g.value.Immutable? && ConstrainedBy(d, maxWidth, maxHeight) == Success(g.value.dimension)
    ensures ConstrainedByDimension(d, maxDimension) == ConstrainedBy(d, maxDimension.Width(), maxDimension.Height())
    ensures (d.width > 0.0 && d.height > 0.0 && maxWidth > 0.0 && maxHeight > 0.0
             && Geometry.FitsWithin(d.width, d.height, maxWidth, maxHeight))
            ==> ConstrainedBy(d, maxWidth, maxHeight) == Success(d)
  {
  }
}
