/** `ImmutableDimension2D`: a read-only (width, height) pair of doubles, its
    shared origin instance, its factories, its exact equality and its
    refusing mutators. Its two `constrainedBy` methods, which call into
    `Geometry`, are in module ImmutableDimensionConstraint. */
module ImmutableDimension {
  import opened JavaLang

  /** An `ImmutableDimension2D`: both fields are final and set once. */
  datatype ImmutableDimension2D = ImmutableDimension2D(width: real, height: real)

  /** A `java.awt.geom.Dimension2D` as the geometry helpers see it: either an
      `ImmutableDimension2D`, or some other implementation (a mutable
      `java.awt.Dimension`, say) read through `getWidth` and `getHeight`. */
  datatype Dimension2D =
    | Immutable(dimension: ImmutableDimension2D)
    | Other(otherWidth: real, otherHeight: real)
  {
    /** `getWidth()`: the final field of an immutable dimension, and
        whatever another implementation reports. */
    function Width(): (r: real)
      ensures Immutable? ==> r == dimension.width
      ensures Other? ==> r == otherWidth
    {
      match this
      case Immutable(d) => d.width
      case Other(w, _) => w
    }

    /** `getHeight()`: as `Width`, for the height. */
    function Height(): (r: real)
      ensures Immutable? ==> r == dimension.height
      ensures Other? ==> r == otherHeight
    {
      match this
      case Immutable(d) => d.height
      case Other(_, h) => h
    }
  }

  /** The argument of `equals(Object)`: a `Dimension2D`, or any other object. */
  datatype Object = DimensionObject(dimension2D: Dimension2D) | OtherObject

  /** The shared instance for the origin `(0.0, 0.0)`. */
  const ORIGIN: ImmutableDimension2D := ImmutableDimension2D(0.0, 0.0)

  /** `of(double, double)`: an immutable dimension with the given width and
      height; `(0, 0)` is answered with the shared origin instance. */
  function Of(width: real, height: real): (r: ImmutableDimension2D)
    ensures r.width == width && r.height == height
    ensures width == 0.0 && height == 0.0 ==> r == ORIGIN
  {
    if width == 0.0 && height == 0.0 then ORIGIN
    else ImmutableDimension2D(width, height)
  }

  /** `of(Dimension2D)`: an immutable dimension is returned as it is; any
      other dimension is copied through `Of`. */
  function OfDimension(dimension: Dimension2D): (r: ImmutableDimension2D)
    ensures dimension.Immutable? ==> r == dimension.dimension
    ensures r.width == dimension.Width() && r.height == dimension.Height()
    ensures dimension.Width() == 0.0 && dimension.Height() == 0.0 && dimension.Other? ==> r == ORIGIN
  {
    match dimension
    case Immutable(d) => d
    case Other(w, h) => Of(w, h)
  }

  /** `equals(Object)`: true for a `Dimension2D` whose width and height are
      both `==` to this one's, false for anything else. An object is always
      equal to itself, which the source checks first by identity. */
  function Equals(d: ImmutableDimension2D, obj: Object): (b: bool)
    ensures b ==> obj.DimensionObject?
    ensures obj == DimensionObject(Immutable(d)) ==> b
  {
    match obj
    case OtherObject => false
    case DimensionObject(o) => d.width == o.Width() && d.height == o.Height()
  }

  /** `setSize(double, double)`: always throws, and the dimension keeps its
      width and height. The first component is the receiver afterwards. */
  function SetSize(d: ImmutableDimension2D, width: real, height: real): (r: (ImmutableDimension2D, Result<()>))
    ensures r.0.width == d.width && r.0.height == d.height
    ensures r.1.UnsupportedOperationException?
  {
    (d, UnsupportedOperationException("Class ImmutableDimension2D is immutable."))
  }

  /** `setSize(Dimension2D)`: always throws, as `SetSize` does. */
  function SetSizeFrom(d: ImmutableDimension2D, dimension: Dimension2D): (r: (ImmutableDimension2D, Result<()>))
    ensures r.0.width == d.width && r.0.height == d.height
    ensures r.1.UnsupportedOperationException?
  {
    (d, UnsupportedOperationException("Class ImmutableDimension2D is immutable."))
  }

  /** One call of either `setSize` overload. */
  datatype SetSizeCall = SizeValues(width: real, height: real) | SizeOf(source: Dimension2D)

  /** The receiver after each of the given `setSize` calls in turn, and
      what each call returned. */
  function ApplySetSizes(d: ImmutableDimension2D, calls: seq<SetSizeCall>): (r: (ImmutableDimension2D, seq<Result<()>>))
    ensures |r.1| == |calls|
  {
    if calls == [] then (d, [])
    else
      var (before, outcomes) := ApplySetSizes(d, calls[..|calls| - 1]);
      var (after, outcome) :=
        match calls[|calls| - 1]
        case SizeValues(w, h) => SetSize(before, w, h)
        case SizeOf(source) => SetSizeFrom(before, source);
      (after, outcomes + [outcome])
  }

  /** Width and height never change after construction: any sequence of
      `setSize` calls leaves the dimension exactly as it was, and every one
      of them throws. */
  lemma {:induction false} SetSizeNeverChanges(d: ImmutableDimension2D, calls: seq<SetSizeCall>)
    ensures ApplySetSizes(d, calls).0 == d
    ensures forall i :: 0 <= i < |calls| ==> ApplySetSizes(d, calls).1[i].UnsupportedOperationException?
  {
    if calls != [] {
      SetSizeNeverChanges(d, calls[..|calls| - 1]);
    }
  }

  /** The shared origin has both sides zero, and it is what both factories
      answer for a zero-by-zero dimension that is not already immutable. */
  lemma OriginIsShared()
    ensures ORIGIN.width == 0.0 && ORIGIN.height == 0.0
    ensures Of(0.0, 0.0) == ORIGIN
    ensures OfDimension(Other(0.0, 0.0)) == ORIGIN
  {
  }

  /** `Of` followed by reading the fields gives the arguments back, and
      `OfDimension` keeps the width and height of any dimension. */
  lemma OfRoundTrip(width: real, height: real, dimension: Dimension2D)
    ensures Of(width, height).width == width && Of(width, height).height == height
    ensures Immutable(OfDimension(dimension)).Width() == dimension.Width()
    ensures Immutable(OfDimension(dimension)).Height() == dimension.Height()
    ensures OfDimension(Immutable(Of(width, height))) == Of(width, height)
  {
  }

  /** `equals` between two immutable dimensions is exactly value equality
      of the pair, so it is reflexive, symmetric and transitive. */
  lemma EqualsIsValueEquality(a: ImmutableDimension2D, b: ImmutableDimension2D)
    ensures Equals(a, DimensionObject(Immutable(b))) <==> a == b
    ensures Equals(a, DimensionObject(Immutable(a)))
    ensures Equals(a, DimensionObject(Immutable(b))) <==> Equals(b, DimensionObject(Immutable(a)))
  {
  }

  /** `equals` compares both components exactly, against any kind of
      `Dimension2D`, and rejects objects that are not dimensions. */
  lemma EqualsComponentwise(d: ImmutableDimension2D, o: Dimension2D)
    ensures Equals(d, DimensionObject(o)) <==> d.width == o.Width() && d.height == o.Height()
    ensures !Equals(d, OtherObject)
    ensures Equals(d, DimensionObject(o)) <==> Equals(OfDimension(o), DimensionObject(Immutable(d)))
  {
  }
}
