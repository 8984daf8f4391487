# Aspect-ratio-preserving dimension constraining, in Dafny

This project models the geometry helpers of the GlobalMentor AWT library and proves properties of them:

- `Geometry.constrainedBy` scales a dimension so that no part of it lies outside a bounding width and height, keeping its aspect ratio. A non-positive inner side is rejected. A zero bound gives the origin. A dimension that already fits is returned unchanged. Otherwise the side whose bound is relatively tighter is set to that bound, and the other side is derived from the ratio.
- `ImmutableDimension2D` is the read-only value type that rule returns. It has a shared origin constant, two `of` factories, exact `==` equality, two `setSize` mutators that always throw, and two `constrainedBy` methods that delegate to `Geometry`.
- `GeometryUtilities.constrain` is the older integer form of the rule over `java.awt.Dimension`. It tries the width bound first, falls back to the height bound, and truncates each derived side to an `int`.
- `getCenter(int, int, int, int)` exists in both geometry classes. It returns the point half the width and half the height from the corner, using Java `int` arithmetic.

Java `double` is modelled as Dafny `real`. Java `int` is the subset type `JavaLang.int32`, and its semantics are written out in module `JavaLang`:

- `+` wraps around modulo 2^32.
- `/ 2` truncates toward zero. Dafny's `/` rounds down.
- The `(int)` cast of a `double` truncates toward zero and clamps to the `int` range.

All three source files are pure code: final fields, straight-line locals and if/else chains. They are modelled as datatypes, functions and lemmas.

Modules, one per source class, plus three support modules:

- `JavaLang` (java_lang.dfy): `int32`, Java integer arithmetic and the narrowing cast, and a `Result` type for values and thrown exceptions.
- `Awt` (awt.dfy): the `java.awt.Point` and `java.awt.Dimension` values.
- `Ratios` (ratios.dfy): small facts about positive real ratios that the proofs cite.
- `ImmutableDimension` (immutable_dimension.dfy): `ImmutableDimension2D`, and `Dimension2D` as either an immutable dimension or any other implementation read through `getWidth`/`getHeight`.
- `Geometry` (geometry.dfy): the real-valued rule, its properties, and `getCenter`.
- `ImmutableDimensionConstraint` (immutable_dimension_constraint.dfy): the two `constrainedBy` methods of `ImmutableDimension2D`. They sit in their own module because `Geometry` already imports `ImmutableDimension`, and Dafny modules cannot import each other in a cycle.
- `GeometryUtilities` (geometry_utilities.dfy): the legacy integer rule, its comparison with the real-valued rule, and its copy of `getCenter`.

Where the documentation and the code disagree, the model follows the code:

- `Geometry.java:57` documents an `IllegalArgumentException` for negative bounds. No check exists; the parameters are only annotated `@Nonnegative`. The model therefore states non-negative bounds as a precondition, not as an error result.
- The positivity checks at `Geometry.java:61-63` reject a zero side too, although their messages speak of a "negative" width or height. The model rejects every side that is not strictly positive.
- `Geometry.java:65` and the unit test refer to `ImmutableDimension2D.ZERO`, but the class declares the constant as `ORIGIN` (`ImmutableDimension2D.java:31`). The model has one zero constant, `ORIGIN`.

## Model

| member | source | states |
|---|---|---|
| `JavaLang.Half` | src/main/java/com/globalmentor/awt/geom/Geometry.java:107-109 | Java's `n / 2` rounds toward zero: `2q` is `n` or `n` moved one step toward zero, and `q` has the sign of `n` |
| `JavaLang.Add` | src/main/java/com/globalmentor/awt/geom/Geometry.java:108 | Java's `int` sum is exact when representable, and otherwise off by exactly 2^32 |
| `JavaLang.Wrap` | src/main/java/com/globalmentor/awt/geom/Geometry.java:108 | the 32-bit result is congruent to the mathematical value modulo 2^32, and equals it when it is in range |
| `JavaLang.Truncate` | src/com/garretwilson/awt/geom/GeometryUtilities.java:35 | truncation toward zero: the magnitude drops by less than one and the sign is kept |
| `JavaLang.DoubleToInt` | src/com/garretwilson/awt/geom/GeometryUtilities.java:35 | the `(int)` cast truncates values in range and clamps values beyond `int` to `INT_MIN`/`INT_MAX` |
| `JavaLang.DoubleToIntNonNegative` | src/com/garretwilson/awt/geom/GeometryUtilities.java:43 | on a non-negative double the cast lands in `[0, x]`, and it is the floor of `x` when that is an `int` |
| `JavaLang.DoubleToIntMonotone` | src/com/garretwilson/awt/geom/GeometryUtilities.java:35 | the cast preserves `<=` |
| `ImmutableDimension.OriginIsShared` | src/main/java/com/globalmentor/awt/geom/ImmutableDimension2D.java:31 | the shared `ORIGIN` instance is `(0.0, 0.0)`, and it is what `of(0, 0)` and `of` of another zero dimension answer |
| `ImmutableDimension.Dimension2D.Width` | src/main/java/com/globalmentor/awt/geom/ImmutableDimension2D.java:39-42 | `getWidth()` returns the final width field of an immutable dimension, and what any other `Dimension2D` reports |
| `ImmutableDimension.Dimension2D.Height` | src/main/java/com/globalmentor/awt/geom/ImmutableDimension2D.java:44-47 | `getHeight()` returns the final height field of an immutable dimension, and what any other `Dimension2D` reports |
| `ImmutableDimension.Of` | src/main/java/com/globalmentor/awt/geom/ImmutableDimension2D.java:55-60 | `of(w, h)` has width `w` and height `h`, and `of(0, 0)` is the shared `ORIGIN` |
| `ImmutableDimension.OfDimension` | src/main/java/com/globalmentor/awt/geom/ImmutableDimension2D.java:68-73 | an immutable dimension is returned as itself; any other dimension gives one with the same width and height, and the origin for `(0, 0)` |
| `ImmutableDimension.Equals` | src/main/java/com/globalmentor/awt/geom/ImmutableDimension2D.java:119-129 | `equals` is true only for a `Dimension2D`, and an immutable dimension is always equal to itself |
| `ImmutableDimension.EqualsIsValueEquality` | src/main/java/com/globalmentor/awt/geom/ImmutableDimension2D.java:119-129 | between immutable dimensions `equals` holds exactly when the pairs are equal; it is reflexive and symmetric |
| `ImmutableDimension.EqualsComponentwise` | src/main/java/com/globalmentor/awt/geom/ImmutableDimension2D.java:119-129 | `equals` holds against any `Dimension2D` exactly when both widths and both heights are `==`, is false for non-dimensions, and is symmetric through `of` |
| `ImmutableDimension.SetSize` | src/main/java/com/globalmentor/awt/geom/ImmutableDimension2D.java:90-93 | `setSize(double, double)` always throws `UnsupportedOperationException` and the width and height stay as they were |
| `ImmutableDimension.SetSizeFrom` | src/main/java/com/globalmentor/awt/geom/ImmutableDimension2D.java:100-103 | `setSize(Dimension2D)` always throws `UnsupportedOperationException` and the width and height stay as they were |
| `ImmutableDimension.SetSizeNeverChanges` | src/main/java/com/globalmentor/awt/geom/ImmutableDimension2D.java:34-37 | after any sequence of `setSize` calls of either overload the dimension is exactly as constructed, and every call threw |
| `Geometry.ConstrainedBy` | src/main/java/com/globalmentor/awt/geom/Geometry.java:59-86 | an `IllegalArgumentException` exactly when a side is not strictly positive; otherwise a non-negative result that lies within the bounds |
| `Geometry.WidthBoundFits` | src/main/java/com/globalmentor/awt/geom/Geometry.java:74-76 | when the bound ratio is below the dimension's ratio, the height derived from the width bound is positive and below the height bound |
| `Geometry.HeightBoundFits` | src/main/java/com/globalmentor/awt/geom/Geometry.java:77-79 | when the bound ratio is above the dimension's ratio, the width derived from the height bound is positive and below the width bound |
| `Geometry.ConstrainedByDimension` | src/main/java/com/globalmentor/awt/geom/Geometry.java:45-47 | the overload with a bounding dimension rejects the same inputs and fits the bounding dimension's width and height |
| `Geometry.ConstrainedByDimensionDelegates` | src/main/java/com/globalmentor/awt/geom/Geometry.java:45-47 | the overload with a bounding dimension gives exactly what the scalar form gives for that dimension's width and height |
| `Geometry.ZeroBoundGivesOrigin` | src/main/java/com/globalmentor/awt/geom/Geometry.java:64-66 | a zero bound on either side gives the origin for every valid dimension |
| `Geometry.FittingDimensionUnchanged` | src/main/java/com/globalmentor/awt/geom/Geometry.java:67-69 | with non-zero bounds, a dimension that already fits is returned unchanged |
| `Geometry.ConstrainedByIdempotent` | src/main/java/com/globalmentor/awt/geom/Geometry.java:64-85 | constraining the result again by the same non-zero bounds gives it back unchanged |
| `Geometry.AspectRatioKept` | src/main/java/com/globalmentor/awt/geom/Geometry.java:70-84 | with non-zero bounds the result has positive sides, and its `width / height` equals the input's |
| `Geometry.BindingSide` | src/main/java/com/globalmentor/awt/geom/Geometry.java:74-84 | when scaling happens: a smaller bound ratio pins the width to its bound, a larger one pins the height, and an equal one gives exactly `(maxWidth, maxHeight)` |
| `Geometry.NeverEnlarges` | src/main/java/com/globalmentor/awt/geom/Geometry.java:64-85 | no side of the result is larger than the input's |
| `Geometry.LargestFittingScale` | src/main/java/com/globalmentor/awt/geom/Geometry.java:70-84 | when scaling happens, every dimension with the input's ratio that fits the bounds is no larger than the result on either side |
| `Geometry.LandscapeScenarios` | src/test/java/com/globalmentor/awt/geom/GeometryTest.java:35-50 | the unit test's ten landscape cases (3000 x 2000) give the expected dimensions |
| `Geometry.PortraitScenarios` | src/test/java/com/globalmentor/awt/geom/GeometryTest.java:53-68 | the unit test's ten portrait cases (2000 x 3000) give the expected dimensions |
| `Geometry.GetCenter` | src/main/java/com/globalmentor/awt/geom/Geometry.java:107-109 | without overflow each coordinate lies within its span, splits it into two parts that differ by at most one, and is the middle point nearer the corner; on overflow it wraps by 2^32 |
| `Geometry.CenterIsUnique` | src/main/java/com/globalmentor/awt/geom/Geometry.java:107-109 | without overflow exactly one coordinate is a centre of the span: the origin moved by half the extent, rounded toward the origin |
| `ImmutableDimensionConstraint.ConstrainedBy` | src/main/java/com/globalmentor/awt/geom/ImmutableDimension2D.java:148-152 | rejects exactly the non-positive dimensions, fits the bounds, and `equals` the answer of `Geometry.constrainedBy` |
| `ImmutableDimensionConstraint.ConstrainedByDimension` | src/main/java/com/globalmentor/awt/geom/ImmutableDimension2D.java:137-139 | rejects exactly the non-positive dimensions and fits the bounding dimension's width and height |
| `ImmutableDimensionConstraint.DelegatesToGeometry` | src/main/java/com/globalmentor/awt/geom/ImmutableDimension2D.java:137-152 | `Geometry` answers an immutable dimension here, so wrapping it with `of` changes nothing; the overload reads the bound's width and height; a fitting dimension is returned as itself |
| `GeometryUtilities.Constrain` | src/com/garretwilson/awt/geom/GeometryUtilities.java:22-48 | a fitting dimension is returned unchanged; otherwise one side equals its bound; with non-negative bounds no part lies outside the constraining dimension |
| `GeometryUtilities.Relation` | src/com/garretwilson/awt/geom/GeometryUtilities.java:32 | `(double) width / height` times the height is the width, and for a non-zero width it is non-zero and positive exactly when the sides have the same sign |
| `GeometryUtilities.NegativeRelationFits` | src/com/garretwilson/awt/geom/GeometryUtilities.java:35-41 | with sides of opposite signs and a non-negative width bound, the height derived from the width bound is at most zero, so the height-bound fallback is reached only with a positive ratio |
| `GeometryUtilities.HeightFallbackFits` | src/com/garretwilson/awt/geom/GeometryUtilities.java:35-46 | when the truncated height from the width bound overflows the height bound, the truncated width from the height bound stays below the width bound |
| `GeometryUtilities.WidthBoundCase` | src/com/garretwilson/awt/geom/GeometryUtilities.java:35-40 | with a relatively narrower bound, the truncated height fits and is the floor of the exact height |
| `GeometryUtilities.HeightBoundCase` | src/com/garretwilson/awt/geom/GeometryUtilities.java:35-46 | with a relatively wider bound, the truncated height reaches the height bound, and the fallback width is the floor of an exact width below the width bound |
| `GeometryUtilities.SameRatioCase` | src/com/garretwilson/awt/geom/GeometryUtilities.java:35-40 | with equal ratios, the height derived from the width bound is exactly the height bound |
| `GeometryUtilities.AgreesWithGeometry` | src/com/garretwilson/awt/geom/GeometryUtilities.java:28-47 | on positive sizes and bounds, the legacy height is the floor of the real-valued height, and the legacy width lies between the floor of the real-valued width and the bound |
| `GeometryUtilities.LegacyZeroBound` | src/com/garretwilson/awt/geom/GeometryUtilities.java:28-47 | with no zero-bound short-circuit, 3000 x 2000 in 1 x 0 gives 1 x 0, where `Geometry` gives the origin |
| `GeometryUtilities.LegacyWidthBias` | src/com/garretwilson/awt/geom/GeometryUtilities.java:35-40 | trying the width first, 3000 x 2000 in 700 x 466 gives 700 x 466, where `Geometry` gives 699 x 466 |
| `GeometryUtilities.GetCenter` | src/com/garretwilson/awt/geom/GeometryUtilities.java:69-72 | the same centring property as `Geometry.GetCenter` |
| `GeometryUtilities.GetCenterAgrees` | src/com/garretwilson/awt/geom/GeometryUtilities.java:69-72 | both copies of `getCenter` agree on every input |

## Left out

- Geometry.ConstrainedBy: negative bounds are a precondition. The source documents an `IllegalArgumentException` for them but never checks, so its behaviour on negative bounds is not modelled.
- ImmutableDimensionConstraint.ConstrainedBy: negative bounds are a precondition, as for `Geometry.ConstrainedBy`, to which it delegates.
- GeometryUtilities.Constrain: when the dimension does not fit, neither of its sides may be zero. A zero height makes Java divide by zero in `double`, and a zero width makes the ratio zero and the next division a division by zero; Java then continues with an infinity or NaN, which the model does not represent. Negative sides and negative bounds are modelled.
- Geometry.ConstrainedByDimension: negative bounds are a precondition, as for `Geometry.ConstrainedBy`; the source documents an `IllegalArgumentException` for them (Geometry.java:43) but never checks.
- ImmutableDimensionConstraint.ConstrainedByDimension: negative bounds are a precondition, as for the overload it delegates to.
- IEEE-754 behaviour is not modelled, because `double` is modelled as `real`. This covers rounding in `width / height` and in the ratio comparisons, NaN, the infinities, and `-0.0 == 0.0` in `equals`. In particular, the unit test's expected values are exact here, not rounded.
- Object identity is not modelled, because the model works on values. This covers the sharing of `ORIGIN`, `of(Dimension2D)` returning the same instance, the `this == object` shortcut in `equals` (covered by reflexivity), and `Geometry.constrainedBy` and `GeometryUtilities.constrain` (GeometryUtilities.java:30) returning the caller's possibly mutable dimension object (aliasing).
- `ORIGIN` is a non-final `public static` field in the source and could be reassigned by any caller. The model has a constant.
- `hashCode` and `toString` of `ImmutableDimension2D` are left out. They are library calls (`Objects.hash`, string concatenation) with nothing to state over reals.
- `getCenter(Shape)` in both geometry classes is left out. It calls AWT's `Shape.getBounds()`, whose code is not part of this model.
- `RolloverMouseAdapter` is left out. It is a UI mouse listener that swaps a component's foreground colour.
- The Java `assert` in the equal-ratio branch of `Geometry.constrainedBy` is left out. It restates that branch's condition.
