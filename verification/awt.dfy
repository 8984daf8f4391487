/** The integer-valued AWT value classes that the geometry helpers return:
    `java.awt.Point` and `java.awt.Dimension`, both with public `int`
    fields. Only their values are modelled, not object identity. */
module Awt {
  import opened JavaLang

  /** A `java.awt.Point`. */
  datatype Point = Point(x: int32, y: int32)

  /** A `java.awt.Dimension`. */
  datatype Dimension = Dimension(width: int32, height: int32)
}
