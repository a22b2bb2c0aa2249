/** The colour triple `RGB<T>` of src/color.rs: three channels of any type, no tag,
    no validation of channel range. */
module Colors {

  /** A colour; the channels are stored in R, G, B order. */
  datatype RGB<T> = RGB(r: T, g: T, b: T)

  /** 8-bit and 16-bit channel types, for the aliases `RGB8` and `RGB16`. */
  newtype U8 = n: int | 0 <= n < 0x100
  newtype U16 = n: int | 0 <= n < 0x1_0000

  type RGB8 = RGB<U8>
  type RGB16 = RGB<U16>

  /** `RGB::new(r, g, b)`: the arguments land in the channels in R, G, B order. */
  function New<T>(r: T, g: T, b: T): (c: RGB<T>)
    ensures c.r == r && c.g == g && c.b == b
  {
    RGB(r, g, b)
  }

  /** `PartialEq for RGB<T>`: the conjunction of the three channel comparisons,
      which agrees with equality of the whole colour in both directions. */
  function Eq<T(==)>(c: RGB<T>, d: RGB<T>): (r: bool)
    ensures r <==> c == d
  {
    c.r == d.r && c.g == d.g && c.b == d.b
  }

  /** Equality is reflexive and symmetric. */
  lemma EqReflexiveSymmetric<T>(c: RGB<T>, d: RGB<T>)
    ensures Eq(c, c)
    ensures Eq(c, d) == Eq(d, c)
  {}

  /** A colour built from (-0.5, 0.4, 1.7) equals another built from the same channels. */
  lemma SameChannelsEqual()
    ensures Eq(New(-0.5, 0.4, 1.7), New(-0.5, 0.4, 1.7))
    ensures New(-0.5, 0.4, 1.7).r == -0.5 && New(-0.5, 0.4, 1.7).g == 0.4
    ensures New(-0.5, 0.4, 1.7).b == 1.7
  {}

  /** Changing any single channel makes the colours unequal. */
  lemma OneChannelDiffers<T>(r: T, g: T, b: T, x: T)
    ensures x != r ==> !Eq(New(r, g, b), New(x, g, b))
    ensures x != g ==> !Eq(New(r, g, b), New(r, x, b))
    ensures x != b ==> !Eq(New(r, g, b), New(r, g, x))
  {}
}
