/**
 * Colour-format dispatch of the render cycle: the decoder reports the layout of a
 * decoded frame and the renderer picks the GL colour-conversion mode that the
 * video plane renderer applies.
 */
module ColorConversion {

  /** The decoder's colour-format enumeration; any value other than the two named
      YUV 4:2:0 layouts is carried as its raw number. The numbers of the two named
      constants are not part of this model, so `raw` is not range-checked; the
      convention is that a value equal to a named constant is always written as
      that constant and never as `OtherFormat`. */
  datatype ColorFormat =
    | Yuv420Planar
    | Yuv420SemiPlanar
    | OtherFormat(raw: int)

  /** The conversion modes of the GL video renderer. */
  datatype Conversion = Yuv420PlanarToRgb | Yuv420SemiPlanarToRgb

  /** The layout each conversion mode reads. */
  function SourceLayout(c: Conversion): ColorFormat
  {
    match c
    case Yuv420PlanarToRgb => Yuv420Planar
    case Yuv420SemiPlanarToRgb => Yuv420SemiPlanar
  }

  /** The switch of the render cycle: semi-planar frames get the semi-planar
      conversion and every other format, recognised or not, the planar one. */
  function ConversionFor(f: ColorFormat): (c: Conversion)
    ensures c == Yuv420SemiPlanarToRgb <==> f == Yuv420SemiPlanar
    ensures c == Yuv420PlanarToRgb <==> (f == Yuv420Planar || f.OtherFormat?)
    ensures !f.OtherFormat? ==> SourceLayout(c) == f
  {
    match f
    case Yuv420SemiPlanar => Yuv420SemiPlanarToRgb
    case _ => Yuv420PlanarToRgb
  }

  /** Each conversion mode is the one chosen for the layout it reads, so the two
      named formats map one-to-one onto the two modes. */
  lemma ConversionForSourceLayout(c: Conversion)
    ensures ConversionFor(SourceLayout(c)) == c
  {
  }

  /** The default case: an unrecognised value is rendered as if it were planar. */
  lemma UnrecognisedFormatIsPlanar(raw: int)
    ensures ConversionFor(OtherFormat(raw)) == ConversionFor(Yuv420Planar)
  {
  }
}
