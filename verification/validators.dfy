/** The collaborators the layer calls but does not define: the three input
    validators and the `Color` value wrapper. Their bodies live elsewhere in
    fontParts, so a validator is an arbitrary total function that either
    returns a normalised value or fails with a message. */
module Validators {
  import opened Wrappers

  /** A raw colour as the environment stores it (an r, g, b, a tuple). */
  type ColorTuple = seq<real>

  /** The `Color` wrapper the colour getter puts around a validated tuple. */
  datatype Color = Color(components: ColorTuple)

  /** One choice of `validateLayerName`, `validateColor` and `validateGlyphName`. */
  datatype Validators = Validators(
    layerName: string -> Result<string, string>,
    color: ColorTuple -> Result<ColorTuple, string>,
    glyphName: string -> Result<string, string>)

  /** Validating a layer name that validation already produced gives it back. */
  ghost predicate LayerNameStable(v: Validators) {
    forall s :: v.layerName(s).Success? ==> v.layerName(v.layerName(s).value) == v.layerName(s)
  }

  /** Validating a colour that validation already produced gives it back. */
  ghost predicate ColorStable(v: Validators) {
    forall c :: v.color(c).Success? ==> v.color(v.color(c).value) == v.color(c)
  }

  /** Validating a glyph name that validation already produced gives it back. */
  ghost predicate GlyphNameStable(v: Validators) {
    forall s :: v.glyphName(s).Success? ==> v.glyphName(v.glyphName(s).value) == v.glyphName(s)
  }
}
