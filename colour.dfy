/** Values shared by every stage of the palette generator: HSL colours, RGB
    triples and the error outcomes of the driver script. */
module Colour {

  /** One colour in HSL space; each component is nominally in [0, 1]. */
  datatype Hsl = Hsl(h: real, s: real, l: real)

  /** An RGB triple as the converter returns it (channels nominally 0..255). */
  datatype Rgb = Rgb(r: int, g: int, b: int)

  predicate InUnitRange(x: real) { 0.0 <= x <= 1.0 }

  predicate ValidHsl(c: Hsl) { InUnitRange(c.h) && InUnitRange(c.s) && InUnitRange(c.l) }
}

module Results {

  /** The ways the driver script stops with an exception. */
  datatype Error =
    | MissingValue(flag: string)      // a `--` option in last position: the value lookup runs past argv
    | NoPixels                        // the filtered-out percentage divides by a zero pixel count
    | TooFewAnchors(found: nat)       // fewer than two dominant colours to index
    | EmptyBackgroundMode             // `[0]` on an empty `--background` value
    | HexBackgroundIndex              // `bg_color[2]` on the 1x3 array of the hex branch
    | TooFewAnsiColors(found: nat)    // fewer than sixteen expanded colours for the role table

  datatype Result<T> = Ok(value: T) | Err(error: Error)
}
