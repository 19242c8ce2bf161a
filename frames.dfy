/** Decoded images as the rest of the model sees them: opaque rasters. */
module Frames {

  /** One octet of an encoded image or of an HTTP body. */
  newtype byte = b: int | 0 <= b < 256

  /** A colour in the blue-green-red channel order of the image library. */
  datatype Bgr = Bgr(blue: nat, green: nat, red: nat)

  /** What a raster holds. Pixel data produced by the image library is kept opaque. */
  datatype Pixels =
    | Decoded(data: seq<byte>)
      /** An all-zero raster with a text label drawn on it at (originX, originY). */
    | LabelledBlank(text: string, originX: nat, originY: nat, fontScale: nat, color: Bgr, thickness: nat)

  /** A decoded image: height x width x channels raster. */
  datatype Frame = Frame(height: nat, width: nat, channels: nat, pixels: Pixels)
}
