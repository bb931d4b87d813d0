/**
 * The `Image` record and `loadImage`: stb decodes a file to interleaved RGB,
 * and the path is split into a base name and an extension.
 */
module Images {
  import opened Wrappers
  import opened Naming

  newtype byte = x: int | 0 <= x < 256

  /** The channel count `loadImage` forces on every decode. */
  const RgbChannels := 3

  /**
   * What `stbi_load(path, ..., 3)` gives back: the dimensions and the pixel
   * buffer, or a null pointer with `stbi_failure_reason()`.
   */
  datatype DecodeResult = Decoded(width: int, height: int, pixels: seq<byte>) | DecodeFailed(reason: string)
  {
    /** stb's own promise: positive dimensions and at least `width * height * 3` bytes. */
    predicate Valid()
    {
      Decoded? ==> width > 0 && height > 0 && |pixels| >= width * height * RgbChannels
    }
  }

  /** A decoder answer that keeps stb's promise. */
  type StbResult = d: DecodeResult | d.Valid() witness DecodeFailed("")

  datatype Image = Image(width: int, height: int, channels: int, data: seq<byte>, name: string, extension: string)

  /** The `runtime_error` thrown when stb cannot read the file. */
  datatype LoadError = CannotRead(path: string, reason: string)

  /** `loadImage` (lines 34-64), given what the decoder returned for `path`. */
  function LoadImage(path: string, decoded: DecodeResult): (r: Result<Image, LoadError>)
    requires decoded.Valid()
    ensures r.Failure? <==> decoded.DecodeFailed?
    ensures r.Failure? ==> r.error == CannotRead(path, decoded.reason)
    ensures r.Success? ==>
      var img := r.value;
      && img.width == decoded.width && img.height == decoded.height && img.channels == 3
      && |img.data| == img.width * img.height * 3 && img.data == decoded.pixels[..|img.data|]
    ensures r.Success? ==>
      var img := r.value;
      var filename := FileNameOf(path);
      && img.name + img.extension == filename
      && SeparatorFree(img.name) && SeparatorFree(img.extension)
      && (img.extension == "" <==> '.' !in filename)
      && (img.extension != "" ==> IsExtensionShaped(img.extension))
  {
    match decoded
    case DecodeFailed(reason) => Failure(CannotRead(path, reason))
    case Decoded(width, height, pixels) =>
      var data := pixels[..width * height * RgbChannels];
      var split := SplitExtension(FileNameOf(path));
      assert forall j :: 0 <= j < |split.name| ==> split.name[j] == (split.name + split.extension)[j];
      assert forall j :: 0 <= j < |split.extension| ==>
        split.extension[j] == (split.name + split.extension)[|split.name| + j];
      Success(Image(width, height, RgbChannels, data, split.name, split.extension))
  }

  /** The name and extension `loadImage` stores are the split of the path's file name. */
  lemma LoadImageNames(path: string, decoded: DecodeResult)
    requires decoded.Valid() && decoded.Decoded?
    ensures LoadImage(path, decoded).Success?
    ensures var img := LoadImage(path, decoded).value;
      SplitName(img.name, img.extension) == SplitExtension(FileNameOf(path))
  {
  }
}
