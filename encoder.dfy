/**
 * `saveImage`: the output format is chosen by the text from the last `.` of the
 * output path; the stb writers themselves are an abstract success/failure.
 */
module Encoder {
  import opened Wrappers
  import opened Naming

  /** The three stb writers, with the one argument each takes beyond the image itself. */
  datatype Writer = WritePng(strideBytes: int) | WriteJpg(quality: int) | WriteBmp

  datatype Format = Png | Jpg | Bmp

  /** One call of an stb writer: where it writes, what it is told about the image. */
  datatype WriterCall = WriterCall(writer: Writer, path: string, width: int, height: int, channels: int, dataLength: int)

  /** The two exceptions `saveImage` throws; both carry the path it was given. */
  datatype SaveError = NoExtension(filename: string) | WriteFailed(filename: string)

  const GrayChannels := 1
  const JpgQuality := 95

  /** The container a writer produces. */
  function FormatOf(w: Writer): Format
  {
    match w
    case WritePng(_) => Png
    case WriteJpg(_) => Jpg
    case WriteBmp => Bmp
  }

  /** The extensions the encoder knows, and the format each names. */
  function KnownFormat(ext: string): Option<Format>
  {
    if ext == ".png" then Some(Png)
    else if ext == ".jpg" || ext == ".jpeg" then Some(Jpg)
    else if ext == ".bmp" then Some(Bmp)
    else None
  }

  /** `filename.substr(filename.rfind('.'))`, or None when there is no `.`. */
  function ExtensionOf(filename: string): (r: Option<string>)
    ensures r.None? <==> '.' !in filename
    ensures r.Some? ==> IsExtensionShaped(r.value) && EndsWith(filename, r.value)
  {
    match LastIndexOf(filename, {'.'})
    case Some(dot) =>
      assert filename[dot + 1..] == filename[dot..][1..];
      Some(filename[dot..])
    case None => None
  }

  /** The writer call `saveImage` makes for a file name, or the no-extension error (lines 68-86). */
  function PlanWrite(filename: string, width: int, height: int, dataLength: int): Result<WriterCall, SaveError>
  {
    match LastIndexOf(filename, {'.'})
    case None => Failure(NoExtension(filename))
    case Some(dot) =>
      var ext := filename[dot..];
      var channels := GrayChannels;
      if ext == ".png" then
        Success(WriterCall(WritePng(width * channels), filename, width, height, channels, dataLength))
      else if ext == ".jpg" || ext == ".jpeg" then
        Success(WriterCall(WriteJpg(JpgQuality), filename, width, height, channels, dataLength))
      else if ext == ".bmp" then
        Success(WriterCall(WriteBmp, filename, width, height, channels, dataLength))
      else
        var fallback := filename[..dot] + ".png";
        Success(WriterCall(WritePng(width * channels), fallback, width, height, channels, dataLength))
  }

  /**
   * `saveImage` as a whole: plan the call, then let `write` decide whether the
   * stb writer succeeds; a failed write is an exception naming the requested path.
   */
  function SaveImage(filename: string, width: int, height: int, dataLength: int, write: WriterCall -> bool): (r: Result<WriterCall, SaveError>)
    ensures r.Failure? ==> r.error.filename == filename
    ensures r.Success? ==> write(r.value)
    ensures r.Success? ==> r.value.channels == 1 && r.value.width == width && r.value.height == height
    ensures r.Success? ==> r.value.dataLength == dataLength
  {
    match PlanWrite(filename, width, height, dataLength)
    case Failure(e) => Failure(e)
    case Success(call) => if write(call) then Success(call) else Failure(WriteFailed(filename))
  }

  /**
   * The two exceptions of `saveImage`: no `.` in the name, or a known or
   * fallback write that the writer reports as failed.
   */
  lemma SaveImageErrors(filename: string, width: int, height: int, dataLength: int, write: WriterCall -> bool)
    ensures var r := SaveImage(filename, width, height, dataLength, write);
      && (r.Failure? && r.error.NoExtension? <==> '.' !in filename)
      && ('.' in filename ==> (r.Success? <==> write(PlanWrite(filename, width, height, dataLength).value)))
      && ('.' in filename && r.Failure? ==> r.error == WriteFailed(filename))
      && (r.Success? ==> PlanWrite(filename, width, height, dataLength) == Success(r.value))
  {
  }

  /**
   * The dispatch table: a known extension writes its own format at the given
   * path; any other extension writes PNG at the path with that extension
   * replaced by `.png`. No `.` at all is the only error.
   */
  lemma Dispatch(filename: string, width: int, height: int, dataLength: int)
    ensures PlanWrite(filename, width, height, dataLength).Failure? <==> ExtensionOf(filename).None?
    ensures ExtensionOf(filename).Some? ==>
      var ext := ExtensionOf(filename).value;
      var call := PlanWrite(filename, width, height, dataLength).value;
      && (KnownFormat(ext).Some? ==> FormatOf(call.writer) == KnownFormat(ext).value && call.path == filename)
      && (KnownFormat(ext).None? ==> call.writer == WritePng(width) && call.path == filename[..|filename| - |ext|] + ".png")
  {
  }

  /**
   * Whatever the requested name, the file actually written has an extension
   * the encoder knows, and it names the container that was written: after a
   * fallback the path ends in `.png` and the bytes are PNG.
   */
  lemma WrittenPathNamesItsFormat(filename: string, width: int, height: int, dataLength: int)
    requires PlanWrite(filename, width, height, dataLength).Success?
    ensures var call := PlanWrite(filename, width, height, dataLength).value;
      ExtensionOf(call.path).Some? && KnownFormat(ExtensionOf(call.path).value) == Some(FormatOf(call.writer))
  {
    Dispatch(filename, width, height, dataLength);
    var ext := ExtensionOf(filename).value;
    if KnownFormat(ext).None? {
      PngFallbackExtension(filename[..|filename| - |ext|]);
    }
  }

  /** A name whose extension the encoder knows is written at that very path, in that format, or fails in the writer. */
  lemma SaveWithKnownExtension(filename: string, width: int, height: int, dataLength: int, write: WriterCall -> bool)
    requires ExtensionOf(filename).Some? && KnownFormat(ExtensionOf(filename).value).Some?
    ensures var r := SaveImage(filename, width, height, dataLength, write);
      && (r.Failure? ==> r.error == WriteFailed(filename))
      && (r.Success? ==> r.value.path == filename && Some(FormatOf(r.value.writer)) == KnownFormat(ExtensionOf(filename).value))
  {
    Dispatch(filename, width, height, dataLength);
  }

  /**
   * An extension the encoder does not know: the PNG writer is called at the
   * name with its last extension replaced by `.png`, or the writer fails; the
   * exception still names the requested file.
   */
  lemma SaveWithUnknownExtension(filename: string, width: int, height: int, dataLength: int, write: WriterCall -> bool)
    requires ExtensionOf(filename).Some? && KnownFormat(ExtensionOf(filename).value).None?
    ensures var r := SaveImage(filename, width, height, dataLength, write);
      var ext := ExtensionOf(filename).value;
      && (r.Failure? ==> r.error == WriteFailed(filename))
      && (r.Success? ==> r.value.writer == WritePng(width) && r.value.path == filename[..|filename| - |ext|] + ".png")
  {
    Dispatch(filename, width, height, dataLength);
    SaveImageErrors(filename, width, height, dataLength, write);
  }

  /** A name that ends in an extension-shaped `e` has `e` as its extension for `saveImage`. */
  lemma ExtensionOfSuffix(s: string, e: string)
    requires IsExtensionShaped(e) && EndsWith(s, e)
    ensures ExtensionOf(s) == Some(e)
  {
    LastDotOfSuffix(s, e);
  }

  /** The fallback path `base + ".png"` has `.png` as its extension, whatever `base` holds. */
  lemma PngFallbackExtension(base: string)
    ensures ExtensionOf(base + ".png") == Some(".png")
  {
    var p := base + ".png";
    assert p[|p| - 4..] == ".png";
    assert IsExtensionShaped(".png") by { assert ".png"[1..] == "png"; }
    LastDotOfSuffix(p, ".png");
  }

  /** The writer arguments `saveImage` fixes: one channel, a PNG row stride of `width` bytes, JPG quality 95. */
  lemma WriterArguments(filename: string, width: int, height: int, dataLength: int)
    requires PlanWrite(filename, width, height, dataLength).Success?
    ensures var call := PlanWrite(filename, width, height, dataLength).value;
      && call.channels == 1
      && (call.writer.WritePng? ==> call.writer.strideBytes == width)
      && (call.writer.WriteJpg? ==> call.writer.quality == 95)
  {
  }
}
