/**
 * `main`: list the input directory, keep the image files, and run each one
 * through decode, two device allocations, the NPP conversion, the download
 * and `saveImage`, catching every per-file exception and moving on.
 */
module Batch {
  import opened Wrappers
  import opened Naming
  import opened Candidates
  import opened Images
  import opened Encoder
  import opened DeviceMemory

  const InputDir: string := "input_images"
  const OutputDir: string := "output_images"

  const ExitSuccess := 0
  const ExitFailure := 1
  const NppSuccess := 0

  /** What the directory API reports: the directory cannot be opened, or its entry names in enumeration order. */
  datatype Listing = Unreadable | Listed(names: seq<string>)

  /**
   * The foreign calls, as total functions: what stb decodes at a path, the
   * status the NPP conversion returns while that file is processed, and
   * whether an stb writer call succeeds.
   */
  datatype World = World(decode: string -> StbResult, convert: string -> int, write: WriterCall -> bool)

  /** How processing one input file ends; each value is one exit from the body of the `for` loop. */
  datatype FileOutcome =
    | LoadFailed(loadError: LoadError)
    | ConvertFailed(status: int)
    | SaveFailed(saveError: SaveError)
    | Saved(output: string, call: WriterCall)

  /** The per-file pipeline of lines 157-208, without the device: the reference for the loop body. */
  function ProcessFile(platform: Platform, outputDir: string, path: string, world: World): FileOutcome
  {
    match LoadImage(path, world.decode(path))
    case Failure(e) => LoadFailed(e)
    case Success(img) => ConvertAndSave(platform, outputDir, img, world.convert(path), world.write)
  }

  /** Lines 180-199: a failed conversion skips the file; otherwise the result is saved at the output path. */
  function ConvertAndSave(platform: Platform, outputDir: string, img: Image, status: int, write: WriterCall -> bool): (r: FileOutcome)
    ensures !r.LoadFailed?
    ensures r.ConvertFailed? <==> status != NppSuccess
  {
    if status != NppSuccess then ConvertFailed(status)
    else SaveOutcome(OutputPath(platform, outputDir, img.name, img.extension), img.width, img.height, write)
  }

  /** Lines 197-199: `saveImage` on the downloaded `w*h` gray buffer. */
  function SaveOutcome(output: string, width: int, height: int, write: WriterCall -> bool): (r: FileOutcome)
    ensures r.SaveFailed? || r.Saved?
    ensures r.SaveFailed? ==> r.saveError.filename == output
    ensures r.Saved? ==> r.output == output && write(r.call) && r.call.dataLength == width * height
  {
    match SaveImage(output, width, height, width * height, write)
    case Failure(e) => SaveFailed(e)
    case Success(call) => Saved(output, call)
  }

  /** The output path `main` builds for an input path: a function of that path alone. */
  function OutputFileFor(platform: Platform, outputDir: string, path: string): string
  {
    var split := SplitExtension(FileNameOf(path));
    OutputPath(platform, outputDir, split.name, split.extension)
  }

  /**
   * For every candidate: `loadImage` extracts one of `.png`, `.jpg`, `.jpeg`,
   * the output path ends in it, and `saveImage` neither throws for a missing
   * extension nor falls back to PNG. The one way saving can fail is the writer.
   */
  lemma CandidateSaveDispatch(platform: Platform, inputDir: string, outputDir: string, name: string, world: World)
    requires IsCandidate(name)
    ensures
      var path := JoinPath(platform, inputDir, name);
      var ext := SplitExtension(FileNameOf(path)).extension;
      var o := ProcessFile(platform, outputDir, path, world);
      && ext in InputExtensions && EndsWith(name, ext)
      && EndsWith(OutputFileFor(platform, outputDir, path), GraySuffix + ext)
      && (o.SaveFailed? ==> o.saveError.WriteFailed?)
      && (o.Saved? ==> o.call.path == o.output && KnownFormat(ext) == Some(FormatOf(o.call.writer)))
  {
    var path := JoinPath(platform, inputDir, name);
    CandidateFileExtension(platform, inputDir, name);
    var ext := SplitExtension(FileNameOf(path)).extension;
    var output := OutputFileFor(platform, outputDir, path);
    OutputKeepsExtension(platform, outputDir, path);
    KnownInputExtension(ext);
    ProcessFileFacts(platform, outputDir, path, world);
    var d := world.decode(path);
    if d.Decoded? && world.convert(path) == NppSuccess {
      ProcessFileSaves(platform, outputDir, path, world);
      SaveOutcomeKnown(output, d.width, d.height, world.write);
    }
  }

  /** A name with an extension the encoder knows is saved at that path in that format, or the writer fails. */
  lemma SaveOutcomeKnown(output: string, width: int, height: int, write: WriterCall -> bool)
    requires ExtensionOf(output).Some? && KnownFormat(ExtensionOf(output).value).Some?
    ensures var o := SaveOutcome(output, width, height, write);
      && (o.SaveFailed? || o.Saved?)
      && (o.SaveFailed? ==> o.saveError == WriteFailed(output))
      && (o.Saved? ==> o.output == output && o.call.path == output
                       && KnownFormat(ExtensionOf(output).value) == Some(FormatOf(o.call.writer)))
  {
    SaveWithKnownExtension(output, width, height, width * height, write);
  }

  /**
   * What each outcome of one file means: a load failure is exactly a decode
   * failure; a conversion failure is exactly a non-success NPP status, which it
   * carries; a saved file keeps the decoded dimensions, one channel and a `w*h`
   * buffer, and the writer succeeded; a save error names the constructed output path.
   */
  lemma ProcessFileFacts(platform: Platform, outputDir: string, path: string, world: World)
    ensures var o := ProcessFile(platform, outputDir, path, world);
      var d := world.decode(path);
      && (o.LoadFailed? <==> d.DecodeFailed?)
      && (o.ConvertFailed? <==> d.Decoded? && world.convert(path) != NppSuccess)
      && (o.ConvertFailed? ==> o.status == world.convert(path))
      && (o.Saved? ==>
            && world.write(o.call)
            && o.call.width == d.width && o.call.height == d.height
            && o.call.channels == 1 && o.call.dataLength == d.width * d.height)
      && (o.Saved? ==> o.output == OutputFileFor(platform, outputDir, path))
      && (o.SaveFailed? ==> o.saveError.filename == OutputFileFor(platform, outputDir, path))
  {
    var d := world.decode(path);
    if d.Decoded? && world.convert(path) == NppSuccess {
      ProcessFileSaves(platform, outputDir, path, world);
    }
  }

  /** When decoding and the conversion succeed, what becomes of a file is what `saveImage` makes of its output path. */
  lemma ProcessFileSaves(platform: Platform, outputDir: string, path: string, world: World)
    requires world.decode(path).Decoded? && world.convert(path) == NppSuccess
    ensures var d := world.decode(path);
      ProcessFile(platform, outputDir, path, world)
        == SaveOutcome(OutputFileFor(platform, outputDir, path), d.width, d.height, world.write)
  {
    var d := world.decode(path);
    LoadImageNames(path, d);
    var img := LoadImage(path, d).value;
    assert img.width == d.width && img.height == d.height;
    assert OutputPath(platform, outputDir, img.name, img.extension) == OutputFileFor(platform, outputDir, path);
  }

  /** The encoder knows every extension the input filter accepts. */
  lemma KnownInputExtension(ext: string)
    requires ext in InputExtensions
    ensures KnownFormat(ext).Some?
  {
  }

  /** The extension `loadImage` extracts from a candidate is the input extension the candidate ends in. */
  lemma CandidateFileExtension(platform: Platform, inputDir: string, name: string)
    requires IsCandidate(name)
    ensures
      var ext := SplitExtension(FileNameOf(JoinPath(platform, inputDir, name))).extension;
      ext in InputExtensions && EndsWith(name, ext)
  {
    var path := JoinPath(platform, inputDir, name);
    CandidateIffStemAndExtension(name);
    var stem, ext :| ext in InputExtensions && stem != [] && name == stem + ext;
    InputExtensionShape(ext);
    EndsWithAppend(stem, ext, ext);
    EndsWithAppend(inputDir + [Separator(platform)], name, ext);
    ExtensionOfPathSuffix(path, ext);
  }

  /** An input path with an extension gives an output path that ends in `_grayscale` and that same extension. */
  lemma OutputKeepsExtension(platform: Platform, outputDir: string, path: string)
    requires SplitExtension(FileNameOf(path)).extension != ""
    ensures
      var ext := SplitExtension(FileNameOf(path)).extension;
      var output := OutputFileFor(platform, outputDir, path);
      EndsWith(output, GraySuffix + ext) && ExtensionOf(output) == Some(ext)
  {
    var split := SplitExtension(FileNameOf(path));
    OutputPathEnds(platform, outputDir, split.name, split.extension);
    ExtensionOfSuffix(OutputFileFor(platform, outputDir, path), split.extension);
  }

  /** The device buffers one file's processing allocates: none when `loadImage` throws, two otherwise. */
  function BuffersAllocated(o: FileOutcome): nat
  {
    if o.LoadFailed? then 0 else 2
  }

  /** The device buffers one file's processing leaves live: both when `saveImage` throws past the frees. */
  function BuffersLeaked(o: FileOutcome): nat
  {
    if o.SaveFailed? then 2 else 0
  }

  function TotalAllocated(report: seq<FileOutcome>): nat
  {
    if report == [] then 0 else TotalAllocated(report[..|report| - 1]) + BuffersAllocated(report[|report| - 1])
  }

  function TotalLeaked(report: seq<FileOutcome>): nat
  {
    if report == [] then 0 else TotalLeaked(report[..|report| - 1]) + BuffersLeaked(report[|report| - 1])
  }

  /**
   * The body of the `try` block (lines 157-204) for one file: `loadImage`, and
   * when it returns, the device work that `ProcessLoaded` does.
   */
  method ProcessOne(platform: Platform, outputDir: string, path: string, world: World, device: Device)
    returns (outcome: FileOutcome, device': Device)
    requires device.Valid()
    ensures outcome == ProcessFile(platform, outputDir, path, world)
    ensures device'.Valid() && device'.next == device.next + BuffersAllocated(outcome)
    ensures device.live.Keys <= device'.live.Keys
    ensures |device'.live| == |device.live| + BuffersLeaked(outcome)
    ensures !outcome.SaveFailed? ==> device'.live == device.live
    ensures outcome.SaveFailed? ==>
      var d := world.decode(path);
      d.Decoded? && device'.live == device.live[device.next := d.width * d.height * 3][device.next + 1 := d.width * d.height]
  {
    var loaded := LoadImage(path, world.decode(path));
    if loaded.Failure? {
      return LoadFailed(loaded.error), device;
    }
    outcome, device' := ProcessLoaded(platform, outputDir, loaded.value, world.convert(path), world.write, device);
  }

  /**
   * Lines 162-204 for a loaded image: two allocations, the conversion, and
   * either the frees and a skip, or the download, `saveImage` and the frees.
   * A `saveImage` exception leaves the block before the frees, so that file's
   * two buffers stay live, with the sizes `main` asked for.
   */
  method ProcessLoaded(platform: Platform, outputDir: string, img: Image, status: int, write: WriterCall -> bool, device: Device)
    returns (outcome: FileOutcome, device': Device)
    requires device.Valid() && |img.data| == img.width * img.height * 3
    ensures outcome == ConvertAndSave(platform, outputDir, img, status, write)
    ensures device'.Valid() && device'.next == device.next + 2
    ensures device.live.Keys <= device'.live.Keys
    ensures |device'.live| == |device.live| + BuffersLeaked(outcome)
    ensures !outcome.SaveFailed? ==> device'.live == device.live
    ensures outcome.SaveFailed? ==>
      device'.live == device.live[device.next := img.width * img.height * 3][device.next + 1 := img.width * img.height]
  {
    var plan := PlanTransfer(img);
    var rgb := Malloc(device, plan.rgbBytes);
    var gray := Malloc(rgb.device, plan.grayBytes);
    FreeingBothRestores(device, plan.rgbBytes, plan.grayBytes);
    device' := gray.device;
    // The upload's return code is not checked, so it cannot fail here.
    if status != NppSuccess {
      device' := Free(Free(device', rgb.handle), gray.handle);
      return ConvertFailed(status), device';
    }
    var output := OutputPath(platform, outputDir, img.name, img.extension);
    var saved := SaveImage(output, img.width, img.height, plan.hostGrayLength, write);
    if saved.Failure? {
      return SaveFailed(saved.error), device';
    }
    device' := Free(Free(device', rgb.handle), gray.handle);
    outcome := Saved(output, saved.value);
  }

  /**
   * The `for` loop of lines 156-209 over `image_files`. Each file is visited
   * once, in order, whatever happened to the ones before it; the device
   * buffers still live afterwards are exactly the two of every file whose
   * save threw, and two were allocated for every file that decoded.
   */
  method ProcessBatch(platform: Platform, outputDir: string, files: seq<string>, world: World)
    returns (report: seq<FileOutcome>, device: Device)
    ensures |report| == |files|
    ensures forall k :: 0 <= k < |files| ==> report[k] == ProcessFile(platform, outputDir, files[k], world)
    ensures device.Valid()
    ensures |device.live| == TotalLeaked(report)
    ensures device.next == TotalAllocated(report)
  {
    report := [];
    device := NoBuffers;
    for i := 0 to |files|
      invariant |report| == i
      invariant report == Outcomes(Pipeline(platform, outputDir, world), files[..i])
      invariant device.Valid()
      invariant |device.live| == TotalLeaked(report)
      invariant device.next == TotalAllocated(report)
    {
      var outcome;
      outcome, device := ProcessOne(platform, outputDir, files[i], world, device);
      assert files[..i + 1][..i] == files[..i];
      assert (report + [outcome])[..i] == report;
      report := report + [outcome];
    }
    assert files[..|files|] == files;
    OutcomesAt(Pipeline(platform, outputDir, world), files);
  }

  /** The per-file pipeline as a step from an input path to its outcome. */
  function Pipeline(platform: Platform, outputDir: string, world: World): string -> FileOutcome
  {
    path => ProcessFile(platform, outputDir, path, world)
  }

  /** The outcomes of running `step` on each file, in order. */
  function Outcomes(step: string -> FileOutcome, files: seq<string>): seq<FileOutcome>
  {
    if files == [] then [] else Outcomes(step, files[..|files| - 1]) + [step(files[|files| - 1])]
  }

  /** One outcome per file, the `k`-th being the step applied to the `k`-th file. */
  lemma {:induction false} OutcomesAt(step: string -> FileOutcome, files: seq<string>)
    ensures |Outcomes(step, files)| == |files|
    ensures forall k :: 0 <= k < |files| ==> Outcomes(step, files)[k] == step(files[k])
  {
    if files != [] {
      var prefix := files[..|files| - 1];
      OutcomesAt(step, prefix);
      assert forall k :: 0 <= k < |prefix| ==> prefix[k] == files[k];
    }
  }

  /** Whether the directory API hands `main` a listing: on Windows, `FindFirstFileA` needs a first entry. */
  predicate DirectoryOpens(platform: Platform, listing: Listing)
  {
    listing.Listed? && !(platform.Windows? && listing.names == [])
  }

  /**
   * `main`: an unopenable directory fails before anything is processed; no
   * candidates is a clean exit; otherwise every candidate, in listing order,
   * goes through the pipeline, and the exit status is success whatever the
   * per-file outcomes.
   */
  method Run(platform: Platform, listing: Listing, world: World) returns (exit: int, report: seq<FileOutcome>, device: Device)
    ensures !DirectoryOpens(platform, listing) ==> exit == ExitFailure && report == [] && device == NoBuffers
    ensures DirectoryOpens(platform, listing) ==> exit == ExitSuccess
    ensures DirectoryOpens(platform, listing) ==>
      var names := CandidateNames(listing.names);
      && |report| == |names|
      && forall k :: 0 <= k < |names| ==>
           report[k] == ProcessFile(platform, OutputDir, JoinPath(platform, InputDir, names[k]), world)
    ensures device.Valid() && |device.live| == TotalLeaked(report) && device.next == TotalAllocated(report)
  {
    if !DirectoryOpens(platform, listing) {
      return ExitFailure, [], NoBuffers;
    }
    var files := CollectImageFiles(platform, InputDir, listing.names);
    if files == [] {
      return ExitSuccess, [], NoBuffers;
    }
    report, device := ProcessBatch(platform, OutputDir, files, world);
    exit := ExitSuccess;
  }

  /**
   * Over a whole run: no candidate's save ever takes the no-extension error or
   * the PNG fallback; each written file is at the constructed output path, in
   * the format its input extension names, and a failed save is a writer failure.
   */
  lemma BatchSavesAtOutputPaths(platform: Platform, names: seq<string>, world: World)
    ensures forall k :: 0 <= k < |CandidateNames(names)| ==>
      var path := JoinPath(platform, InputDir, CandidateNames(names)[k]);
      var o := ProcessFile(platform, OutputDir, path, world);
      && (o.SaveFailed? ==> o.saveError == WriteFailed(OutputFileFor(platform, OutputDir, path)))
      && (o.Saved? ==> o.call.path == o.output && o.output == OutputFileFor(platform, OutputDir, path)
                       && KnownFormat(SplitExtension(FileNameOf(path)).extension) == Some(FormatOf(o.call.writer)))
  {
    forall k | 0 <= k < |CandidateNames(names)|
      ensures
        var path := JoinPath(platform, InputDir, CandidateNames(names)[k]);
        var o := ProcessFile(platform, OutputDir, path, world);
        && (o.SaveFailed? ==> o.saveError == WriteFailed(OutputFileFor(platform, OutputDir, path)))
        && (o.Saved? ==> o.call.path == o.output && o.output == OutputFileFor(platform, OutputDir, path)
                         && KnownFormat(SplitExtension(FileNameOf(path)).extension) == Some(FormatOf(o.call.writer)))
    {
      var name := CandidateNames(names)[k];
      CandidatesMembership(names, name);
      CandidateSaveDispatch(platform, InputDir, OutputDir, name, world);
      ProcessFileFacts(platform, OutputDir, JoinPath(platform, InputDir, name), world);
    }
  }

  /** Buffers stay live after a run exactly when some file's save threw. */
  lemma {:induction false} LeakIffSaveFailed(report: seq<FileOutcome>)
    ensures TotalLeaked(report) == 0 <==> forall k :: 0 <= k < |report| ==> !report[k].SaveFailed?
    ensures TotalLeaked(report) <= TotalAllocated(report)
  {
    if report != [] {
      var prefix := report[..|report| - 1];
      LeakIffSaveFailed(prefix);
      assert forall k :: 0 <= k < |prefix| ==> prefix[k] == report[k];
    }
  }

  /**
   * The leak is reachable: a candidate that decodes, converts and then meets a
   * failing writer ends in a save exception, which leaves its two buffers live.
   */
  lemma WriterFailureLeaks(platform: Platform, inputDir: string, outputDir: string, name: string, world: World)
    requires IsCandidate(name)
    requires world.decode(JoinPath(platform, inputDir, name)).Decoded?
    requires world.convert(JoinPath(platform, inputDir, name)) == NppSuccess
    requires forall c :: !world.write(c)
    ensures
      var path := JoinPath(platform, inputDir, name);
      var o := ProcessFile(platform, outputDir, path, world);
      o == SaveFailed(WriteFailed(OutputFileFor(platform, outputDir, path))) && BuffersLeaked(o) == 2
  {
    var path := JoinPath(platform, inputDir, name);
    CandidateSaveDispatch(platform, inputDir, outputDir, name, world);
    ProcessFileSaves(platform, outputDir, path, world);
  }

  /**
   * A source file with no extension would get the output path
   * `<output_dir>/<name>_grayscale`, with no `.`, and `saveImage` would throw for
   * it; the suffix filter keeps such files out of a run.
   */
  lemma ExtensionlessOutputIsRefused(platform: Platform, outputDir: string, path: string, width: int, height: int, write: WriterCall -> bool)
    requires '.' !in FileNameOf(path) && '.' !in outputDir
    ensures OutputFileFor(platform, outputDir, path) == JoinPath(platform, outputDir, FileNameOf(path) + GraySuffix)
    ensures SaveImage(OutputFileFor(platform, outputDir, path), width, height, width * height, write)
      == Failure(NoExtension(OutputFileFor(platform, outputDir, path)))
  {
    var f := FileNameOf(path);
    var split := SplitExtension(f);
    assert split.extension == "" && split.name == f;
    var output := JoinPath(platform, outputDir, f + GraySuffix);
    assert OutputFileFor(platform, outputDir, path) == output;
    assert '.' !in output by {
      assert '.' !in GraySuffix;
      assert output == outputDir + [Separator(platform)] + f + GraySuffix;
    }
    SaveImageErrors(output, width, height, width * height, write);
  }
}
