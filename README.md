# Grayscale-NPP, modelled in Dafny

Grayscale-NPP is one C++ program, `main.cpp`. It reads every `.png`, `.jpg` and `.jpeg` file in `input_images`. Each file goes through the same steps:

1. stb decodes it to interleaved RGB.
2. The program allocates two CUDA device buffers and uploads the RGB data.
3. NPP's `nppiRGBToGray_8u_C3C1R` converts it to one channel.
4. The program downloads the result.
5. `saveImage` writes it to `output_images/<name>_grayscale<ext>`, choosing the stb writer by the extension.

An exception thrown while the program works on one file is caught, and the loop moves on to the next file.

The model keeps the program's own structure:

- `Naming`: the `find_last_of`/`rfind` searches, the filename/extension split of `loadImage`, and the paths `main` builds.
- `Candidates`: the suffix filter, and the loop that builds `image_files` from a directory listing (`CollectImageFiles`).
- `Encoder`: `saveImage`. It fails on a name without `.`. It selects PNG, JPG or BMP for a known extension, and for any other extension it falls back to PNG at a renamed path. The stb writer's success is an abstract predicate in this model.
- `Images`: the `Image` record and `loadImage`. The decoder's answer is an input to the model; its type, `StbResult`, holds stb's promise of positive dimensions and at least `w*h*3` bytes.
- `DeviceMemory`: `cudaMalloc`/`cudaFree` as operations on the set of live device buffers. Also the byte counts, strides and region `main` computes for one image.
- `Batch`: the per-file pipeline as a reference function `ProcessFile` (staged as `ConvertAndSave` and `SaveOutcome`), and the loop body `ProcessOne`, which hands a loaded image to `ProcessLoaded` for the device work. It also has the loop itself, `ProcessBatch`, and `main`, which is `Run`. The foreign calls form a `World`: what stb decodes at a path, the status NPP returns for that file, and whether a writer call succeeds.

The model follows the code as written, including where it leaks device buffers and ignores return codes:

- **Leaked buffers.** `saveImage` can throw after the two `cudaMalloc` calls. The throw skips the two `cudaFree` calls, so that file's buffers stay live. `ProcessBatch` and `Run` state this exactly: the number of live buffers at the end is twice the number of `SaveFailed` outcomes. `WriterFailureLeaks` shows that this path is reachable.
- **Unchecked return codes.** The return codes of `cudaMalloc` and `cudaMemcpy` are never checked, so the model has no allocation or transfer failure.
- **Unreachable error paths.** Every candidate ends in `.png`, `.jpg` or `.jpeg`. So inside `main`, the no-extension error and the PNG fallback of `saveImage` are dead code (`CandidateSaveDispatch`, `BatchSavesAtOutputPaths`). A file without an extension would get the name `<out>/<name>_grayscale`, and `saveImage` would refuse that name (`ExtensionlessOutputIsRefused`).
- **Windows with no entries.** On Windows, `FindFirstFileA` fails when it finds no entry at all, and `main` then returns `EXIT_FAILURE` as if the directory could not be opened (`DirectoryOpens`).
- **Exit status.** Per-file failures never change the exit status: `Run` returns 0 whenever the directory opens.

## Model

| member | source | states |
|---|---|---|
| `Naming.LastIndexOf` | main.cpp:51-54 | the index found holds one of the searched characters and none follows it; `npos` exactly when no character of the string is searched for |
| `Naming.FileNameOf` | main.cpp:51-52 | the result is the longest suffix of the path free of `/` and `\`: it has no separator, and whatever precedes it is a separator |
| `Naming.SplitExtension` | main.cpp:54-61 | name + extension is the file name; the extension is empty exactly when there is no `.`, otherwise it starts at a `.` and holds no other `.` |
| `Naming.LastDotOfSuffix` | main.cpp:68 | when a string ends in an extension-shaped suffix, `rfind('.')` finds the dot that starts that suffix |
| `Naming.FileNameKeepsSuffix` | main.cpp:51-52 | a separator-free suffix of a path is still a suffix of its file name |
| `Naming.FileNameOfJoin` | main.cpp:135 | cutting `dir + sep + name` at its last separator gives back a separator-free `name` |
| `Naming.JoinPath` | main.cpp:112-114 | the reference for `dir + sep + name`, the form of every input path `main` collects |
| `Naming.OutputPath` | main.cpp:195-197 | the reference for `output_dir + sep + name + "_grayscale" + extension` |
| `Naming.SplitAtKnownExtension` | main.cpp:54-57 | a file name ending in an extension-shaped `e` splits into the part before `e` and `e` |
| `Naming.EndsWithAppend` | main.cpp:111-113 | prefixing a string, as `main` does with the directory, keeps every suffix it had |
| `Naming.OutputPathEnds` | main.cpp:195-197 | an output path ends in `_grayscale` followed by the extension, and so in the extension |
| `Naming.ExtensionOfPathSuffix` | main.cpp:51-57 | a path ending in a separator-free, extension-shaped `e` gives `e` as the extension `loadImage` stores |
| `Candidates.IsCandidate` | main.cpp:132-138 | the reference for the suffix test: longer than 4 with `.png` or `.jpg` as the last 4 characters, or longer than 5 with `.jpeg` as the last 5 |
| `Candidates.CandidateNames` | main.cpp:130-140 | the reference for the accepted entries of a listing, in listing order |
| `Candidates.CandidateIffStemAndExtension` | main.cpp:132-139 | an entry is accepted exactly when it is a non-empty stem followed by `.png`, `.jpg` or `.jpeg` |
| `Candidates.CandidateHasStem` | main.cpp:132-137 | an accepted entry is a non-empty stem followed by one of the three input extensions |
| `Candidates.StemAndExtensionIsCandidate` | main.cpp:132-137 | a non-empty stem followed by one of the three input extensions is accepted |
| `Candidates.InputExtensionShape` | main.cpp:134-136 | each input extension starts with its only `.` and holds no separator |
| `Candidates.DotEntriesAreNotCandidates` | main.cpp:106-108 | `.`, `..` and the bare extensions fail the suffix test, so the Windows-only skip changes nothing |
| `Candidates.CandidatesAppend` | main.cpp:130-140 | filtering a listing keeps its order: the filter of a concatenation is the concatenation of the filters |
| `Candidates.CandidatesMembership` | main.cpp:130-140 | a name is among the candidates exactly when it is in the listing and passes the suffix test |
| `Candidates.CollectImageFiles` | main.cpp:104-117 | `image_files` holds the accepted entries in listing order, each one prefixed by the input directory and the platform separator |
| `Images.LoadImageNames` | main.cpp:51-61 | a decoded file's stored name and extension are the split of the path's file name |
| `Encoder.ExtensionOf` | main.cpp:68-72 | no extension exactly when the name has no `.`; otherwise an extension-shaped suffix of the name |
| `Encoder.PlanWrite` | main.cpp:68-86 | the reference for the writer call `saveImage` makes: the no-extension error, the PNG, JPG and BMP branches, and the PNG fallback at `filename.substr(0, dot_idx) + ".png"` |
| `Encoder.SaveImage` | main.cpp:67-91 | a successful save told the writer one channel, the given width, height and buffer, and the writer succeeded; every error names the requested path |
| `Encoder.SaveImageErrors` | main.cpp:68-90 | the no-extension error happens exactly when there is no `.`; otherwise the save succeeds exactly when the planned writer call succeeds, and a failure is the write error on the requested name; a successful save made exactly the planned writer call |
| `Encoder.Dispatch` | main.cpp:76-86 | a known extension writes its own format at the requested path; any other extension writes PNG at the path with its last extension replaced by `.png` |
| `Encoder.WrittenPathNamesItsFormat` | main.cpp:82-86 | the path actually written always ends in a known extension that names the container written, including after the PNG fallback |
| `Encoder.PngFallbackExtension` | main.cpp:84 | the fallback path `base + ".png"` has `.png` as its last extension |
| `Encoder.SaveWithKnownExtension` | main.cpp:76-81 | with a known extension, the file is written at the requested path in that format, or the writer fails |
| `Encoder.SaveWithUnknownExtension` | main.cpp:82-89 | with an extension the encoder does not know, a successful save wrote PNG, with a row stride of `width`, at the name with its last extension replaced by `.png`; a failure is the write error on the requested name |
| `Encoder.ExtensionOfSuffix` | main.cpp:68-72 | a name ending in an extension-shaped suffix has that suffix as its `saveImage` extension |
| `Encoder.WriterArguments` | main.cpp:73-85 | every writer call has one channel; PNG gets a row stride of `width` bytes and JPG gets quality 95 |
| `Images.LoadImage` | main.cpp:34-64 | a decode failure becomes the read error carrying the path and stb's reason; a success keeps the dimensions, forces 3 channels, copies exactly `w*h*3` bytes, and splits the file name as described above, with no separator in the name or the extension |
| `DeviceMemory.Malloc` | main.cpp:170-171 | the new handle was not live before (the model hands handles out in order, from `next`); it becomes live with the requested size and nothing else changes |
| `DeviceMemory.Free` | main.cpp:184-185 | the handle is no longer live and the other handles are unchanged |
| `DeviceMemory.FreeingBothRestores` | main.cpp:170-185 | two allocations followed by freeing both leave the live buffers as they were; without the frees there are two more |
| `DeviceMemory.PlanTransfer` | main.cpp:164-190 | the RGB size equals the host data uploaded and `rgbStep * height`; the gray size equals `grayStep * height` and the host gray buffer; the region is `{width, height}`; the RGB stride is three times the gray stride, which is `width` |
| `Batch.ProcessFile` | main.cpp:157-208 | the reference for one file's pipeline without the device: `loadImage`, then the conversion and the save |
| `Batch.ConvertAndSave` | main.cpp:180-199 | a loaded image is never a load failure; it is a conversion failure exactly when NPP's status is not success |
| `Batch.SaveOutcome` | main.cpp:195-199 | saving ends in a save error or a saved file; an error names the output path, and a saved file is at the output path, with the writer's success and a `w*h` buffer |
| `Batch.OutputFileFor` | main.cpp:51-61 | the reference for the output path of an input path: the path built at lines 195-197 from the name and extension `loadImage` stores |
| `Batch.ProcessFileFacts` | main.cpp:157-208 | a load failure happens exactly when stb fails; a conversion failure happens exactly when the image decoded and NPP returned a non-success status, which it carries; a saved file keeps the input dimensions, one channel and a `w*h` buffer, and the writer succeeded, at the constructed output path; a save error names that path |
| `Batch.ProcessFileSaves` | main.cpp:161-199 | when decoding and the conversion succeed, a file's result is what `saveImage` does with the output path built from the input path alone |
| `Batch.SaveOutcomeKnown` | main.cpp:76-81 | saving under a name whose extension the encoder knows either writes at that name, in the format the extension names, or fails in the writer; it never takes another error |
| `Batch.KnownInputExtension` | main.cpp:76-79 | the encoder knows each of the three input extensions |
| `Batch.CandidateFileExtension` | main.cpp:132-137 | the extension `loadImage` extracts from a candidate's path is one of the input extensions, and the candidate ends in it |
| `Batch.OutputKeepsExtension` | main.cpp:197 | an output path ends in `_grayscale` followed by the input extension, and that extension is what `saveImage` sees |
| `Batch.CandidateSaveDispatch` | main.cpp:195-199 | for every candidate: neither the no-extension error nor the PNG fallback can happen; a written file is at the output path, in the format its extension names |
| `Batch.ProcessOne` | main.cpp:157-208 | the loop body produces the `ProcessFile` outcome; it allocates two buffers unless decoding failed; the live buffers are unchanged unless the save threw, and then they gain exactly the two new handles with sizes `w*h*3` and `w*h` |
| `Batch.ProcessLoaded` | main.cpp:162-204 | after a successful load, the outcome is the conversion-and-save reference; two handles are consumed; the frees restore the live buffers on both the skip and the success path, and a save exception leaves the two new buffers live with the sizes requested |
| `Batch.ProcessBatch` | main.cpp:156-209 | every file is processed exactly once and in order, whatever the earlier outcomes; total allocations and the buffers still live at the end are the per-file sums |
| `Batch.OutcomesAt` | main.cpp:156-209 | the reference outcome list has one entry per file, the `k`-th being the step applied to the `k`-th file |
| `Batch.DirectoryOpens` | main.cpp:102-146 | the reference for whether `main` gets past the directory API: `opendir` or `FindFirstFileA` succeeded, which on Windows needs at least one entry |
| `Batch.Run` | main.cpp:93-213 | an unopenable directory returns `EXIT_FAILURE` with nothing processed; otherwise the exit status is 0, an empty candidate list processes nothing, and each candidate's outcome is `ProcessFile` of `input_dir + sep + name`, in listing order |
| `Batch.BatchSavesAtOutputPaths` | main.cpp:195-199 | over a whole run, every failed save is the write error on its constructed output path, and every written file is at that path, in the format its input extension names |
| `Batch.LeakIffSaveFailed` | main.cpp:199-208 | buffers remain live after the batch exactly when some file's save threw; the buffers left live never exceed the buffers allocated |
| `Batch.WriterFailureLeaks` | main.cpp:199-204 | a candidate that decodes and converts, followed by a failing writer, ends in a save error on its output path and leaves two buffers live |
| `Batch.ExtensionlessOutputIsRefused` | main.cpp:68-70 | a source name without `.`, under an output directory without `.`, gives `<out>/<name>_grayscale`, and `saveImage` throws the no-extension error for it |

## Left out

- The decoder is an input: it gives back dimensions and RGB bytes, which `loadImage` copies, or a reason for failing, which the read error carries. How stb decodes, the text of its reasons, the gray pixel values, the encoded container bytes and `stbi_image_free` are not modelled, because they are foreign library code. The writer is an abstract success predicate.
- The NPP kernel and its luma weights are not modelled, because the kernel is a foreign GPU primitive. Only its status is modelled, and it depends on the file being processed.
- `cudaMemcpy` is not modelled, because its return code is never checked. Nothing in the model represents a copy. `cudaMalloc`'s return code is never checked either, so allocation cannot fail in the model.
- `ProcessOne`: it does not model the contents of the downloaded gray buffer, which the NPP kernel produces. A writer call records only the buffer's length, `width * height`.
- Directory enumeration (`opendir`/`readdir`, `FindFirstFileA`/`FindNextFileA`, `closedir`, `FindClose`) is OS I/O, so it is not modelled. The listing is an input: either "cannot open", or the entry names in enumeration order.
- Console output on `std::cout` and `std::cerr` is not modelled, including the fallback warning of `saveImage` and the text of exception messages. The model keeps only which exception was thrown and the path it names.
- A `char` in a path stands for one byte of the `std::string`: `find_last_of`, `rfind` and `substr` work on bytes, and the model applies no encoding.
- C++ `int` overflow in `width * height * 3` is not modelled: integers are unbounded.
- Of the `_WIN32` split, the model keeps only the separator character, the explicit `.`/`..` skip, and the failure of `FindFirstFileA` on a listing with no entries.
