# imagen scripts — a verified model

This project models the deterministic core of the four scripts of the imagen
skill, which generate images with the Gemini image API:

- `generate_image.py`: detects the image format from magic bytes, names the
  saved file with a four-character unique id and corrects its extension,
  validates the requested size, builds the JSON request body (reference images
  first, then the prompt), and extracts the inline image payload from the
  response.
- `generate_with_preset.py`: finds preset files along a search path of
  directories, combines several comma-separated presets into one text, puts
  that text in front of the user prompt, lists the available presets, and
  decides the post-processing steps (background removal, SVG palette).
- `convert_to_svg.py`: quantizes an RGBA raster to a fixed palette before
  tracing, picks the palette, and orders the quantize, trace and clean-up
  steps around the external tracer.
- `generate_batch.py`: turns command-line pairs or a JSON file into jobs,
  runs each job into a result record, and summarises the batch in
  completion order.

Modules, one per file:
- `Base`: `Option` and `byte`.
- `Text`: the Python string operations the scripts use.
- `JsonValue`: decoded JSON and Python's truthiness, `get`, `in` and iteration.
- `ImageFormat`, `Paths`: format detection and pathlib naming.
- `GenerateImage`, `GenerateWithPreset`, `SvgConversion`, `GenerateBatch`: one per script.

Where the source loops or updates state, the model is a method with loop
invariants, proved against a specification function. The properties are
proved about those functions:
- format detection, the pixel loop of quantization;
- the request builder, the preset loaders and the preset listing;
- the CLI pair parser, one job, and the batch loop.

The file system, the remote service, the base64 codec, the random id, and
the tracer's and writer's success are inputs.

A `sys.exit` inside a helper raises SystemExit, and `except Exception` does
not catch it. Inside a batch job, `future.result()` re-raises it in the main
thread while results are being collected. This happens for a missing
reference image, an HTTP error, an unreadable response and a failed save.
`run_batch` submits every job before it collects any result, and leaving the
`with ThreadPoolExecutor` block waits for the pool to shut down, so the other
jobs, running or queued, still run to completion and write their images.
What the exit cuts short is the collection of results, the progress lines,
the summary and the exit status `main` would compute; the process exits with
status 1 instead. A malformed job (not a dict, or without "prompt" or
"output") raises before its `try` and aborts collection the same way. Only
ordinary exceptions inside the `try` become error records
(`GenerateBatch.AfterReply`, `GenerateBatch.JobOutcomeOf`,
`GenerateBatch.DirectoryInputIsError`, `GenerateBatch.NonStringInputIsError`);
an exit stops collection in every completion order
(`GenerateBatch.AbortInAnyOrder`).

## Model

| member | source | states |
|---|---|---|
| ImageFormat.DetectImageFormat | plugins/imagen/skills/imagen/scripts/generate_image.py:69-79 | the loop over the signature table returns the extension of the first accepted signature, else ".jpg" (equal to `FormatOf`) |
| ImageFormat.FormatOf | plugins/imagen/skills/imagen/scripts/generate_image.py:36-42 | the detected extension is always one of .jpg, .png, .gif, .webp |
| ImageFormat.FirstAcceptedIsFormat | plugins/imagen/skills/imagen/scripts/generate_image.py:71-77 | the first signature in table order that accepts the data decides the format |
| ImageFormat.NoneAcceptedIsDefault | plugins/imagen/skills/imagen/scripts/generate_image.py:78-79 | data that no signature accepts is reported as ".jpg" |
| ImageFormat.SignaturesSelectFormats | plugins/imagen/skills/imagen/scripts/generate_image.py:36-42 | JPEG, PNG, GIF87a and GIF89a prefixes give .jpg, .png, .gif, .gif; data with no known prefix gives .jpg |
| ImageFormat.RiffClassification | plugins/imagen/skills/imagen/scripts/generate_image.py:73-77 | RIFF data of 12 bytes or more is .webp exactly when bytes 8..12 are "WEBP" (else .jpg); shorter RIFF data is .webp |
| ImageFormat.MimeType | plugins/imagen/skills/imagen/scripts/generate_image.py:139-145 | the MIME map, with image/jpeg for anything else |
| ImageFormat.MimeMatchesFormat | plugins/imagen/skills/imagen/scripts/generate_image.py:137-145 | the MIME type of a reference image is "image/" plus its detected format (jpeg for .jpg) |
| Text.StripIsStripped | plugins/imagen/skills/imagen/scripts/generate_with_preset.py:115 | `strip()` leaves no whitespace at either end |
| Text.StripEmpty | plugins/imagen/skills/imagen/scripts/generate_with_preset.py:120 | a piece is dropped by `if n.strip()` exactly when it is all whitespace |
| Text.StripIdempotent | plugins/imagen/skills/imagen/scripts/generate_with_preset.py:120 | stripping a stripped name changes nothing |
| Text.SplitPiecesFree | plugins/imagen/skills/imagen/scripts/generate_with_preset.py:120 | no piece of a split contains the separator |
| Text.JoinSplit | plugins/imagen/skills/imagen/scripts/generate_with_preset.py:120 | joining the pieces of a split with the separator gives the string back |
| Text.SplitJoin | plugins/imagen/skills/imagen/scripts/generate_with_preset.py:120 | splitting a join of separator-free pieces gives the pieces back |
| Text.Sort | plugins/imagen/skills/imagen/scripts/generate_with_preset.py:145 | `sorted` returns an ordered permutation of its input |
| Text.LessTotal | plugins/imagen/skills/imagen/scripts/generate_with_preset.py:145 | string comparison orders any two distinct strings |
| Text.LessTransitive | plugins/imagen/skills/imagen/scripts/generate_with_preset.py:145 | string comparison is transitive |
| Text.LessIrreflexive | plugins/imagen/skills/imagen/scripts/generate_with_preset.py:145 | no string is less than itself |
| Text.Lower | plugins/imagen/skills/imagen/scripts/generate_image.py:109 | lower-casing maps each character on its own and keeps the length |
| JsonValue.Lookup | plugins/imagen/skills/imagen/scripts/generate_batch.py:72-74 | a key is absent exactly when no member has it; otherwise the value belongs to a member with that key |
| JsonValue.LookupLast | plugins/imagen/skills/imagen/scripts/generate_batch.py:72-74 | the last member with the key decides the lookup, as `json.load` keeps the last of duplicate keys |
| JsonValue.Get | plugins/imagen/skills/imagen/scripts/generate_image.py:224-231 | `.get` is defined exactly on dicts (otherwise an AttributeError) |
| JsonValue.Iterate | plugins/imagen/skills/imagen/scripts/generate_image.py:233 | a list iterates over its items; only lists, dicts and strings are iterable |
| JsonValue.In | plugins/imagen/skills/imagen/scripts/generate_image.py:234 | `in` is defined on lists, dicts and strings; on a dict it tests the keys |
| JsonValue.First | plugins/imagen/skills/imagen/scripts/generate_image.py:231 | `[0]` on a non-empty list is its first item; defined on lists and strings only |
| Paths.ParsePrintRoundTrip | plugins/imagen/skills/imagen/scripts/generate_batch.py:73 | printing a parsed path gives back the string (`str(Path(s))`, without normalisation) |
| Paths.PrintParseRoundTrip | plugins/imagen/skills/imagen/scripts/generate_batch.py:82 | parsing a printed path gives back the path |
| Paths.WithName | plugins/imagen/skills/imagen/scripts/generate_image.py:66 | `with_name` raises for an empty path or an invalid name and otherwise keeps the directory |
| Paths.WithSuffix | plugins/imagen/skills/imagen/scripts/generate_image.py:114 | `with_suffix` raises for an empty name or an invalid suffix; otherwise the name is the stem plus the new suffix |
| Paths.AppendExt | plugins/imagen/skills/imagen/scripts/generate_image.py:114 | appending a plain extension to a non-empty stem makes that extension the suffix and keeps the stem |
| Paths.StemAndSuffix | plugins/imagen/skills/imagen/scripts/generate_image.py:62-63 | stem followed by suffix is the name |
| Paths.StemNonEmpty | plugins/imagen/skills/imagen/scripts/generate_image.py:62 | a non-empty name has a non-empty stem |
| Paths.UniqueNameValid | plugins/imagen/skills/imagen/scripts/generate_image.py:65-66 | the unique name is accepted by `with_name` exactly when the original name has no separator |
| Paths.ApplyUniqueNaming | plugins/imagen/skills/imagen/scripts/generate_image.py:54-66 | unique naming succeeds exactly for a non-empty, separator-free name and keeps the directory |
| Paths.UniqueNamingKeepsSuffix | plugins/imagen/skills/imagen/scripts/generate_image.py:45-66 | the new name's stem is stem + "_" + id and its suffix is the original suffix (names without a trailing dot) |
| Paths.NoSuffixNoDot | plugins/imagen/skills/imagen/scripts/generate_image.py:62-63 | a name without a suffix or trailing dot has no dot after its first character |
| Paths.TrailingDotMovesSuffix | plugins/imagen/skills/imagen/scripts/generate_image.py:62-66 | "image." becomes "image._id", whose suffix is "._id" |
| Paths.LowerUnchanged | plugins/imagen/skills/imagen/scripts/generate_image.py:109 | lower-casing leaves a string without capitals unchanged |
| Paths.ReplacedSuffix | plugins/imagen/skills/imagen/scripts/generate_image.py:113-114 | replacing the suffix with a detected extension keeps the stem and makes the extension the suffix |
| Paths.FixExtension | plugins/imagen/skills/imagen/scripts/generate_image.py:107-118 | the result keeps directory and stem and its normalised suffix is the detected one; a path that already matches (".jpeg" counting as ".jpg") is unchanged |
| Paths.FixExtensionIdempotent | plugins/imagen/skills/imagen/scripts/generate_image.py:107-118 | correcting the extension twice is correcting it once |
| GenerateImage.ValidateImageSize | plugins/imagen/skills/imagen/scripts/generate_image.py:32-33 | the result is always a valid size: the argument if valid, else "1K" |
| GenerateImage.ValidateImageSizeIdempotent | plugins/imagen/skills/imagen/scripts/generate_image.py:99-104 | validating a validated size changes nothing |
| GenerateImage.BuildRequestBody | plugins/imagen/skills/imagen/scripts/generate_image.py:150-187 | reading the body back gives the prompt, the size and the reference images in order; the parts are one inlineData part per image then one text part; the modalities are ["IMAGE","TEXT"] |
| GenerateImage.ImageParts | plugins/imagen/skills/imagen/scripts/generate_image.py:158-168 | the inline parts read back as exactly the reference images, in input order |
| GenerateImage.ReadImagePartsAppend | plugins/imagen/skills/imagen/scripts/generate_image.py:161-168 | appending an inline part appends its image to what is read back |
| GenerateImage.ReadEnvelope | plugins/imagen/skills/imagen/scripts/generate_image.py:171-186 | the envelope around image parts and the text part reads back as the request |
| GenerateImage.ReadUserContent | plugins/imagen/skills/imagen/scripts/generate_image.py:174-179 | the user content reads back as the prompt and the images |
| GenerateImage.ReadGenerationConfig | plugins/imagen/skills/imagen/scripts/generate_image.py:180-185 | the generation config reads back as the image size |
| GenerateImage.ExtractImageData | plugins/imagen/skills/imagen/scripts/generate_image.py:219-241 | an empty list response is a parse failure (exit 1); a response that is neither list nor dict raises AttributeError; for a dict response "No candidates in response" is raised exactly when its "candidates" value is falsy |
| GenerateImage.SavedPath | plugins/imagen/skills/imagen/scripts/generate_image.py:256-264 | the saved file stays in the output's directory and its name carries the detected format's extension; without unique naming only an empty name fails, and a name that already has the right suffix is kept |
| GenerateImage.ListWrappedResponse | plugins/imagen/skills/imagen/scripts/generate_image.py:222-226 | a streamed response (a list) is read through its first element; an empty list is a parse failure |
| GenerateImage.NoCandidatesRaises | plugins/imagen/skills/imagen/scripts/generate_image.py:226-229 | a response without candidates, or with an empty list of them, raises "No candidates in response" |
| GenerateImage.ScanFindsFirstInline | plugins/imagen/skills/imagen/scripts/generate_image.py:233-235 | the first part holding "inlineData" supplies the data, "" when it has no "data" |
| GenerateImage.ScanWithoutInline | plugins/imagen/skills/imagen/scripts/generate_image.py:237 | parts without "inlineData" raise "No image data found in response parts" |
| GenerateImage.DocumentedShape | plugins/imagen/skills/imagen/scripts/generate_image.py:219-237 | for candidates[0].content.parts, extraction is the scan of those parts, whether or not the response is wrapped in a list |
| GenerateImage.LoadInputImage | plugins/imagen/skills/imagen/scripts/generate_image.py:128-147 | a missing path exits, a directory fails to read, a file gives its base64 and the MIME type of its detected format |
| GenerateImage.SavedPathShape | plugins/imagen/skills/imagen/scripts/generate_image.py:256-264 | with unique naming the saved name is stem_id plus the original suffix when it names the detected format, else plus the detected extension |
| GenerateImage.SavedPathWithoutId | plugins/imagen/skills/imagen/scripts/generate_image.py:260-264 | without unique naming only the extension is corrected |
| GenerateImage.TrailingDotLosesUniqueId | plugins/imagen/skills/imagen/scripts/generate_image.py:259-264 | "image." with JPEG data is saved as "image.jpg": the id is lost |
| GenerateImage.SaveImage | plugins/imagen/skills/imagen/scripts/generate_image.py:244-269 | saving succeeds exactly when the payload is a string that decodes, the path can be formed and the write succeeds; then the decoded bytes go to the computed path |
| GenerateWithPreset.Present | plugins/imagen/skills/imagen/scripts/generate_with_preset.py:71-74 | only existing directories are on the path, with their listings |
| GenerateWithPreset.PresentComplete | plugins/imagen/skills/imagen/scripts/generate_with_preset.py:71-74 | every existing working-directory preset directory is on the path |
| GenerateWithPreset.GetPresetDirs | plugins/imagen/skills/imagen/scripts/generate_with_preset.py:68-90 | the search path: working-directory subfolders in order, then a non-empty existing env directory, then the built-in directory |
| GenerateWithPreset.SearchPathOrder | plugins/imagen/skills/imagen/scripts/generate_with_preset.py:68-90 | working-directory folders come first; the built-in directory, when present, is last |
| GenerateWithPreset.FileContent | plugins/imagen/skills/imagen/scripts/generate_with_preset.py:115 | a file's content is found exactly when the listing has that file |
| GenerateWithPreset.PresetFileName | plugins/imagen/skills/imagen/scripts/generate_with_preset.py:95-96 | the file name ends in ".txt" and is the name itself when it already does |
| GenerateWithPreset.PresetFileNameIdempotent | plugins/imagen/skills/imagen/scripts/generate_with_preset.py:96 | "name" and "name.txt" find the same file |
| GenerateWithPreset.FindPreset | plugins/imagen/skills/imagen/scripts/generate_with_preset.py:93-103 | not found exactly when no directory has the file; otherwise the first directory that has it |
| GenerateWithPreset.FindPresetShadowed | plugins/imagen/skills/imagen/scripts/generate_with_preset.py:98-101 | a preset in an earlier directory shadows later ones |
| GenerateWithPreset.LoadPreset | plugins/imagen/skills/imagen/scripts/generate_with_preset.py:106-115 | missing exactly when not found; the text is stripped |
| GenerateWithPreset.NonEmptyStripped | plugins/imagen/skills/imagen/scripts/generate_with_preset.py:120 | the kept names are non-empty and stripped |
| GenerateWithPreset.PresetNames | plugins/imagen/skills/imagen/scripts/generate_with_preset.py:120 | the preset names are non-empty, stripped and free of commas |
| GenerateWithPreset.NamesComeFromPieces | plugins/imagen/skills/imagen/scripts/generate_with_preset.py:120 | the kept names contain no separator |
| GenerateWithPreset.NonEmptyStrippedKeeps | plugins/imagen/skills/imagen/scripts/generate_with_preset.py:120 | names that are already non-empty and stripped are all kept |
| GenerateWithPreset.PresetNamesRoundTrip | plugins/imagen/skills/imagen/scripts/generate_with_preset.py:120 | names joined by commas parse back to the same names |
| GenerateWithPreset.PresetBlocksSpec | plugins/imagen/skills/imagen/scripts/generate_with_preset.py:124-127 | the blocks exist exactly when every name loads; block i is "# Preset: name" + newline + content |
| GenerateWithPreset.PresetBlocksAppend | plugins/imagen/skills/imagen/scripts/generate_with_preset.py:125-127 | loading one more name appends its block |
| GenerateWithPreset.FirstMissingPreset | plugins/imagen/skills/imagen/scripts/generate_with_preset.py:108-113 | the first name that does not load stops the whole load |
| GenerateWithPreset.LoadPresets | plugins/imagen/skills/imagen/scripts/generate_with_preset.py:118-129 | either the blocks of all names in order joined by blank lines ("" for no names), or the first name that is not found |
| GenerateWithPreset.BuildPromptWithPresets | plugins/imagen/skills/imagen/scripts/generate_with_preset.py:158-168 | empty preset text gives the prompt unchanged; otherwise preset, then the delimiter, then the prompt |
| GenerateWithPreset.UserPromptRecoverable | plugins/imagen/skills/imagen/scripts/generate_with_preset.py:158-168 | the user prompt is the tail of the composed prompt |
| GenerateWithPreset.GlobTxt | plugins/imagen/skills/imagen/scripts/generate_with_preset.py:145 | the glob yields exactly the files ending in ".txt" |
| GenerateWithPreset.Describe | plugins/imagen/skills/imagen/scripts/generate_with_preset.py:152 | the description is the first line cut to 60 characters |
| GenerateWithPreset.ListPresets | plugins/imagen/skills/imagen/scripts/generate_with_preset.py:132-154 | no directories gives the "none found" result; otherwise each name is listed once, from the first directory holding it, directories in order and files sorted within one |
| GenerateWithPreset.ListDirectory | plugins/imagen/skills/imagen/scripts/generate_with_preset.py:144-154 | one directory extends the listing and keeps its invariant |
| GenerateWithPreset.AddPreset | plugins/imagen/skills/imagen/scripts/generate_with_preset.py:148-154 | one file is listed unless its name was seen |
| GenerateWithPreset.SkipSeenPreset | plugins/imagen/skills/imagen/scripts/generate_with_preset.py:150 | a seen name is skipped |
| GenerateWithPreset.ExtendListing | plugins/imagen/skills/imagen/scripts/generate_with_preset.py:150-154 | listing a new name keeps names distinct, in order and from their first directory |
| GenerateWithPreset.ExtendEntries | plugins/imagen/skills/imagen/scripts/generate_with_preset.py:150-154 | a new entry keeps the names distinct and the order |
| GenerateWithPreset.AppendDistinct | plugins/imagen/skills/imagen/scripts/generate_with_preset.py:148-153 | adding a name not yet seen keeps the listed names distinct |
| GenerateWithPreset.AppendInOrder | plugins/imagen/skills/imagen/scripts/generate_with_preset.py:143-148 | an entry of the current directory that sorts after its earlier entries keeps directory-then-file order |
| GenerateWithPreset.ExtendSeen | plugins/imagen/skills/imagen/scripts/generate_with_preset.py:154 | the seen set tracks the listed names |
| GenerateWithPreset.ExtendInDir | plugins/imagen/skills/imagen/scripts/generate_with_preset.py:148 | entries of one directory stay in sorted file order |
| GenerateWithPreset.ProjectPresets | plugins/imagen/skills/imagen/scripts/generate_with_preset.py:351-356 | the candidates are preset names that are not built-in |
| GenerateWithPreset.ProjectPresetsStep | plugins/imagen/skills/imagen/scripts/generate_with_preset.py:352-356 | each piece in turn is a candidate when its trimmed name is non-empty and not built-in |
| GenerateWithPreset.ChooseSvgPalette | plugins/imagen/skills/imagen/scripts/generate_with_preset.py:348-356 | an explicit palette wins; otherwise the first project preset; otherwise the palette as given |
| GenerateWithPreset.FirstProjectPreset | plugins/imagen/skills/imagen/scripts/generate_with_preset.py:350-356 | no palette exactly when no stripped, non-empty piece is outside the built-ins; otherwise the first such piece |
| GenerateWithPreset.ChooseBackgroundStep | plugins/imagen/skills/imagen/scripts/generate_with_preset.py:337-343 | --remove-bg takes precedence; the target is the saved path with ".png"; the source is deleted exactly when it differs from the target |
| GenerateWithPreset.RembgKeepsPngSource | plugins/imagen/skills/imagen/scripts/generate_with_preset.py:189-196 | a saved .png is rewritten in place and not deleted |
| SvgConversion.Dist | plugins/imagen/skills/imagen/scripts/convert_to_svg.py:86 | the squared RGB distance is non-negative and zero exactly for equal RGB |
| SvgConversion.SameColourSameDist | plugins/imagen/skills/imagen/scripts/convert_to_svg.py:86 | entries with the same RGB are equally far from every pixel |
| SvgConversion.NearestIndex | plugins/imagen/skills/imagen/scripts/convert_to_svg.py:82-89 | the chosen entry is at minimal distance and no earlier entry is as near (strict `<`) |
| SvgConversion.QuantizedPixel | plugins/imagen/skills/imagen/scripts/convert_to_svg.py:78-91 | alpha below 128 gives transparent black; otherwise the nearest palette entry |
| SvgConversion.QuantizedPixelFirstNearest | plugins/imagen/skills/imagen/scripts/convert_to_svg.py:82-89 | any entry as near as the result is not earlier than it |
| SvgConversion.NearestIsFirstOfColour | plugins/imagen/skills/imagen/scripts/convert_to_svg.py:85-89 | no earlier entry has the chosen RGB |
| SvgConversion.QuantizeIdempotent | plugins/imagen/skills/imagen/scripts/convert_to_svg.py:78-91 | with an opaque palette, quantizing a quantized pixel changes nothing |
| SvgConversion.NearestColor | plugins/imagen/skills/imagen/scripts/convert_to_svg.py:82-91 | the inner loop picks the first nearest palette entry |
| SvgConversion.Quantize | plugins/imagen/skills/imagen/scripts/convert_to_svg.py:71-91 | a new raster of the same dimensions, each pixel quantized |
| SvgConversion.BuiltinPalettesOpaque | plugins/imagen/skills/imagen/scripts/convert_to_svg.py:102-109 | the built-in and default palettes are non-empty and opaque |
| SvgConversion.ChoosePalette | plugins/imagen/skills/imagen/scripts/convert_to_svg.py:162-177 | quantization runs exactly for the logo preset or a given palette; a known palette is used, otherwise the four-colour default |
| SvgConversion.SvgPath | plugins/imagen/skills/imagen/scripts/convert_to_svg.py:180 | the output path gets the ".svg" suffix, keeping directory and stem |
| SvgConversion.SvgPathIdempotent | plugins/imagen/skills/imagen/scripts/generate_with_preset.py:361 | applying ".svg" twice is applying it once |
| SvgConversion.ConvertToSvg | plugins/imagen/skills/imagen/scripts/convert_to_svg.py:112-219 | a missing tracer or input exits before any step; an empty output name or a failing mkdir of the output's directory crashes after quantizing and leaves the temporary file; otherwise quantize (if chosen), trace to the .svg path, and remove the temporary file on both paths; written only when tracing succeeds and the output exists |
| GenerateBatch.ParseCliJobs | plugins/imagen/skills/imagen/scripts/generate_batch.py:198-211 | an even count gives len/2 jobs, job k = (args[2k], args[2k+1]); an odd count exits naming the last prompt |
| GenerateBatch.PairsFlattenToArgs | plugins/imagen/skills/imagen/scripts/generate_batch.py:198-211 | the parsed pairs flatten back to the arguments |
| GenerateBatch.SelectJobs | plugins/imagen/skills/imagen/scripts/generate_batch.py:253-287 | no arguments exits; one ".json" argument selects JSON mode, where a missing file exits, a file that `json.load` rejects (not JSON, or a directory) raises, a non-dict file raises, a falsy "jobs" value is "No jobs to process", a truthy non-list is not a job list, and a non-empty list is the job list, with a non-empty --preset overriding the file's preset; otherwise an odd argument count exits naming the last prompt and an even one gives one job per pair |
| GenerateBatch.CliJobFields | plugins/imagen/skills/imagen/scripts/generate_batch.py:206-209 | a job built from a command-line pair reads back in `generate_single` as that prompt and output |
| GenerateBatch.NormalizeInputs | plugins/imagen/skills/imagen/scripts/generate_batch.py:74-78 | "input" wins over "inputs", an absent key gives [], the result is never a bare string |
| GenerateBatch.SingleInputIsList | plugins/imagen/skills/imagen/scripts/generate_batch.py:77-78 | a single string is a one-element list |
| GenerateBatch.InputBeatsInputs | plugins/imagen/skills/imagen/scripts/generate_batch.py:74 | "input" takes priority over "inputs" |
| GenerateBatch.LoadInputsFailureStays | plugins/imagen/skills/imagen/scripts/generate_batch.py:93-95 | the first failing reference image decides the outcome |
| GenerateBatch.LoadReferenceImages | plugins/imagen/skills/imagen/scripts/generate_batch.py:90-95 | the loop loads the images in order, or stops at the first failure |
| GenerateBatch.JobFields | plugins/imagen/skills/imagen/scripts/generate_batch.py:72-73 | a job yields its prompt and output exactly when it is a dict whose "prompt" and "output" are strings, and then exactly those two strings; a job that is not a dict, or lacks either key, is malformed |
| GenerateBatch.AfterReply | plugins/imagen/skills/imagen/scripts/generate_batch.py:104-127 | case by case: an API exit, an unreadable response (`ParseFailure`) and a failed save abort the batch, and nothing else does; an exception from the API call gives an error record with that exception; "No candidates in response" and "No image data found in response parts" give error records with those messages; an AttributeError gives an error record; truthy data that is saved gives a success whose final path is the saved path, and a success comes only from such data |
| GenerateBatch.JobOutcomeOf | plugins/imagen/skills/imagen/scripts/generate_batch.py:64-129 | a job aborts the batch as malformed exactly when its prompt and output cannot be read; a reference-image exception inside the `try` (TypeError, OSError) gives an error record carrying it |
| GenerateBatch.FinishJob | plugins/imagen/skills/imagen/scripts/generate_batch.py:105-127 | extraction, the empty-data check, saving and the success fields as specified |
| GenerateBatch.GenerateSingle | plugins/imagen/skills/imagen/scripts/generate_batch.py:64-129 | the job's outcome is `JobOutcomeOf`: a record, or a SystemExit that aborts result collection |
| GenerateBatch.JobLifecycle | plugins/imagen/skills/imagen/scripts/generate_batch.py:80-127 | a finished record has the job's prompt and output, is not pending, has final path and size exactly on success and an error exactly on error |
| GenerateBatch.ReplyLifecycle | plugins/imagen/skills/imagen/scripts/generate_batch.py:104-127 | after the remote reply a finished record keeps prompt and output, leaves pending, and fills final path and size exactly on success and the error exactly on error |
| GenerateBatch.DirectoryInputIsError | plugins/imagen/skills/imagen/scripts/generate_batch.py:88-95 | a reference path naming a directory gives an error record with an OSError, not an abort |
| GenerateBatch.NonStringInputIsError | plugins/imagen/skills/imagen/scripts/generate_batch.py:88-95 | a reference list whose first entry is not a string gives an error record with a TypeError, whatever follows |
| GenerateBatch.MissingInputEndsBatch | plugins/imagen/skills/imagen/scripts/generate_batch.py:93-95 | a missing reference image raises SystemExit, which aborts result collection, instead of giving an error record |
| GenerateBatch.EmptyImageDataIsError | plugins/imagen/skills/imagen/scripts/generate_batch.py:108-112 | empty image data gives "No image data received from API" and nothing is saved |
| GenerateBatch.PermutationBounds | plugins/imagen/skills/imagen/scripts/generate_batch.py:174 | a completion order lists each job index once |
| GenerateBatch.Collect | plugins/imagen/skills/imagen/scripts/generate_batch.py:174-177 | collecting every outcome gives one result per job; a collection stopped by a SystemExit holds fewer results than there were jobs |
| GenerateBatch.CollectSpec | plugins/imagen/skills/imagen/scripts/generate_batch.py:174-177 | collection is aborted exactly when some job exits; otherwise there is one result per job in completion order |
| GenerateBatch.CollectStoppedStays | plugins/imagen/skills/imagen/scripts/generate_batch.py:176 | once collection has been aborted, later completions change nothing |
| GenerateBatch.Successes | plugins/imagen/skills/imagen/scripts/generate_batch.py:191 | the count of "success" records never exceeds the number of records, so the failure count is never negative |
| GenerateBatch.SuccessesBound | plugins/imagen/skills/imagen/scripts/generate_batch.py:191-192 | successes are at most the results, and equal exactly when all succeeded |
| GenerateBatch.SuccessesSplit | plugins/imagen/skills/imagen/scripts/generate_batch.py:191 | counting successes adds up over concatenation |
| GenerateBatch.WithoutLast | plugins/imagen/skills/imagen/scripts/generate_batch.py:174 | removing the last job from a completion order leaves a completion order |
| GenerateBatch.PermuteLast | plugins/imagen/skills/imagen/scripts/generate_batch.py:174 | a completion order is the shorter one with the last job inserted |
| GenerateBatch.SuccessesPermuted | plugins/imagen/skills/imagen/scripts/generate_batch.py:191-192 | the success count does not depend on completion order |
| GenerateBatch.CountsIndependentOfOrder | plugins/imagen/skills/imagen/scripts/generate_batch.py:174-192 | when no job exits, any two completion orders give the same counts |
| GenerateBatch.AbortInAnyOrder | plugins/imagen/skills/imagen/scripts/generate_batch.py:174-177 | a job that exits aborts collection in every completion order |
| GenerateBatch.LoadBatchPresets | plugins/imagen/skills/imagen/scripts/generate_batch.py:143-145 | the presets are loaded once: "" when falsy, the combined text, a missing name, or a non-string preset |
| GenerateBatch.RunJobs | plugins/imagen/skills/imagen/scripts/generate_batch.py:158-177 | every job runs with the same preset text; results are collected in completion order |
| GenerateBatch.RunBatch | plugins/imagen/skills/imagen/scripts/generate_batch.py:132-195 | the summary holds the results, the success count and total minus successes; every job gets the same preset text |
| GenerateBatch.Summary | plugins/imagen/skills/imagen/scripts/generate_batch.py:189-192 | a finished batch carries the collected results, the number of successful records among them, and the job count minus that number as failures; an aborted one carries the reason and the results appended before it |
| GenerateBatch.ExitStatus | plugins/imagen/skills/imagen/scripts/generate_batch.py:300-301 | the process exits 0 exactly when the batch finished and every result is a success, otherwise 1 |
| GenerateBatch.ExitStatusMatchesCount | plugins/imagen/skills/imagen/scripts/generate_batch.py:300-301 | a finished batch exits 1 exactly when the failure count is positive |

## Left out

- Network and configuration: `make_api_request`, `get_api_endpoint`, `get_api_key`, model and size options. The remote service is a function from the request read back from the body to a reply: a response, an exit (HTTP or connection error) or another exception.
- Concurrency: the thread pool is a sequential fold over an arbitrary completion order. When collection is aborted, the jobs still running or still queued run to completion during the executor's shutdown and write their images; the model does not follow them, since their results are never collected or reported.
- Foreign libraries: PIL image decoding and saving, numpy, rembg, vtracer and `remove_white_bg.py`. Rasters are 2-D arrays of integer RGBA pixels; the tracer and the background removers are steps with their inputs and outputs.
- Base64 and JSON encoding: the codecs are function parameters and the request is a JSON value, not bytes. JSON numbers are integers only, and iterating an object whose members repeat a key visits that key once per member, where the decoded dict holds it once.
- Floating point: `get_file_size`, elapsed times and the tracer's float option appear only as given texts or options.
- Randomness: the unique id is a parameter of length 4 over a-z0-9; collisions are not modelled.
- Path handling: paths are a directory and a name split at the last "/". pathlib's normalisation is not modelled: it drops "." components and repeated and trailing separators (it keeps ".."). The largest effect is a trailing separator: `Path("out/").name` is "out", so Python saves "out_<id>.jpg" and records the output as "out", while the model reads the name as empty, records "out/", and the job's save exits (`SaveExit`) because unique naming fails on an empty name. `create_output_dir` is not modelled either.
- GenerateWithPreset.FindPreset: a preset name containing "/" is looked up as a file name in each directory's flat listing and is never found, so `load_presets` exits. Python joins it onto the directory (`preset_dir / filename`): it reaches a subdirectory, a sibling through "..", or, for an absolute name, a file outside every preset directory, and loads it when that path is a file.
- Text.Lower: only ASCII letters are lower-cased; Python's `str.lower()` also changes other letters.
- GenerateBatch.JobFields: a JSON job whose "prompt" is not a string is treated as malformed. Python would continue and format the value into the prompt.
- GenerateBatch.SelectJobs: a truthy "jobs" value that is not a list ends as `JobsNotList`; the later TypeError or AttributeError paths are not separated.
- GenerateWithPreset.ListPresets: the printed layout (headings, padding, the "..." suffix) is not modelled; the listing is the sequence of entries. Subdirectories named "*.txt" are not modelled.
- GenerateWithPreset.LoadPresets: when a name is missing, its contract states that the earlier names all load through `PresetBlocks` of the prefix, not as a separate list.
- GenerateWithPreset.GetPresetDirs: the working directory and the script directory are given as path strings, not resolved absolute paths.
- SvgConversion.ConvertToSvg: the PIL-missing exit of `quantize_to_palette` and the temporary file's name are not modelled.
- Printing and argparse usage text are not modelled.
