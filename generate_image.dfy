/**
 * The deterministic core of `generate_image.py` around the remote call:
 * image-size validation, the request body (reference images first, then one
 * text part), walking the response for the inline image payload, loading a
 * reference image, and choosing the path `save_image` writes to.
 *
 * Base64 is not modelled: encoding and decoding are supplied by the caller
 * as functions. The file system is a map from path strings to entries.
 */
module GenerateImage {
  import opened Base
  import opened Text
  import opened JsonValue
  import opened ImageFormat
  import opened Paths

  const DefaultImageSize := "1K"
  const ValidSizes: set<string> := {"512", "1K", "2K"}

  /** `validate_image_size`: a valid size is kept, anything else becomes "1K". */
  function ValidateImageSize(size: string): (r: string)
    ensures r in ValidSizes
    ensures size in ValidSizes ==> r == size
    ensures size !in ValidSizes ==> r == DefaultImageSize
  {
    if size !in ValidSizes then DefaultImageSize else size
  }

  /** Validating a validated size changes nothing. */
  lemma ValidateImageSizeIdempotent(size: string)
    ensures ValidateImageSize(ValidateImageSize(size)) == ValidateImageSize(size)
  {
  }

  // ---------------------------------------------------------------- request

  /** A reference image as `load_input_image` returns it: base64 text and MIME type. */
  datatype InputImage = InputImage(data: string, mimeType: string)

  /** `{"inlineData": {"mimeType": ..., "data": ...}}`. */
  function InlinePart(image: InputImage): Json {
    JObject([("inlineData", JObject([("mimeType", JString(image.mimeType)), ("data", JString(image.data))]))])
  }

  /** `{"text": prompt}`. */
  function TextPart(prompt: string): Json {
    JObject([("text", JString(prompt))])
  }

  /** The request document around a list of parts. */
  function Envelope(parts: seq<Json>, imageSize: string): Json {
    JObject([
      ("contents", JArray([JObject([("role", JString("user")), ("parts", JArray(parts))])])),
      ("generationConfig", JObject([
        ("responseModalities", JArray([JString("IMAGE"), JString("TEXT")])),
        ("imageConfig", JObject([("image_size", JString(imageSize))]))
      ]))
    ])
  }

  /** What a request carries, as the remote side reads it back. */
  datatype Request = Request(prompt: string, imageSize: string, images: seq<InputImage>)

  /** `v[k]` for a dict `v` that must hold `k`. */
  function Field(v: Json, key: string): Option<Json> {
    if v.JObject? then Lookup(v.members, key) else None
  }

  /** A string-valued field. */
  function StringField(v: Json, key: string): Option<string> {
    match Field(v, key)
    case Some(JString(s)) => Some(s)
    case _ => None
  }

  /** Reads an image part: a dict whose "inlineData" holds string "mimeType" and "data". */
  function ReadInline(part: Json): Option<InputImage> {
    match Field(part, "inlineData")
    case Some(inline) =>
      (match (StringField(inline, "mimeType"), StringField(inline, "data"))
       case (Some(m), Some(d)) => Some(InputImage(d, m))
       case _ => None)
    case None => None
  }

  /** Reads a sequence of image parts, all of which must be image parts. */
  function ReadImageParts(parts: seq<Json>): Option<seq<InputImage>> {
    if parts == [] then Some([])
    else
      match (ReadImageParts(parts[..|parts| - 1]), ReadInline(parts[|parts| - 1]))
      case (Some(xs), Some(x)) => Some(xs + [x])
      case _ => None
  }

  /** Reads the user content: its role is "user" and its parts are image
      parts followed by one text part; gives the prompt and the images. */
  function ReadContent(content: Json): Option<(string, seq<InputImage>)> {
    var parts := Field(content, "parts");
    if StringField(content, "role") != Some("user") || parts.None? || !parts.value.JArray?
       || parts.value.items == [] then None
    else
      var ps := parts.value.items;
      var images := ReadImageParts(ps[..|ps| - 1]);
      var prompt := StringField(ps[|ps| - 1], "text");
      if images.None? || prompt.None? then None else Some((prompt.value, images.value))
  }

  /** Reads the generation config: the response modalities are IMAGE and TEXT,
      and the image size is a string; gives the size. */
  function ReadConfig(config: Json): Option<string> {
    var imageConfig := Field(config, "imageConfig");
    if Field(config, "responseModalities") != Some(JArray([JString("IMAGE"), JString("TEXT")]))
       || imageConfig.None? then None
    else StringField(imageConfig.value, "image_size")
  }

  /** Reads a request document: one user content and a generation config. */
  function ReadRequest(body: Json): Option<Request> {
    var contents := Field(body, "contents");
    var config := Field(body, "generationConfig");
    if contents.None? || !contents.value.JArray? || |contents.value.items| != 1 || config.None? then None
    else
      match (ReadContent(contents.value.items[0]), ReadConfig(config.value))
      case (Some((prompt, images)), Some(size)) => Some(Request(prompt, size, images))
      case _ => None
  }

  /** `build_request_body` (before `json.dumps`): one inline-data part per input
      image, in input order, then exactly one text part; reading the document
      back gives the prompt, the size and the images it was built from. */
  method BuildRequestBody(prompt: string, imageSize: string, inputImages: seq<InputImage>) returns (body: Json)
    ensures ReadRequest(body) == Some(Request(prompt, imageSize, inputImages))
  {
    var parts := ImageParts(inputImages);
    ReadEnvelope(parts, prompt, imageSize);
    parts := parts + [TextPart(prompt)];
    body := Envelope(parts, imageSize);
  }

  /** The loop of `build_request_body` over the input images: one inline-data
      part per image, in order. */
  method ImageParts(inputImages: seq<InputImage>) returns (parts: seq<Json>)
    ensures ReadImageParts(parts) == Some(inputImages)
  {
    parts := [];
    for k := 0 to |inputImages|
      invariant ReadImageParts(parts) == Some(inputImages[..k])
    {
      assert inputImages[..k + 1] == inputImages[..k] + [inputImages[k]];
      ReadImagePartsAppend(parts, inputImages[..k], inputImages[k]);
      parts := parts + [InlinePart(inputImages[k])];
    }
    assert inputImages[..|inputImages|] == inputImages;
  }

  /** Appending an image part extends what is read back by that image. */
  lemma ReadImagePartsAppend(parts: seq<Json>, images: seq<InputImage>, image: InputImage)
    requires ReadImageParts(parts) == Some(images)
    ensures ReadImageParts(parts + [InlinePart(image)]) == Some(images + [image])
  {
    var ps := parts + [InlinePart(image)];
    assert ps[..|ps| - 1] == parts;
    var inline := JObject([("mimeType", JString(image.mimeType)), ("data", JString(image.data))]);
    assert Field(InlinePart(image), "inlineData") == Some(inline);
    assert StringField(inline, "mimeType") == Some(image.mimeType) by {
      assert "mimeType"[0] != "data"[0];
      LookupLast(inline.members, "mimeType", 0);
    }
    LookupLast(inline.members, "data", 1);
  }

  /** An envelope around image parts and a final text part reads back as the request. */
  lemma ReadEnvelope(imageParts: seq<Json>, prompt: string, imageSize: string)
    requires ReadImageParts(imageParts).Some?
    ensures ReadRequest(Envelope(imageParts + [TextPart(prompt)], imageSize))
      == Some(Request(prompt, imageSize, ReadImageParts(imageParts).value))
  {
    var ps := imageParts + [TextPart(prompt)];
    var body := Envelope(ps, imageSize);
    var content := JObject([("role", JString("user")), ("parts", JArray(ps))]);
    assert "contents"[0] != "generationConfig"[0];
    assert Field(body, "contents") == Some(JArray([content])) by {
      LookupLast(body.members, "contents", 0);
    }
    assert Field(body, "generationConfig") == Some(body.members[1].1) by {
      LookupLast(body.members, "generationConfig", 1);
    }
    ReadUserContent(imageParts, prompt);
    ReadGenerationConfig(imageSize);
  }

  lemma ReadUserContent(imageParts: seq<Json>, prompt: string)
    requires ReadImageParts(imageParts).Some?
    ensures ReadContent(JObject([("role", JString("user")), ("parts", JArray(imageParts + [TextPart(prompt)]))]))
      == Some((prompt, ReadImageParts(imageParts).value))
  {
    var ps := imageParts + [TextPart(prompt)];
    var content := JObject([("role", JString("user")), ("parts", JArray(ps))]);
    assert "role"[0] != "parts"[0];
    assert StringField(content, "role") == Some("user") by {
      LookupLast(content.members, "role", 0);
    }
    assert Field(content, "parts") == Some(JArray(ps)) by {
      LookupLast(content.members, "parts", 1);
    }
    assert ps[..|ps| - 1] == imageParts;
    assert StringField(ps[|ps| - 1], "text") == Some(prompt);
  }

  lemma ReadGenerationConfig(imageSize: string)
    ensures ReadConfig(JObject([
      ("responseModalities", JArray([JString("IMAGE"), JString("TEXT")])),
      ("imageConfig", JObject([("image_size", JString(imageSize))]))])) == Some(imageSize)
  {
    var config := JObject([
      ("responseModalities", JArray([JString("IMAGE"), JString("TEXT")])),
      ("imageConfig", JObject([("image_size", JString(imageSize))]))]);
    assert "responseModalities"[0] != "imageConfig"[0];
    LookupLast(config.members, "responseModalities", 0);
    LookupLast(config.members, "imageConfig", 1);
  }

  // --------------------------------------------------------------- response

  /** How `extract_image_data` ends: with the payload, with one of its two
      ValueErrors, with `sys.exit(1)` after a KeyError, IndexError or TypeError,
      or with an AttributeError that it does not catch. */
  datatype Extraction =
    | ImageData(data: Json)
    | NoCandidates
    | NoImagePart
    | ParseFailure
    | AttributeFailure

  /** The loop over the parts: the first part for which `"inlineData" in part`
      holds decides the result. */
  function ScanParts(parts: seq<Json>): (r: Extraction)
    ensures !r.NoCandidates?
  {
    if parts == [] then NoImagePart
    else
      match In("inlineData", parts[0])
      case None => ParseFailure
      case Some(false) => ScanParts(parts[1..])
      case Some(true) =>
        match parts[0]
        case JObject(m) =>
          (match Get(Lookup(m, "inlineData").value, "data", JString(""))
           case None => AttributeFailure
           case Some(d) => ImageData(d))
        case _ => ParseFailure
  }

  /** `extract_image_data`: unwraps a list response to its first element, then
      walks `candidates[0].content.parts`. */
  function ExtractImageData(response: Json): (r: Extraction)
    ensures response == JArray([]) ==> r == ParseFailure
    ensures !response.JArray? && !response.JObject? ==> r == AttributeFailure
    ensures response.JObject? ==> (r == NoCandidates <==> !Truthy(Get(response, "candidates", JArray([])).value))
  {
    var top := if response.JArray? then (if response.items == [] then None else Some(response.items[0]))
               else Some(response);
    if top.None? then ParseFailure
    else
      match Get(top.value, "candidates", JArray([]))
      case None => AttributeFailure
      case Some(candidates) =>
        if !Truthy(candidates) then NoCandidates
        else
          match First(candidates)
          case None => ParseFailure
          case Some(candidate) =>
            match Get(candidate, "content", JObject([]))
            case None => AttributeFailure
            case Some(content) =>
              match Get(content, "parts", JArray([]))
              case None => AttributeFailure
              case Some(parts) =>
                match Iterate(parts)
                case None => ParseFailure
                case Some(items) => ScanParts(items)
  }

  /** A response wrapped in a list gives the same result as the response itself,
      whatever follows it in the list (for any response that is not itself a
      list); an empty list is an IndexError. */
  lemma ListWrappedResponse(response: Json, rest: seq<Json>)
    ensures !response.JArray? ==> ExtractImageData(JArray([response] + rest)) == ExtractImageData(response)
    ensures ExtractImageData(JArray([])) == ParseFailure
  {
  }

  /** A dict response without candidates, or with an empty candidate list,
      raises "No candidates in response". */
  lemma NoCandidatesRaises(members: seq<(string, Json)>)
    requires Lookup(members, "candidates").None? || Lookup(members, "candidates") == Some(JArray([]))
    ensures ExtractImageData(JObject(members)) == NoCandidates
  {
  }

  /** Whether a dict part has the key "inlineData". */
  predicate HasInline(part: Json) {
    part.JObject? && Lookup(part.members, "inlineData").Some?
  }

  /** The payload of an inline-data part: its "data", or "" when it has none. */
  function DataOf(inline: Json): Json
    requires inline.JObject?
  {
    match Lookup(inline.members, "data") case Some(d) => d case None => JString("")
  }

  /** Over dict parts, the result is the data of the first part that has
      "inlineData" (or "" when that part's inline data has no "data"). */
  lemma {:induction false} ScanFindsFirstInline(parts: seq<Json>, k: nat)
    requires forall j :: 0 <= j < |parts| ==> parts[j].JObject?
    requires k < |parts| && HasInline(parts[k])
    requires forall j :: 0 <= j < k ==> !HasInline(parts[j])
    requires Lookup(parts[k].members, "inlineData").value.JObject?
    ensures ScanParts(parts) == ImageData(DataOf(Lookup(parts[k].members, "inlineData").value))
  {
    if k > 0 {
      assert !HasInline(parts[0]);
      ScanFindsFirstInline(parts[1..], k - 1);
    }
  }

  /** Over dict parts none of which has "inlineData", the result is the
      "No image data found" ValueError. */
  lemma {:induction false} ScanWithoutInline(parts: seq<Json>)
    requires forall j :: 0 <= j < |parts| ==> parts[j].JObject? && !HasInline(parts[j])
    ensures ScanParts(parts) == NoImagePart
  {
    if parts != [] {
      assert !HasInline(parts[0]);
      ScanWithoutInline(parts[1..]);
    }
  }

  /** For a response of the documented shape, bare or wrapped in a list, the
      result is decided by the first candidate's parts. */
  lemma DocumentedShape(parts: seq<Json>, others: seq<Json>)
    ensures var candidate := JObject([("content", JObject([("parts", JArray(parts))]))]);
      var response := JObject([("candidates", JArray([candidate] + others))]);
      ExtractImageData(response) == ScanParts(parts)
      && ExtractImageData(JArray([response])) == ScanParts(parts)
  {
  }

  // ------------------------------------------------------------ input image

  /** What a path names on disk. */
  datatype FileEntry = RegularFile(bytes: seq<byte>) | Directory

  /** How `load_input_image` ends: with the image, with `sys.exit(1)` for a
      missing path, or with the OSError that reading a directory raises. */
  datatype LoadOutcome = Loaded(image: InputImage) | InputMissing | ReadFailed

  /** `load_input_image`: base64 of the file's bytes and the MIME type of the
      format detected from them. */
  method LoadInputImage(files: map<string, FileEntry>, path: string, encode: seq<byte> -> string)
    returns (r: LoadOutcome)
    ensures r == InputMissing <==> path !in files
    ensures path in files && files[path].Directory? ==> r == ReadFailed
    ensures path in files && files[path].RegularFile? ==>
      r == Loaded(InputImage(encode(files[path].bytes), MimeType(FormatOf(files[path].bytes))))
  {
    if path !in files {
      return InputMissing;
    }
    match files[path]
    case Directory =>
      return ReadFailed;
    case RegularFile(bytes) =>
      var data := encode(bytes);
      var ext := DetectImageFormat(bytes);
      return Loaded(InputImage(data, MimeType(ext)));
  }

  // ------------------------------------------------------------- save path

  /** The path `save_image` writes to: the unique id first (when enabled), then
      the extension correction; `None` where pathlib raises. */
  function SavedPath(output: Path, applyUniqueId: bool, id: string, detected: string): (r: Option<Path>)
    requires ValidUniqueId(id) && IsImageExt(detected)
    ensures r.Some? ==> r.value.dir == output.dir && NormalizedSuffix(r.value.name) == detected
    ensures !applyUniqueId ==> (r.None? <==> output.name == "")
    ensures !applyUniqueId && NormalizedSuffix(output.name) == detected ==> r == Some(output)
  {
    var named := if applyUniqueId then ApplyUniqueNaming(output, id) else Some(output);
    match named
    case None => None
    case Some(p) => FixExtension(p, detected)
  }

  /** With unique naming, the saved name is the stem, "_", the id, and then the
      original suffix when it already names the detected format, otherwise the
      detected extension (for names without a trailing dot). */
  lemma SavedPathShape(output: Path, id: string, detected: string)
    requires ValidUniqueId(id) && IsImageExt(detected)
    requires output.name != "" && '/' !in output.name && !TrailingDot(output.name)
    ensures SavedPath(output, true, id, detected) ==
      Some(Path(output.dir, Stem(output.name) + "_" + id +
        (if NormalizedSuffix(output.name) == detected then Suffix(output.name) else detected)))
  {
    UniqueNamingKeepsSuffix(output, id);
    var q := ApplyUniqueNaming(output, id).value;
    StemAndSuffix(q.name);
    assert q.name == Stem(output.name) + "_" + id + Suffix(output.name);
  }

  /** Without unique naming, only the extension is corrected. */
  lemma SavedPathWithoutId(output: Path, id: string, detected: string)
    requires ValidUniqueId(id) && IsImageExt(detected)
    ensures SavedPath(output, false, id, detected) == FixExtension(output, detected)
  {
  }

  /** A name ending in a dot loses its unique id: "image." with JPEG data is
      saved as "image.jpg", because the id lands in what pathlib then reads as
      the suffix, and the extension correction replaces it. */
  lemma TrailingDotLosesUniqueId(id: string)
    requires ValidUniqueId(id)
    ensures SavedPath(Path(None, "image."), true, id, ".jpg") == Some(Path(None, "image.jpg"))
  {
    TrailingDotMovesSuffix(id);
    var n := "image._" + id;
    assert |Lower(Suffix(n))| == 6;
    assert NormalizedSuffix(n) != ".jpg";
    assert FixExtension(Path(None, n), ".jpg") == WithSuffix(Path(None, n), ".jpg");
    assert Stem(n) + ".jpg" == "image.jpg";
    assert ApplyUniqueNaming(Path(None, "image."), id) == Some(Path(None, n));
  }

  /** How `save_image` ends: the final path and the bytes written, or
      `sys.exit(1)` from its `except Exception` (undecodable data, a pathlib
      ValueError, a failed write). */
  datatype SaveOutcome = Saved(path: Path, bytes: seq<byte>) | SaveFailed

  /** `save_image`: decodes the payload, detects its format, applies the unique
      id, corrects the extension and writes the bytes. */
  method SaveImage(imageData: Json, output: Path, applyUniqueId: bool, id: string,
                   decode: string -> Option<seq<byte>>, writeOk: bool)
    returns (r: SaveOutcome)
    requires ValidUniqueId(id)
    ensures r.Saved? <==>
      imageData.JString? && decode(imageData.s).Some?
      && SavedPath(output, applyUniqueId, id, FormatOf(decode(imageData.s).value)).Some? && writeOk
    ensures r.Saved? ==>
      r.bytes == decode(imageData.s).value
      && Some(r.path) == SavedPath(output, applyUniqueId, id, FormatOf(r.bytes))
  {
    if !imageData.JString? {
      return SaveFailed;
    }
    var decoded := decode(imageData.s);
    if decoded.None? {
      return SaveFailed;
    }
    var bytes := decoded.value;
    var detected := DetectImageFormat(bytes);
    var outputPath := output;
    if applyUniqueId {
      var named := ApplyUniqueNaming(outputPath, id);
      if named.None? {
        return SaveFailed;
      }
      outputPath := named.value;
    }
    var finalPath := FixExtension(outputPath, detected);
    if finalPath.None? || !writeOk {
      return SaveFailed;
    }
    return Saved(finalPath.value, bytes);
  }
}
