/**
 * Image format sniffing from `generate_image.py`: the ordered table of magic
 * byte prefixes, the first-match search over it with its WebP special case,
 * and the extension-to-MIME lookup used when reference images are loaded.
 *
 * The signatures are the JPEG start-of-image marker FF D8 (Table B.1 of
 * ITU-T T.81) followed by the first byte of the next marker, the eight-byte
 * PNG signature (section 5.2 of the PNG specification, ISO/IEC 15948), the
 * GIF87a/GIF89a header (section 17 of the GIF89a specification), and the
 * RIFF header of a WebP container (section 2 of RFC 9649), whose form type
 * "WEBP" sits at bytes 8..12.
 */
module ImageFormat {
  import opened Base

  const JpegMagic: seq<byte> := [0xFF, 0xD8, 0xFF]
  const PngMagic: seq<byte> := [0x89, 0x50, 0x4E, 0x47, 0x0D, 0x0A, 0x1A, 0x0A]
  const Gif87aMagic: seq<byte> := [0x47, 0x49, 0x46, 0x38, 0x37, 0x61]
  const Gif89aMagic: seq<byte> := [0x47, 0x49, 0x46, 0x38, 0x39, 0x61]
  const RiffMagic: seq<byte> := [0x52, 0x49, 0x46, 0x46]
  /** "WEBP", the RIFF form type of a WebP file, at offset 8. */
  const WebpTag: seq<byte> := [0x57, 0x45, 0x42, 0x50]

  /** One entry of the signature table: a prefix and the extension it selects. */
  datatype Signature = Signature(magic: seq<byte>, ext: string)

  /** `MAGIC_BYTES`, in the dict's insertion order, which is the search order. */
  const MagicBytes: seq<Signature> := [
    Signature(JpegMagic, ".jpg"),
    Signature(PngMagic, ".png"),
    Signature(Gif87aMagic, ".gif"),
    Signature(Gif89aMagic, ".gif"),
    Signature(RiffMagic, ".webp")
  ]

  /** The extension used when no signature matches. */
  const DefaultExt := ".jpg"

  /** The four extensions detection can produce. */
  predicate IsImageExt(e: string) {
    e == ".jpg" || e == ".png" || e == ".gif" || e == ".webp"
  }

  /** `data.startswith(prefix)` on bytes. */
  predicate HasPrefix(data: seq<byte>, prefix: seq<byte>) {
    |prefix| <= |data| && data[..|prefix|] == prefix
  }

  /** Whether the search stops at table entry `sig`: its prefix matches and, for
      the RIFF entry on data of at least 12 bytes, bytes 8..12 are "WEBP". */
  predicate Accepts(sig: Signature, data: seq<byte>) {
    HasPrefix(data, sig.magic)
    && !(sig.magic == RiffMagic && |data| >= 12 && data[8..12] != WebpTag)
  }

  /** What each format's signature requires, stated per format; a RIFF header
      is taken as WebP unless 12 or more bytes are present and bytes 8..12 are
      not "WEBP". */
  function FormatOf(data: seq<byte>): (ext: string)
    ensures IsImageExt(ext)
  {
    if HasPrefix(data, JpegMagic) then ".jpg"
    else if HasPrefix(data, PngMagic) then ".png"
    else if HasPrefix(data, Gif87aMagic) || HasPrefix(data, Gif89aMagic) then ".gif"
    else if HasPrefix(data, RiffMagic) && (|data| < 12 || data[8..12] == WebpTag) then ".webp"
    else DefaultExt
  }

  /** `detect_image_format`: walks the signature table in order, skips the RIFF
      entry when bytes 8..12 are present and not "WEBP", returns the first
      accepted entry's extension, and falls back to ".jpg". */
  method DetectImageFormat(data: seq<byte>) returns (ext: string)
    ensures ext == FormatOf(data)
  {
    for k := 0 to |MagicBytes|
      invariant forall j :: 0 <= j < k ==> !Accepts(MagicBytes[j], data)
    {
      var sig := MagicBytes[k];
      if HasPrefix(data, sig.magic) {
        if sig.magic == RiffMagic && |data| >= 12 {
          if data[8..12] != WebpTag {
            continue;
          }
        }
        FirstAcceptedIsFormat(data, k);
        return sig.ext;
      }
    }
    NoneAcceptedIsDefault(data);
    return DefaultExt;
  }

  /** The entry where the table search stops selects the extension `FormatOf` gives. */
  lemma FirstAcceptedIsFormat(data: seq<byte>, k: nat)
    requires k < |MagicBytes| && Accepts(MagicBytes[k], data)
    requires forall j :: 0 <= j < k ==> !Accepts(MagicBytes[j], data)
    ensures MagicBytes[k].ext == FormatOf(data)
  {
    assert !Accepts(MagicBytes[0], data) ==> !HasPrefix(data, JpegMagic);
    assert !Accepts(MagicBytes[1], data) ==> !HasPrefix(data, PngMagic);
    assert !Accepts(MagicBytes[2], data) ==> !HasPrefix(data, Gif87aMagic);
    assert !Accepts(MagicBytes[3], data) ==> !HasPrefix(data, Gif89aMagic);
  }

  /** When no entry accepts the data, `FormatOf` gives the default. */
  lemma NoneAcceptedIsDefault(data: seq<byte>)
    requires forall j :: 0 <= j < |MagicBytes| ==> !Accepts(MagicBytes[j], data)
    ensures FormatOf(data) == DefaultExt
  {
    assert !Accepts(MagicBytes[0], data) && !Accepts(MagicBytes[1], data);
    assert !Accepts(MagicBytes[2], data) && !Accepts(MagicBytes[3], data);
    assert !Accepts(MagicBytes[4], data);
  }

  /** Each signature selects its own format, and data that matches none of them
      gets the JPEG default. */
  lemma SignaturesSelectFormats(data: seq<byte>)
    ensures HasPrefix(data, JpegMagic) ==> FormatOf(data) == ".jpg"
    ensures HasPrefix(data, PngMagic) ==> FormatOf(data) == ".png"
    ensures HasPrefix(data, Gif87aMagic) ==> FormatOf(data) == ".gif"
    ensures HasPrefix(data, Gif89aMagic) ==> FormatOf(data) == ".gif"
    ensures (forall sig :: sig in MagicBytes ==> !HasPrefix(data, sig.magic)) ==> FormatOf(data) == ".jpg"
  {
    assert MagicBytes[0].magic == JpegMagic && MagicBytes[1].magic == PngMagic;
    assert MagicBytes[2].magic == Gif87aMagic && MagicBytes[3].magic == Gif89aMagic;
    assert MagicBytes[4].magic == RiffMagic;
    if HasPrefix(data, PngMagic) { assert data[0] == 0x89; }
    if HasPrefix(data, Gif87aMagic) || HasPrefix(data, Gif89aMagic) { assert data[0] == 0x47; }
  }

  /** The WebP case: a RIFF header with "WEBP" at 8..12 is WebP; with anything
      else there it is not (it falls through to the JPEG default); and a RIFF
      prefix too short to hold bytes 8..12 is still reported as WebP. */
  lemma RiffClassification(data: seq<byte>)
    requires HasPrefix(data, RiffMagic)
    ensures |data| >= 12 && data[8..12] == WebpTag ==> FormatOf(data) == ".webp"
    ensures |data| >= 12 && data[8..12] != WebpTag ==> FormatOf(data) == ".jpg"
    ensures |data| < 12 ==> FormatOf(data) == ".webp"
  {
    assert data[0] == 0x52;
  }

  /** The `mime_types` lookup of `load_input_image`, defaulting to JPEG. */
  function MimeType(ext: string): (mime: string)
    ensures ext == ".png" ==> mime == "image/png"
    ensures ext == ".gif" ==> mime == "image/gif"
    ensures ext == ".webp" ==> mime == "image/webp"
    ensures ext != ".png" && ext != ".gif" && ext != ".webp" ==> mime == "image/jpeg"
  {
    match ext
    case ".jpg" => "image/jpeg"
    case ".png" => "image/png"
    case ".gif" => "image/gif"
    case ".webp" => "image/webp"
    case _ => "image/jpeg"
  }

  /** The MIME type sent for a reference image names the detected format:
      "image/" followed by the extension without its dot, JPEG spelled "jpeg". */
  lemma MimeMatchesFormat(data: seq<byte>)
    ensures var ext := FormatOf(data);
      MimeType(ext) == "image/" + (if ext == ".jpg" then "jpeg" else ext[1..])
  {
  }
}
