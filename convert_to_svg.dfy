/**
 * The raster side of `convert_to_svg.py`: quantizing an RGBA raster to a
 * fixed palette, choosing the palette, and the order of the steps around the
 * vtracer call (quantize to a temporary file, trace, remove the temporary
 * file) with the `.svg` output path.
 *
 * Channels are integers 0..255, so the source's float distances are exact
 * integers here. Image decoding, the temporary file name and the tracer
 * itself are not modelled: the tracer is a step in the returned log with the
 * options it receives, and whether it raises or writes its output is an input.
 */
module SvgConversion {
  import opened Base
  import opened Text
  import opened Paths

  /** An RGBA pixel of an 8-bit raster. */
  datatype Pixel = Pixel(r: byte, g: byte, b: byte, a: byte)

  /** What `quantize_to_palette` writes for a mostly transparent pixel. */
  const Transparent := Pixel(0, 0, 0, 0)

  /** Squared RGB distance; alpha is ignored. */
  function Dist(p: Pixel, c: Pixel): (d: int)
    ensures d >= 0
    ensures d == 0 <==> p.r == c.r && p.g == c.g && p.b == c.b
  {
    Square(p.r - c.r);
    Square(p.g - c.g);
    Square(p.b - c.b);
    (p.r - c.r) * (p.r - c.r) + (p.g - c.g) * (p.g - c.g) + (p.b - c.b) * (p.b - c.b)
  }

  lemma Square(x: int)
    ensures x * x >= 0
    ensures x * x == 0 <==> x == 0
  {
    if x < 0 {
      assert x * x == (-x) * (-x);
    }
  }

  /** Two entries of the same colour are equally far from any pixel. */
  lemma SameColourSameDist(p: Pixel, c1: Pixel, c2: Pixel)
    ensures Dist(c1, c2) == 0 ==> Dist(p, c1) == Dist(p, c2)
  {
  }

  /** The palette entry the inner loop settles on: the first one at minimal
      distance (the comparison is strict, so later ties lose). */
  function NearestIndex(p: Pixel, palette: seq<Pixel>): (k: nat)
    requires |palette| > 0
    ensures k < |palette|
    ensures forall j :: 0 <= j < |palette| ==> Dist(p, palette[k]) <= Dist(p, palette[j])
    ensures forall j :: 0 <= j < k ==> Dist(p, palette[j]) > Dist(p, palette[k])
  {
    if |palette| == 1 then 0
    else
      var k := NearestIndex(p, palette[..|palette| - 1]);
      assert forall j :: 0 <= j < |palette| - 1 ==> palette[..|palette| - 1][j] == palette[j];
      if Dist(p, palette[|palette| - 1]) < Dist(p, palette[k]) then |palette| - 1 else k
  }

  /** The pixel `quantize_to_palette` writes for `p`. */
  function QuantizedPixel(p: Pixel, palette: seq<Pixel>): (q: Pixel)
    requires |palette| > 0
    ensures p.a < 128 ==> q == Transparent
    ensures p.a >= 128 ==>
      q in palette && forall c :: c in palette ==> Dist(p, q) <= Dist(p, c)
  {
    if p.a < 128 then Transparent else palette[NearestIndex(p, palette)]
  }

  /** Ties go to the earliest entry: no entry ahead of the chosen one is as close. */
  lemma QuantizedPixelFirstNearest(p: Pixel, palette: seq<Pixel>, j: nat)
    requires |palette| > 0 && p.a >= 128 && j < |palette|
    requires Dist(p, palette[j]) <= Dist(p, QuantizedPixel(p, palette))
    ensures j >= NearestIndex(p, palette)
  {
  }

  /** Whether every entry is opaque enough to survive quantization. */
  predicate Opaque(palette: seq<Pixel>) {
    forall c :: c in palette ==> c.a >= 128
  }

  /** The first nearest entry is also the first entry with its colour. */
  lemma NearestIsFirstOfColour(p: Pixel, palette: seq<Pixel>, j: nat)
    requires |palette| > 0 && j < NearestIndex(p, palette)
    ensures Dist(palette[NearestIndex(p, palette)], palette[j]) > 0
  {
    var k := NearestIndex(p, palette);
    SameColourSameDist(p, palette[k], palette[j]);
  }

  /** With an opaque palette, quantizing a quantized pixel changes nothing. */
  lemma QuantizeIdempotent(p: Pixel, palette: seq<Pixel>)
    requires |palette| > 0 && Opaque(palette)
    ensures QuantizedPixel(QuantizedPixel(p, palette), palette) == QuantizedPixel(p, palette)
  {
    if p.a >= 128 {
      var k := NearestIndex(p, palette);
      var q := palette[k];
      var k' := NearestIndex(q, palette);
      assert Dist(q, palette[k]) == 0;
      assert Dist(q, palette[k']) == 0;
      forall j | 0 <= j < k ensures Dist(q, palette[j]) > 0 {
        NearestIsFirstOfColour(p, palette, j);
      }
      assert k' == k;
    }
  }

  /** The inner loop of `quantize_to_palette`: `min_dist` starts at infinity
      (`None`) and `closest` at the first entry. */
  method NearestColor(pixel: Pixel, palette: seq<Pixel>) returns (closest: Pixel)
    requires |palette| > 0
    ensures closest == palette[NearestIndex(pixel, palette)]
  {
    var minDist: Option<int> := None;
    closest := palette[0];
    for k := 0 to |palette|
      invariant k == 0 ==> minDist.None? && closest == palette[0]
      invariant k > 0 ==>
        closest == palette[NearestIndex(pixel, palette[..k])] && minDist == Some(Dist(pixel, closest))
    {
      var dist := Dist(pixel, palette[k]);
      assert palette[..k + 1][..k] == palette[..k];
      if minDist.None? || dist < minDist.value {
        minDist := Some(dist);
        closest := palette[k];
      }
    }
    assert palette[..|palette|] == palette;
  }

  /** `quantize_to_palette` on the decoded raster: a new raster of the same
      size whose every pixel is the quantized input pixel. */
  method Quantize(data: array2<Pixel>, palette: seq<Pixel>) returns (result: array2<Pixel>)
    requires |palette| > 0
    ensures fresh(result)
    ensures result.Length0 == data.Length0 && result.Length1 == data.Length1
    ensures forall y, x :: 0 <= y < data.Length0 && 0 <= x < data.Length1 ==>
      result[y, x] == QuantizedPixel(data[y, x], palette)
  {
    result := new Pixel[data.Length0, data.Length1]((y, x) => Transparent);
    for y := 0 to data.Length0
      invariant forall y', x :: 0 <= y' < y && 0 <= x < data.Length1 ==>
        result[y', x] == QuantizedPixel(data[y', x], palette)
    {
      for x := 0 to data.Length1
        invariant forall y', x' :: 0 <= y' < y && 0 <= x' < data.Length1 ==>
          result[y', x'] == QuantizedPixel(data[y', x'], palette)
        invariant forall x' :: 0 <= x' < x ==> result[y, x'] == QuantizedPixel(data[y, x'], palette)
      {
        var pixel := data[y, x];
        if pixel.a < 128 {
          result[y, x] := Transparent;
          continue;
        }
        var closest := NearestColor(pixel, palette);
        result[y, x] := closest;
      }
    }
  }

  // ---------------------------------------------------------------- palettes

  /** The named palette of `PALETTES`. */
  const ManitoPalette: seq<Pixel> :=
    [Pixel(42, 157, 143, 255), Pixel(231, 111, 81, 255), Pixel(245, 240, 232, 255), Pixel(255, 255, 255, 255)]

  /** `PALETTES`. */
  const Palettes: map<string, seq<Pixel>> := map["manito" := ManitoPalette]

  /** The palette used when none is named or the name is unknown. */
  const DefaultPalette: seq<Pixel> :=
    [Pixel(42, 157, 143, 255), Pixel(231, 111, 81, 255), Pixel(255, 255, 255, 255), Pixel(0, 0, 0, 255)]

  /** Every built-in palette is non-empty and opaque, so quantizing with it is idempotent. */
  lemma BuiltinPalettesOpaque()
    ensures forall name :: name in Palettes ==> |Palettes[name]| > 0 && Opaque(Palettes[name])
    ensures |DefaultPalette| > 0 && Opaque(DefaultPalette)
  {
  }

  /** The palette `convert_to_svg` quantizes with, or `None` when it does not
      quantize: it quantizes exactly for the "logo" preset or a given palette
      name, with the named palette when it is known and the default otherwise. */
  function ChoosePalette(preset: Option<string>, palette: Option<string>): (r: Option<seq<Pixel>>)
    ensures r.Some? <==> preset == Some("logo") || Given(palette)
    ensures r.Some? && Given(palette) && palette.value in Palettes ==> r.value == Palettes[palette.value]
    ensures r.Some? && !(Given(palette) && palette.value in Palettes) ==> r.value == DefaultPalette
    ensures r.Some? ==> |r.value| > 0 && Opaque(r.value)
  {
    if preset == Some("logo") || Given(palette) then
      var named := if Given(palette) && palette.value in Palettes then Some(Palettes[palette.value]) else None;
      if named.None? || named.value == [] then Some(DefaultPalette) else named
    else None
  }

  // ------------------------------------------------------------- conversion

  /** The tracing options `convert_to_svg` passes through to vtracer. */
  datatype TraceOptions = TraceOptions(
    colormode: string, hierarchical: string, mode: string,
    filterSpeckle: int, colorPrecision: int, layerDifference: int,
    cornerThreshold: int, lengthThreshold: real, maxIterations: int,
    spliceThreshold: int, pathPrecision: int)

  /** The defaults of `convert_to_svg`'s keyword arguments. */
  const DefaultTraceOptions := TraceOptions("color", "stacked", "spline", 4, 6, 16, 60, 4.0, 10, 45, 8)

  /** The raster the tracer reads. */
  datatype TraceInput = OriginalRaster | QuantizedTemp

  /** The observable steps of a conversion, in order. */
  datatype SvgStep =
    | QuantizeStep(palette: seq<Pixel>)
    | TraceStep(input: TraceInput, output: Path, options: TraceOptions)
    | RemoveTemp

  /** How a conversion ends: the SVG path, `sys.exit(1)`, or an uncaught
      exception from `with_suffix` on an empty output name or from creating
      the output's directory. */
  datatype SvgResult = SvgWritten(path: Path) | SvgExit | SvgCrash

  datatype SvgRun = SvgRun(result: SvgResult, steps: seq<SvgStep>)

  /** What the environment decides: whether vtracer imports, whether the input
      exists, whether the output's directory can be created, whether the tracer
      raises, and whether the output then exists. */
  datatype SvgEnv = SvgEnv(vtracerInstalled: bool, inputExists: bool, mkdirOk: bool, traceRaises: bool,
                           outputCreated: bool)

  /** The output path: the same directory and stem with the ".svg" suffix. */
  function SvgPath(output: Path): (r: Option<Path>)
    ensures r.None? <==> output.name == ""
    ensures r.Some? ==>
      r.value.dir == output.dir && Stem(r.value.name) == Stem(output.name) && Suffix(r.value.name) == ".svg"
  {
    if output.name == "" then None
    else
      StemNonEmpty(output.name);
      AppendExt(Stem(output.name), ".svg");
      WithSuffix(output, ".svg")
  }

  /** Giving the SVG path again changes nothing, so a caller that already
      passes a ".svg" path gets that path back. */
  lemma SvgPathIdempotent(output: Path)
    requires output.name != ""
    ensures SvgPath(SvgPath(output).value) == SvgPath(output)
  {
  }

  /** `convert_to_svg`. */
  method ConvertToSvg(output: Path, options: TraceOptions, preset: Option<string>, palette: Option<string>,
                      env: SvgEnv)
    returns (run: SvgRun)
    ensures !env.vtracerInstalled || !env.inputExists ==> run == SvgRun(SvgExit, [])
    ensures env.vtracerInstalled && env.inputExists ==>
      var chosen := ChoosePalette(preset, palette);
      var quantizing := if chosen.Some? then [QuantizeStep(chosen.value)] else [];
      if output.name == "" || !env.mkdirOk then run == SvgRun(SvgCrash, quantizing)
      else
        var input := if chosen.Some? then QuantizedTemp else OriginalRaster;
        run.steps == quantizing + [TraceStep(input, SvgPath(output).value, options)]
          + (if chosen.Some? then [RemoveTemp] else [])
        && run.result == (if !env.traceRaises && env.outputCreated then SvgWritten(SvgPath(output).value) else SvgExit)
    ensures run.result.SvgWritten? ==> Suffix(run.result.path.name) == ".svg"
    ensures run.result == SvgCrash ==> RemoveTemp !in run.steps
  {
    if !env.vtracerInstalled {
      return SvgRun(SvgExit, []);
    }
    if !env.inputExists {
      return SvgRun(SvgExit, []);
    }
    var steps: seq<SvgStep> := [];
    var tempFile := false;
    var actualInput := OriginalRaster;
    var chosen := ChoosePalette(preset, palette);
    if chosen.Some? {
      steps := steps + [QuantizeStep(chosen.value)];
      tempFile := true;
      actualInput := QuantizedTemp;
    }
    var svgPath := SvgPath(output);
    if svgPath.None? {
      return SvgRun(SvgCrash, steps);
    }
    if !env.mkdirOk {
      return SvgRun(SvgCrash, steps);
    }
    steps := steps + [TraceStep(actualInput, svgPath.value, options)];
    if tempFile {
      steps := steps + [RemoveTemp];
    }
    if env.traceRaises || !env.outputCreated {
      return SvgRun(SvgExit, steps);
    }
    return SvgRun(SvgWritten(svgPath.value), steps);
  }
}
