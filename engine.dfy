// The upscale engine: resolving and loading a model with its scale and
// tile-size fallbacks, reading the input constraints of a session,
// choosing batch and tile sizes, the inference callback handed to the
// tiled pipeline, the dispatch between one pass, one pass and a resize,
// and two passes, and the naming of the saved result.  The session is
// described by its input and a runner; loading the image, resizing and
// encoding are inputs.

module Engine {
  import opened Errors
  import opened Text
  import opened Paths
  import opened Raster
  import opened Tiling
  import opened ImageProcessing
  import opened Inference
  import opened State
  import Models
  import Gpu
  import TiledProofs

  /** The settings of one upscale request. */
  datatype UpscaleConfig = UpscaleConfig(model: string, scale: nat, batchSize: Option<nat>, format: Option<string>,
                                         compression: Option<string>, preferNpu: Option<bool>,
                                         outputDir: Option<Path>)

  /** A loaded model: its session, scale, file and the tile size recommended for the machine. */
  datatype LoadedModel<S> = LoadedModel(session: S, scale: nat, path: Path, filename: string,
                                        recommendedTileSize: nat)

  // ---------------------------------------------------------------------
  // Loading a model

  /** The model's file name: the configured name, with ".onnx" appended unless already there. */
  function ModelFilename(model: string): (f: string)
    ensures EndsWith(f, ".onnx")
    ensures f == model || f == model + ".onnx"
    ensures EndsWith(model, ".onnx") <==> f == model
  {
    if EndsWith(model, ".onnx") then model
    else
      assert (model + ".onnx")[|model + ".onnx"| - 5..] == ".onnx";
      model + ".onnx"
  }

  /** Resolving a resolved name changes nothing. */
  lemma ModelFilenameIdempotent(model: string)
    ensures ModelFilename(ModelFilename(model)) == ModelFilename(model)
  {
  }

  /** A path in an error message: its components joined by '/', in double quotes. */
  function QuotedPath(p: Path): string
  {
    "\"" + (if p == [] then "" else Text.Join(p, '/')) + "\""
  }

  function ModelNotFound(path: Path): AppError
  {
    Unknown("Model file not found: " + QuotedPath(path))
  }

  /** The engine's scale guess when detection fails: 2 for a name containing "x2", otherwise 4. */
  function EngineScaleGuess(filename: string): (s: nat)
    ensures s in {2, 4}
    ensures s == 2 <==> Contains(filename, "x2")
  {
    if Contains(filename, "x2") then 2 else 4
  }

  /**
   * The engine and the model list guess differently for a 3x model: a
   * name with "x3" but no "x2" is listed as 3x and run as 4x when its
   * scale cannot be detected.
   */
  lemma ScaleGuessesDisagree(a: string, b: string)
    requires !Contains(a + "x3" + b, "x2")
    ensures EngineScaleGuess(a + "x3" + b) == 4 && Models.FilenameScale(a + "x3" + b) == 3
  {
    var name := a + "x3" + b;
    assert name[|a|..|a| + 2] == "x3";
    ContainsAt(name, "x3", |a|);
  }

  /** The detected scale, or the engine's guess when detection fails. */
  function ScaleOrEngineGuess(detected: AppResult<nat>, filename: string): (s: nat)
    ensures detected.Ok? ==> s == detected.value
    ensures detected.Err? ==> s == EngineScaleGuess(filename)
  {
    if detected.Ok? then detected.value else EngineScaleGuess(filename)
  }

  /** The tile size recommended for the cached GPU, or 256 when none is cached. */
  function RecommendedTile(gpu: Option<Gpu.GpuInfo>): (t: nat)
    ensures 192 <= t <= 1536 && t % 64 == 0
    ensures gpu.None? ==> t == 256
    ensures gpu.Some? ==> t == Gpu.RecommendedTileSize(gpu.value)
  {
    if gpu.Some? then Gpu.RecommendedTileSize(gpu.value) else 256
  }

  /** What loading gives: the model or error, and the model slot and scale cache afterwards. */
  datatype LoadOutcome<S> = LoadOutcome(result: AppResult<LoadedModel<S>>, slot: Option<(Path, S)>, scales: map<Path, nat>)

  /**
   * Loading the configured model from `modelsDir`: the file must exist
   * (`fileExists`); the session comes from the slot or is loaded
   * (`lowMemory` is the free-memory probe, `load` loads a session,
   * preferring the NPU only when asked); the scale is detected once per
   * model (`probeOf` runs a session on a test input) with the file-name
   * guess as fallback; the tile size is the one recommended for the cached
   * GPU information `gpu`.
   */
  function LoadSpec<S>(slot: Option<(Path, S)>, scales: map<Path, nat>, config: UpscaleConfig, modelsDir: Path,
                       fileExists: bool, lowMemory: bool, load: (Path, bool) -> AppResult<S>, probeOf: S -> Probe,
                       gpu: Option<Gpu.GpuInfo>): (o: LoadOutcome<S>)
    ensures var path := Paths.Join(modelsDir, ModelFilename(config.model));
            (!fileExists ==> o == LoadOutcome(Err(ModelNotFound(path)), slot, scales))
            && (o.result.Ok? ==> fileExists && o.result.value.path == path
                                 && o.result.value.filename == ModelFilename(config.model)
                                 && o.result.value.recommendedTileSize == RecommendedTile(gpu)
                                 && path in o.scales)
            && (o.scales != scales ==> o.result.Ok? && o.scales.Keys == scales.Keys + {path})
            && (o.slot != slot ==> load(path, config.preferNpu == Some(true)).Ok?
                                   && o.slot == Some((path, load(path, config.preferNpu == Some(true)).value)))
  {
    var filename := ModelFilename(config.model);
    var path := Paths.Join(modelsDir, filename);
    if !fileExists then LoadOutcome(Err(ModelNotFound(path)), slot, scales)
    else
      var q := RequestModel(slot, path, lowMemory, load(path, config.preferNpu == Some(true)));
      if q.result.Err? then LoadOutcome(Err(q.result.error), q.slot, scales)
      else
        var s := QueryScale(scales, path, DetectScaleSpec(probeOf(q.result.value)));
        LoadOutcome(Ok(LoadedModel(q.result.value, ScaleOrEngineGuess(s.result, filename), path, filename,
                                   RecommendedTile(gpu))), q.slot, s.scales)
  }

  /**
   * Loading the same model again with enough free memory reuses the
   * cached session and scale: the same model, with no change to the
   * caches, whatever a new load or probe would give, once a load has
   * given a positive scale.
   */
  lemma LoadAgainReuses<S>(slot: Option<(Path, S)>, scales: map<Path, nat>, config: UpscaleConfig, modelsDir: Path,
                           load: (Path, bool) -> AppResult<S>, probeOf: S -> Probe, gpu: Option<Gpu.GpuInfo>,
                           reload: (Path, bool) -> AppResult<S>, reprobe: S -> Probe)
    requires var o := LoadSpec(slot, scales, config, modelsDir, true, false, load, probeOf, gpu);
             o.result.Ok? && o.result.value.scale > 0
    ensures var o := LoadSpec(slot, scales, config, modelsDir, true, false, load, probeOf, gpu);
            LoadSpec(o.slot, o.scales, config, modelsDir, true, false, reload, reprobe, gpu) == o
  {
    var filename := ModelFilename(config.model);
    var path := Paths.Join(modelsDir, filename);
    var preferNpu := config.preferNpu == Some(true);
    var q := RequestModel(slot, path, false, load(path, preferNpu));
    if load(path, preferNpu).Ok? {
      RequestAgainHits(slot, path, load(path, preferNpu), reload(path, preferNpu));
    }
    var s := QueryScale(scales, path, DetectScaleSpec(probeOf(q.result.value)));
    QueryAgain(scales, path, DetectScaleSpec(probeOf(q.result.value)), DetectScaleSpec(reprobe(q.result.value)));
  }

  /** Loads the configured model, as LoadSpec says, through the state's caches. */
  method LoadModel<S>(state: AppState<S>, config: UpscaleConfig, modelsDir: Path, fileExists: bool, lowMemory: bool,
                      load: (Path, bool) -> AppResult<S>, probeOf: S -> Probe, gpu: Option<Gpu.GpuInfo>)
    returns (r: AppResult<LoadedModel<S>>)
    modifies state
    ensures var o := LoadSpec(old(state.modelSlot), old(state.scaleCache), config, modelsDir, fileExists, lowMemory,
                              load, probeOf, gpu);
            r == o.result && state.modelSlot == o.slot && state.scaleCache == o.scales
    ensures state.jobs == old(state.jobs) && state.runningJobs == old(state.runningJobs)
  {
    var filename := ModelFilename(config.model);
    var path := Paths.Join(modelsDir, filename);
    if !fileExists {
      return Err(ModelNotFound(path));
    }
    var preferNpu := if config.preferNpu.Some? then config.preferNpu.value else false;
    var session := state.GetOrLoadModel(path, preferNpu, lowMemory, load);
    if session.Err? {
      return Err(session.error);
    }
    var detected := state.GetModelScale(path, probeOf(session.value));
    var scale := if detected.Ok? then detected.value else EngineScaleGuess(filename);
    r := Ok(LoadedModel(session.value, scale, path, filename, RecommendedTile(gpu)));
  }

  // ---------------------------------------------------------------------
  // Input constraints of a session

  /** The model's first input: a tensor of some shape and element type, or something else. */
  datatype InputInfo = TensorInput(shape: seq<int>, elementType: ElementType) | OtherInput

  /** A fixed spatial input size: dimension 2 of a tensor input of rank at least 3, when positive. */
  function FixedInputSize(input: InputInfo): (r: Option<nat>)
    ensures r.Some? <==> input.TensorInput? && |input.shape| >= 3 && input.shape[2] > 0
    ensures r.Some? ==> r.value == AsU32(input.shape[2])
  {
    if input.TensorInput? && |input.shape| >= 3 && input.shape[2] > 0 then Some(AsU32(input.shape[2])) else None
  }

  /** A static batch size: dimension 0 of a tensor input, when positive. */
  function StaticBatch(input: InputInfo): (r: Option<nat>)
    ensures r.Some? <==> input.TensorInput? && |input.shape| >= 1 && input.shape[0] > 0
    ensures r.Some? ==> r.value == AsUsize(input.shape[0])
  {
    if input.TensorInput? && |input.shape| >= 1 && input.shape[0] > 0 then Some(AsUsize(input.shape[0])) else None
  }

  /** The element type batches are packed as: the tensor's, or single precision for other inputs. */
  function TargetType(input: InputInfo): ElementType
  {
    if input.TensorInput? then input.elementType else F32
  }

  /**
   * An input of shape [n, c, h, w] with positive n and h fixes both the
   * batch and the size; dynamic dimensions (written -1) fix neither.
   */
  lemma ShapeConstraints(n: int, c: int, h: int, w: int, t: ElementType)
    ensures 0 < n < USIZE_LIMIT && 0 < h < U32_LIMIT ==>
              StaticBatch(TensorInput([n, c, h, w], t)) == Some(n)
              && FixedInputSize(TensorInput([n, c, h, w], t)) == Some(h)
    ensures StaticBatch(TensorInput([-1, c, -1, w], t)) == None
            && FixedInputSize(TensorInput([-1, c, -1, w], t)) == None
    ensures StaticBatch(OtherInput) == None && FixedInputSize(OtherInput) == None && TargetType(OtherInput) == F32
  {
  }

  // ---------------------------------------------------------------------
  // Batch size

  const MAX_BATCH: nat := 8

  /** The requested batch size (1 when unset) clamped to 1 ..= 8. */
  function RequestedBatch(requested: Option<nat>): (b: nat)
    ensures 1 <= b <= MAX_BATCH
    ensures requested.None? ==> b == 1
    ensures requested.Some? && 1 <= requested.value <= MAX_BATCH ==> b == requested.value
    ensures requested.Some? && requested.value > MAX_BATCH ==> b == MAX_BATCH
    ensures requested == Some(0) ==> b == 1
  {
    var v := if requested.Some? then requested.value else 1;
    if v < 1 then 1 else if v > MAX_BATCH then MAX_BATCH else v
  }

  function BatchOverrideWarning(batch: nat): string
  {
    "Model requires Batch Size 1. Overriding your setting of " + NatToString(batch) + "."
  }

  /** The batch size used: 1 for a model whose static batch is 1, the clamped request otherwise. */
  function BatchSizeFor(requested: Option<nat>, staticBatch: Option<nat>): (b: nat)
    ensures 1 <= b <= MAX_BATCH
    ensures staticBatch == Some(1) ==> b == 1
    ensures staticBatch != Some(1) ==> b == RequestedBatch(requested)
  {
    if staticBatch == Some(1) then 1 else RequestedBatch(requested)
  }

  /** The warnings raised: one, naming the clamped request, exactly when a static batch of 1 overrides it. */
  function BatchWarnings(requested: Option<nat>, staticBatch: Option<nat>): (w: seq<string>)
    ensures |w| <= 1
    ensures |w| == 1 <==> staticBatch == Some(1) && RequestedBatch(requested) > 1
    ensures |w| == 1 ==> w[0] == BatchOverrideWarning(RequestedBatch(requested))
  {
    if staticBatch == Some(1) && RequestedBatch(requested) > 1 then [BatchOverrideWarning(RequestedBatch(requested))]
    else []
  }

  /** Chooses the batch size, reporting the override of a request the model cannot take. */
  method ConfigureBatchSize(requested: Option<nat>, staticBatch: Option<nat>) returns (batch: nat, warnings: seq<string>)
    ensures batch == BatchSizeFor(requested, staticBatch)
    ensures warnings == BatchWarnings(requested, staticBatch)
  {
    batch := RequestedBatch(requested);
    warnings := [];
    if staticBatch.Some? {
      if staticBatch.value == 1 && batch > 1 {
        warnings := warnings + [BatchOverrideWarning(batch)];
        batch := 1;
      }
    }
  }

  /** Only a static batch of 1 is enforced: a model with static batch 4 still runs batches of 8. */
  lemma OtherStaticBatchesNotEnforced()
    ensures BatchSizeFor(Some(8), Some(4)) == 8 && BatchWarnings(Some(8), Some(4)) == []
    ensures BatchSizeFor(Some(12), Some(1)) == 1 && BatchWarnings(Some(12), Some(1)) == [BatchOverrideWarning(8)]
  {
  }

  // ---------------------------------------------------------------------
  // Tile size

  /** Padding requested around tiles. */
  const PADDING: nat := 32

  function InputTooSmall(size: nat): AppError
  {
    Unknown("Model input size " + NatToString(size) + " is too small for padding " + NatToString(PADDING))
  }

  /**
   * The tile size as the engine computes it, once per request: for a model
   * with fixed input size s, s - 64 so that a tile plus its two 32-pixel
   * paddings is s; s <= 64 is an error.  Without a fixed size, the
   * recommended tile size.
   */
  function SourceTileSize(fixed: Option<nat>, recTile: nat): (r: AppResult<nat>)
    ensures fixed.None? ==> r == Ok(recTile)
    ensures fixed.Some? ==> (r.Ok? <==> fixed.value > 2 * PADDING)
    ensures fixed.Some? && r.Err? ==> r.error == InputTooSmall(fixed.value)
    ensures fixed.Some? && r.Ok? ==> r.value + 2 * PADDING == fixed.value
  {
    match fixed
    case None => Ok(recTile)
    case Some(s) => if s <= 2 * PADDING then Err(InputTooSmall(s)) else Ok(s - 2 * PADDING)
  }

  /** One tile covers an extent no larger than the tile; a larger extent needs at least two. */
  lemma TileCountBounds(extent: nat, tileSize: nat)
    requires tileSize > 0
    ensures 1 <= extent <= tileSize ==> TileCount(extent, tileSize) == 1
    ensures extent > tileSize ==> TileCount(extent, tileSize) >= 2
    ensures extent >= 1 ==> TileCount(extent, tileSize) >= 1
  {
    var r := TileCount(extent, tileSize);
    if 1 <= extent <= tileSize {
      assert (r - 1) * tileSize < tileSize;
      MulCancelLess(r - 1, 1, tileSize);
    }
    if extent > tileSize {
      assert 1 * tileSize < r * tileSize;
      MulCancelLess(1, r, tileSize);
    }
  }

  /** Every tile the pipeline cuts is the tile size plus twice the padding it uses, in both directions. */
  lemma TileDimensions<P>(image: Image<P>, config: TilingConfig, scale: nat,
                          infer: seq<Image<P>> -> AppResult<seq<Image<P>>>, cancel: CancelReads)
    requires image.Valid() && config.tileSize > 0 && image.width >= 1 && image.height >= 1
    ensures var pl := PipelineFor(image, config, scale, infer, cancel);
            var tiles := TilesOf(GridMetas(image.width, image.height, config.tileSize), pl);
            forall i | 0 <= i < |tiles| :: tiles[i].width == tiles[i].height == config.tileSize + 2 * pl.padding
  {
  }

  /**
   * As written, an image that fits in one (s - 64)-pixel tile is cut into
   * a single tile without padding, so a model with fixed input size s is
   * handed an (s - 64) x (s - 64) tile: for s = 256 and a 100 x 100 image,
   * a 192 x 192 tile.
   */
  lemma SingleTileMissesFixedInput<P>(image: Image<P>, s: nat, recTile: nat, batch: nat, scale: nat,
                                      infer: seq<Image<P>> -> AppResult<seq<Image<P>>>, cancel: CancelReads)
    requires image.Valid() && s > 2 * PADDING
    requires 1 <= image.width <= s - 2 * PADDING && 1 <= image.height <= s - 2 * PADDING
    ensures SourceTileSize(Some(s), recTile) == Ok(s - 2 * PADDING)
    ensures var config := TilingConfig(s - 2 * PADDING, PADDING, batch);
            var pl := PipelineFor(image, config, scale, infer, cancel);
            var tiles := TilesOf(GridMetas(image.width, image.height, s - 2 * PADDING), pl);
            |tiles| == 1 && tiles[0].width == s - 2 * PADDING && tiles[0].width != s
  {
    var t := s - 2 * PADDING;
    var config := TilingConfig(t, PADDING, batch);
    TileCountBounds(image.width, t);
    TileCountBounds(image.height, t);
    GridMetasLength(image.width, image.height, t);
    TileDimensions(image, config, scale, infer, cancel);
  }

  /**
   * The tile size for one pass over a width x height image.  For a model
   * with fixed input size s: an image no larger than s is one unpadded s x s
   * tile; a larger one is cut into tiles of s - 64 with 32 pixels of
   * padding; s <= 64 is an error.  Without a fixed size, the recommended
   * tile size.
   */
  function TileSizeFor(fixed: Option<nat>, recTile: nat, width: nat, height: nat): (r: AppResult<nat>)
    ensures fixed.None? ==> r == Ok(recTile)
    ensures fixed.Some? ==> (r.Ok? <==> fixed.value > 2 * PADDING)
    ensures fixed.Some? && r.Err? ==> r.error == InputTooSmall(fixed.value)
    ensures fixed.Some? && r.Ok? && (width > fixed.value || height > fixed.value) ==> r == SourceTileSize(fixed, recTile)
  {
    match fixed
    case None => Ok(recTile)
    case Some(s) =>
      if s <= 2 * PADDING then Err(InputTooSmall(s))
      else if width <= s && height <= s then Ok(s)
      else Ok(s - 2 * PADDING)
  }

  /** With the per-pass tile size, every tile handed to a fixed-size model is exactly s x s. */
  lemma TilesMatchFixedInput<P>(image: Image<P>, s: nat, recTile: nat, batch: nat, scale: nat,
                                infer: seq<Image<P>> -> AppResult<seq<Image<P>>>, cancel: CancelReads)
    requires image.Valid() && s > 2 * PADDING && image.width >= 1 && image.height >= 1
    ensures TileSizeFor(Some(s), recTile, image.width, image.height).Ok?
    ensures var t := TileSizeFor(Some(s), recTile, image.width, image.height).value;
            var pl := PipelineFor(image, TilingConfig(t, PADDING, batch), scale, infer, cancel);
            var tiles := TilesOf(GridMetas(image.width, image.height, t), pl);
            forall i | 0 <= i < |tiles| :: tiles[i].width == s && tiles[i].height == s
  {
    var t := TileSizeFor(Some(s), recTile, image.width, image.height).value;
    var config := TilingConfig(t, PADDING, batch);
    var tx := TileCount(image.width, t);
    var ty := TileCount(image.height, t);
    TileCountBounds(image.width, t);
    TileCountBounds(image.height, t);
    if image.width <= s && image.height <= s {
      assert tx * ty == 1;
    } else {
      assert tx >= 2 || ty >= 2;
      MulMonotone(1, ty, tx);
      MulMonotone(1, tx, ty);
      assert tx * ty != 1;
    }
    TileDimensions(image, config, scale, infer, cancel);
  }

  /** The tiling of one pass: the pass's tile size with 32 pixels of padding and the chosen batch size. */
  function PassTiling(input: InputInfo, recTile: nat, batch: nat, width: nat, height: nat): (r: AppResult<TilingConfig>)
    requires recTile > 0
    ensures r.Ok? ==> r.value.tileSize > 0 && r.value.padding == PADDING && r.value.batchSize == batch
    ensures r.Err? ==> FixedInputSize(input).Some? && r == Err(InputTooSmall(FixedInputSize(input).value))
  {
    match TileSizeFor(FixedInputSize(input), recTile, width, height)
    case Err(e) => Err(e)
    case Ok(t) => Ok(TilingConfig(t, PADDING, batch))
  }

  // ---------------------------------------------------------------------
  // Naming the saved result

  const DEFAULT_COMPRESSION: string := "lossy"

  function Compression(config: UpscaleConfig): (c: string)
    ensures config.compression.None? ==> c == DEFAULT_COMPRESSION
    ensures config.compression.Some? ==> c == config.compression.value
  {
    if config.compression.Some? then config.compression.value else DEFAULT_COMPRESSION
  }

  /**
   * Where the result of upscaling `source` is written: "<stem>_upscaled.<ext>",
   * the extension being the requested format or the source's own, in the
   * output directory when one is set and beside the source otherwise.
   */
  function OutputPath(source: Path, format: Option<string>, outputDir: Option<Path>): Path
    requires FileStem(source).Some? && Extension(source).Some?
  {
    var ext := if format.Some? then format.value else Extension(source).value;
    var name := FileStem(source).value + "_upscaled." + ext;
    if outputDir.Some? then Paths.Join(outputDir.value, name) else WithFileName(source, name)
  }

  /**
   * For dir/stem.ext the result is <dir or output dir>/stem_upscaled.<ext or
   * format>: reading its stem, extension and parent back gives exactly
   * those parts.
   */
  lemma OutputPathParts(dir: Path, stem: string, ext: string, format: Option<string>, outputDir: Option<Path>)
    requires stem != [] && ext != [] && '.' !in ext
    requires format.Some? ==> format.value != [] && '.' !in format.value
    ensures StemAndExtensionOf(dir + [stem + "." + ext])
    ensures var out := OutputPath(dir + [stem + "." + ext], format, outputDir);
            var e := if format.Some? then format.value else ext;
            FileStem(out) == Some(stem + "_upscaled") && Extension(out) == Some(e)
            && Parent(out) == Some(if outputDir.Some? then outputDir.value else dir)
  {
    var source := dir + [stem + "." + ext];
    StemAndExtension(dir, stem, ext);
    var e := if format.Some? then format.value else ext;
    var name := stem + "_upscaled." + e;
    assert name == (stem + "_upscaled") + "." + e;
    var parent := if outputDir.Some? then outputDir.value else dir;
    assert source[..|source| - 1] == dir;
    assert OutputPath(source, format, outputDir) == parent + [name];
    StemAndExtension(parent, stem + "_upscaled", e);
  }

  /** The path has both a stem and an extension, as saving requires. */
  predicate StemAndExtensionOf(p: Path)
  {
    FileStem(p).Some? && Extension(p).Some?
  }

  /** Written beside its source, the result never replaces the source file. */
  lemma OutputBesideSourceIsNew(dir: Path, stem: string, ext: string, format: Option<string>)
    requires stem != [] && ext != [] && '.' !in ext
    requires format.Some? ==> format.value != [] && '.' !in format.value
    ensures StemAndExtensionOf(dir + [stem + "." + ext])
    ensures OutputPath(dir + [stem + "." + ext], format, None) != dir + [stem + "." + ext]
  {
    var source := dir + [stem + "." + ext];
    OutputPathParts(dir, stem, ext, format, None);
    var out := OutputPath(source, format, None);
    StemAndExtension(dir, stem, ext);
    assert |stem + "_upscaled"| != |stem|;
    assert FileStem(out) != FileStem(source);
  }
  // ---------------------------------------------------------------------
  // The inference callback

  /**
   * How pixels meet tensors: `encode` gives a pixel's channel as an
   * element, `decode` rebuilds a pixel from its three channels, `narrow`
   * and `widen` convert to and from half precision, `zero` fills new cells.
   */
  datatype Codec<!P, !E> = Codec(encode: (P, nat) -> E, decode: (E, E, E) -> P, widen: E -> E, narrow: E -> E, zero: E)

  /** An inference error that mentions memory, allocation or VRAM, in any case. */
  predicate MentionsMemory(e: AppError)
  {
    var l := ToLower(Display(e));
    Contains(l, "memory") || Contains(l, "allocate") || Contains(l, "vram")
  }

  /** The text the out-of-memory message puts before the original error. */
  const OOM_HEAD: string := "Out of Memory. Try closing other apps. (Technical: "

  /** A memory-related inference error becomes an out-of-memory message quoting it; others pass through. */
  function OutOfMemoryOr(e: AppError): (r: AppError)
    ensures MentionsMemory(e) ==> r == Unknown(OOM_HEAD + Display(e) + ")")
    ensures !MentionsMemory(e) ==> r == e
  {
    if MentionsMemory(e) then Unknown(OOM_HEAD + Display(e) + ")") else e
  }

  /** The reported error always carries the text of the error inference gave. */
  lemma OutOfMemoryKeepsCause(e: AppError)
    ensures Contains(Display(OutOfMemoryOr(e)), Display(e))
  {
    var d := Display(e);
    var r := OutOfMemoryOr(e);
    if r == e {
      ContainsMiddle([], d, []);
      assert [] + d + [] == d;
    } else {
      assert r == Unknown(OOM_HEAD + d + ")");
      ContainsMiddle("Unknown Error: " + OOM_HEAD, d, ")");
      assert Display(r) == "Unknown Error: " + OOM_HEAD + d + ")";
    }
  }

  /** Every VRAM error counts as running out of memory. */
  lemma VramErrorIsOutOfMemory(msg: string)
    ensures MentionsMemory(VramError(msg))
    ensures OutOfMemoryOr(VramError(msg)).Unknown?
  {
    var l := ToLower(Display(VramError(msg)));
    assert Display(VramError(msg))[..4] == "VRAM";
    assert l[0..4] == "vram";
    ContainsAt(l, "vram", 0);
  }

  /** The shape [n, 3, h, w] of a batch, from its first tile. */
  function BatchShape<P>(tiles: seq<Image<P>>): seq<int>
    requires tiles != []
  {
    [|tiles|, 3, tiles[0].height, tiles[0].width]
  }

  /** The input tensor of a batch: its packed planes, in the chosen precision. */
  function BatchInput<P, E>(tiles: seq<Image<P>>, half: bool, encode: (P, nat) -> E): (d: TensorData<E>)
    ensures d.elements == Packed(tiles, encode) && (d.Float16? <==> half)
  {
    if half then Float16(Packed(tiles, encode)) else Float32(Packed(tiles, encode))
  }

  /** The inference result as read back from the output buffer: through half precision when the buffer is half. */
  function ReadBack<P, E>(data: seq<E>, half: bool, codec: Codec<P, E>): (r: seq<E>)
    ensures |r| == |data|
    ensures !half ==> r == data
    ensures half ==> forall i | 0 <= i < |data| :: r[i] == codec.widen(codec.narrow(data[i]))
  {
    if half then seq(|data|, (i: int) requires 0 <= i < |data| => codec.widen(codec.narrow(data[i]))) else data
  }

  /** Unpacking the output buffer after the copy reads exactly the result through its precision. */
  lemma ReadBackAfterCopy<P, E>(shape: seq<int>, data: seq<E>, half: bool, codec: Codec<P, E>)
    ensures |data| <= |CopyResult([], data, half, codec.narrow, codec.zero)|
    ensures var buf := CopyResult([], data, half, codec.narrow, codec.zero);
            BatchBufferToImages(shape, if half then Float16(buf) else Float32(buf), |data|, codec.widen, codec.decode)
            == BatchTensorToImages(shape, ReadBack(data, half, codec), codec.decode)
  {
    CopyResultShape([], data, half, codec.narrow, codec.zero);
    var buf := CopyResult([], data, half, codec.narrow, codec.zero);
    if half {
      assert seq(|data|, (i: int) requires 0 <= i < |data| => codec.widen(buf[i])) == ReadBack(data, half, codec);
    } else {
      assert buf[..|data|] == data;
    }
  }

  /**
   * What the callback gives for one batch of tiles: nothing for no tiles;
   * otherwise the batch is packed in the model's element type (tiles of
   * mixed sizes or an element type other than f32 and f16 are rejected),
   * run, a failure is reported as out of memory when it mentions memory,
   * and the output tensor is split back into images.
   */
  function CallbackSpec<P, E>(tiles: seq<Image<P>>, target: ElementType, run: Runner<E>, codec: Codec<P, E>)
    : (r: AppResult<seq<Image<P>>>)
    ensures tiles == [] ==> r == Ok([])
    ensures r.Ok? ==> forall i | 0 <= i < |r.value| :: r.value[i].Valid()
    ensures r.Ok? && tiles != [] ==> SameSize(tiles, tiles[0].width, tiles[0].height)
                                     && Compatible(target, target == F16)
                                     && run(BatchShape(tiles), BatchInput(tiles, target == F16, codec.encode)).Ok?
  {
    if tiles == [] then Ok([])
    else
      var w := tiles[0].width;
      var h := tiles[0].height;
      match FirstMismatch(tiles, w, h)
      case Some(i) => Err(DimensionMismatch(w, h, i, tiles[i].width, tiles[i].height))
      case None =>
        var half := target == F16;
        if !Compatible(target, half) then Err(TypeMismatch(target))
        else
          match run(BatchShape(tiles), BatchInput(tiles, half, codec.encode))
          case Err(e) => Err(OutOfMemoryOr(e))
          case Ok((shape, data)) => BatchTensorToImages(shape, ReadBack(data, half, codec), codec.decode)
  }

  /** The callback as the function the tiled pipeline calls. */
  function Callback<P, E>(target: ElementType, run: Runner<E>, codec: Codec<P, E>): seq<Image<P>> -> AppResult<seq<Image<P>>>
  {
    tiles => CallbackSpec(tiles, target, run, codec)
  }

  /** The callback only ever returns well-formed images, as the pipeline needs. */
  lemma CallbackYieldsImages<P(!new), E>(target: ElementType, run: Runner<E>, codec: Codec<P, E>)
    ensures InferYieldsImages(Callback(target, run, codec))
  {
    forall tiles: seq<Image<P>> | Callback(target, run, codec)(tiles).Ok?
      ensures forall i | 0 <= i < |Callback(target, run, codec)(tiles).value| ::
                Callback(target, run, codec)(tiles).value[i].Valid()
    {
      assert Callback(target, run, codec)(tiles) == CallbackSpec(tiles, target, run, codec);
    }
  }

  /**
   * A model that hands its input back unchanged gives the batch back:
   * packing and unpacking are inverse for same-size tiles that fit, with
   * a decoder inverting the encoder and, in half precision, widening
   * inverting narrowing.
   */
  lemma CallbackIdentity<P(!new), E(!new)>(tiles: seq<Image<P>>, target: ElementType, run: Runner<E>, codec: Codec<P, E>)
    requires forall j | 0 <= j < |tiles| :: tiles[j].Valid()
    requires tiles != [] && SameSize(tiles, tiles[0].width, tiles[0].height) && |tiles| < USIZE_LIMIT
    requires 0 < tiles[0].width * tiles[0].height && 3 * (tiles[0].width * tiles[0].height) < U32_LIMIT
    requires target == F32 || target == F16
    requires run(BatchShape(tiles), BatchInput(tiles, target == F16, codec.encode))
             == Ok((BatchShape(tiles), Packed(tiles, codec.encode)))
    requires forall px: P :: codec.decode(codec.encode(px, 0), codec.encode(px, 1), codec.encode(px, 2)) == px
    requires target == F16 ==> forall x: E :: codec.widen(codec.narrow(x)) == x
    ensures CallbackSpec(tiles, target, run, codec) == Ok(tiles)
  {
    var w := tiles[0].width;
    var h := tiles[0].height;
    var data := Packed(tiles, codec.encode);
    var back := ReadBack(data, target == F16, codec);
    assert back == data by {
      if target == F16 {
        forall i | 0 <= i < |data| ensures back[i] == data[i] {
          assert back[i] == codec.widen(codec.narrow(data[i]));
        }
      }
    }
    FactorsBelow(w, h, U32_LIMIT);
    BatchRoundTrip(tiles, codec.encode, codec.decode, w, h);
  }

  /** Both factors of a positive product are at most the product. */
  lemma FactorsBelow(w: nat, h: nat, n: nat)
    requires 3 * (w * h) < n && 0 < w * h
    ensures w < n && h < n
  {
    MulMonotone(1, h, w);
    MulMonotone(1, w, h);
  }

  function Larger(a: nat, b: nat): nat { if a < b then b else a }

  /** A stack after the callback takes its two buffers (input of `est`, output of 16 `est`) and keeps them. */
  function Withdrawn<T>(stack: seq<Buffer<T>>, est: nat): (r: seq<Buffer<T>>)
    requires AllCleared(stack)
    ensures AllCleared(r)
    ensures |stack| >= 2 ==> r == stack[..|stack| - 2]
    ensures |stack| < 2 ==> r == []
  {
    Checkout(Checkout(stack, est).1, est * 16).1
  }

  /**
   * A stack after the callback takes its two buffers and returns them:
   * the input buffer, grown to the packed length when needed, then the
   * output buffer, grown to the result length when needed.
   */
  function Recycled<T>(stack: seq<Buffer<T>>, est: nat, inLen: nat, outLen: nat): (r: seq<Buffer<T>>)
    requires AllCleared(stack)
  {
    var (bin, s1) := Checkout(stack, est);
    var (bout, s2) := Checkout(s1, est * 16);
    Checkin(Checkin(s2, Buffer([], Larger(bin.capacity, inLen))), Buffer([], Larger(bout.capacity, outLen)))
  }

  /**
   * A successful call leaves the stack as deep as before (two buffers when
   * it held fewer), everything under the two top buffers untouched, and
   * the two top buffers emptied and large enough for this batch's input
   * and output.
   */
  lemma RecycledShape<T>(stack: seq<Buffer<T>>, est: nat, inLen: nat, outLen: nat)
    requires AllCleared(stack)
    ensures var r := Recycled(stack, est, inLen, outLen);
            AllCleared(r) && |r| == Larger(|stack|, 2)
            && r[..|r| - 2] == (if |stack| >= 2 then stack[..|stack| - 2] else [])
            && r[|r| - 2].capacity >= est && r[|r| - 2].capacity >= inLen
            && r[|r| - 1].capacity >= est * 16 && r[|r| - 1].capacity >= outLen
  {
    var (bin, s1) := Checkout(stack, est);
    var (bout, s2) := Checkout(s1, est * 16);
    var r := Recycled(stack, est, inLen, outLen);
    var mid := Checkin(s2, Buffer([], Larger(bin.capacity, inLen)));
    assert r == mid + [Buffer([], Larger(bout.capacity, outLen))];
    assert r[..|r| - 1] == mid;
    if |stack| >= 2 {
      assert s2 == stack[..|stack| - 2];
    }
  }

  /**
   * The inference callback of one upscale request: its buffer pool and
   * the number of batches it has run.
   */
  class InferenceCallback<E> {
    const pool: BufferPool<E, E>
    var batches: nat

    constructor (pool: BufferPool<E, E>)
      ensures this.pool == pool && batches == 0
    {
      this.pool := pool;
      batches := 0;
    }

    /**
     * Runs one batch: counts it, takes an input and an output buffer from
     * the pool stack of the model's precision, packs, runs and unpacks as
     * CallbackSpec says, and hands both buffers back only on success.
     */
    method Infer<P>(tiles: seq<Image<P>>, target: ElementType, run: Runner<E>, codec: Codec<P, E>)
      returns (r: AppResult<seq<Image<P>>>)
      requires pool.Valid()
      requires forall j | 0 <= j < |tiles| :: tiles[j].Valid()
      requires tiles != [] ==> 0 < tiles[0].width * tiles[0].height < U32_LIMIT
      modifies this, pool
      ensures pool.Valid()
      ensures r == CallbackSpec(tiles, target, run, codec)
      ensures tiles == [] ==> batches == old(batches) && pool.f32Buffers == old(pool.f32Buffers)
                              && pool.f16Buffers == old(pool.f16Buffers)
      ensures tiles != [] ==> batches == old(batches) + 1
      ensures tiles != [] && target == F16 ==>
                pool.f32Buffers == old(pool.f32Buffers)
                && (r.Err? ==> pool.f16Buffers == Withdrawn(old(pool.f16Buffers), tiles[0].width * tiles[0].height * 3))
                && (r.Ok? ==> pool.f16Buffers == Recycled(old(pool.f16Buffers), tiles[0].width * tiles[0].height * 3,
                                                          BatchLength(tiles), OutputLength(tiles, target, run, codec)))
      ensures tiles != [] && target != F16 ==>
                pool.f16Buffers == old(pool.f16Buffers)
                && (r.Err? ==> pool.f32Buffers == Withdrawn(old(pool.f32Buffers), tiles[0].width * tiles[0].height * 3))
                && (r.Ok? ==> pool.f32Buffers == Recycled(old(pool.f32Buffers), tiles[0].width * tiles[0].height * 3,
                                                          BatchLength(tiles), OutputLength(tiles, target, run, codec)))
    {
      if tiles == [] {
        return Ok([]);
      }
      batches := batches + 1;
      var half := target == F16;
      var est := tiles[0].width * tiles[0].height * 3;
      var bin, bout;
      if half {
        bin := pool.GetF16(est);
        bout := pool.GetF16(est * 16);
      } else {
        bin := pool.GetF32(est);
        bout := pool.GetF32(est * 16);
      }
      var input := new TensorBuffer(half, bin.elements);
      var output := new TensorBuffer(half, bout.elements);
      r := RunBatch(tiles, target, run, codec, input, output);
      if r.Ok? {
        if half {
          pool.ReturnF16(Buffer(input.elements, Larger(bin.capacity, |input.elements|)));
          pool.ReturnF16(Buffer(output.elements, Larger(bout.capacity, |output.elements|)));
        } else {
          pool.ReturnF32(Buffer(input.elements, Larger(bin.capacity, |input.elements|)));
          pool.ReturnF32(Buffer(output.elements, Larger(bout.capacity, |output.elements|)));
        }
      }
    }
  }

  /** The length of the model's output for a batch, 0 when it fails. */
  function OutputLength<P, E>(tiles: seq<Image<P>>, target: ElementType, run: Runner<E>, codec: Codec<P, E>): nat
    requires tiles != []
  {
    var o := run(BatchShape(tiles), BatchInput(tiles, target == F16, codec.encode));
    if o.Ok? then |o.value.1| else 0
  }

  /**
   * Packs, runs and unpacks one non-empty batch through two empty buffers
   * of the same precision; on success the input buffer holds the packed
   * batch and the output buffer the model's result.
   */
  method RunBatch<P, E>(tiles: seq<Image<P>>, target: ElementType, run: Runner<E>, codec: Codec<P, E>,
                        input: TensorBuffer<E>, output: TensorBuffer<E>) returns (r: AppResult<seq<Image<P>>>)
    requires forall j | 0 <= j < |tiles| :: tiles[j].Valid()
    requires tiles != [] && 0 < tiles[0].width * tiles[0].height < U32_LIMIT
    requires input != output && input.half == output.half == (target == F16)
    requires input.elements == [] && output.elements == []
    modifies input, output
    ensures r == CallbackSpec(tiles, target, run, codec)
    ensures r.Ok? ==> |input.elements| == BatchLength(tiles) && |output.elements| == OutputLength(tiles, target, run, codec)
  {
    var shape := ImagesToBuffer(tiles, target, input, codec.encode, codec.zero);
    if shape.Err? {
      return Err(shape.error);
    }
    PackAccepts(tiles, target, input.half, [], codec.encode, codec.zero);
    assert input.Contents() == BatchInput(tiles, target == F16, codec.encode);
    var outcome := RunWithBinding(shape.value, input.Contents(), output, run, codec.narrow, codec.zero);
    if outcome.Err? {
      return Err(OutOfMemoryOr(outcome.error));
    }
    var (outShape, validLen) := outcome.value;
    ghost var data := run(BatchShape(tiles), BatchInput(tiles, target == F16, codec.encode)).value.1;
    ReadBackAfterCopy(outShape, data, output.half, codec);
    CopyResultShape([], data, output.half, codec.narrow, codec.zero);
    r := BatchBufferToImages(outShape, output.Contents(), validLen, codec.widen, codec.decode);
  }


  // ---------------------------------------------------------------------
  // Matching the model's scale to the requested one

  /** When a pass reads the cancel flag as set, and the memory it sees free. */
  datatype PassEnv = PassEnv(cancel: CancelReads, availableMemory: nat)

  /** Resizing an image to the given width and height. */
  type Resize<!P> = (Image<P>, nat, nat) -> AppResult<Image<P>>

  /** A resize that gives, when it succeeds, a well-formed image of the requested size. */
  ghost predicate ResizeHonoursSize<P(!new)>(resize: Resize<P>)
  {
    forall img: Image<P>, w: nat, h: nat :: resize(img, w, h).Ok? ==>
      resize(img, w, h).value.Valid() && resize(img, w, h).value.width == w && resize(img, w, h).value.height == h
  }

  /** One tiled pass at the model's scale, with its reported progress. */
  function Pass<P>(image: Image<P>, input: InputInfo, recTile: nat, batch: nat, scale: nat, black: P,
                   infer: seq<Image<P>> -> AppResult<seq<Image<P>>>, env: PassEnv): (r: (AppResult<Image<P>>, seq<nat>))
    requires image.Valid() && recTile > 0
    ensures r.0.Ok? ==> r.0.value.Valid() && r.0.value.width == image.width * scale
                        && r.0.value.height == image.height * scale
    ensures FixedInputSize(input).Some? && FixedInputSize(input).value <= 2 * PADDING ==>
              r == (Err(InputTooSmall(FixedInputSize(input).value)), [])
  {
    match PassTiling(input, recTile, batch, image.width, image.height)
    case Err(e) => (Err(e), [])
    case Ok(config) =>
      var o := TiledSpec(image, config, scale, black, infer, env.cancel, env.availableMemory);
      (IntendedResult(o), o.progress)
  }

  /**
   * One pass as the source runs it: the tile size is s - 64 for a model of
   * fixed input size s whatever the image's size, and a run the producer
   * cut short still gives its partly stitched image.
   */
  function SourcePass<P>(image: Image<P>, input: InputInfo, recTile: nat, batch: nat, scale: nat, black: P,
                         infer: seq<Image<P>> -> AppResult<seq<Image<P>>>, env: PassEnv): (r: (AppResult<Image<P>>, seq<nat>))
    requires image.Valid() && recTile > 0
    ensures r.0.Ok? ==> r.0.value.Valid() && r.0.value.width == image.width * scale
                        && r.0.value.height == image.height * scale
    ensures FixedInputSize(input).Some? && FixedInputSize(input).value <= 2 * PADDING ==>
              r == (Err(InputTooSmall(FixedInputSize(input).value)), [])
  {
    match SourceTileSize(FixedInputSize(input), recTile)
    case Err(e) => (Err(e), [])
    case Ok(t) =>
      var o := TiledSpec(image, TilingConfig(t, PADDING, batch), scale, black, infer, env.cancel, env.availableMemory);
      (SourceResult(o), o.progress)
  }

  /**
   * The corrected pass and the source's agree whenever the producer never
   * reads the cancel flag as set and the image does not fit in one
   * fixed-size input: the two corrections only matter in those cases.
   */
  lemma PassMatchesSource<P>(image: Image<P>, input: InputInfo, recTile: nat, batch: nat, scale: nat, black: P,
                             infer: seq<Image<P>> -> AppResult<seq<Image<P>>>, env: PassEnv)
    requires image.Valid() && recTile > 0
    requires env.cancel.producerFirst.None?
    requires FixedInputSize(input).Some? ==>
               image.width > FixedInputSize(input).value || image.height > FixedInputSize(input).value
    ensures Pass(image, input, recTile, batch, scale, black, infer, env)
            == SourcePass(image, input, recTile, batch, scale, black, infer, env)
  {
    var fixed := FixedInputSize(input);
    assert TileSizeFor(fixed, recTile, image.width, image.height) == SourceTileSize(fixed, recTile);
    match SourceTileSize(fixed, recTile)
    case Err(e) =>
    case Ok(t) =>
      TiledProofs.BatchesShape(GridMetas(image.width, image.height, t), batch, None);
  }

  /** An extent scaled by target / model, rounded down. */
  function TargetExtent(extent: nat, target: nat, model: nat): nat
    requires model > 0
  {
    extent * target / model
  }

  /**
   * The upscale of one image with a model of scale m for a requested scale
   * t, with the progress reported: for m = t one pass; for m > t one pass
   * and a resize to t / m of its size; for m < t two passes, the first
   * reporting no progress.
   */
  function UpscaleSpec<P>(image: Image<P>, modelScale: nat, targetScale: nat, input: InputInfo, recTile: nat,
                          batch: nat, black: P, infer: seq<Image<P>> -> AppResult<seq<Image<P>>>,
                          first: PassEnv, second: PassEnv, resize: Resize<P>): (AppResult<Image<P>>, seq<nat>)
    requires image.Valid() && recTile > 0
  {
    var p := Pass(image, input, recTile, batch, modelScale, black, infer, first);
    if modelScale == targetScale then p
    else if modelScale > targetScale then
      if p.0.Err? then p
      else
        var up := p.0.value;
        (resize(up, TargetExtent(up.width, targetScale, modelScale), TargetExtent(up.height, targetScale, modelScale)), p.1)
    else
      if p.0.Err? then (p.0, [])
      else Pass(p.0.value, input, recTile, batch, modelScale, black, infer, second)
  }

  /** Scaling m times an extent by t / m gives t times the extent. */
  lemma ScaledBack(extent: nat, target: nat, model: nat)
    requires model > 0
    ensures TargetExtent(extent * model, target, model) == extent * target
  {
    assert extent * model * target == (extent * target) * model;
    DivUnique(extent * model * target, model, extent * target);
  }

  /** How many times larger the completed upscale is: t for a model of scale at least t, m * m otherwise. */
  function OutputFactor(modelScale: nat, targetScale: nat): nat
  {
    if modelScale >= targetScale then targetScale else modelScale * modelScale
  }

  /** For a positive extent, the output has t times its size exactly when m >= t or t = m * m. */
  lemma FactorReachesTarget(w: nat, m: nat, t: nat)
    requires w >= 1
    ensures w * OutputFactor(m, t) == w * t <==> m >= t || t == m * m
  {
    var f := OutputFactor(m, t);
    if f < t {
      MulMonotone(f + 1, t, w);
    } else if t < f {
      MulMonotone(t + 1, f, w);
    }
  }

  /** Two m-fold passes make an extent m * m times larger. */
  lemma TwoPasses(w: nat, m: nat)
    ensures w * m * m == w * (m * m)
  {
  }

  /** The resize after a larger model's pass gives t times the original size. */
  lemma ResizedSize<P(!new)>(up: Image<P>, w: nat, h: nat, m: nat, t: nat, resize: Resize<P>)
    requires m > t && up.width == w * m && up.height == h * m && ResizeHonoursSize(resize)
    requires resize(up, TargetExtent(up.width, t, m), TargetExtent(up.height, t, m)).Ok?
    ensures var out := resize(up, TargetExtent(up.width, t, m), TargetExtent(up.height, t, m)).value;
            out.Valid() && out.width == w * t && out.height == h * t
  {
    ScaledBack(w, t, m);
    ScaledBack(h, t, m);
  }

  /**
   * A completed upscale is t times the image when the model's scale m is
   * at least t (given a resize that honours the size), and m * m times
   * the image otherwise, whatever t is: so a smaller model reaches the
   * requested size exactly when t = m * m.
   */
  lemma UpscaleDimensions<P(!new)>(image: Image<P>, modelScale: nat, targetScale: nat, input: InputInfo, recTile: nat,
                                   batch: nat, black: P, infer: seq<Image<P>> -> AppResult<seq<Image<P>>>,
                                   first: PassEnv, second: PassEnv, resize: Resize<P>)
    requires image.Valid() && recTile > 0 && ResizeHonoursSize(resize)
    requires UpscaleSpec(image, modelScale, targetScale, input, recTile, batch, black, infer, first, second, resize).0.Ok?
    ensures var out := UpscaleSpec(image, modelScale, targetScale, input, recTile, batch, black, infer, first, second,
                                   resize).0.value;
            var factor := OutputFactor(modelScale, targetScale);
            out.Valid() && out.width == image.width * factor && out.height == image.height * factor
    ensures image.width >= 1 ==>
              (UpscaleSpec(image, modelScale, targetScale, input, recTile, batch, black, infer, first, second,
                           resize).0.value.width == image.width * targetScale
               <==> modelScale >= targetScale || targetScale == modelScale * modelScale)
  {
    var out := UpscaleSpec(image, modelScale, targetScale, input, recTile, batch, black, infer, first, second,
                           resize).0.value;
    var p := Pass(image, input, recTile, batch, modelScale, black, infer, first);
    var m := modelScale;
    var t := targetScale;
    if m > t {
      ResizedSize(p.0.value, image.width, image.height, m, t, resize);
    } else if m < t {
      TwoPasses(image.width, m);
      TwoPasses(image.height, m);
    }
    if image.width >= 1 {
      FactorReachesTarget(image.width, m, t);
    }
  }

  /** Runs one pass through the tiled pipeline with the pass's tiling. */
  method RunPass<P(!new)>(image: Image<P>, input: InputInfo, recTile: nat, batch: nat, scale: nat, black: P,
                          infer: seq<Image<P>> -> AppResult<seq<Image<P>>>, env: PassEnv)
    returns (r: AppResult<Image<P>>, progress: seq<nat>)
    requires image.Valid() && recTile > 0 && InferYieldsImages(infer)
    ensures (r, progress) == Pass(image, input, recTile, batch, scale, black, infer, env)
  {
    var tiling := PassTiling(input, recTile, batch, image.width, image.height);
    if tiling.Err? {
      return Err(tiling.error), [];
    }
    r, progress := ProcessTiled(image, tiling.value, scale, black, infer, env.cancel, env.availableMemory);
  }

  /**
   * Upscales a loaded image with a model of scale `modelScale`: reads the
   * session's input constraints, settles the batch size (with its
   * warning), rejects a fixed input of 64 pixels or fewer, and runs the
   * passes the model and requested scales call for, each inference
   * through the callback.
   */
  method ProcessWithSession<P(!new), E>(loaded: AppResult<Image<P>>, modelScale: nat, recTile: nat, config: UpscaleConfig,
                                        input: InputInfo, run: Runner<E>, codec: Codec<P, E>, black: P,
                                        first: PassEnv, second: PassEnv, resize: Resize<P>)
    returns (r: AppResult<Image<P>>, progress: seq<nat>, warnings: seq<string>)
    requires recTile > 0 && (loaded.Ok? ==> loaded.value.Valid())
    ensures loaded.Err? ==> r == Err(loaded.error) && progress == [] && warnings == []
    ensures loaded.Ok? ==>
              warnings == BatchWarnings(config.batchSize, StaticBatch(input))
              && (r, progress) == UpscaleSpec(loaded.value, modelScale, config.scale, input, recTile,
                                              BatchSizeFor(config.batchSize, StaticBatch(input)), black,
                                              Callback(TargetType(input), run, codec), first, second, resize)
  {
    progress, warnings := [], [];
    if loaded.Err? {
      return Err(loaded.error), progress, warnings;
    }
    var image := loaded.value;
    var fixed := FixedInputSize(input);
    var batch;
    batch, warnings := ConfigureBatchSize(config.batchSize, StaticBatch(input));
    if fixed.Some? && fixed.value <= 2 * PADDING {
      return Err(InputTooSmall(fixed.value)), progress, warnings;
    }
    var infer := Callback(TargetType(input), run, codec);
    CallbackYieldsImages(TargetType(input), run, codec);
    r, progress := MatchScale(image, modelScale, config.scale, input, recTile, batch, black, infer, first, second, resize);
  }

  /** Runs the passes, and the resize, that take a model of scale `modelScale` to `targetScale`. */
  method MatchScale<P(!new)>(image: Image<P>, modelScale: nat, targetScale: nat, input: InputInfo, recTile: nat,
                             batch: nat, black: P, infer: seq<Image<P>> -> AppResult<seq<Image<P>>>,
                             first: PassEnv, second: PassEnv, resize: Resize<P>)
    returns (r: AppResult<Image<P>>, progress: seq<nat>)
    requires image.Valid() && recTile > 0 && InferYieldsImages(infer)
    ensures (r, progress) == UpscaleSpec(image, modelScale, targetScale, input, recTile, batch, black, infer,
                                         first, second, resize)
  {
    if modelScale == targetScale {
      r, progress := RunPass(image, input, recTile, batch, modelScale, black, infer, first);
    } else if modelScale > targetScale {
      var up;
      up, progress := RunPass(image, input, recTile, batch, modelScale, black, infer, first);
      if up.Err? {
        return Err(up.error), progress;
      }
      var targetW := TargetExtent(up.value.width, targetScale, modelScale);
      var targetH := TargetExtent(up.value.height, targetScale, modelScale);
      r := resize(up.value, targetW, targetH);
    } else {
      var pass1, ignored := RunPass(image, input, recTile, batch, modelScale, black, infer, first);
      if pass1.Err? {
        return Err(pass1.error), [];
      }
      r, progress := RunPass(pass1.value, input, recTile, batch, modelScale, black, infer, second);
    }
  }


  // ---------------------------------------------------------------------
  // Saving and the whole run

  /**
   * The outcomes of the file-system steps of saving: whether the output
   * directory exists and creating it, encoding an image with a
   * compression setting, writing with the source's metadata, and the
   * plain write tried when that fails.
   */
  datatype SaveEnv<!P> = SaveEnv(dirExists: bool, createDir: Result<(), string>,
                                 encode: (Image<P>, string) -> AppResult<()>, withMetadata: AppResult<()>,
                                 plainWrite: Result<(), string>)

  /**
   * What the caller of a save sees when the source path lacks a stem or an
   * extension: saving unwraps both before anything else and panics, and the
   * command that ran it on a worker thread reports the failed task as an
   * unknown error (the panic message itself is not modelled).
   */
  const SAVE_PANIC: AppError := Unknown("task panicked")

  /**
   * Saves the result of upscaling `source` and returns where: the output
   * directory is created when missing, the image is encoded with the
   * configured compression, and a failed write with metadata falls back
   * to a plain write.
   */
  function SaveResult<P>(image: Image<P>, source: Path, config: UpscaleConfig, env: SaveEnv<P>): (r: AppResult<Path>)
    ensures !StemAndExtensionOf(source) ==> r == Err(SAVE_PANIC)
    ensures r.Ok? ==> StemAndExtensionOf(source) && r.value == OutputPath(source, config.format, config.outputDir)
    ensures r.Ok? <==> StemAndExtensionOf(source)
                       && (config.outputDir.None? || env.dirExists || env.createDir.Ok?)
                       && env.encode(image, Compression(config)).Ok?
                       && (env.withMetadata.Ok? || env.plainWrite.Ok?)
    ensures StemAndExtensionOf(source) && config.outputDir.Some? && !env.dirExists && env.createDir.Err?
            ==> r == Err(Unknown(env.createDir.error))
  {
    if !StemAndExtensionOf(source) then Err(SAVE_PANIC)
    else if config.outputDir.Some? && !env.dirExists && env.createDir.Err? then Err(Unknown(env.createDir.error))
    else
      var encoded := env.encode(image, Compression(config));
      if encoded.Err? then Err(encoded.error)
      else if env.withMetadata.Err? && env.plainWrite.Err? then Err(Unknown(env.plainWrite.error))
      else Ok(OutputPath(source, config.format, config.outputDir))
  }

  /**
   * A whole upscale of the image at `source`: loads the model, loads the
   * image (`loadImage`), processes it with the session's input
   * (`inputOf`) and runner (`runnerOf`), and saves the result.
   */
  method Run<S, P(!new), E>(state: AppState<S>, config: UpscaleConfig, modelsDir: Path, fileExists: bool, lowMemory: bool,
                            load: (Path, bool) -> AppResult<S>, probeOf: S -> Probe, gpu: Option<Gpu.GpuInfo>,
                            source: Path, loadImage: AppResult<Image<P>>, inputOf: S -> InputInfo,
                            runnerOf: S -> Runner<E>, codec: Codec<P, E>, black: P, first: PassEnv, second: PassEnv,
                            resize: Resize<P>, save: SaveEnv<P>)
    returns (r: AppResult<Path>, progress: seq<nat>, warnings: seq<string>)
    requires loadImage.Ok? ==> loadImage.value.Valid()
    modifies state
    ensures var o := LoadSpec(old(state.modelSlot), old(state.scaleCache), config, modelsDir, fileExists, lowMemory,
                              load, probeOf, gpu);
            state.modelSlot == o.slot && state.scaleCache == o.scales
            && (o.result.Err? ==> r == Err(o.result.error) && progress == [] && warnings == [])
            && (o.result.Ok? && loadImage.Err? ==> r == Err(loadImage.error) && progress == [] && warnings == [])
            && (o.result.Ok? && loadImage.Ok? ==>
                  var m := o.result.value;
                  var input := inputOf(m.session);
                  var up := UpscaleSpec(loadImage.value, m.scale, config.scale, input, m.recommendedTileSize,
                                        BatchSizeFor(config.batchSize, StaticBatch(input)), black,
                                        Callback(TargetType(input), runnerOf(m.session), codec), first, second, resize);
                  warnings == BatchWarnings(config.batchSize, StaticBatch(input)) && progress == up.1
                  && r == (if up.0.Err? then Err(up.0.error) else SaveResult(up.0.value, source, config, save)))
  {
    progress, warnings := [], [];
    var loaded := LoadModel(state, config, modelsDir, fileExists, lowMemory, load, probeOf, gpu);
    if loaded.Err? {
      return Err(loaded.error), progress, warnings;
    }
    var m := loaded.value;
    var image;
    image, progress, warnings := ProcessWithSession(loadImage, m.scale, m.recommendedTileSize, config, inputOf(m.session),
                                                    runnerOf(m.session), codec, black, first, second, resize);
    if image.Err? {
      return Err(image.error), progress, warnings;
    }
    r := SaveResult(image.value, source, config, save);
  }
}
