# RustScale core in Dafny

RustScale is a desktop image upscaler. It runs an ONNX super-resolution model
over an image cut into padded tiles and stitches the upscaled tiles back
into one output. This project models its core in Dafny and proves
properties of that model:

- **Tiling** (`tiling.dfy`, `image_processing.dfy`, `tiled_proofs.dfy`):
  - the grid of tiles and the padding rule;
  - mirrored tile extraction;
  - cropping and stitching into the output buffer;
  - the producer/consumer pipeline with its batching, progress reports and
    cancellation.
- **Inference glue** (`inference.dfy`):
  - packing a batch of images into a planar N x 3 x H x W tensor and
    unpacking it again;
  - the pool of recycled tensor buffers;
  - copying a result into a reusable output buffer;
  - scale detection by probing the model.
- **Application state** (`state.dfy`): the job list, the cancellation flags
  of running jobs, the one-slot model-session cache and the negative-caching
  scale cache.
- **Engine** (`engine.dfy`):
  - loading a model;
  - reading the model's input constraints;
  - choosing batch and tile sizes;
  - the inference callback handed to the tiling pipeline;
  - the strategy that matches the model's scale to the requested one;
  - saving the result;
  - the whole run.

  The engine's passes, and the strategy and the run built on them, follow
  the corrected behaviour of the first two findings below. `Engine.SourcePass`
  is one pass as the source runs it, and `Engine.PassMatchesSource` states
  when the two agree.
- **Hardware policy** (`gpu.dfy`): the vendor classification, the VRAM
  tiers for tile and batch size, and the parsing of the command-line probe
  outputs.
- **Model manifest** (`models.dfy`): the fields inferred from a model's file
  name and the user's overrides.
- **Commands** (`commands.dfy`): preload, the single and batch upscale
  jobs, cancel, and the model-info edits.

Shared helper modules:

- `errors.dfy`: the application's error type and its display text.
- `text.dfy`: ASCII lower-casing, search, trimming, splitting and u64
  parsing.
- `paths.dfy`: path components, file name, stem and extension.
- `raster.dfy`: row-major images.

The model abstracts the following:

- **Pixels and tensor elements** are type parameters.
- **Channel encoding, decoding and f16 conversion** are function parameters.
- **The inference session** is a function from an input shape and tensor to
  an output shape and data, or an error.
- **The cancel flag** is read by two threads. The model records the first
  tile and the first batch at which each thread reads it as set.
- **The two pipeline threads** become one sequential loop in which every
  batch sent is consumed at once.

## Model

| member | source | states |
|---|---|---|
| Errors.DisplayParts | src-tauri/src/error.rs:6-31 | an error displays as its kind's prefix ending in ": " followed by its message |
| Text.ToLowerIdempotent | src-tauri/src/gpu.rs:28-45 | lower-casing a name twice is lower-casing it once |
| Text.Trim | src-tauri/src/gpu.rs:157-166 | the trimmed text is a slice of the input with only whitespace before and after it, and it has no whitespace at either end |
| Text.JoinSplit | src-tauri/src/gpu.rs:157 | splitting at a separator loses nothing: joining the parts rebuilds the text |
| Text.SplitJoin | src-tauri/src/gpu.rs:157 | separator-free fields joined with the separator split back into exactly those fields |
| Text.SplitCount | src-tauri/src/gpu.rs:157 | a split yields one more part than there are separators |
| Text.ParseU64 | src-tauri/src/gpu.rs:165-166 | parsing succeeds exactly when, after an optional '+', the text is one or more decimal digits whose value is below 2^64, and then gives that value |
| Text.ParseU64OrZero | src-tauri/src/gpu.rs:165-166 | the parsed value when parsing succeeds, and 0 when it fails |
| Paths.StemAndExtension | src-tauri/src/engine/mod.rs:397-399 | "stem.ext" with a dot-free extension has exactly that stem and extension |
| Paths.StemDotExtension | src-tauri/src/models.rs:88-90 | stem and extension partition the file name around its last dot |
| Paths.Join | src-tauri/src/engine/mod.rs:401-409 | a joined path's parent is the directory and its file name the joined name |
| Tiling.CeilDivBounds | src-tauri/src/image_processing.rs:166-168 | the tile count covers the extent and one tile fewer does not |
| Tiling.TileStartsInside | src-tauri/src/image_processing.rs:166-168 | every tile index below the count starts inside the image |
| Tiling.ContentSize | src-tauri/src/image_processing.rs:197-200 | a tile's real content is 1..tileSize wide, ends inside the image, and is cut short only at the image edge |
| Tiling.EffectivePadding | src-tauri/src/image_processing.rs:172-176 | no padding for a single tile; otherwise the configured padding, at least 32 |
| Tiling.MetaAt | src-tauri/src/image_processing.rs:195-210 | the metadata of tile (x, y) carries its grid position and a content of 1..tileSize per axis |
| Tiling.GridMetasAt | src-tauri/src/image_processing.rs:185-210 | the grid holds tilesX * tilesY tiles and tile (x, y) is entry y * tilesX + x (row-major order) |
| Tiling.GridMetasEntry | src-tauri/src/image_processing.rs:185-210 | every grid entry is the metadata of a grid position |
| Tiling.SpanOwner | src-tauri/src/image_processing.rs:350-359 | along one axis every output coordinate lies in the stitched span of tile c / (tileSize * scale) |
| Tiling.SpanUnique | src-tauri/src/image_processing.rs:350-359 | along one axis no other tile's span covers that coordinate |
| ImageProcessing.Mirror | src-tauri/src/image_processing.rs:266-279 | the mirrored coordinate is in range, equals the coordinate when in range, reflects once at either edge, and clamps past two reflections |
| ImageProcessing.MirrorSymmetric | src-tauri/src/image_processing.rs:266-279 | mirroring ignores the sign of the coordinate |
| ImageProcessing.MirrorCoordinate | src-tauri/src/image_processing.rs:266-279 | the loops compute Mirror, and each reflection loop runs at most once |
| ImageProcessing.MirroredTileCore | src-tauri/src/image_processing.rs:283-323 | inside the padding frame, a padded tile copies the image exactly |
| ImageProcessing.ExtractTileWithMirroring | src-tauri/src/image_processing.rs:283-323 | the tile built pixel by pixel is the (w + 2p) x (h + 2p) mirrored tile |
| ImageProcessing.CopiedIsRegion | src-tauri/src/image_processing.rs:338-367 | the rectangle stitching copies is exactly the tile's region of the output, cut at the output's edges |
| ImageProcessing.CopyRows | src-tauri/src/image_processing.rs:361-367 | the row-by-row copy writes exactly the block of rows by columns from the tile and leaves every other output pixel unchanged (at the intended offsets; see Findings) |
| ImageProcessing.RowOffsetU32 | src-tauri/src/image_processing.rs:364 | the row copy's 32-bit byte offset is always below 2^32 |
| ImageProcessing.RowOffsetWraps | src-tauri/src/image_processing.rs:364 | as written, row 35792 of a 40000-pixel-wide output is copied to a byte inside row 0 |
| ImageProcessing.RowOffsetInjective | src-tauri/src/image_processing.rs:361-367 | the intended offsets give each output pixel its own three bytes inside the buffer, and distinct pixels never overlap |
| ImageProcessing.StitchTile | src-tauri/src/image_processing.rs:326-370 | every output pixel inside the tile's region takes the cropped tile's pixel and every other pixel is unchanged; an undersized tile is an error that leaves the output untouched |
| ImageProcessing.IntendedResult | src-tauri/src/image_processing.rs:240-261 | a run succeeds exactly when it completed, so any cancellation is an error |
| ImageProcessing.StoppedStays | src-tauri/src/image_processing.rs:191-193 | once the producer has stopped it looks at no more tiles |
| ImageProcessing.SentStaysPrefix | src-tauri/src/image_processing.rs:224-230 | batches once sent stay at the front of everything sent |
| ImageProcessing.FailureStays | src-tauri/src/image_processing.rs:245-249 | after a failure the consumer handles no more batches |
| ImageProcessing.StitchAll | src-tauri/src/image_processing.rs:251-253 | stitching a batch in order paints the output as the stitched sequence says, or fails with the stitch error |
| ImageProcessing.ReceiveBatch | src-tauri/src/image_processing.rs:240-257 | one received batch (cancel check, inference, count check, stitching, progress) is one step of the consumer specification |
| ImageProcessing.TakeTile | src-tauri/src/image_processing.rs:188-231 | one producer step keeps the run invariant or ends the run with the error the specification gives |
| ImageProcessing.CutTile | src-tauri/src/image_processing.rs:197-218 | the metadata of grid position (x, y) is the grid's entry there and the tile cut is the mirrored padded tile at its origin |
| ImageProcessing.AddTile | src-tauri/src/image_processing.rs:220-229 | adding the cut tile to the batch and sending the batch once full keeps the run invariant or ends the run with the consumer's error |
| ImageProcessing.TakeRow | src-tauri/src/image_processing.rs:190-230 | one grid row of producer steps keeps the run invariant across the row or ends the run with the error the specification gives |
| ImageProcessing.TakeRows | src-tauri/src/image_processing.rs:189-231 | the producer's loop over every grid row ends with all grid tiles looked at, or stops with the error the specification gives |
| ImageProcessing.FinishRun | src-tauri/src/image_processing.rs:234-261 | sending the last partial batch and freezing the buffer gives the run's intended result and progress |
| ImageProcessing.CancelStops | src-tauri/src/image_processing.rs:191-193 | a producer that reads the flag as set ends the run as cancelled with the progress so far |
| ImageProcessing.StopIsResult | src-tauri/src/image_processing.rs:240-261 | an early stop is the run's intended result |
| ImageProcessing.ProcessTiled | src-tauri/src/image_processing.rs:135-262 | the result and the progress reports are those of the tiled-run specification: memory check, row-major tiles, batches, inference, stitching, cancellation as an error |
| TiledProofs.ProducerInvariant | src-tauri/src/image_processing.rs:185-237 | the producer sends only full batches, holds fewer than a full batch, has sent and held exactly the tiles seen, and stops exactly when it reads the flag |
| TiledProofs.BatchesShape | src-tauri/src/image_processing.rs:185-237 | batches are non-empty and full except the last; uncancelled they hold every tile in order, cancelled only a prefix of full batches |
| TiledProofs.ConsumeProgress | src-tauri/src/image_processing.rs:255-256 | the consumer reports once per completed batch, each report the number of tiles in the batches so far |
| TiledProofs.ConsumerReports | src-tauri/src/image_processing.rs:255-256 | reports strictly increase, stay within the tiles sent, and end at that total when nothing fails |
| TiledProofs.ProgressReports | src-tauri/src/image_processing.rs:135-262 | a run's reports strictly increase and never exceed the tile count; a complete run ends at the tile count |
| TiledProofs.RegionOwner | src-tauri/src/image_processing.rs:350-367 | output pixel (X, Y) lies in the region of grid tile (X / S, Y / S) with S = tileSize * scale |
| TiledProofs.RegionOwnerUnique | src-tauri/src/image_processing.rs:350-367 | no other grid tile's region contains that pixel |
| TiledProofs.RegionsPartition | src-tauri/src/image_processing.rs:166-176 | the stitched regions partition the output: every pixel lies in exactly one tile's region |
| TiledProofs.PixelAfterOwner | src-tauri/src/image_processing.rs:251-253 | a pixel covered by exactly one stitched tile holds that tile's pixel, whatever is stitched before or after |
| TiledProofs.UpscaledFits | src-tauri/src/image_processing.rs:338-347 | the crop window of a grid tile fits inside its upscaled padded tile |
| TiledProofs.ConsumeAll | src-tauri/src/image_processing.rs:240-257 | with a per-tile upscaler and no cancellation every batch is stitched, in order |
| TiledProofs.CompleteRun | src-tauri/src/image_processing.rs:135-262 | with enough memory, no cancellation and a per-tile upscaler, the run completes and stitches every grid tile |
| TiledProofs.AssembledPixel | src-tauri/src/image_processing.rs:350-367 | once every tile is stitched, each output pixel holds the pixel of the tile that owns it |
| TiledProofs.TiledRunCovers | src-tauri/src/image_processing.rs:135-262 | a complete run's output is scale times the input and every pixel comes from its owning tile |
| TiledProofs.NearestOwned | src-tauri/src/image_processing.rs:283-367 | under pixel replication the padding and the tile origin cancel: the owned pixel is source pixel (X / s, Y / s) |
| TiledProofs.TilingIsInvisible | src-tauri/src/image_processing.rs:135-370 | with pixel replication as the upscaler the tiled output is the whole image upscaled, whatever the tile size, padding and batch size |
| TiledProofs.ProducerStopsAtSecond | src-tauri/src/image_processing.rs:190-195 | with one tile per batch, a producer that sees the flag at the second tile sends the first tile and stops |
| TiledProofs.CancelledOutcome | src-tauri/src/image_processing.rs:190-261 | a producer that stopped, with a consumer that did not fail, yields the partial image |
| TiledProofs.CancelledIsError | src-tauri/src/image_processing.rs:258-261 | for a producer-cancelled run the source result is success with the image while the intended result is the cancellation error |
| TiledProofs.ProducerCancelOutcome | src-tauri/src/image_processing.rs:185-261 | the 2 x 1 example run ends producer-cancelled after stitching its first tile, with progress [1] |
| TiledProofs.ProducerCancelReturnsPartialImage | src-tauri/src/image_processing.rs:190-261 | in that run the source returns success with the second pixel still black, where the intended result is the cancellation error |
| Inference.AsU32 | src-tauri/src/inference.rs:526-565 | a cast to u32 keeps the low 32 bits and leaves a value in range unchanged |
| Inference.Grow | src-tauri/src/inference.rs:422-512 | resizing grows to at least n elements, never shrinks, and keeps the existing prefix |
| Inference.Reserve | src-tauri/src/inference.rs:369-399 | reserving leaves the elements unchanged and makes room for the extra elements |
| Inference.Checkout | src-tauri/src/inference.rs:369-399 | taking a buffer gives an empty buffer of sufficient capacity: the top of the stack, grown if needed, or a fresh one |
| Inference.Checkin | src-tauri/src/inference.rs:382-405 | returning a buffer pushes it, emptied, on top of the stack |
| Inference.CheckoutAfterCheckin | src-tauri/src/inference.rs:369-405 | last in, first out: taking right after returning gives the same buffer back |
| Inference.CheckinAfterCheckout | src-tauri/src/inference.rs:369-405 | taking and returning leaves the stack as it was, up to a larger capacity on top |
| Inference.BufferPool.GetF32 | src-tauri/src/inference.rs:369-380 | the f32 stack loses its top, which is returned cleared and grown; the f16 stack is untouched; all pooled buffers stay cleared |
| Inference.BufferPool.ReturnF32 | src-tauri/src/inference.rs:382-386 | the buffer is cleared and pushed on the f32 stack only |
| Inference.BufferPool.GetF16 | src-tauri/src/inference.rs:388-399 | as GetF32, for the f16 stack |
| Inference.BufferPool.ReturnF16 | src-tauri/src/inference.rs:401-405 | as ReturnF32, for the f16 stack |
| Inference.PlanesAt | src-tauri/src/inference.rs:486-502 | channel c of pixel (x, y) sits at c * w * h + y * w + x of an image's planes |
| Inference.PackedAt | src-tauri/src/inference.rs:422-512 | image i, channel c, pixel (x, y) sits at i * 3wh + c * wh + y * w + x of the packed batch |
| Inference.FirstMismatch | src-tauri/src/inference.rs:433-446 | the first image whose size differs from the first image's, or none exactly when all share it |
| Inference.PackRejects | src-tauri/src/inference.rs:422-512 | packing fails exactly on an empty batch, mixed sizes or a buffer of the other precision, and an empty batch gives the no-images error |
| Inference.PackLayout | src-tauri/src/inference.rs:422-512 | a successful pack gives shape [n, 3, h, w], grows the buffer and never shrinks it, keeps elements past the batch, and stores the batch in planar layout |
| Inference.PlanarImage | src-tauri/src/inference.rs:486-502 | the per-pixel loop writes an image's red, green and blue planes |
| Inference.WriteBatch | src-tauri/src/inference.rs:480-502 | writing the chunks in turn puts the packed batch at the front of the buffer and keeps its tail |
| Inference.ImagesToBuffer | src-tauri/src/inference.rs:422-512 | the result and the buffer's new contents are those of the packing specification; on error the buffer is unchanged |
| Inference.ImagesToBatchTensor | src-tauri/src/inference.rs:514-524 | a fresh tensor of the model's precision holding exactly the packed planes |
| Inference.TensorToImage | src-tauri/src/inference.rs:526-565 | decoding succeeds exactly when the data holds 3 * w * h elements and that count fits in 32 bits, and gives a w x h image |
| Inference.TensorToImageAt | src-tauri/src/inference.rs:526-565 | pixel (x, y) is decoded from the three plane entries at y * w + x |
| Inference.TensorImageRoundTrip | src-tauri/src/inference.rs:470-565 | decoding an image's planes with an inverse decoder gives the image back |
| Inference.SliceImages | src-tauri/src/inference.rs:588-607 | each image is decoded from its own slice, and the first failing slice's error is returned |
| Inference.BatchTensorToImages | src-tauri/src/inference.rs:567-609 | a rank other than 4 is an error; for a batch other than 1, data of the wrong length is the size-mismatch error; success gives one image per batch entry, image i decoded from slice i, each of the tensor's width and height |
| Inference.BatchRoundTrip | src-tauri/src/inference.rs:422-609 | unpacking what packing produced gives the batch back |
| Inference.PackedSlices | src-tauri/src/inference.rs:588-607 | slice i of a packed batch unpacks to image i |
| Inference.BatchBufferToImages | src-tauri/src/inference.rs:611-625 | only the valid prefix of a reused buffer is read, widened first for half precision |
| Inference.CopyResultShape | src-tauri/src/inference.rs:285-302 | the copy grows the buffer only when it is too short, writes exactly the result (narrowed for f16) and keeps the tail |
| Inference.CopyThenUnpack | src-tauri/src/inference.rs:285-302 | reading an f32 buffer back after the copy sees exactly the inference result |
| Inference.RunWithBinding | src-tauri/src/inference.rs:270-303 | a failed run leaves the buffer untouched; a successful one returns the shape and length and copies the data in |
| Inference.ScaleFromOutput | src-tauri/src/inference.rs:331-340 | the scale is the output width over the probe size, rounded down, and a rank below 4 is an error |
| Inference.DetectScale | src-tauri/src/inference.rs:305-351 | the probing loop computes the detection specification |
| Inference.DetectOverFirst | src-tauri/src/inference.rs:305-351 | the first probe that succeeds decides the scale, whatever later probes would do |
| Inference.DetectOverAllFail | src-tauri/src/inference.rs:305-351 | when every probe fails the last probe's error is reported |
| Inference.DetectFirstSuccess | src-tauri/src/inference.rs:305-351 | sizes 64, 256 and 512 are tried in order, stopping at the first success |
| Inference.DetectAllFail | src-tauri/src/inference.rs:305-351 | when all three probes fail the error of the 512 probe is reported |
| State.FirstWithId | src-tauri/src/state.rs:89-97 | the index of the first job with the id, or none exactly when no job has it |
| State.WithStatus | src-tauri/src/state.rs:89-97 | only the first job with the id changes, and only its status |
| State.WithStatusIdempotent | src-tauri/src/state.rs:89-97 | setting a status twice is setting it once |
| State.RequestModel | src-tauri/src/state.rs:99-146 | low memory bypasses the cache; a hit answers without loading; a miss loads and fills the slot only on success |
| State.RequestAgainHits | src-tauri/src/state.rs:122-143 | after a successful load, asking for the same path again answers from the slot without loading |
| State.QueryScale | src-tauri/src/state.rs:148-184 | a cached 0 is the negative-cache error and a cached scale the answer; otherwise detection runs and its outcome (0 on failure) is recorded |
| State.QueryAgain | src-tauri/src/state.rs:148-184 | detection runs at most once per path and a failure is remembered as the negative-cache error |
| State.Invalidate | src-tauri/src/state.rs:186-191 | invalidation forgets one path's scale and nothing else |
| State.QueryAfterInvalidate | src-tauri/src/state.rs:148-191 | after invalidation the next query detects again |
| State.AppState.AddJob | src-tauri/src/state.rs:81-87 | the job is appended and the rest of the state is unchanged |
| State.AppState.UpdateJobStatus | src-tauri/src/state.rs:89-97 | the search loop updates the first job with the id, as WithStatus says |
| State.AppState.GetOrLoadModel | src-tauri/src/state.rs:99-146 | the result and the slot are those of RequestModel, with one load counted exactly when the model was loaded |
| State.AppState.GetModelScale | src-tauri/src/state.rs:148-184 | the result and the cache are those of QueryScale, with one detection counted exactly when detection ran |
| State.AppState.InvalidateCache | src-tauri/src/state.rs:186-191 | the scale cache loses that path's entry and nothing else changes |
| Gpu.FromName | src-tauri/src/gpu.rs:28-45 | the vendor is matched case-insensitively, in the order Nvidia, Amd ("amd" or "radeon"), Intel, Apple, else Unknown |
| Gpu.FromNameIgnoresCase | src-tauri/src/gpu.rs:28-45 | a name and its lower-case form get the same vendor |
| Gpu.NvidiaWins | src-tauri/src/gpu.rs:28-31 | "NVIDIA" anywhere in the name decides the vendor |
| Gpu.SaturatingSub | src-tauri/src/gpu.rs:476-489 | unsigned subtraction that stops at zero |
| Gpu.HasSufficientVram | src-tauri/src/gpu.rs:476-479 | sufficient exactly when used plus required fits in the total |
| Gpu.TileTierMonotone | src-tauri/src/gpu.rs:493-500 | more VRAM never gives a smaller tile tier |
| Gpu.RecommendedTileSize | src-tauri/src/gpu.rs:482-501 | the tile is a multiple of 64 in 192..1536, and 256 when less than 512 MiB is free |
| Gpu.RecommendedTileGrowsWithCard | src-tauri/src/gpu.rs:482-501 | of two cards with enough free memory, the larger gets at least the smaller's tile |
| Gpu.LowMemoryFallbackAboveSmallestTier | src-tauri/src/gpu.rs:486-499 | on a 2 GiB card, using more memory raises the tile from 192 to 256 |
| Gpu.BatchTierMonotone | src-tauri/src/gpu.rs:520-524 | more free VRAM never gives a smaller batch |
| Gpu.AssumedUsedMb | src-tauri/src/gpu.rs:504-519 | a known card that reports no usage is taken to be half full |
| Gpu.RecommendedBatchSize | src-tauri/src/gpu.rs:504-524 | the batch is 1, 2 or 4 |
| Gpu.BatchAssumesHalfUsed | src-tauri/src/gpu.rs:504-524 | such a card gets the batch of half its VRAM free, at most that of any reported usage up to half |
| Gpu.ParseNvidiaSmi | src-tauri/src/gpu.rs:156-170 | fails exactly on fewer than three fields; otherwise an Nvidia card named by the trimmed first field, whose used and total memory are the second and third fields parsed, or 0 when they do not parse |
| Gpu.ParseWmiCli | src-tauri/src/gpu.rs:208-224 | fails exactly on fewer than two fields; otherwise a card of the given vendor named by the trimmed first field, with total memory the second field parsed (0 when it does not parse) and no usage reported |
| Gpu.NvidiaSmiRoundTrip | src-tauri/src/gpu.rs:156-170 | nvidia-smi's line for a card parses back to that card |
| Gpu.WmiCliRoundTrip | src-tauri/src/gpu.rs:288-304 | the WMI line for a card parses back to that card, with no usage |
| Models.FilenameScale | src-tauri/src/models.rs:96-102 | 2 exactly when the name contains "x2", 3 when it contains "x3" but not "x2", else 4 |
| Models.X2BeforeX3 | src-tauri/src/models.rs:96-102 | a name mentioning both "x2" and "x3" is read as 2x |
| Models.Alignment | src-tauri/src/models.rs:104-113 | 8 when the lower-cased name contains "hat", 16 when it contains "dat" but not "hat", else 1 |
| Models.ScanFile | src-tauri/src/models.rs:86-139 | only an ".onnx" file is a model; its id is its file name; an override supplies name, description and batch size verbatim, otherwise the defaults apply |
| Models.RemoveTrailing | src-tauri/src/models.rs:115-128 | removing ".onnx" from "stem.onnx" leaves the stem |
| Models.ScanPlainFile | src-tauri/src/models.rs:115-128 | "stem.onnx" with no override is listed under its stem with the default description |
| Models.ScanAllListsEveryModel | src-tauri/src/models.rs:141-160 | the scan lists one manifest per ".onnx" entry, each named after one of them |
| Models.ScanDirectory | src-tauri/src/models.rs:141-160 | a missing directory lists nothing; otherwise the loop keeps each scannable ".onnx" entry in listing order |
| Models.ModelUserConfig.SetOverride | src-tauri/src/commands.rs:470-480 | the override of the id becomes exactly the given fields |
| Models.ModelUserConfig.RemoveOverride | src-tauri/src/commands.rs:512-520 | the override is removed, reporting whether there was one |
| Models.ScanSeesOverride | src-tauri/src/models.rs:115-128 | after setting an override, scanning the file shows the new fields |
| Models.ScanAfterReset | src-tauri/src/models.rs:115-128 | after removing the override the model gets its default name and description again |
| Commands.IsSupportedImage | src-tauri/src/commands.rs:192-200 | supported exactly when the lower-cased extension is png, jpg, jpeg or webp |
| Commands.SupportedByExtension | src-tauri/src/commands.rs:192-200 | "stem.ext" is supported exactly when ext, in any case, is one of the four, whatever the stem |
| Commands.ScaleOrGuess | src-tauri/src/commands.rs:63-79 | the detected scale, or on failure the file-name guess |
| Commands.PreloadModel | src-tauri/src/commands.rs:38-89 | a missing file is an error; otherwise the session comes from the cache policy and the scale is the cached or detected one, falling back to the file-name guess |
| Commands.PreloadAfterFailedDetection | src-tauri/src/commands.rs:63-79 | after a failed detection a second preload answers the file-name guess from the negative cache without probing |
| Commands.CancelJob | src-tauri/src/commands.rs:388-394 | the running job's flag is set; an unknown id changes nothing; the command always succeeds |
| Commands.UpscaleImage | src-tauri/src/commands.rs:92-151 | a fresh unset flag is registered under the job id and removed only when the run succeeds |
| Commands.OutputBesideSource | src-tauri/src/commands.rs:250-258 | each file's output goes to an "upscaled" folder beside it; the configured folder applies only to a path without a parent |
| Commands.ProcessedCount | src-tauri/src/commands.rs:232-237 | the loop looks at every file, or at those before the cancellation point |
| Commands.InferencePartition | src-tauri/src/commands.rs:290-360 | every processed file either waits for its save or is reported failed |
| Commands.SavePartition | src-tauri/src/commands.rs:364-376 | every pending save either succeeds or is reported failed |
| Commands.BatchAccountsForEveryFile | src-tauri/src/commands.rs:203-385 | the report holds exactly one entry per processed file, and every file when not cancelled |
| Commands.InferFailuresNameProcessed | src-tauri/src/commands.rs:341-358 | every failure names a processed file |
| Commands.InferEach | src-tauri/src/commands.rs:232-360 | the loop checks the flag before each file and yields the pending saves and failures of the processed files |
| Commands.PollCancel | src-tauri/src/commands.rs:233-237 | the flag read before file i is set exactly when the job was cancelled at or before i |
| Commands.InferOne | src-tauri/src/commands.rs:290-358 | one file through inference is queued for saving or reported failed, as the batch specification says |
| Commands.AwaitSaves | src-tauri/src/commands.rs:364-376 | waiting for the saves in order collects the written paths and the failures |
| Commands.UpscaleMultiple | src-tauri/src/commands.rs:203-385 | a model-load failure ends with its text and keeps the flag registered; otherwise the report is the batch specification and the flag is removed |
| Commands.UpdateModelInfo | src-tauri/src/commands.rs:444-505 | the override becomes exactly the given fields and is written; the rescanned manifest shows them; write and lookup failures are reported |
| Commands.ResetModelInfo | src-tauri/src/commands.rs:508-528 | the override is removed and the file written only when there was one |
| Engine.ModelFilename | src-tauri/src/engine/mod.rs:50-54 | the file name ends in ".onnx", and is the model name itself exactly when that already does |
| Engine.ModelFilenameIdempotent | src-tauri/src/engine/mod.rs:50-54 | normalising a file name twice is normalising it once |
| Engine.EngineScaleGuess | src-tauri/src/engine/mod.rs:70-72 | the fallback scale is 2 exactly when the name contains "x2", else 4 |
| Engine.ScaleGuessesDisagree | src-tauri/src/engine/mod.rs:70-72 | for a name containing "x3" but not "x2" the engine guesses 4 where the manifest says 3 |
| Engine.RecommendedTile | src-tauri/src/engine/mod.rs:75-80 | the card's recommended tile, or 256 without a card; always a multiple of 64 in 192..1536 |
| Engine.LoadSpec | src-tauri/src/engine/mod.rs:44-89 | a missing file is "Model file not found"; a loaded model carries its path, file name and tile, and its scale is cached; the slot changes only to the newly loaded session |
| Engine.LoadAgainReuses | src-tauri/src/engine/mod.rs:44-89 | loading the same model again reuses the cached session and scale |
| Engine.LoadModel | src-tauri/src/engine/mod.rs:44-89 | the result, slot and scale cache are those of LoadSpec, and the job registry is untouched |
| Engine.FixedInputSize | src-tauri/src/engine/mod.rs:118-147 | a fixed size exactly when the input has rank at least 3 and a positive height dimension |
| Engine.StaticBatch | src-tauri/src/engine/mod.rs:118-147 | a static batch exactly when the first dimension is positive |
| Engine.RequestedBatch | src-tauri/src/engine/mod.rs:151-166 | the requested batch clamped to 1..8 |
| Engine.BatchWarnings | src-tauri/src/engine/mod.rs:151-166 | one warning exactly when the model needs batch 1 and more was requested |
| Engine.ConfigureBatchSize | src-tauri/src/engine/mod.rs:151-166 | the batch is 1 for a static batch of 1, else the clamped request, with the override warning |
| Engine.TileCountBounds | src-tauri/src/image_processing.rs:166-168 | the tile count covers the extent with no spare tile |
| Engine.TileDimensions | src-tauri/src/image_processing.rs:283-323 | every tile handed to inference is tileSize + 2 * padding square |
| Engine.SingleTileMissesFixedInput | src-tauri/src/engine/mod.rs:168-182 | as written, a fixed-input model on a single-tile image is sent a tile 64 pixels short of its input size |
| Engine.TileSizeFor | src-tauri/src/engine/mod.rs:168-182 | corrected tile size: the model's input size when the image fits one tile, otherwise that size less the padding on both sides |
| Engine.TilesMatchFixedInput | src-tauri/src/engine/mod.rs:168-188 | with the corrected tile size every tile sent to a fixed-input model has the model's input size |
| Engine.PassTiling | src-tauri/src/engine/mod.rs:168-188 | corrected tiling (per-pass tile size): success is a positive tile with padding 32 and the chosen batch; failure happens only for a model with a fixed input size, with the "too small" error |
| Engine.OutputPathParts | src-tauri/src/engine/mod.rs:397-409 | the output's stem is stem_upscaled, its extension the format (or the source's), and its folder the configured one (or the source's) |
| Engine.OutputBesideSourceIsNew | src-tauri/src/engine/mod.rs:397-409 | the output never overwrites its source |
| Engine.OutOfMemoryKeepsCause | src-tauri/src/engine/mod.rs:265-281 | the rewritten message still contains the original error's text |
| Engine.VramErrorIsOutOfMemory | src-tauri/src/engine/mod.rs:265-281 | an error mentioning VRAM is reported as out of memory |
| Engine.ReadBackAfterCopy | src-tauri/src/engine/mod.rs:263-288 | reading back the reused output buffer gives exactly what inference produced |
| Engine.CallbackSpec | src-tauri/src/engine/mod.rs:209-300 | no tiles give no images; success means well-formed, equal-sized tiles of the right precision and a successful run |
| Engine.CallbackYieldsImages | src-tauri/src/engine/mod.rs:209-300 | the callback only ever returns well-formed images |
| Engine.CallbackIdentity | src-tauri/src/engine/mod.rs:209-300 | with an echoing session and inverse codecs the callback returns its tiles unchanged, so packing, the run and unpacking lose nothing |
| Engine.Withdrawn | src-tauri/src/engine/mod.rs:245-281 | a failed batch takes the two top buffers off the stack and returns neither |
| Engine.RecycledShape | src-tauri/src/engine/mod.rs:245-298 | after a batch the stack holds the buffers it had less the two taken, plus both returned, cleared and large enough |
| Engine.InferenceCallback.Infer | src-tauri/src/engine/mod.rs:209-300 | the result is CallbackSpec; the call counter rises once per non-empty batch; the pool of the target precision withdraws or recycles its buffers and the other pool is untouched |
| Engine.RunBatch | src-tauri/src/engine/mod.rs:259-298 | pack, run and unpack through reused buffers compute CallbackSpec |
| Engine.Pass | src-tauri/src/engine/mod.rs:168-200 | corrected pass (a cancelled run is an error, per-pass tile size): a successful pass multiplies both dimensions by the model's scale; a too-small fixed input is an error with no progress |
| Engine.SourcePass | src-tauri/src/engine/mod.rs:168-200 | the pass as written (tile s - 64, a producer-cancelled run gives its partial image): success multiplies both dimensions by the model's scale, even for a cancelled run; a too-small fixed input is an error with no progress |
| Engine.PassMatchesSource | src-tauri/src/engine/mod.rs:168-200 | without a producer cancellation, and for an image larger than a fixed input, the corrected pass gives exactly the source's result and progress |
| Engine.ScaledBack | src-tauri/src/engine/mod.rs:331-333 | downscaling an m-times image to t times gives exactly t times the extent |
| Engine.FactorReachesTarget | src-tauri/src/engine/mod.rs:303-375 | the output factor equals the target exactly when the model's scale is at least the target or the target is its square |
| Engine.UpscaleDimensions | src-tauri/src/engine/mod.rs:303-375 | a successful run scales by the target when the model is at least as large, and by m * m after two passes otherwise |
| Engine.RunPass | src-tauri/src/engine/mod.rs:168-200 | one pass computes the corrected Pass |
| Engine.MatchScale | src-tauri/src/engine/mod.rs:303-375 | the one-pass, downscale and two-pass strategies compute UpscaleSpec, over corrected passes |
| Engine.ProcessWithSession | src-tauri/src/engine/mod.rs:91-389 | a load error passes through; otherwise the warnings and the result are those of the batch policy and UpscaleSpec, over corrected passes |
| Engine.SaveResult | src-tauri/src/engine/mod.rs:391-438 | a source path without a stem or an extension fails first, as the unwrap panic that the command reports as a failed task; otherwise saved exactly when the folder is usable, encoding succeeds, and either the metadata write or the plain write succeeds, and the path is OutputPath |
| Engine.Run | src-tauri/src/engine/mod.rs:440-466 | load, process (with corrected passes) and save compose for any source path: each stage's error ends the run and success returns the saved path |

## Left out

- Floating point: the f32/f16 element values, the pixel lookup table, clamping and rounding are abstract parameters (encode, decode, widen, narrow).
- The tile count uses integer ceiling division where the source uses f32 `ceil`. They agree for the image sizes a u32 holds exactly in f32.
- Engine.TargetExtent: the downscale target size is computed with integer floor division where the source multiplies in f32. For some ratios the two can differ by one pixel.
- Progress: the throttle and the f32 progress fraction are not modelled. Reports are the processed-tile counts.
- Concurrency: the producer and consumer threads, the channel, rayon, the mutexes and the async runtime are not modelled. One sequential loop consumes each batch as it is sent.
- The ONNX session is an input function: its construction, execution providers and NPU preference are not modelled.
- System memory (sysinfo) is a parameter: a byte count for the tiling check and a low-memory flag for the cache.
- Image loading, resizing and encoding are parameters. metadata.rs is not part of this model; writing with metadata is reduced to its outcome.
- Hardware detection: only its policy (vendor, tiers) and the parsing of the CLI output are modelled. Running nvidia-smi, WMI, DXGI or the NPU probe is not.
- JSON persistence of jobs and overrides, event emission, logging and `scan_paths`/`get_system_info`/`generate_preview`/`get_models` are not modelled; write outcomes are inputs.
- Text: lower-casing is ASCII only, and non-UTF-8 file names are not modelled.
- Engine.QuotedPath: approximates Rust's Debug quoting of a path, without escapes.
- Directory listing errors and task-join errors are not modelled.
- Engine.InferenceCallback.Infer: the call counter and buffer pool are proved for one call. The tiling pipeline receives the callback as the pure CallbackSpec function, without the pool threaded through it.
- Inference.Reserve: Vec's amortised capacity growth is modelled as capacity max(cap, len + additional).
- The choice of image format from the path, and the log messages, are not modelled.
- ImageProcessing.StitchTile: an upscaled tile smaller than its crop window is an error. The source would panic or copy with a wrong stride.
- Commands.PreloadModel: follows the two-argument `get_or_load_model` of state.rs. The preload command passes a third argument, a version skew in the source.
- Commands.UpscaleImage: the engine run is an input outcome. Engine.Run models what produces it.
- Engine.ShapeConstraints: other static input dimensions (channels, width) are read but not enforced.
- Engine.PassTiling, Engine.Pass, Engine.RunPass, Engine.UpscaleSpec, Engine.MatchScale, Engine.ProcessWithSession, Engine.Run: these follow both corrections of Findings rows 1 and 2. The source instead tiles with s - 64 for a fixed-input model whatever the image size, and it returns the partly stitched image as Ok when its producer reads the cancel flag; that image is saved and the run returns Ok(path). When the flag is set during the first of two passes, the second pass stops before its first tile and the source saves an all-black image. Engine.SourcePass models one pass as written, and Engine.PassMatchesSource states where the two agree.
- ImageProcessing.CopyRows, ImageProcessing.StitchTile: they write at the intended unbounded offsets. The source computes the byte offset, and the output size width * scale, in u32 (Findings row 3).
- Engine.SaveResult, Engine.Run: the unwrap panic on a source path without a stem or an extension is the error SAVE_PANIC, an unknown error; the join error text of the failed task is not modelled.
- Inference.ImagesToBuffer, Inference.ImagesToBatchTensor, Inference.TensorToImage: they require 0 < width * height < 2^32, or return the raw-buffer error when the u32 count 3 * width * height wraps. The source's `(width * height) as usize` wraps silently instead, an empty image makes `par_chunks_mut(0)` panic, and a short last chunk of `par_chunks_mut(3)` would index out of bounds. None of these arises at the engine's only call site, where every tile is at most the tile size plus 64 pixels per edge.
- Inference.BatchTensorToImages: the usize product batch * elements per image is unbounded here; the source's would wrap only for a batch dimension near 2^32.

## Findings

| source | as written | input that shows it | evidently intended | confidence | as-written member | corrected member |
|---|---|---|---|---|---|---|
| src-tauri/src/image_processing.rs:190-195 | when the producer reads the cancel flag, it returns without sending its partial batch. The channel closes, the consumer loop ends normally, and the partly stitched image is returned as Ok | a 2 x 1 image, 1-pixel tiles, one tile per batch, with the flag set before the second tile: the result is Ok and its second pixel is still black | a cancelled run fails with "Operation cancelled", whichever thread reads the flag | medium, not executed | TiledProofs.ProducerCancelReturnsPartialImage | ImageProcessing.ProcessTiled |
| src-tauri/src/engine/mod.rs:168-182 | a fixed-input model of size s always gets tile size s - 64. The tiling then drops the padding when the image fits one tile, so that tile is (s - 64) square | s = 256 and a 100 x 100 image: the single tile is 192 x 192 while the model expects 256 x 256 | every tile sent to a fixed-input model is s x s | medium, not executed | Engine.SingleTileMissesFixedInput | Engine.TilesMatchFixedInput |
| src-tauri/src/image_processing.rs:364 | the destination offset (out_y + y) * dst_width * 3 + out_x * 3 is computed in u32, so it wraps once an output reaches 2^32 bytes (a debug build panics instead) | a 10000 x 10000 image at scale 4: row 35792 of the 40000-pixel-wide output starts at byte 4295040000, which wraps to 72704, inside row 0 and off a pixel boundary | the offset is computed in usize, so every row lands in its own place | medium, not executed | ImageProcessing.RowOffsetWraps | ImageProcessing.RowOffsetInjective |
