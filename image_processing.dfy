// The tiled upscaling pipeline: tiles are cut from the input with mirrored
// padding, handed to an inference callback in batches, and the valid part of
// each upscaled tile is copied into the output buffer.

module ImageProcessing {
  import opened Errors
  import opened Text
  import opened Raster
  import opened Tiling

  function Min(a: nat, b: nat): nat { if a <= b then a else b }

  /** The value, moved into [lo, hi]. */
  function Clamp(v: int, lo: int, hi: int): (r: int)
    requires lo <= hi
    ensures lo <= r <= hi
    ensures lo <= v <= hi ==> r == v
  {
    if v < lo then lo else if v > hi then hi else v
  }

  /** Unsigned subtraction that stops at zero. */
  function SatSub(a: nat, b: nat): nat { if a >= b then a - b else 0 }

  // ---------------------------------------------------------------------
  // Coordinate mirroring

  /**
   * The in-range coordinate read for a possibly out-of-range one: a negative
   * coordinate is reflected once at 0, one at or past `max` once at
   * max - 1, and anything still outside is clamped to [0, max - 1].
   */
  function Mirror(coord: int, max: int): (r: nat)
    requires max >= 1
    ensures r < max
    ensures 0 <= coord < max ==> r == coord
    ensures -max < coord < 0 ==> r == -coord
    ensures max >= 2 && coord == max ==> r == max - 2
    ensures coord > 2 * (max - 1) || coord < -2 * (max - 1) ==> r == 0
  {
    var c1 := if coord < 0 then -coord else coord;
    var c2 := if c1 >= max then 2 * (max - 1) - c1 else c1;
    Clamp(c2, 0, max - 1)
  }

  /** Mirroring does not see the sign of the coordinate. */
  lemma MirrorSymmetric(coord: int, max: int)
    requires max >= 1
    ensures Mirror(-coord, max) == Mirror(coord, max)
  {
  }

  /**
   * Reflects a coordinate into [0, max): each of the two reflection loops
   * runs at most once before the final clamp.
   */
  method MirrorCoordinate(coord: int, max: int) returns (r: nat, ghost lowReflections: nat, ghost highReflections: nat)
    requires max >= 1
    ensures r == Mirror(coord, max) && r < max
    ensures lowReflections <= 1 && highReflections <= 1
  {
    var c := coord;
    lowReflections := 0;
    while c < 0
      invariant lowReflections <= 1
      invariant lowReflections == 0 ==> c == coord
      invariant lowReflections == 1 ==> c == -coord && c > 0
      decreases if c < 0 then 1 else 0
    {
      c := -c;
      lowReflections := lowReflections + 1;
    }
    ghost var reflected := c;
    highReflections := 0;
    while c >= max
      invariant highReflections <= 1
      invariant highReflections == 0 ==> c == reflected
      invariant highReflections == 1 ==> reflected >= max && c == 2 * (max - 1) - reflected
      decreases if c >= max then 1 else 0
    {
      c := 2 * (max - 1) - c;
      highReflections := highReflections + 1;
    }
    r := Clamp(c, 0, max - 1);
  }

  // ---------------------------------------------------------------------
  // Tile extraction

  /**
   * The (targetW + 2 padding) x (targetH + 2 padding) tile whose pixel
   * (tx, ty) is the image pixel at (xStart + tx - padding,
   * yStart + ty - padding), mirrored into the image.
   */
  function MirroredTile<P>(image: Image<P>, xStart: nat, yStart: nat, targetW: nat, targetH: nat, padding: nat): (t: Image<P>)
    requires image.Valid() && image.width >= 1 && image.height >= 1
    ensures t.Valid() && t.width == targetW + 2 * padding && t.height == targetH + 2 * padding
  {
    var w := targetW + 2 * padding;
    var h := targetH + 2 * padding;
    Image(w, h, seq(h, (ty: int) requires 0 <= ty < h =>
      seq(w, (tx: int) requires 0 <= tx < w =>
        image.At(Mirror(xStart + tx - padding, image.width), Mirror(yStart + ty - padding, image.height)))))
  }

  /**
   * Inside the padding frame, a mirrored tile is an exact copy of the image
   * wherever the image extends that far.
   */
  lemma MirroredTileCore<P>(image: Image<P>, xStart: nat, yStart: nat, targetW: nat, targetH: nat, padding: nat, tx: nat, ty: nat)
    requires image.Valid() && image.width >= 1 && image.height >= 1
    requires padding <= tx && xStart + tx - padding < image.width && tx < targetW + 2 * padding
    requires padding <= ty && yStart + ty - padding < image.height && ty < targetH + 2 * padding
    ensures MirroredTile(image, xStart, yStart, targetW, targetH, padding).At(tx, ty)
            == image.At(xStart + tx - padding, yStart + ty - padding)
  {
    var sx := Mirror(xStart + tx - padding, image.width);
    var sy := Mirror(yStart + ty - padding, image.height);
    assert sx == xStart + tx - padding && sy == yStart + ty - padding;
    assert MirroredTile(image, xStart, yStart, targetW, targetH, padding).rows[ty][tx] == image.At(sx, sy);
  }

  /** Builds a padded tile pixel by pixel, mirroring every source coordinate. */
  method ExtractTileWithMirroring<P>(image: Image<P>, xStart: nat, yStart: nat, targetW: nat, targetH: nat, padding: nat)
    returns (tile: Image<P>)
    requires image.Valid() && image.width >= 1 && image.height >= 1
    ensures tile == MirroredTile(image, xStart, yStart, targetW, targetH, padding)
  {
    ghost var spec := MirroredTile(image, xStart, yStart, targetW, targetH, padding);
    var totalW := targetW + 2 * padding;
    var totalH := targetH + 2 * padding;
    var rows: seq<seq<P>> := [];
    var ty := 0;
    while ty < totalH
      invariant 0 <= ty <= totalH
      invariant |rows| == ty
      invariant forall j | 0 <= j < ty :: rows[j] == spec.rows[j]
    {
      var row: seq<P> := [];
      var tx := 0;
      while tx < totalW
        invariant 0 <= tx <= totalW
        invariant |row| == tx
        invariant forall i | 0 <= i < tx :: row[i] == spec.rows[ty][i]
      {
        var srcX, lowX, highX := MirrorCoordinate(xStart + tx - padding, image.width);
        var srcY, lowY, highY := MirrorCoordinate(yStart + ty - padding, image.height);
        row := row + [image.At(srcX, srcY)];
        tx := tx + 1;
      }
      rows := rows + [row];
      ty := ty + 1;
    }
    tile := Image(totalW, totalH, rows);
  }

  // ---------------------------------------------------------------------
  // Stitching

  /** Raised when an upscaled tile is too small for its crop window. */
  const STITCH_ERROR: AppError := ImageError("Upscaled tile is smaller than its crop window")

  /** Output position of a tile's region along one axis. */
  function Origin(index: nat, tileSize: nat, scale: nat): nat
  {
    index * tileSize * scale
  }

  /**
   * The crop window of an upscaled tile: its padding times the scale is
   * skipped and its content times the scale is kept.
   */
  predicate WindowInside<P>(tile: Image<P>, meta: TileMeta, scale: nat, padding: nat)
  {
    padding * scale + meta.contentWidth * scale <= tile.width
    && padding * scale + meta.contentHeight * scale <= tile.height
  }

  /**
   * Whether stitching can copy: either nothing of the region lies inside the
   * output, or the whole crop window lies inside the upscaled tile.
   */
  predicate StitchFits<P>(tile: Image<P>, meta: TileMeta, scale: nat, padding: nat, tileSize: nat, outW: nat, outH: nat)
  {
    Min(meta.contentHeight * scale, SatSub(outH, Origin(meta.yIndex, tileSize, scale))) == 0
    || Min(meta.contentWidth * scale, SatSub(outW, Origin(meta.xIndex, tileSize, scale))) == 0
    || WindowInside(tile, meta, scale, padding)
  }

  /** Output pixel (X, Y) after stitching `tile` for `meta` over the value `prev`. */
  function StitchedPixel<P>(prev: P, tile: Image<P>, meta: TileMeta, scale: nat, padding: nat, tileSize: nat,
                            outW: nat, outH: nat, X: nat, Y: nat): P
  {
    if tile.Valid() && WindowInside(tile, meta, scale, padding) && InRegion(meta, tileSize, scale, outW, outH, X, Y)
    then tile.At(padding * scale + X - Origin(meta.xIndex, tileSize, scale),
                 padding * scale + Y - Origin(meta.yIndex, tileSize, scale))
    else prev
  }

  /** Copies `cols` pixels of tile row `srcY` from column `srcX` on into output row `dstY` from column `dstX` on. */
  method CopyRow<P>(output: array2<P>, tile: Image<P>, srcX: nat, srcY: nat, dstX: nat, dstY: nat, cols: nat)
    requires tile.Valid() && (cols > 0 ==> srcX + cols <= tile.width && srcY < tile.height)
    requires cols > 0 ==> dstY < output.Length0 && dstX + cols <= output.Length1
    modifies output
    ensures forall Y, X | 0 <= Y < output.Length0 && 0 <= X < output.Length1 ::
      output[Y, X] == if Y == dstY && dstX <= X < dstX + cols then tile.At(srcX + X - dstX, srcY) else old(output[Y, X])
  {
    var x := 0;
    while x < cols
      invariant 0 <= x <= cols
      invariant forall Y, X | 0 <= Y < output.Length0 && 0 <= X < output.Length1 ::
        output[Y, X] == if Y == dstY && dstX <= X < dstX + x then tile.At(srcX + X - dstX, srcY) else old(output[Y, X])
    {
      output[dstY, dstX + x] := tile.At(srcX + x, srcY);
      x := x + 1;
    }
  }

  /**
   * When stitching can copy, the rectangle it copies (the scaled content,
   * cut at the output's edges) is exactly the tile's region of the output.
   */
  lemma CopiedIsRegion<P>(tile: Image<P>, meta: TileMeta, scale: nat, padding: nat, tileSize: nat,
                          outW: nat, outH: nat, X: nat, Y: nat)
    requires tile.Valid() && StitchFits(tile, meta, scale, padding, tileSize, outW, outH)
    ensures var outX := Origin(meta.xIndex, tileSize, scale);
            var outY := Origin(meta.yIndex, tileSize, scale);
            var rows := Min(meta.contentHeight * scale, SatSub(outH, outY));
            var cols := Min(meta.contentWidth * scale, SatSub(outW, outX));
            (outY <= Y < outY + rows && outX <= X < outX + cols)
            <==> (WindowInside(tile, meta, scale, padding) && InRegion(meta, tileSize, scale, outW, outH, X, Y))
  {
  }

  /** Copies a block of `rows` by `cols` tile pixels from (srcX, srcY) on to the output from (dstX, dstY) on, row by row. */
  method CopyRows<P>(output: array2<P>, tile: Image<P>, srcX: nat, srcY: nat, dstX: nat, dstY: nat, rows: nat, cols: nat)
    requires tile.Valid()
    requires rows > 0 && cols > 0 ==> srcX + cols <= tile.width && srcY + rows <= tile.height
                                      && dstY + rows <= output.Length0 && dstX + cols <= output.Length1
    modifies output
    ensures forall Y, X | 0 <= Y < output.Length0 && 0 <= X < output.Length1 ::
      output[Y, X] == if dstY <= Y < dstY + rows && dstX <= X < dstX + cols
                      then tile.At(srcX + X - dstX, srcY + Y - dstY) else old(output[Y, X])
  {
    var y := 0;
    while y < rows
      invariant 0 <= y <= rows
      invariant forall Y, X | 0 <= Y < output.Length0 && 0 <= X < output.Length1 ::
        output[Y, X] == if dstY <= Y < dstY + y && dstX <= X < dstX + cols
                        then tile.At(srcX + X - dstX, srcY + Y - dstY) else old(output[Y, X])
    {
      CopyRow(output, tile, srcX, srcY + y, dstX, dstY + y, cols);
      y := y + 1;
    }
  }

  /**
   * Byte offset in the output's raw RGB buffer where pixel `col` of output
   * row `row` starts, computed in 32 bits as the row copy does: the product
   * wraps once it reaches 2^32.
   */
  function RowOffsetU32(row: nat, col: nat, dstWidth: nat): (r: nat)
    ensures r < U32_LIMIT
  {
    (row * dstWidth * 3 + col * 3) % U32_LIMIT
  }

  /** The offset the row copy means: three bytes per pixel, rows of `dstWidth` pixels, no wrap. */
  function RowOffset(row: nat, col: nat, dstWidth: nat): nat
  {
    (row * dstWidth + col) * 3
  }

  /**
   * In a 40000-pixel-wide output (a 10000 x 10000 image at scale 4), row
   * 35792 starts at byte 4295040000, but the 32-bit offset wraps to 72704:
   * a byte inside row 0, not even on a pixel boundary.
   */
  lemma RowOffsetWraps()
    ensures RowOffset(35792, 0, 40000) == 4295040000
    ensures RowOffsetU32(35792, 0, 40000) == 72704 && 72704 < RowOffset(1, 0, 40000) && 72704 % 3 != 0
  {
  }

  /**
   * Unbounded offsets put every pixel of a width x height output in its own
   * three bytes inside the buffer: distinct pixels never share a byte.
   */
  lemma RowOffsetInjective(width: nat, height: nat, r1: nat, c1: nat, r2: nat, c2: nat)
    requires r1 < height && c1 < width && r2 < height && c2 < width
    ensures RowOffset(r1, c1, width) + 3 <= width * height * 3
    ensures RowOffset(r1, c1, width) == RowOffset(r2, c2, width) <==> r1 == r2 && c1 == c2
    ensures RowOffset(r1, c1, width) != RowOffset(r2, c2, width) ==>
              RowOffset(r1, c1, width) + 3 <= RowOffset(r2, c2, width)
              || RowOffset(r2, c2, width) + 3 <= RowOffset(r1, c1, width)
  {
    RowBefore(width, height, r1, c1);
    if r1 < r2 {
      RowsApart(width, r1, c1, r2, c2);
    } else if r2 < r1 {
      RowsApart(width, r2, c2, r1, c1);
    }
  }

  /** The pixel index of (r, c) lies below the pixel count. */
  lemma RowBefore(width: nat, height: nat, r: nat, c: nat)
    requires r < height && c < width
    ensures r * width + c + 1 <= width * height
  {
    MulMonotone(r + 1, height, width);
    assert (r + 1) * width == r * width + width;
    assert height * width == width * height;
  }

  /** Any pixel of an earlier row comes before every pixel of a later row. */
  lemma RowsApart(width: nat, r1: nat, c1: nat, r2: nat, c2: nat)
    requires r1 < r2 && c1 < width
    ensures r1 * width + c1 + 1 <= r2 * width + c2
  {
    MulMonotone(r1 + 1, r2, width);
    assert (r1 + 1) * width == r1 * width + width;
  }

  /**
   * Copies the valid part of an upscaled tile into the output, row by row,
   * cut at the output's right and bottom edges.  A tile smaller than its crop
   * window is an error (the copy would read past the cropped pixels).
   */
  method StitchTile<P>(output: array2<P>, tile: Image<P>, meta: TileMeta, scale: nat, padding: nat, tileSize: nat)
    returns (r: Result<(), AppError>)
    requires tile.Valid()
    modifies output
    ensures r.Ok? <==> StitchFits(tile, meta, scale, padding, tileSize, output.Length1, output.Length0)
    ensures r.Ok? ==> forall Y, X | 0 <= Y < output.Length0 && 0 <= X < output.Length1 ::
              output[Y, X] == StitchedPixel(old(output[Y, X]), tile, meta, scale, padding, tileSize,
                                            output.Length1, output.Length0, X, Y)
    ensures r.Err? ==> r.error == STITCH_ERROR && unchanged(output)
  {
    var cropX := padding * scale;
    var cropY := padding * scale;
    var cropW := meta.contentWidth * scale;
    var cropH := meta.contentHeight * scale;
    var outX := Origin(meta.xIndex, tileSize, scale);
    var outY := Origin(meta.yIndex, tileSize, scale);
    var dstWidth := output.Length1;
    var rowsToCopy := Min(cropH, SatSub(output.Length0, outY));
    var colsToCopy := Min(cropW, SatSub(dstWidth, outX));
    if rowsToCopy > 0 && colsToCopy > 0 && !WindowInside(tile, meta, scale, padding) {
      return Err(STITCH_ERROR);
    }
    CopyRows(output, tile, cropX, cropY, outX, outY, rowsToCopy, colsToCopy);
    forall Y, X | 0 <= Y < output.Length0 && 0 <= X < output.Length1
      ensures output[Y, X] == StitchedPixel(old(output[Y, X]), tile, meta, scale, padding, tileSize,
                                            output.Length1, output.Length0, X, Y)
    {
      CopiedIsRegion(tile, meta, scale, padding, tileSize, output.Length1, output.Length0, X, Y);
    }
    r := Ok(());
  }

  // ---------------------------------------------------------------------
  // The producer/consumer pipeline, as specification functions

  /**
   * Where the cancel flag is first read as set: the row-major index of the
   * first tile at which the producer reads it, and the index of the first
   * batch at which the consumer reads it (none: never read as set).  The
   * flag only goes from clear to set, so every later read sees it too.
   */
  datatype CancelReads = CancelReads(producerFirst: Option<nat>, consumerFirst: Option<nat>)

  predicate SeesSet(first: Option<nat>, i: nat)
  {
    first.Some? && first.value <= i
  }

  /** What the consumer works with while the pipeline runs. */
  datatype Pipeline<!P> = Pipeline(
    image: Image<P>,
    tileSize: nat,
    padding: nat,
    scale: nat,
    infer: seq<Image<P>> -> AppResult<seq<Image<P>>>,
    consumerFirst: Option<nat>)
  {
    predicate Valid() { image.Valid() && tileSize > 0 }
    function OutWidth(): nat { image.width * scale }
    function OutHeight(): nat { image.height * scale }
  }

  /** The padded tile the producer cuts for one grid position. */
  function TileFor<P>(meta: TileMeta, pl: Pipeline<P>): Image<P>
    requires pl.Valid() && pl.image.width >= 1 && pl.image.height >= 1
  {
    MirroredTile(pl.image, meta.xIndex * pl.tileSize, meta.yIndex * pl.tileSize, pl.tileSize, pl.tileSize, pl.padding)
  }

  function TilesOf<P>(metas: seq<TileMeta>, pl: Pipeline<P>): (tiles: seq<Image<P>>)
    requires pl.Valid() && (metas != [] ==> pl.image.width >= 1 && pl.image.height >= 1)
    ensures |tiles| == |metas|
  {
    seq(|metas|, (i: int) requires 0 <= i < |metas| => TileFor(metas[i], pl))
  }

  /** Producer state after looking at some tiles: batches sent, the batch being filled, stopped. */
  datatype Producer = Producer(sent: seq<seq<TileMeta>>, pending: seq<TileMeta>, stopped: bool)

  /**
   * The producer after looking at `items` in order: before each tile it
   * reads the cancel flag and stops (dropping the partial batch) if set;
   * otherwise the tile joins the batch, which is sent once it holds
   * `batchSize` tiles.
   */
  function ProduceOver(items: seq<TileMeta>, batchSize: nat, producerFirst: Option<nat>): Producer
    decreases |items|
  {
    if items == [] then Producer([], [], false)
    else
      var k := |items| - 1;
      var s := ProduceOver(items[..k], batchSize, producerFirst);
      if s.stopped then s
      else if SeesSet(producerFirst, k) then Producer(s.sent, [], true)
      else
        var batch := s.pending + [items[k]];
        if |batch| >= batchSize then Producer(s.sent + [batch], [], false)
        else Producer(s.sent, batch, false)
  }

  /**
   * Everything the producer hands to the consumer, and whether it stopped
   * early; a producer that did not stop also sends its last, partial batch.
   */
  function Batches(items: seq<TileMeta>, batchSize: nat, producerFirst: Option<nat>): (seq<seq<TileMeta>>, bool)
  {
    var s := ProduceOver(items, batchSize, producerFirst);
    if s.stopped then (s.sent, true)
    else if s.pending == [] then (s.sent, false)
    else (s.sent + [s.pending], false)
  }

  /** Consumer state: stitched (tile, metadata) pairs, tiles processed, progress reports, failure. */
  datatype Consumer<P> = Consumer(
    stitched: seq<(Image<P>, TileMeta)>,
    processed: nat,
    progress: seq<nat>,
    failure: Option<AppError>)

  function Zip<P>(ups: seq<Image<P>>, metas: seq<TileMeta>): (z: seq<(Image<P>, TileMeta)>)
    requires |ups| == |metas|
    ensures |z| == |metas|
  {
    seq(|metas|, (i: int) requires 0 <= i < |metas| => (ups[i], metas[i]))
  }

  const CANCELLED: AppError := Unknown("Operation cancelled")
  const MISMATCH: AppError := Unknown("Batch size mismatch")

  /**
   * One batch at the consumer: it reads the cancel flag, runs inference,
   * checks that one tile came back per tile sent, stitches them all and
   * reports the running count of processed tiles.
   */
  function ConsumeBatch<P>(s: Consumer<P>, batch: seq<TileMeta>, index: nat, pl: Pipeline<P>): Consumer<P>
    requires pl.Valid() && (batch != [] ==> pl.image.width >= 1 && pl.image.height >= 1)
  {
    if SeesSet(pl.consumerFirst, index) then s.(failure := Some(CANCELLED))
    else
      match pl.infer(TilesOf(batch, pl))
      case Err(e) => s.(failure := Some(e))
      case Ok(ups) =>
        if |ups| != |batch| then s.(failure := Some(MISMATCH))
        else if !(forall j | 0 <= j < |batch| ::
                    StitchFits(ups[j], batch[j], pl.scale, pl.padding, pl.tileSize, pl.OutWidth(), pl.OutHeight()))
        then s.(failure := Some(STITCH_ERROR))
        else
          var n := s.processed + |batch|;
          Consumer(s.stitched + Zip(ups, batch), n, s.progress + [n], None)
  }

  /** The consumer after the batches it received, in order; it stops at the first failure. */
  function Consume<P>(batches: seq<seq<TileMeta>>, pl: Pipeline<P>): Consumer<P>
    requires pl.Valid() && (batches != [] ==> pl.image.width >= 1 && pl.image.height >= 1)
  {
    if batches == [] then Consumer([], 0, [], None)
    else
      var k := |batches| - 1;
      var s := Consume(batches[..k], pl);
      if s.failure.Some? then s else ConsumeBatch(s, batches[k], k, pl)
  }

  /** Output pixel (X, Y) after stitching `stitched` in order over a black canvas. */
  function PixelAfter<P>(stitched: seq<(Image<P>, TileMeta)>, pl: Pipeline<P>, black: P, X: nat, Y: nat): P
  {
    if stitched == [] then black
    else
      var k := |stitched| - 1;
      StitchedPixel(PixelAfter(stitched[..k], pl, black, X, Y), stitched[k].0, stitched[k].1,
                    pl.scale, pl.padding, pl.tileSize, pl.OutWidth(), pl.OutHeight(), X, Y)
  }

  /** The output image once `stitched` has been stitched. */
  function Assemble<P>(stitched: seq<(Image<P>, TileMeta)>, pl: Pipeline<P>, black: P): (img: Image<P>)
    ensures img.Valid() && img.width == pl.OutWidth() && img.height == pl.OutHeight()
  {
    var w := pl.OutWidth();
    var h := pl.OutHeight();
    Image(w, h, seq(h, (Y: int) requires 0 <= Y < h =>
      seq(w, (X: int) requires 0 <= X < w => PixelAfter(stitched, pl, black, X, Y))))
  }

  /** How a tiled run ends: every tile stitched, the producer stopped on cancellation, or a failure. */
  datatype TiledOutcome<P> =
    | Completed(image: Image<P>, progress: seq<nat>)
    | ProducerCancelled(image: Image<P>, progress: seq<nat>)
    | Failed(error: AppError, progress: seq<nat>)

  /** Memory the run asks for: three bytes per output pixel plus 100 MiB. */
  function RequiredMemory(outW: nat, outH: nat): nat
  {
    outW * outH * 3 + 1024 * 1024 * 100
  }

  function InsufficientMemory(required: nat, available: nat): AppError
  {
    Unknown("Insufficient memory. Need ~" + NatToString(required / 1024 / 1024) + " MB, Available "
            + NatToString(available / 1024) + " MB")
  }

  /** No batch is ever sent for an image without pixels. */
  lemma NoBatchesForEmptyImage(width: nat, height: nat, tileSize: nat, batchSize: nat, producerFirst: Option<nat>)
    requires tileSize > 0
    ensures Batches(GridMetas(width, height, tileSize), batchSize, producerFirst).0 != [] ==> width >= 1 && height >= 1
  {
    GridMetasLength(width, height, tileSize);
    if width == 0 || height == 0 {
      assert GridMetas(width, height, tileSize) == [];
    }
  }

  /** The pipeline a run with this image and configuration uses. */
  function PipelineFor<P>(image: Image<P>, config: TilingConfig, scale: nat,
                          infer: seq<Image<P>> -> AppResult<seq<Image<P>>>, cancel: CancelReads): (pl: Pipeline<P>)
    requires image.Valid() && config.tileSize > 0
    ensures pl.Valid()
  {
    var total := TileCount(image.width, config.tileSize) * TileCount(image.height, config.tileSize);
    Pipeline(image, config.tileSize, EffectivePadding(total, config.padding), scale, infer, cancel.consumerFirst)
  }

  /** The outcome of a tiled run, given how inference behaves and when the cancel flag is read as set. */
  function TiledSpec<P>(image: Image<P>, config: TilingConfig, scale: nat, black: P,
                        infer: seq<Image<P>> -> AppResult<seq<Image<P>>>, cancel: CancelReads, availableMemory: nat)
    : TiledOutcome<P>
    requires image.Valid() && config.tileSize > 0
  {
    var required := RequiredMemory(image.width * scale, image.height * scale);
    if availableMemory < required / 1024 then Failed(InsufficientMemory(required, availableMemory), [])
    else
      var pl := PipelineFor(image, config, scale, infer, cancel);
      var produced := Batches(GridMetas(image.width, image.height, config.tileSize), config.batchSize, cancel.producerFirst);
      NoBatchesForEmptyImage(image.width, image.height, config.tileSize, config.batchSize, cancel.producerFirst);
      var c := Consume(produced.0, pl);
      if c.failure.Some? then Failed(c.failure.value, c.progress)
      else if produced.1 then ProducerCancelled(Assemble(c.stitched, pl, black), c.progress)
      else Completed(Assemble(c.stitched, pl, black), c.progress)
  }

  /**
   * The result the source returns: when the producer stops on cancellation
   * the channel closes, the consumer's loop ends normally and the partly
   * stitched image is returned as a success.
   */
  function SourceResult<P>(o: TiledOutcome<P>): AppResult<Image<P>>
  {
    match o
    case Completed(img, _) => Ok(img)
    case ProducerCancelled(img, _) => Ok(img)
    case Failed(e, _) => Err(e)
  }

  /** The intended result: a run cut short by cancellation is an error, whichever thread saw the flag. */
  function IntendedResult<P>(o: TiledOutcome<P>): (r: AppResult<Image<P>>)
    ensures r.Ok? <==> o.Completed?
  {
    match o
    case Completed(img, _) => Ok(img)
    case ProducerCancelled(_, _) => Err(CANCELLED)
    case Failed(e, _) => Err(e)
  }

  // ---------------------------------------------------------------------
  // Facts the pipeline method relies on

  /** Once stopped, the producer looks at nothing more. */
  lemma {:induction false} StoppedStays(items: seq<TileMeta>, k: nat, batchSize: nat, producerFirst: Option<nat>)
    requires k <= |items| && ProduceOver(items[..k], batchSize, producerFirst).stopped
    ensures ProduceOver(items, batchSize, producerFirst) == ProduceOver(items[..k], batchSize, producerFirst)
    decreases |items| - k
  {
    if k < |items| {
      var n := |items| - 1;
      assert items[..n][..k] == items[..k];
      StoppedStays(items[..n], k, batchSize, producerFirst);
    } else {
      assert items[..k] == items;
    }
  }

  /** Batches, once sent, stay at the front of what the producer has sent. */
  lemma {:induction false} SentGrows(items: seq<TileMeta>, k: nat, batchSize: nat, producerFirst: Option<nat>)
    requires k <= |items|
    ensures var early := ProduceOver(items[..k], batchSize, producerFirst).sent;
            var later := ProduceOver(items, batchSize, producerFirst).sent;
            |early| <= |later| && later[..|early|] == early
    decreases |items| - k
  {
    if k < |items| {
      var n := |items| - 1;
      assert items[..n][..k] == items[..k];
      SentGrows(items[..n], k, batchSize, producerFirst);
      var early := ProduceOver(items[..k], batchSize, producerFirst).sent;
      var mid := ProduceOver(items[..n], batchSize, producerFirst).sent;
      var later := ProduceOver(items, batchSize, producerFirst).sent;
      assert |mid| <= |later| && later[..|mid|] == mid;
      assert later[..|early|] == later[..|mid|][..|early|];
    } else {
      assert items[..k] == items;
    }
  }

  /** Batches sent so far stay at the front of everything sent. */
  lemma SentStaysPrefix(items: seq<TileMeta>, k: nat, batchSize: nat, producerFirst: Option<nat>)
    requires k <= |items|
    ensures var early := ProduceOver(items[..k], batchSize, producerFirst).sent;
            var all := Batches(items, batchSize, producerFirst).0;
            |early| <= |all| && all[..|early|] == early
  {
    SentGrows(items, k, batchSize, producerFirst);
    var early := ProduceOver(items[..k], batchSize, producerFirst).sent;
    var later := ProduceOver(items, batchSize, producerFirst).sent;
    var all := Batches(items, batchSize, producerFirst).0;
    assert all[..|later|] == later;
    assert all[..|early|] == all[..|later|][..|early|];
  }

  /** After a failure the consumer receives nothing more. */
  lemma {:induction false} FailureStays<P>(batches: seq<seq<TileMeta>>, k: nat, pl: Pipeline<P>)
    requires pl.Valid() && (batches != [] ==> pl.image.width >= 1 && pl.image.height >= 1)
    requires k <= |batches|
    requires Consume(batches[..k], pl).failure.Some?
    ensures Consume(batches, pl) == Consume(batches[..k], pl)
    decreases |batches| - k
  {
    if k < |batches| {
      var n := |batches| - 1;
      assert batches[..n][..k] == batches[..k];
      FailureStays(batches[..n], k, pl);
    } else {
      assert batches[..k] == batches;
    }
  }

  /** Two images with the same size and pixels are the same image. */
  lemma ImageExt<P>(a: Image<P>, b: Image<P>)
    requires a.Valid() && b.Valid() && a.width == b.width && a.height == b.height
    requires forall Y, X | 0 <= Y < a.height && 0 <= X < a.width :: a.At(X, Y) == b.At(X, Y)
    ensures a == b
  {
    forall Y | 0 <= Y < a.height
      ensures a.rows[Y] == b.rows[Y]
    {
      assert forall X | 0 <= X < a.width :: a.rows[Y][X] == b.At(X, Y);
    }
  }

  /** The image held by an output buffer. */
  function Freeze<P>(a: array2<P>): (img: Image<P>)
    reads a
    ensures img.Valid() && img.width == a.Length1 && img.height == a.Length0
    ensures forall Y, X | 0 <= Y < a.Length0 && 0 <= X < a.Length1 :: img.At(X, Y) == a[Y, X]
  {
    Image(a.Length1, a.Length0, seq(a.Length0, (y: int) requires 0 <= y < a.Length0 reads a =>
      seq(a.Length1, (x: int) requires 0 <= x < a.Length1 reads a => a[y, x])))
  }

  /** Inference only ever returns well-formed images. */
  ghost predicate InferYieldsImages<P(!new)>(infer: seq<Image<P>> -> AppResult<seq<Image<P>>>)
  {
    forall tiles: seq<Image<P>> :: infer(tiles).Ok? ==>
      forall i | 0 <= i < |infer(tiles).value| :: infer(tiles).value[i].Valid()
  }

  // ---------------------------------------------------------------------
  // The pipeline

  /** Stitches a batch of upscaled tiles in order, stopping at the first that does not fit. */
  method StitchAll<P>(output: array2<P>, ups: seq<Image<P>>, metas: seq<TileMeta>, pl: Pipeline<P>, black: P,
                      ghost before: seq<(Image<P>, TileMeta)>)
    returns (r: Result<(), AppError>)
    requires |ups| == |metas| && forall i | 0 <= i < |ups| :: ups[i].Valid()
    requires output.Length0 == pl.OutHeight() && output.Length1 == pl.OutWidth()
    requires forall Y, X | 0 <= Y < output.Length0 && 0 <= X < output.Length1 ::
               output[Y, X] == PixelAfter(before, pl, black, X, Y)
    modifies output
    ensures r.Ok? <==> forall i | 0 <= i < |ups| ::
              StitchFits(ups[i], metas[i], pl.scale, pl.padding, pl.tileSize, pl.OutWidth(), pl.OutHeight())
    ensures r.Err? ==> r.error == STITCH_ERROR
    ensures r.Ok? ==> forall Y, X | 0 <= Y < output.Length0 && 0 <= X < output.Length1 ::
              output[Y, X] == PixelAfter(before + Zip(ups, metas), pl, black, X, Y)
  {
    var j := 0;
    ghost var stitched := before;
    while j < |ups|
      invariant 0 <= j <= |ups|
      invariant forall i | 0 <= i < j ::
        StitchFits(ups[i], metas[i], pl.scale, pl.padding, pl.tileSize, pl.OutWidth(), pl.OutHeight())
      invariant stitched == before + Zip(ups[..j], metas[..j])
      invariant forall Y, X | 0 <= Y < output.Length0 && 0 <= X < output.Length1 ::
        output[Y, X] == PixelAfter(stitched, pl, black, X, Y)
    {
      var res := StitchTile(output, ups[j], metas[j], pl.scale, pl.padding, pl.tileSize);
      if res.Err? {
        return res;
      }
      ghost var next := stitched + [(ups[j], metas[j])];
      assert next[..|stitched|] == stitched;
      assert Zip(ups[..j + 1], metas[..j + 1]) == Zip(ups[..j], metas[..j]) + [(ups[j], metas[j])];
      stitched := next;
      j := j + 1;
    }
    assert ups[..j] == ups && metas[..j] == metas;
    r := Ok(());
  }

  /**
   * The consumer's work on one received batch: read the cancel flag, run
   * inference, check the count, stitch every tile into the output.
   */
  method ReceiveBatch<P(!new)>(output: array2<P>, tiles: seq<Image<P>>, metas: seq<TileMeta>, index: nat, processed: nat,
                         pl: Pipeline<P>, black: P, ghost s: Consumer<P>)
    returns (failure: Option<AppError>, processedAfter: nat, ghost after: Consumer<P>)
    requires pl.Valid() && (metas != [] ==> pl.image.width >= 1 && pl.image.height >= 1)
    requires InferYieldsImages(pl.infer)
    requires output.Length0 == pl.OutHeight() && output.Length1 == pl.OutWidth()
    requires tiles == TilesOf(metas, pl)
    requires s.failure.None? && s.processed == processed
    requires forall Y, X | 0 <= Y < output.Length0 && 0 <= X < output.Length1 ::
               output[Y, X] == PixelAfter(s.stitched, pl, black, X, Y)
    modifies output
    ensures after == ConsumeBatch(s, metas, index, pl)
    ensures failure == after.failure
    ensures failure.None? ==> processedAfter == after.processed
    ensures failure.None? ==> forall Y, X | 0 <= Y < output.Length0 && 0 <= X < output.Length1 ::
              output[Y, X] == PixelAfter(after.stitched, pl, black, X, Y)
  {
    after := ConsumeBatch(s, metas, index, pl);
    processedAfter := processed;
    if SeesSet(pl.consumerFirst, index) {
      return Some(CANCELLED), processedAfter, after;
    }
    var inferred := pl.infer(tiles);
    if inferred.Err? {
      return Some(inferred.error), processedAfter, after;
    }
    var ups := inferred.value;
    if |ups| != |metas| {
      return Some(MISMATCH), processedAfter, after;
    }
    var res := StitchAll(output, ups, metas, pl, black, s.stitched);
    if res.Err? {
      return Some(res.error), processedAfter, after;
    }
    processedAfter := processed + |metas|;
    failure := None;
  }

  /** The output buffer holds exactly the pixels of `stitched` stitched over black. */
  ghost predicate Painted<P>(output: array2<P>, stitched: seq<(Image<P>, TileMeta)>, pl: Pipeline<P>, black: P)
    reads output
  {
    output.Length0 == pl.OutHeight() && output.Length1 == pl.OutWidth()
    && forall Y, X | 0 <= Y < output.Length0 && 0 <= X < output.Length1 ::
         output[Y, X] == PixelAfter(stitched, pl, black, X, Y)
  }

  /**
   * The run after the producer has looked at the first k grid tiles without
   * stopping, with `metaBatch` (and its tiles) still being filled, while the
   * consumer has handled every batch sent without failing.
   */
  ghost predicate Running<P>(items: seq<TileMeta>, k: nat, batchSize: nat, producerFirst: Option<nat>, pl: Pipeline<P>,
                             sent: seq<seq<TileMeta>>, metaBatch: seq<TileMeta>, tileBatch: seq<Image<P>>,
                             consumer: Consumer<P>, processed: nat, progress: seq<nat>)
  {
    pl.Valid() && k <= |items|
    && ProduceOver(items[..k], batchSize, producerFirst) == Producer(sent, metaBatch, false)
    && ((sent != [] || metaBatch != []) ==> pl.image.width >= 1 && pl.image.height >= 1)
    && tileBatch == TilesOf(metaBatch, pl)
    && consumer == Consume(sent, pl)
    && consumer == Consumer(consumer.stitched, processed, progress, None)
  }

  /**
   * A run over `items` that stops early ends with `error` and has reported
   * `progress`: the consumer's first failure, or else the producer's
   * cancellation.
   */
  ghost predicate StopsWith<P>(items: seq<TileMeta>, batchSize: nat, producerFirst: Option<nat>, pl: Pipeline<P>,
                               error: AppError, progress: seq<nat>)
  {
    var produced := Batches(items, batchSize, producerFirst);
    pl.Valid() && (produced.0 != [] ==> pl.image.width >= 1 && pl.image.height >= 1)
    && var c := Consume(produced.0, pl);
       c.progress == progress
       && if c.failure.Some? then error == c.failure.value else produced.1 && error == CANCELLED
  }

  /**
   * Sends the batch being filled to the consumer.  `sent + [metaBatch]`
   * must be among the first batches the producer sends over `items`.
   */
  method SendBatch<P(!new)>(output: array2<P>, pl: Pipeline<P>, black: P, ghost items: seq<TileMeta>,
                            batchSize: nat, producerFirst: Option<nat>,
                            tileBatch: seq<Image<P>>, metaBatch: seq<TileMeta>, processed: nat, progress: seq<nat>,
                            batchIndex: nat, ghost sent: seq<seq<TileMeta>>, ghost consumer: Consumer<P>)
    returns (stop: Option<AppError>, processedAfter: nat, progressAfter: seq<nat>, ghost consumerAfter: Consumer<P>)
    requires pl.Valid() && pl.image.width >= 1 && pl.image.height >= 1
    requires batchIndex == |sent|
    requires InferYieldsImages(pl.infer)
    requires tileBatch == TilesOf(metaBatch, pl)
    requires consumer == Consume(sent, pl) && consumer == Consumer(consumer.stitched, processed, progress, None)
    requires Painted(output, consumer.stitched, pl, black)
    requires var all := Batches(items, batchSize, producerFirst).0;
             |sent| + 1 <= |all| && all[..|sent| + 1] == sent + [metaBatch]
    modifies output
    ensures stop.Some? ==> StopsWith(items, batchSize, producerFirst, pl, stop.value, progressAfter)
    ensures stop.None? ==> consumerAfter == Consume(sent + [metaBatch], pl)
                           && consumerAfter == Consumer(consumerAfter.stitched, processedAfter, progressAfter, None)
                           && Painted(output, consumerAfter.stitched, pl, black)
  {
    assert (sent + [metaBatch])[..|sent|] == sent;
    var failure;
    failure, processedAfter, consumerAfter := ReceiveBatch(output, tileBatch, metaBatch, batchIndex, processed, pl, black, consumer);
    if failure.Some? {
      FailureStays(Batches(items, batchSize, producerFirst).0, |sent| + 1, pl);
      return failure, processedAfter, progress, consumerAfter;
    }
    stop := None;
    progressAfter := progress + [processedAfter];
  }

  /** The producer adds grid tile k to its batch, which is then full or still being filled. */
  lemma TakeKeepsRunning<P>(items: seq<TileMeta>, k: nat, batchSize: nat, producerFirst: Option<nat>, pl: Pipeline<P>,
                            sent: seq<seq<TileMeta>>, metaBatch: seq<TileMeta>, tileBatch: seq<Image<P>>,
                            consumer: Consumer<P>, processed: nat, progress: seq<nat>, tile: Image<P>)
    requires Running(items, k, batchSize, producerFirst, pl, sent, metaBatch, tileBatch, consumer, processed, progress)
    requires k < |items| && !SeesSet(producerFirst, k)
    requires pl.image.width >= 1 && pl.image.height >= 1 && tile == TileFor(items[k], pl)
    ensures var metas := metaBatch + [items[k]];
            var tiles := tileBatch + [tile];
            tiles == TilesOf(metas, pl)
            && if |metas| >= batchSize
               then ProduceOver(items[..k + 1], batchSize, producerFirst) == Producer(sent + [metas], [], false)
               else Running(items, k + 1, batchSize, producerFirst, pl, sent, metas, tiles, consumer, processed, progress)
  {
    assert items[..k + 1][..k] == items[..k];
  }

  /** A producer that reads the flag as set at tile k stops the run as cancelled. */
  lemma CancelStops<P>(items: seq<TileMeta>, k: nat, batchSize: nat, producerFirst: Option<nat>, pl: Pipeline<P>,
                       sent: seq<seq<TileMeta>>, metaBatch: seq<TileMeta>, tileBatch: seq<Image<P>>,
                       consumer: Consumer<P>, processed: nat, progress: seq<nat>)
    requires Running(items, k, batchSize, producerFirst, pl, sent, metaBatch, tileBatch, consumer, processed, progress)
    requires k < |items| && SeesSet(producerFirst, k)
    ensures StopsWith(items, batchSize, producerFirst, pl, CANCELLED, progress)
  {
    assert items[..k + 1][..k] == items[..k];
    StoppedStays(items, k + 1, batchSize, producerFirst);
  }

  /**
   * The producer's work on grid tile (x, y), the k-th in row-major order:
   * read the cancel flag, cut the padded tile, add it to the batch and send
   * the batch once it is full.
   */
  method TakeTile<P(!new)>(output: array2<P>, pl: Pipeline<P>, black: P, batchSize: nat, producerFirst: Option<nat>,
                           x: nat, y: nat, k: nat,
                           tileBatch: seq<Image<P>>, metaBatch: seq<TileMeta>, processed: nat, progress: seq<nat>,
                           batchIndex: nat, ghost sent: seq<seq<TileMeta>>, ghost consumer: Consumer<P>)
    returns (stop: Option<AppError>, tilesAfter: seq<Image<P>>, metasAfter: seq<TileMeta>,
             processedAfter: nat, progressAfter: seq<nat>, batchesAfter: nat,
             ghost sentAfter: seq<seq<TileMeta>>, ghost consumerAfter: Consumer<P>)
    requires pl.Valid() && InferYieldsImages(pl.infer)
    requires x < TileCount(pl.image.width, pl.tileSize) && y < TileCount(pl.image.height, pl.tileSize)
    requires var items := GridMetas(pl.image.width, pl.image.height, pl.tileSize);
             k < |items| && items[k] == MetaAt(x, y, pl.image.width, pl.image.height, pl.tileSize)
    requires Running(GridMetas(pl.image.width, pl.image.height, pl.tileSize), k, batchSize, producerFirst, pl,
                     sent, metaBatch, tileBatch, consumer, processed, progress)
    requires Painted(output, consumer.stitched, pl, black) && batchIndex == |sent|
    modifies output
    ensures stop.Some? ==> StopsWith(GridMetas(pl.image.width, pl.image.height, pl.tileSize), batchSize, producerFirst,
                                     pl, stop.value, progressAfter)
    ensures stop.None? ==> Running(GridMetas(pl.image.width, pl.image.height, pl.tileSize), k + 1, batchSize,
                                   producerFirst, pl, sentAfter, metasAfter, tilesAfter, consumerAfter,
                                   processedAfter, progressAfter)
                           && Painted(output, consumerAfter.stitched, pl, black) && batchesAfter == |sentAfter|
  {
    ghost var items := GridMetas(pl.image.width, pl.image.height, pl.tileSize);
    if SeesSet(producerFirst, k) {
      // The producer returns without sending its partial batch.
      CancelStops(items, k, batchSize, producerFirst, pl, sent, metaBatch, tileBatch, consumer, processed, progress);
      return Some(CANCELLED), tileBatch, metaBatch, processed, progress, batchIndex, sent, consumer;
    }
    var tile, meta := CutTile(pl, x, y);
    stop, tilesAfter, metasAfter, processedAfter, progressAfter, batchesAfter, sentAfter, consumerAfter :=
      AddTile(output, pl, black, batchSize, producerFirst, k, tile, meta,
              tileBatch, metaBatch, processed, progress, batchIndex, sent, consumer);
  }

  /** Cuts the padded tile of grid position (x, y) and its metadata. */
  method CutTile<P>(pl: Pipeline<P>, x: nat, y: nat) returns (tile: Image<P>, meta: TileMeta)
    requires pl.Valid()
    requires x < TileCount(pl.image.width, pl.tileSize) && y < TileCount(pl.image.height, pl.tileSize)
    ensures pl.image.width >= 1 && pl.image.height >= 1
    ensures meta == MetaAt(x, y, pl.image.width, pl.image.height, pl.tileSize) && tile == TileFor(meta, pl)
  {
    var width := pl.image.width;
    var height := pl.image.height;
    var tileSize := pl.tileSize;
    TileStartsInside(width, tileSize, x);
    TileStartsInside(height, tileSize, y);
    var xStart := x * tileSize;
    var yStart := y * tileSize;
    meta := TileMeta(x, y, Min(tileSize, width - xStart), Min(tileSize, height - yStart));
    tile := ExtractTileWithMirroring(pl.image, xStart, yStart, tileSize, tileSize, pl.padding);
  }

  /** The producer adds grid tile k, already cut, to its batch and sends the batch once it is full. */
  method AddTile<P(!new)>(output: array2<P>, pl: Pipeline<P>, black: P, batchSize: nat, producerFirst: Option<nat>,
                          k: nat, tile: Image<P>, meta: TileMeta,
                          tileBatch: seq<Image<P>>, metaBatch: seq<TileMeta>, processed: nat, progress: seq<nat>,
                          batchIndex: nat, ghost sent: seq<seq<TileMeta>>, ghost consumer: Consumer<P>)
    returns (stop: Option<AppError>, tilesAfter: seq<Image<P>>, metasAfter: seq<TileMeta>,
             processedAfter: nat, progressAfter: seq<nat>, batchesAfter: nat,
             ghost sentAfter: seq<seq<TileMeta>>, ghost consumerAfter: Consumer<P>)
    requires pl.Valid() && InferYieldsImages(pl.infer) && pl.image.width >= 1 && pl.image.height >= 1
    requires var items := GridMetas(pl.image.width, pl.image.height, pl.tileSize);
             k < |items| && !SeesSet(producerFirst, k) && meta == items[k] && tile == TileFor(meta, pl)
             && Running(items, k, batchSize, producerFirst, pl, sent, metaBatch, tileBatch, consumer, processed, progress)
    requires Painted(output, consumer.stitched, pl, black) && batchIndex == |sent|
    modifies output
    ensures stop.Some? ==> StopsWith(GridMetas(pl.image.width, pl.image.height, pl.tileSize), batchSize, producerFirst,
                                     pl, stop.value, progressAfter)
    ensures stop.None? ==> Running(GridMetas(pl.image.width, pl.image.height, pl.tileSize), k + 1, batchSize,
                                   producerFirst, pl, sentAfter, metasAfter, tilesAfter, consumerAfter,
                                   processedAfter, progressAfter)
                           && Painted(output, consumerAfter.stitched, pl, black) && batchesAfter == |sentAfter|
  {
    ghost var items := GridMetas(pl.image.width, pl.image.height, pl.tileSize);
    TakeKeepsRunning(items, k, batchSize, producerFirst, pl, sent, metaBatch, tileBatch, consumer, processed, progress, tile);
    tilesAfter, metasAfter := tileBatch + [tile], metaBatch + [meta];
    processedAfter, progressAfter, batchesAfter, sentAfter, consumerAfter := processed, progress, batchIndex, sent, consumer;
    stop := None;
    if |tilesAfter| >= batchSize {
      SentStaysPrefix(items, k + 1, batchSize, producerFirst);
      stop, processedAfter, progressAfter, consumerAfter :=
        SendBatch(output, pl, black, items, batchSize, producerFirst, tilesAfter, metasAfter, processed, progress,
                  batchIndex, sent, consumer);
      sentAfter := sent + [metasAfter];
      batchesAfter := batchIndex + 1;
      tilesAfter, metasAfter := [], [];
    }
  }

  /** An early stop of the run is the intended result of the whole run. */
  lemma StopIsResult<P>(image: Image<P>, config: TilingConfig, scale: nat, black: P,
                        infer: seq<Image<P>> -> AppResult<seq<Image<P>>>, cancel: CancelReads, availableMemory: nat,
                        error: AppError, progress: seq<nat>)
    requires image.Valid() && config.tileSize > 0
    requires availableMemory >= RequiredMemory(image.width * scale, image.height * scale) / 1024
    requires StopsWith(GridMetas(image.width, image.height, config.tileSize), config.batchSize, cancel.producerFirst,
                       PipelineFor(image, config, scale, infer, cancel), error, progress)
    ensures IntendedResult(TiledSpec(image, config, scale, black, infer, cancel, availableMemory)) == Err(error)
    ensures TiledSpec(image, config, scale, black, infer, cancel, availableMemory).progress == progress
  {
  }

  /** The producer's state after looking at the first j grid tiles: stopped, or running with the output painted. */
  ghost predicate Taken<P>(output: array2<P>, pl: Pipeline<P>, black: P, batchSize: nat, producerFirst: Option<nat>,
                           j: nat, stop: Option<AppError>, metaBatch: seq<TileMeta>, tileBatch: seq<Image<P>>,
                           processed: nat, progress: seq<nat>, batchIndex: nat,
                           sent: seq<seq<TileMeta>>, consumer: Consumer<P>)
    reads output
  {
    pl.Valid()
    && var items := GridMetas(pl.image.width, pl.image.height, pl.tileSize);
    (stop.Some? ==> StopsWith(items, batchSize, producerFirst, pl, stop.value, progress))
    && (stop.None? ==> Running(items, j, batchSize, producerFirst, pl, sent, metaBatch, tileBatch, consumer,
                               processed, progress)
                       && Painted(output, consumer.stitched, pl, black) && batchIndex == |sent|)
  }

  /**
   * The producer's work on grid row y: every tile of the row in turn,
   * until the flag stops the producer or the consumer fails.
   */
  method TakeRow<P(!new)>(output: array2<P>, pl: Pipeline<P>, black: P, batchSize: nat, producerFirst: Option<nat>,
                          y: nat, k: nat,
                          tileBatch: seq<Image<P>>, metaBatch: seq<TileMeta>, processed: nat, progress: seq<nat>,
                          batchIndex: nat, ghost sent: seq<seq<TileMeta>>, ghost consumer: Consumer<P>)
    returns (stop: Option<AppError>, tilesAfter: seq<Image<P>>, metasAfter: seq<TileMeta>,
             processedAfter: nat, progressAfter: seq<nat>, batchesAfter: nat,
             ghost sentAfter: seq<seq<TileMeta>>, ghost consumerAfter: Consumer<P>)
    requires pl.Valid() && InferYieldsImages(pl.infer)
    requires y < TileCount(pl.image.height, pl.tileSize)
    requires var items := GridMetas(pl.image.width, pl.image.height, pl.tileSize);
             k + TileCount(pl.image.width, pl.tileSize) <= |items|
             && forall x | 0 <= x < TileCount(pl.image.width, pl.tileSize) ::
                  items[k + x] == MetaAt(x, y, pl.image.width, pl.image.height, pl.tileSize)
    requires Running(GridMetas(pl.image.width, pl.image.height, pl.tileSize), k, batchSize, producerFirst, pl,
                     sent, metaBatch, tileBatch, consumer, processed, progress)
    requires Painted(output, consumer.stitched, pl, black) && batchIndex == |sent|
    modifies output
    ensures stop.Some? ==> StopsWith(GridMetas(pl.image.width, pl.image.height, pl.tileSize), batchSize, producerFirst,
                                     pl, stop.value, progressAfter)
    ensures stop.None? ==> Running(GridMetas(pl.image.width, pl.image.height, pl.tileSize),
                                   k + TileCount(pl.image.width, pl.tileSize), batchSize,
                                   producerFirst, pl, sentAfter, metasAfter, tilesAfter, consumerAfter,
                                   processedAfter, progressAfter)
                           && Painted(output, consumerAfter.stitched, pl, black) && batchesAfter == |sentAfter|
  {
    var tilesX := TileCount(pl.image.width, pl.tileSize);
    tilesAfter, metasAfter, processedAfter, progressAfter, batchesAfter, sentAfter, consumerAfter
      := tileBatch, metaBatch, processed, progress, batchIndex, sent, consumer;
    stop := None;
    var x := 0;
    while x < tilesX && stop.None?
      invariant 0 <= x <= tilesX
      invariant Taken(output, pl, black, batchSize, producerFirst, k + x, stop, metasAfter, tilesAfter,
                      processedAfter, progressAfter, batchesAfter, sentAfter, consumerAfter)
    {
      stop, tilesAfter, metasAfter, processedAfter, progressAfter, batchesAfter, sentAfter, consumerAfter :=
        TakeTile(output, pl, black, batchSize, producerFirst, x, y, k + x,
                 tilesAfter, metasAfter, processedAfter, progressAfter, batchesAfter, sentAfter, consumerAfter);
      x := x + 1;
    }
  }

  /**
   * The producer's loop over the grid rows, from an empty batch and an
   * untouched output, until the flag stops it, the consumer fails or every
   * grid tile has been looked at.
   */
  method TakeRows<P(!new)>(output: array2<P>, pl: Pipeline<P>, black: P, batchSize: nat, producerFirst: Option<nat>)
    returns (stop: Option<AppError>, tileBatch: seq<Image<P>>, metaBatch: seq<TileMeta>,
             processed: nat, progress: seq<nat>, batchIndex: nat,
             ghost sent: seq<seq<TileMeta>>, ghost consumer: Consumer<P>)
    requires pl.Valid() && InferYieldsImages(pl.infer)
    requires Painted(output, [], pl, black)
    modifies output
    ensures var items := GridMetas(pl.image.width, pl.image.height, pl.tileSize);
            stop.Some? ==> StopsWith(items, batchSize, producerFirst, pl, stop.value, progress)
    ensures var items := GridMetas(pl.image.width, pl.image.height, pl.tileSize);
            stop.None? ==> Running(items, |items|, batchSize, producerFirst, pl,
                                   sent, metaBatch, tileBatch, consumer, processed, progress)
                           && Painted(output, consumer.stitched, pl, black) && batchIndex == |sent|
  {
    var tilesX := TileCount(pl.image.width, pl.tileSize);
    var tilesY := TileCount(pl.image.height, pl.tileSize);
    ghost var items := GridMetas(pl.image.width, pl.image.height, pl.tileSize);
    GridMetasLength(pl.image.width, pl.image.height, pl.tileSize);
    tileBatch, metaBatch, processed, progress, batchIndex := [], [], 0, [], 0;
    sent, consumer := [], Consumer([], 0, [], None);
    stop := None;
    var tileIndex := 0;
    var y := 0;
    while y < tilesY
      invariant 0 <= y <= tilesY && tileIndex == y * tilesX && stop.None?
      invariant Running(items, tileIndex, batchSize, producerFirst, pl, sent, metaBatch, tileBatch,
                        consumer, processed, progress)
      invariant Painted(output, consumer.stitched, pl, black) && batchIndex == |sent|
    {
      GridRowEntries(pl.image.width, pl.image.height, pl.tileSize, y, tileIndex);
      stop, tileBatch, metaBatch, processed, progress, batchIndex, sent, consumer :=
        TakeRow(output, pl, black, batchSize, producerFirst, y, tileIndex,
                tileBatch, metaBatch, processed, progress, batchIndex, sent, consumer);
      if stop.Some? {
        return;
      }
      NextRowStart(y, tilesX);
      tileIndex := tileIndex + tilesX;
      y := y + 1;
    }
    MulCommutes(tilesY, tilesX);
  }

  /**
   * After the last grid tile: the producer sends its partial batch, if any,
   * and the consumer's buffer becomes the result.
   */
  method FinishRun<P(!new)>(image: Image<P>, config: TilingConfig, scale: nat, black: P,
                            infer: seq<Image<P>> -> AppResult<seq<Image<P>>>, cancel: CancelReads,
                            availableMemory: nat, output: array2<P>,
                            tileBatch: seq<Image<P>>, metaBatch: seq<TileMeta>, processed: nat, progress: seq<nat>,
                            batchIndex: nat, ghost sent: seq<seq<TileMeta>>, ghost consumer: Consumer<P>)
    returns (r: AppResult<Image<P>>, progressAfter: seq<nat>)
    requires image.Valid() && config.tileSize > 0 && InferYieldsImages(infer)
    requires availableMemory >= RequiredMemory(image.width * scale, image.height * scale) / 1024
    requires var items := GridMetas(image.width, image.height, config.tileSize);
             Running(items, |items|, config.batchSize, cancel.producerFirst,
                     PipelineFor(image, config, scale, infer, cancel),
                     sent, metaBatch, tileBatch, consumer, processed, progress)
    requires Painted(output, consumer.stitched, PipelineFor(image, config, scale, infer, cancel), black)
    requires batchIndex == |sent|
    modifies output
    ensures r == IntendedResult(TiledSpec(image, config, scale, black, infer, cancel, availableMemory))
    ensures progressAfter == TiledSpec(image, config, scale, black, infer, cancel, availableMemory).progress
  {
    var pl := PipelineFor(image, config, scale, infer, cancel);
    ghost var items := GridMetas(image.width, image.height, config.tileSize);
    assert items[..|items|] == items;
    ghost var c := consumer;
    progressAfter := progress;
    if |tileBatch| > 0 {
      var stop, processedAfter;
      stop, processedAfter, progressAfter, c :=
        SendBatch(output, pl, black, items, config.batchSize, cancel.producerFirst, tileBatch, metaBatch,
                  processed, progress, batchIndex, sent, consumer);
      if stop.Some? {
        StopIsResult(image, config, scale, black, infer, cancel, availableMemory, stop.value, progressAfter);
        return Err(stop.value), progressAfter;
      }
    }
    var result := Freeze(output);
    ImageExt(result, Assemble(c.stitched, pl, black));
    r := Ok(result);
  }

  /**
   * Cuts the image into a grid of padded tiles in row-major order, sends
   * them to inference in batches and stitches the results into an output
   * `scale` times larger, reporting the processed-tile count after each
   * batch.  A run that the cancel flag cuts short fails, whichever side
   * reads the flag first.
   */
  method ProcessTiled<P(!new)>(image: Image<P>, config: TilingConfig, scale: nat, black: P,
                               infer: seq<Image<P>> -> AppResult<seq<Image<P>>>, cancel: CancelReads,
                               availableMemory: nat)
    returns (r: AppResult<Image<P>>, progress: seq<nat>)
    requires image.Valid() && config.tileSize > 0
    requires InferYieldsImages(infer)
    ensures r == IntendedResult(TiledSpec(image, config, scale, black, infer, cancel, availableMemory))
    ensures progress == TiledSpec(image, config, scale, black, infer, cancel, availableMemory).progress
  {
    var width := image.width;
    var height := image.height;
    var tileSize := config.tileSize;
    var batchSize := config.batchSize;
    var outWidth := width * scale;
    var outHeight := height * scale;
    var required := RequiredMemory(outWidth, outHeight);
    if availableMemory < required / 1024 {
      return Err(InsufficientMemory(required, availableMemory)), [];
    }
    var output := new P[outHeight, outWidth]((_, _) => black);
    var pl := PipelineFor(image, config, scale, infer, cancel);
    var stop, tileBatch, metaBatch, processed, batchIndex;
    ghost var sent, consumer;
    stop, tileBatch, metaBatch, processed, progress, batchIndex, sent, consumer :=
      TakeRows(output, pl, black, batchSize, cancel.producerFirst);
    if stop.Some? {
      StopIsResult(image, config, scale, black, infer, cancel, availableMemory, stop.value, progress);
      return Err(stop.value), progress;
    }
    r, progress := FinishRun(image, config, scale, black, infer, cancel, availableMemory, output,
                             tileBatch, metaBatch, processed, progress, batchIndex, sent, consumer);
  }
}
