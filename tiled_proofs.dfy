// Properties of a tiled run as a whole: how tiles are grouped into batches,
// what progress is reported, which tile owns each output pixel, and what a
// complete run computes.

module TiledProofs {
  import opened Errors
  import opened Raster
  import opened Tiling
  import opened ImageProcessing

  // ---------------------------------------------------------------------
  // Batching

  /** Size of every full batch: `batchSize`, or single tiles when it is 0. */
  function FullBatch(batchSize: nat): (n: nat)
    ensures n >= 1 && n >= batchSize
  {
    if batchSize == 0 then 1 else batchSize
  }

  /** Flattening one more batch appends its tiles. */
  lemma FlattenSnoc<T>(bs: seq<seq<T>>, b: seq<T>)
    ensures Flatten(bs + [b]) == Flatten(bs) + b
  {
    assert (bs + [b])[..|bs|] == bs;
  }

  /**
   * The producer after looking at `items`: it has sent full batches, holds
   * fewer than a full batch, and what it sent and holds is the tiles it
   * looked at, in order; it stopped exactly when it read the flag as set,
   * and then dropped what it held.
   */
  lemma {:induction false} ProducerInvariant(items: seq<TileMeta>, batchSize: nat, producerFirst: Option<nat>)
    ensures var s := ProduceOver(items, batchSize, producerFirst);
            (forall i | 0 <= i < |s.sent| :: |s.sent[i]| == FullBatch(batchSize))
            && |s.pending| < FullBatch(batchSize)
            && (s.stopped <==> producerFirst.Some? && producerFirst.value < |items|)
            && (!s.stopped ==> Flatten(s.sent) + s.pending == items)
            && (s.stopped ==> s.pending == [] && |Flatten(s.sent)| <= producerFirst.value
                              && Flatten(s.sent) == items[..|Flatten(s.sent)|])
  {
    if items != [] {
      var n := |items| - 1;
      var s0 := ProduceOver(items[..n], batchSize, producerFirst);
      ProducerInvariant(items[..n], batchSize, producerFirst);
      assert items[..n] + [items[n]] == items;
      if s0.stopped {
        assert items[..n][..|Flatten(s0.sent)|] == items[..|Flatten(s0.sent)|];
      } else if SeesSet(producerFirst, n) {
        assert Flatten(s0.sent) == items[..n][..|Flatten(s0.sent)|];
      } else {
        var batch := s0.pending + [items[n]];
        if |batch| >= batchSize {
          FlattenSnoc(s0.sent, batch);
        }
      }
    }
  }

  /**
   * What the producer hands over: non-empty batches, all full except
   * possibly the last; without cancellation they hold every item in order;
   * cut short, they hold only full batches and a prefix of the items that
   * ends before the tile at which the flag was read.
   */
  lemma BatchesShape(items: seq<TileMeta>, batchSize: nat, producerFirst: Option<nat>)
    ensures var (bs, stopped) := Batches(items, batchSize, producerFirst);
            (forall i | 0 <= i < |bs| :: 1 <= |bs[i]| <= FullBatch(batchSize))
            && (forall i | 0 <= i < |bs| - 1 :: |bs[i]| == FullBatch(batchSize))
            && (stopped <==> producerFirst.Some? && producerFirst.value < |items|)
            && (!stopped ==> Flatten(bs) == items)
            && (stopped ==> (forall i | 0 <= i < |bs| :: |bs[i]| == FullBatch(batchSize))
                            && |Flatten(bs)| <= producerFirst.value && Flatten(bs) == items[..|Flatten(bs)|])
  {
    var s := ProduceOver(items, batchSize, producerFirst);
    ProducerInvariant(items, batchSize, producerFirst);
    if !s.stopped && s.pending != [] {
      FlattenSnoc(s.sent, s.pending);
    }
  }

  // ---------------------------------------------------------------------
  // Progress

  /** Tiles in the first k batches. */
  function TilesIn(bs: seq<seq<TileMeta>>, k: nat): nat
    requires k <= |bs|
  {
    |Flatten(bs[..k])|
  }

  /** Each further batch adds its size to the count of tiles sent before it. */
  lemma TilesInStep(bs: seq<seq<TileMeta>>, k: nat)
    requires k < |bs|
    ensures TilesIn(bs, k + 1) == TilesIn(bs, k) + |bs[k]|
  {
    assert bs[..k + 1] == bs[..k] + [bs[k]];
    FlattenSnoc(bs[..k], bs[k]);
  }

  /**
   * After a batch is consumed the consumer reports how many tiles it has
   * processed so far; it reports once per batch it completes, and every
   * batch completes until the first failure.
   */
  lemma {:induction false} ConsumeProgress<P>(batches: seq<seq<TileMeta>>, pl: Pipeline<P>)
    requires pl.Valid() && (batches != [] ==> pl.image.width >= 1 && pl.image.height >= 1)
    ensures var c := Consume(batches, pl);
            |c.progress| <= |batches|
            && (c.failure.None? ==> |c.progress| == |batches|)
            && c.processed == TilesIn(batches, |c.progress|)
            && forall i | 0 <= i < |c.progress| :: c.progress[i] == TilesIn(batches, i + 1)
  {
    if batches != [] {
      var k := |batches| - 1;
      var init := batches[..k];
      ConsumeProgress(init, pl);
      var s := Consume(init, pl);
      assert forall i | 0 <= i <= k :: batches[..i] == init[..i];
      if s.failure.None? {
        TilesInStep(batches, k);
      }
    }
  }

  /** With non-empty batches the counts of tiles in growing prefixes strictly increase. */
  lemma {:induction false} TilesInIncreasing(bs: seq<seq<TileMeta>>, i: nat, j: nat)
    requires forall b | 0 <= b < |bs| :: |bs[b]| >= 1
    requires i < j <= |bs|
    ensures TilesIn(bs, i) < TilesIn(bs, j)
    decreases j - i
  {
    TilesInStep(bs, j - 1);
    if i < j - 1 {
      TilesInIncreasing(bs, i, j - 1);
    }
  }

  /**
   * Over non-empty batches the consumer's reports strictly increase, stay
   * within the tiles sent, and end at that total when nothing failed.
   */
  lemma ConsumerReports<P>(bs: seq<seq<TileMeta>>, pl: Pipeline<P>)
    requires pl.Valid() && (bs != [] ==> pl.image.width >= 1 && pl.image.height >= 1)
    requires forall b | 0 <= b < |bs| :: |bs[b]| >= 1
    ensures var c := Consume(bs, pl);
            (forall i, j | 0 <= i < j < |c.progress| :: c.progress[i] < c.progress[j])
            && (forall i | 0 <= i < |c.progress| :: 1 <= c.progress[i] <= |Flatten(bs)|)
            && (c.failure.None? && bs != [] ==> |c.progress| >= 1 && c.progress[|c.progress| - 1] == |Flatten(bs)|)
  {
    ConsumeProgress(bs, pl);
    var c := Consume(bs, pl);
    forall i, j | 0 <= i < j < |c.progress|
      ensures c.progress[i] < c.progress[j]
    {
      TilesInIncreasing(bs, i + 1, j + 1);
    }
    assert bs[..|bs|] == bs;
    forall i | 0 <= i < |c.progress|
      ensures 1 <= c.progress[i] <= |Flatten(bs)|
    {
      TilesInIncreasing(bs, 0, i + 1);
      if i + 1 < |bs| {
        TilesInIncreasing(bs, i + 1, |bs|);
      }
    }
  }

  /**
   * Progress reports of any run strictly increase and never exceed the
   * number of grid tiles; a complete run's last report is that number.
   */
  lemma ProgressReports<P>(image: Image<P>, config: TilingConfig, scale: nat, black: P,
                           infer: seq<Image<P>> -> AppResult<seq<Image<P>>>, cancel: CancelReads, availableMemory: nat)
    requires image.Valid() && config.tileSize > 0
    ensures var o := TiledSpec(image, config, scale, black, infer, cancel, availableMemory);
            var total := TileCount(image.width, config.tileSize) * TileCount(image.height, config.tileSize);
            (forall i, j | 0 <= i < j < |o.progress| :: o.progress[i] < o.progress[j])
            && (forall i | 0 <= i < |o.progress| :: 1 <= o.progress[i] <= total)
            && (o.Completed? ==> if total == 0 then o.progress == []
                                 else |o.progress| >= 1 && o.progress[|o.progress| - 1] == total)
  {
    var items := GridMetas(image.width, image.height, config.tileSize);
    GridMetasLength(image.width, image.height, config.tileSize);
    var required := RequiredMemory(image.width * scale, image.height * scale);
    if availableMemory >= required / 1024 {
      var pl := PipelineFor(image, config, scale, infer, cancel);
      var produced := Batches(items, config.batchSize, cancel.producerFirst);
      NoBatchesForEmptyImage(image.width, image.height, config.tileSize, config.batchSize, cancel.producerFirst);
      BatchesShape(items, config.batchSize, cancel.producerFirst);
      ConsumerReports(produced.0, pl);
      if produced.0 == [] {
        ConsumeProgress(produced.0, pl);
      }
      if produced.1 {
        assert |Flatten(produced.0)| <= |items|;
      }
    }
  }

  // ---------------------------------------------------------------------
  // Which tile owns an output pixel

  /** Row-major index of the grid tile (X / S, Y / S), S = tileSize * scale. */
  function OwnerIndex(width: nat, tileSize: nat, scale: nat, X: nat, Y: nat): nat
    requires tileSize > 0 && scale > 0
  {
    SpanIndex(Y, tileSize, scale) * TileCount(width, tileSize) + SpanIndex(X, tileSize, scale)
  }

  /** A grid tile whose spans hold X and Y along both axes is stitched over (X, Y). */
  lemma RegionOwnerAt(width: nat, height: nat, tileSize: nat, scale: nat, X: nat, Y: nat, tx: nat, ty: nat)
    requires tileSize > 0 && tx < TileCount(width, tileSize) && ty < TileCount(height, tileSize)
    requires tx * tileSize < width && ty * tileSize < height
    requires InSpan(tx, ContentSize(width, tx, tileSize), tileSize, scale, width * scale, X)
    requires InSpan(ty, ContentSize(height, ty, tileSize), tileSize, scale, height * scale, Y)
    ensures ty * TileCount(width, tileSize) + tx < |GridMetas(width, height, tileSize)|
    ensures var m := GridMetas(width, height, tileSize)[ty * TileCount(width, tileSize) + tx];
            m == MetaAt(tx, ty, width, height, tileSize)
            && InRegion(m, tileSize, scale, width * scale, height * scale, X, Y)
  {
    GridMetasAt(width, height, tileSize, tx, ty);
  }

  /** The grid tile at (X / S, Y / S), S = tileSize * scale, is stitched over output pixel (X, Y). */
  lemma RegionOwner(width: nat, height: nat, tileSize: nat, scale: nat, X: nat, Y: nat)
    requires tileSize > 0 && X < width * scale && Y < height * scale
    ensures scale > 0 && tileSize * scale > 0
    ensures SpanIndex(X, tileSize, scale) < TileCount(width, tileSize)
            && SpanIndex(Y, tileSize, scale) < TileCount(height, tileSize)
    ensures OwnerIndex(width, tileSize, scale, X, Y) < |GridMetas(width, height, tileSize)|
    ensures var m := GridMetas(width, height, tileSize)[OwnerIndex(width, tileSize, scale, X, Y)];
            m == MetaAt(SpanIndex(X, tileSize, scale), SpanIndex(Y, tileSize, scale), width, height, tileSize)
            && InRegion(m, tileSize, scale, width * scale, height * scale, X, Y)
  {
    assert scale > 0;
    var tx := SpanIndex(X, tileSize, scale);
    var ty := SpanIndex(Y, tileSize, scale);
    SpanOwner(width, tileSize, scale, X);
    SpanOwner(height, tileSize, scale, Y);
    RegionOwnerAt(width, height, tileSize, scale, X, Y, tx, ty);
  }

  /** No other grid tile is stitched over the same output pixel. */
  lemma RegionOwnerUnique(width: nat, height: nat, tileSize: nat, scale: nat, X: nat, Y: nat, i: nat)
    requires tileSize > 0 && i < |GridMetas(width, height, tileSize)|
    requires InRegion(GridMetas(width, height, tileSize)[i], tileSize, scale, width * scale, height * scale, X, Y)
    ensures scale > 0 && tileSize * scale > 0
    ensures i == OwnerIndex(width, tileSize, scale, X, Y)
  {
    assert scale > 0;
    var tx := TileCount(width, tileSize);
    GridMetasEntry(width, height, tileSize, i);
    GridMetasLength(width, height, tileSize);
    RowMajorSplit(i, tx, TileCount(height, tileSize));
    TileStartsInside(width, tileSize, i % tx);
    TileStartsInside(height, tileSize, i / tx);
    SpanUnique(width, tileSize, scale, X, i % tx);
    SpanUnique(height, tileSize, scale, Y, i / tx);
  }

  /**
   * The stitched regions of the grid partition the output: every output
   * pixel lies in the region of exactly one grid tile.
   */
  lemma RegionsPartition(width: nat, height: nat, tileSize: nat, scale: nat, X: nat, Y: nat)
    requires tileSize > 0 && X < width * scale && Y < height * scale
    ensures scale > 0 && tileSize * scale > 0
    ensures var items := GridMetas(width, height, tileSize);
            var j := OwnerIndex(width, tileSize, scale, X, Y);
            j < |items|
            && forall i | 0 <= i < |items| ::
                 InRegion(items[i], tileSize, scale, width * scale, height * scale, X, Y) <==> i == j
  {
    RegionOwner(width, height, tileSize, scale, X, Y);
    var items := GridMetas(width, height, tileSize);
    forall i | 0 <= i < |items| && InRegion(items[i], tileSize, scale, width * scale, height * scale, X, Y)
      ensures i == OwnerIndex(width, tileSize, scale, X, Y)
    {
      RegionOwnerUnique(width, height, tileSize, scale, X, Y, i);
    }
  }

  /**
   * When only entry j of the stitched sequence covers (X, Y) and it fits,
   * the pixel is that tile's pixel, whatever was stitched before or after.
   */
  lemma {:induction false} PixelAfterOwner<P>(stitched: seq<(Image<P>, TileMeta)>, pl: Pipeline<P>, black: P,
                                              X: nat, Y: nat, j: nat)
    requires j < |stitched|
    requires forall i | 0 <= i < |stitched| && i != j ::
               !InRegion(stitched[i].1, pl.tileSize, pl.scale, pl.OutWidth(), pl.OutHeight(), X, Y)
    requires stitched[j].0.Valid() && WindowInside(stitched[j].0, stitched[j].1, pl.scale, pl.padding)
    requires InRegion(stitched[j].1, pl.tileSize, pl.scale, pl.OutWidth(), pl.OutHeight(), X, Y)
    ensures PixelAfter(stitched, pl, black, X, Y)
            == StitchedPixel(black, stitched[j].0, stitched[j].1, pl.scale, pl.padding, pl.tileSize,
                             pl.OutWidth(), pl.OutHeight(), X, Y)
  {
    var k := |stitched| - 1;
    if j < k {
      PixelAfterOwner(stitched[..k], pl, black, X, Y, j);
    }
  }

  // ---------------------------------------------------------------------
  // What a complete run computes

  /** An upscaler that turns every well-formed tile into one `scale` times larger. */
  ghost predicate Upscales<P(!new)>(up: Image<P> -> Image<P>, scale: nat)
  {
    forall t: Image<P> :: t.Valid() ==>
      up(t).Valid() && up(t).width == t.width * scale && up(t).height == t.height * scale
  }

  /** Batch inference that upscales each tile on its own and never fails. */
  function PerTile<P>(up: Image<P> -> Image<P>): seq<Image<P>> -> AppResult<seq<Image<P>>>
  {
    (tiles: seq<Image<P>>) => Ok(seq(|tiles|, (i: int) requires 0 <= i < |tiles| => up(tiles[i])))
  }

  /** A single tile through a per-tile upscaler. */
  lemma PerTileOne<P>(up: Image<P> -> Image<P>, t: Image<P>)
    ensures PerTile(up)([t]) == Ok([up(t)])
  {
    assert seq(1, (i: int) requires 0 <= i < 1 => up([t][i])) == [up(t)];
  }

  /** Each tile paired with its upscaled padded tile. */
  function Upscaled<P>(metas: seq<TileMeta>, pl: Pipeline<P>, up: Image<P> -> Image<P>): (z: seq<(Image<P>, TileMeta)>)
    requires pl.Valid() && (metas != [] ==> pl.image.width >= 1 && pl.image.height >= 1)
    ensures |z| == |metas|
  {
    seq(|metas|, (i: int) requires 0 <= i < |metas| => (up(TileFor(metas[i], pl)), metas[i]))
  }

  /** Upscaling two runs of tiles one after the other is upscaling them together. */
  lemma UpscaledAppend<P>(a: seq<TileMeta>, b: seq<TileMeta>, pl: Pipeline<P>, up: Image<P> -> Image<P>)
    requires pl.Valid() && pl.image.width >= 1 && pl.image.height >= 1
    ensures Upscaled(a, pl, up) + Upscaled(b, pl, up) == Upscaled(a + b, pl, up)
  {
    var left := Upscaled(a, pl, up) + Upscaled(b, pl, up);
    var right := Upscaled(a + b, pl, up);
    forall i | 0 <= i < |right|
      ensures left[i] == right[i]
    {
      if i < |a| {
        assert (a + b)[i] == a[i];
      } else {
        assert (a + b)[i] == b[i - |a|];
      }
    }
  }

  lemma UpscaledTile<P(!new)>(up: Image<P> -> Image<P>, scale: nat, t: Image<P>)
    requires Upscales(up, scale) && t.Valid()
    ensures up(t).Valid() && up(t).width == t.width * scale && up(t).height == t.height * scale
  {
  }

  /** The crop window of a tile with content at most the tile edge fits in its upscaled padded tile. */
  lemma WindowFits(padding: nat, content: nat, tileSize: nat, scale: nat, extent: nat)
    requires content <= tileSize && extent == (tileSize + 2 * padding) * scale
    ensures padding * scale + content * scale <= extent
  {
    MulMonotone(padding + content, tileSize + 2 * padding, scale);
    assert (padding + content) * scale == padding * scale + content * scale;
  }

  /** Upscaling the padded tile of a grid tile gives a tile its crop window fits in. */
  lemma UpscaledFits<P(!new)>(m: TileMeta, pl: Pipeline<P>, up: Image<P> -> Image<P>)
    requires pl.Valid() && pl.image.width >= 1 && pl.image.height >= 1 && Upscales(up, pl.scale)
    requires m.contentWidth <= pl.tileSize && m.contentHeight <= pl.tileSize
    ensures up(TileFor(m, pl)).Valid() && WindowInside(up(TileFor(m, pl)), m, pl.scale, pl.padding)
  {
    var t := TileFor(m, pl);
    var edge := pl.tileSize + 2 * pl.padding;
    assert t.Valid() && t.width == edge && t.height == edge;
    UpscaledTile(up, pl.scale, t);
    var u := up(t);
    WindowFits(pl.padding, m.contentWidth, pl.tileSize, pl.scale, u.width);
    WindowFits(pl.padding, m.contentHeight, pl.tileSize, pl.scale, u.height);
  }

  /** Every tile's content is at most the tile edge. */
  predicate ContentWithin(metas: seq<TileMeta>, tileSize: nat)
  {
    forall i | 0 <= i < |metas| :: metas[i].contentWidth <= tileSize && metas[i].contentHeight <= tileSize
  }

  lemma ContentWithinSplit(a: seq<TileMeta>, b: seq<TileMeta>, tileSize: nat)
    requires ContentWithin(a + b, tileSize)
    ensures ContentWithin(a, tileSize) && ContentWithin(b, tileSize)
  {
    assert forall i | 0 <= i < |a| :: a[i] == (a + b)[i];
    assert forall i | 0 <= i < |b| :: b[i] == (a + b)[|a| + i];
  }

  /** A pipeline over a non-empty image whose inference upscales tile by tile and that is never cancelled. */
  ghost predicate PerTileRun<P(!new)>(pl: Pipeline<P>, up: Image<P> -> Image<P>)
  {
    pl.Valid() && pl.image.width >= 1 && pl.image.height >= 1 && pl.consumerFirst.None?
    && pl.infer == PerTile(up) && Upscales(up, pl.scale)
  }

  /** One batch through a per-tile upscaler that never fails, without cancellation. */
  lemma ConsumeBatchAll<P(!new)>(s: Consumer<P>, batch: seq<TileMeta>, index: nat, pl: Pipeline<P>, up: Image<P> -> Image<P>)
    requires PerTileRun(pl, up) && ContentWithin(batch, pl.tileSize)
    ensures ConsumeBatch(s, batch, index, pl).failure.None?
    ensures ConsumeBatch(s, batch, index, pl).stitched == s.stitched + Upscaled(batch, pl, up)
  {
    var tiles := TilesOf(batch, pl);
    var ups := seq(|tiles|, (i: int) requires 0 <= i < |tiles| => up(tiles[i]));
    assert pl.infer(tiles) == Ok(ups);
    forall j | 0 <= j < |batch|
      ensures StitchFits(ups[j], batch[j], pl.scale, pl.padding, pl.tileSize, pl.OutWidth(), pl.OutHeight())
    {
      UpscaledFits(batch[j], pl, up);
    }
    ConsumeBatchStitches(s, batch, index, pl, ups);
    assert Zip(ups, batch) == Upscaled(batch, pl, up);
  }

  /** A batch whose inference returns one fitting tile per tile sent is stitched in order. */
  lemma ConsumeBatchStitches<P>(s: Consumer<P>, batch: seq<TileMeta>, index: nat, pl: Pipeline<P>, ups: seq<Image<P>>)
    requires pl.Valid() && pl.image.width >= 1 && pl.image.height >= 1 && pl.consumerFirst.None?
    requires pl.infer(TilesOf(batch, pl)) == Ok(ups) && |ups| == |batch|
    requires forall j | 0 <= j < |batch| ::
               StitchFits(ups[j], batch[j], pl.scale, pl.padding, pl.tileSize, pl.OutWidth(), pl.OutHeight())
    ensures var n := s.processed + |batch|;
            ConsumeBatch(s, batch, index, pl) == Consumer(s.stitched + Zip(ups, batch), n, s.progress + [n], None)
  {
  }

  /** Every batch through a per-tile upscaler that never fails, without cancellation. */
  lemma {:induction false} ConsumeAll<P(!new)>(bs: seq<seq<TileMeta>>, pl: Pipeline<P>, up: Image<P> -> Image<P>)
    requires PerTileRun(pl, up) && ContentWithin(Flatten(bs), pl.tileSize)
    ensures Consume(bs, pl).failure.None?
    ensures Consume(bs, pl).stitched == Upscaled(Flatten(bs), pl, up)
  {
    if bs != [] {
      var k := |bs| - 1;
      var init := bs[..k];
      assert Flatten(bs) == Flatten(init) + bs[k];
      ContentWithinSplit(Flatten(init), bs[k], pl.tileSize);
      ConsumeAll(init, pl, up);
      ConsumeBatchAll(Consume(init, pl), bs[k], k, pl, up);
      UpscaledAppend(Flatten(init), bs[k], pl, up);
    }
  }

  /** A run without cancellation, with enough memory and a per-tile upscaler, completes and stitches every grid tile. */
  lemma CompleteRun<P(!new)>(image: Image<P>, config: TilingConfig, scale: nat, black: P,
                             up: Image<P> -> Image<P>, availableMemory: nat)
    requires image.Valid() && config.tileSize > 0 && image.width >= 1 && image.height >= 1
    requires Upscales(up, scale)
    requires availableMemory >= RequiredMemory(image.width * scale, image.height * scale) / 1024
    ensures var o := TiledSpec(image, config, scale, black, PerTile(up), CancelReads(None, None), availableMemory);
            var pl := PipelineFor(image, config, scale, PerTile(up), CancelReads(None, None));
            o.Completed? && o.image == Assemble(Upscaled(GridMetas(image.width, image.height, config.tileSize), pl, up), pl, black)
  {
    var items := GridMetas(image.width, image.height, config.tileSize);
    var pl := PipelineFor(image, config, scale, PerTile(up), CancelReads(None, None));
    var produced := Batches(items, config.batchSize, None);
    BatchesShape(items, config.batchSize, None);
    forall i | 0 <= i < |items|
      ensures items[i].contentWidth <= config.tileSize && items[i].contentHeight <= config.tileSize
    {
      GridMetasEntry(image.width, image.height, config.tileSize, i);
    }
    assert ContentWithin(items, config.tileSize);
    ConsumeAll(produced.0, pl, up);
  }

  /**
   * Output pixel (X, Y) holds value v taken from the tile that owns it: the
   * tile m in grid column X / S and row Y / S, S = tileSize * scale, whose
   * region contains (X, Y); its upscaled padded tile holds the crop window
   * and v is that tile's pixel at offset (X - origin, Y - origin) past the
   * scaled padding.
   */
  ghost predicate OwnedPixel<P(!new)>(v: P, pl: Pipeline<P>, up: Image<P> -> Image<P>, black: P, X: nat, Y: nat)
  {
    pl.Valid() && pl.scale > 0 && pl.image.width >= 1 && pl.image.height >= 1
    && SpanIndex(X, pl.tileSize, pl.scale) < TileCount(pl.image.width, pl.tileSize)
    && SpanIndex(Y, pl.tileSize, pl.scale) < TileCount(pl.image.height, pl.tileSize)
    && var m := MetaAt(SpanIndex(X, pl.tileSize, pl.scale), SpanIndex(Y, pl.tileSize, pl.scale),
                       pl.image.width, pl.image.height, pl.tileSize);
       var t := up(TileFor(m, pl));
       InRegion(m, pl.tileSize, pl.scale, pl.OutWidth(), pl.OutHeight(), X, Y)
       && t.Valid() && WindowInside(t, m, pl.scale, pl.padding)
       && v == StitchedPixel(black, t, m, pl.scale, pl.padding, pl.tileSize, pl.OutWidth(), pl.OutHeight(), X, Y)
  }

  /**
   * Once every grid tile's upscaled tile has been stitched, output pixel
   * (X, Y) holds the pixel of the one tile whose region contains it.
   */
  lemma AssembledPixel<P(!new)>(pl: Pipeline<P>, up: Image<P> -> Image<P>, black: P, X: nat, Y: nat)
    requires pl.Valid() && pl.image.width >= 1 && pl.image.height >= 1 && Upscales(up, pl.scale)
    requires X < pl.OutWidth() && Y < pl.OutHeight()
    ensures OwnedPixel(PixelAfter(Upscaled(GridMetas(pl.image.width, pl.image.height, pl.tileSize), pl, up), pl, black, X, Y),
                       pl, up, black, X, Y)
  {
    var items := GridMetas(pl.image.width, pl.image.height, pl.tileSize);
    RegionsPartition(pl.image.width, pl.image.height, pl.tileSize, pl.scale, X, Y);
    RegionOwner(pl.image.width, pl.image.height, pl.tileSize, pl.scale, X, Y);
    var j := OwnerIndex(pl.image.width, pl.tileSize, pl.scale, X, Y);
    UpscaledFits(items[j], pl, up);
    PixelAfterOwner(Upscaled(items, pl, up), pl, black, X, Y, j);
  }

  /** Pixel (X, Y) of the assembled output is the pixel stitching leaves there. */
  lemma AssembleAt<P>(stitched: seq<(Image<P>, TileMeta)>, pl: Pipeline<P>, black: P, X: nat, Y: nat)
    requires X < pl.OutWidth() && Y < pl.OutHeight()
    ensures Assemble(stitched, pl, black).At(X, Y) == PixelAfter(stitched, pl, black, X, Y)
  {
  }

  /**
   * A run with enough memory, no cancellation and an inference that upscales
   * every tile completes, with an output `scale` times the input in each
   * direction, and every output pixel comes from the tile that owns it.
   */
  lemma TiledRunCovers<P(!new)>(image: Image<P>, config: TilingConfig, scale: nat, black: P,
                                up: Image<P> -> Image<P>, availableMemory: nat, X: nat, Y: nat)
    requires image.Valid() && config.tileSize > 0 && Upscales(up, scale)
    requires availableMemory >= RequiredMemory(image.width * scale, image.height * scale) / 1024
    requires X < image.width * scale && Y < image.height * scale
    ensures var o := TiledSpec(image, config, scale, black, PerTile(up), CancelReads(None, None), availableMemory);
            o.Completed? && o.image.Valid()
            && o.image.width == image.width * scale && o.image.height == image.height * scale
            && OwnedPixel(o.image.At(X, Y), PipelineFor(image, config, scale, PerTile(up), CancelReads(None, None)),
                          up, black, X, Y)
  {
    PositiveFactor(image.width, scale);
    PositiveFactor(image.height, scale);
    var pl := PipelineFor(image, config, scale, PerTile(up), CancelReads(None, None));
    var stitched := Upscaled(GridMetas(image.width, image.height, config.tileSize), pl, up);
    CompleteRun(image, config, scale, black, up, availableMemory);
    AssembleAt(stitched, pl, black, X, Y);
    AssembledPixel(pl, up, black, X, Y);
  }

  // ---------------------------------------------------------------------
  // Tiling is invisible: with a pixel-replicating upscaler, the tiled run
  // produces exactly the image upscaled as a whole.

  /** A quotient bounded by its dividend's bound. */
  lemma DivBelow(n: nat, bound: nat, s: nat)
    requires s > 0 && n < bound * s
    ensures n / s < bound
  {
    MulMonotone(bound, n / s, s);
  }

  /** Shifting a dividend by whole multiples of the divisor shifts the quotient. */
  lemma DivShift(k: nat, r: nat, s: nat)
    requires s > 0
    ensures (k * s + r) / s == k + r / s
  {
    assert r == (r / s) * s + r % s;
    assert (k + r / s) * s == k * s + (r / s) * s;
    DivUnique(k * s + r, s, k + r / s);
  }

  /**
   * Along one axis: the tile pixel read for output coordinate c, divided
   * back by the scale, is source coordinate c / s seen from the tile's
   * padded frame.
   */
  lemma AxisSource(c: nat, k: nat, content: nat, padding: nat, s: nat)
    requires s > 0 && k * s <= c < k * s + content * s
    ensures k <= c / s < k + content
    ensures (padding * s + c - k * s) / s == padding + c / s - k
  {
    var r := c - k * s;
    DivShift(k, r, s);
    DivShift(padding, r, s);
    DivBelow(r, content, s);
  }

  /**
   * The source coordinate a replicated output coordinate comes from.  The
   * division is named so that the statements below about the whole run
   * keep it out of the solver's arithmetic.
   */
  function Unscale(c: nat, scale: nat): nat
    requires scale > 0
  {
    c / scale
  }

  /** Pixel replication: every pixel becomes a `scale` x `scale` block. */
  function Nearest<P>(t: Image<P>, scale: nat): (u: Image<P>)
    ensures t.Valid() ==> u.Valid() && u.width == t.width * scale && u.height == t.height * scale
  {
    if !t.Valid() then t
    else if scale == 0 then Image(0, 0, [])
    else
      var w := t.width * scale;
      var h := t.height * scale;
      Image(w, h, seq(h, (y: int) requires 0 <= y < h =>
        seq(w, (x: int) requires 0 <= x < w =>
          DivBelow(x, t.width, scale); DivBelow(y, t.height, scale); t.At(x / scale, y / scale))))
  }

  /** The pixel-replicating upscaler for one scale factor. */
  function NearestBy<P>(scale: nat): Image<P> -> Image<P>
  {
    (t: Image<P>) => Nearest(t, scale)
  }

  lemma NearestUpscales<P(!new)>(scale: nat)
    ensures Upscales(NearestBy<P>(scale), scale)
  {
  }

  /**
   * Under pixel replication, the value an output pixel takes from the tile
   * that owns it is the source pixel (X / scale, Y / scale): the padding
   * and the tile origin cancel out.
   */
  lemma NearestOwned<P(!new)>(v: P, pl: Pipeline<P>, black: P, X: nat, Y: nat)
    requires OwnedPixel(v, pl, NearestBy(pl.scale), black, X, Y)
    ensures pl.scale > 0
    ensures Unscale(X, pl.scale) < pl.image.width && Unscale(Y, pl.scale) < pl.image.height
    ensures v == pl.image.At(Unscale(X, pl.scale), Unscale(Y, pl.scale))
  {
    var scale := pl.scale;
    var ts := pl.tileSize;
    var mx := SpanIndex(X, ts, scale);
    var my := SpanIndex(Y, ts, scale);
    var m := MetaAt(mx, my, pl.image.width, pl.image.height, ts);
    var tile := TileFor(m, pl);
    var pad := pl.padding;
    assert InRegion(m, ts, scale, pl.OutWidth(), pl.OutHeight(), X, Y);
    AxisSource(X, mx * ts, m.contentWidth, pad, scale);
    AxisSource(Y, my * ts, m.contentHeight, pad, scale);
    TileStartsInside(pl.image.width, ts, mx);
    TileStartsInside(pl.image.height, ts, my);
    assert mx * ts + m.contentWidth <= pl.image.width;
    assert my * ts + m.contentHeight <= pl.image.height;
    var tx := pad + Unscale(X, scale) - mx * ts;
    var ty := pad + Unscale(Y, scale) - my * ts;
    assert Nearest(tile, scale).At(pad * scale + X - mx * ts * scale, pad * scale + Y - my * ts * scale) == tile.At(tx, ty);
    MirroredTileCore(pl.image, mx * ts, my * ts, ts, ts, pad, tx, ty);
  }

  /**
   * With pixel replication as the model, a complete tiled run yields the
   * whole image upscaled: output pixel (X, Y) is source pixel
   * (X / scale, Y / scale), whatever the tile size, padding and batch size.
   */
  lemma TilingIsInvisible<P(!new)>(image: Image<P>, config: TilingConfig, scale: nat, black: P,
                                   availableMemory: nat, X: nat, Y: nat)
    requires image.Valid() && config.tileSize > 0 && scale > 0
    requires availableMemory >= RequiredMemory(image.width * scale, image.height * scale) / 1024
    requires X < image.width * scale && Y < image.height * scale
    ensures Unscale(X, scale) < image.width && Unscale(Y, scale) < image.height
    ensures var o := TiledSpec(image, config, scale, black, PerTile(NearestBy(scale)),
                               CancelReads(None, None), availableMemory);
            o.Completed? && o.image.Valid()
            && o.image.width == image.width * scale && o.image.height == image.height * scale
            && o.image.At(X, Y) == image.At(Unscale(X, scale), Unscale(Y, scale))
  {
    NearestUpscales<P>(scale);
    TiledRunCovers(image, config, scale, black, NearestBy(scale), availableMemory, X, Y);
    var pl := PipelineFor(image, config, scale, PerTile(NearestBy(scale)), CancelReads(None, None));
    var o := TiledSpec(image, config, scale, black, PerTile(NearestBy(scale)), CancelReads(None, None), availableMemory);
    NearestOwned(o.image.At(X, Y), pl, black, X, Y);
  }

  // ---------------------------------------------------------------------
  // Cancellation seen by the producer

  /** A 2 x 1 image has two 1-pixel tiles, side by side. */
  lemma TwoTileGrid()
    ensures TileCount(2, 1) == 2 && TileCount(1, 1) == 1
    ensures GridMetas(2, 1, 1) == [TileMeta(0, 0, 1, 1), TileMeta(1, 0, 1, 1)]
  {
    var rows := GridRows(2, 1, 1);
    assert MetaAt(0, 0, 2, 1, 1) == TileMeta(0, 0, 1, 1);
    assert MetaAt(1, 0, 2, 1, 1) == TileMeta(1, 0, 1, 1);
    assert |rows| == 1 && |rows[0]| == 2;
    assert rows[0][0] == TileMeta(0, 0, 1, 1) && rows[0][1] == TileMeta(1, 0, 1, 1);
    assert rows[0] == [TileMeta(0, 0, 1, 1), TileMeta(1, 0, 1, 1)];
    assert rows == [[TileMeta(0, 0, 1, 1), TileMeta(1, 0, 1, 1)]];
    assert rows[..0] == [];
  }

  /** The producer sends the first tile and stops before the second. */
  lemma ProducerStopsAtSecond(m0: TileMeta, m1: TileMeta)
    ensures Batches([m0, m1], 1, Some(1)) == ([[m0]], true)
  {
    assert [m0, m1][..1] == [m0] && [m0][..0] == [];
    assert ProduceOver([], 1, Some(1)) == Producer([], [], false);
    assert !SeesSet(Some(1), 0) && SeesSet(Some(1), 1);
    var none: seq<TileMeta> := [];
    var noBatches: seq<seq<TileMeta>> := [];
    assert none + [m0] == [m0] && noBatches + [[m0]] == [[m0]];
    assert ProduceOver([m0], 1, Some(1)) == Producer([[m0]], [], false);
  }

  /** The consumer stitches the one batch it receives; the pixel right of it stays black. */
  lemma ConsumerStitchesFirst<P>(pl: Pipeline<P>, black: P, m0: TileMeta)
    requires pl.Valid() && pl.image.width == 2 && pl.image.height == 1 && pl.tileSize == 1 && pl.scale == 1
    requires pl.padding == MIN_PADDING && pl.consumerFirst.None? && pl.infer == PerTile(NearestBy<P>(1))
    requires m0 == TileMeta(0, 0, 1, 1)
    ensures Consume([[m0]], pl).failure.None? && Consume([[m0]], pl).progress == [1]
    ensures PixelAfter(Consume([[m0]], pl).stitched, pl, black, 1, 0) == black
  {
    assert [[m0]][..0] == [];
    var s0 := Consume([], pl);
    assert Consume([[m0]], pl) == ConsumeBatch(s0, [m0], 0, pl);
    var up0 := NearestBy<P>(1)(TileFor(m0, pl));
    assert up0.Valid() && up0.width == 65 && up0.height == 65;
    assert StitchFits(up0, m0, 1, pl.padding, 1, 2, 1);
    assert TilesOf([m0], pl) == [TileFor(m0, pl)];
    PerTileOne(NearestBy<P>(1), TileFor(m0, pl));
    ConsumeBatchStitches(s0, [m0], 0, pl, [up0]);
    assert Zip([up0], [m0]) == [(up0, m0)];
    assert [(up0, m0)][..0] == [];
  }

  /** With enough memory, a producer that stopped and a consumer that did not fail give a partial image. */
  lemma CancelledOutcome<P>(image: Image<P>, config: TilingConfig, scale: nat, black: P,
                            infer: seq<Image<P>> -> AppResult<seq<Image<P>>>, cancel: CancelReads, availableMemory: nat)
    requires image.Valid() && config.tileSize > 0
    requires availableMemory >= RequiredMemory(image.width * scale, image.height * scale) / 1024
    requires Batches(GridMetas(image.width, image.height, config.tileSize), config.batchSize, cancel.producerFirst).1
    requires var pl := PipelineFor(image, config, scale, infer, cancel);
             var bs := Batches(GridMetas(image.width, image.height, config.tileSize), config.batchSize, cancel.producerFirst).0;
             (bs != [] ==> image.width >= 1 && image.height >= 1) && Consume(bs, pl).failure.None?
    ensures var pl := PipelineFor(image, config, scale, infer, cancel);
            var bs := Batches(GridMetas(image.width, image.height, config.tileSize), config.batchSize, cancel.producerFirst).0;
            var c := Consume(bs, pl);
            TiledSpec(image, config, scale, black, infer, cancel, availableMemory)
            == ProducerCancelled(Assemble(c.stitched, pl, black), c.progress)
  {
  }

  /** The intended result of a run the producer cut short is the cancellation error. */
  lemma CancelledIsError<P>(o: TiledOutcome<P>)
    requires o.ProducerCancelled?
    ensures IntendedResult(o) == Err(CANCELLED) && SourceResult(o) == Ok(o.image)
  {
  }

  /** The pipeline of the cancelled run below. */
  function CancelledPipeline<P>(image: Image<P>): (pl: Pipeline<P>)
    requires image.Valid()
    ensures pl.Valid()
  {
    PipelineFor(image, TilingConfig(1, 0, 1), 1, PerTile(NearestBy<P>(1)), CancelReads(Some(1), None))
  }

  /** The producer of the cancelled run below sends the first tile alone and stops. */
  lemma CancelledBatches<P>(image: Image<P>)
    requires image.Valid() && image.width == 2 && image.height == 1
    ensures Batches(GridMetas(image.width, image.height, 1), 1, Some(1)) == ([[TileMeta(0, 0, 1, 1)]], true)
  {
    var m0, m1 := TileMeta(0, 0, 1, 1), TileMeta(1, 0, 1, 1);
    TwoTileGrid();
    assert GridMetas(image.width, image.height, 1) == [m0, m1];
    ProducerStopsAtSecond(m0, m1);
  }

  /** Two tiles, so the cancelled run below pads them. */
  lemma CancelledPipelineShape<P>(image: Image<P>)
    requires image.Valid() && image.width == 2 && image.height == 1
    ensures var pl := CancelledPipeline(image);
            pl.image == image && pl.tileSize == 1 && pl.scale == 1 && pl.padding == MIN_PADDING
            && pl.consumerFirst.None? && pl.infer == PerTile(NearestBy<P>(1))
  {
    assert TileCount(2, 1) == 2 && TileCount(1, 1) == 1;
  }

  /** The consumer of the cancelled run below stitches that tile and leaves pixel (1, 0) black. */
  lemma CancelledConsumer<P>(image: Image<P>, black: P)
    requires image.Valid() && image.width == 2 && image.height == 1
    ensures var pl := CancelledPipeline(image);
            var c := Consume([[TileMeta(0, 0, 1, 1)]], pl);
            c.failure.None? && c.progress == [1] && PixelAfter(c.stitched, pl, black, 1, 0) == black
  {
    var pl := CancelledPipeline(image);
    CancelledPipelineShape(image);
    ConsumerStitchesFirst(pl, black, TileMeta(0, 0, 1, 1));
  }

  /** The outcome of the cancelled run below: cancelled after stitching the first tile. */
  lemma ProducerCancelOutcome<P>(image: Image<P>, black: P, availableMemory: nat)
    requires image.Valid() && image.width == 2 && image.height == 1 && availableMemory >= 102400
    ensures var pl := CancelledPipeline(image);
            pl.image.width >= 1 && pl.image.height >= 1
            && TiledSpec(image, TilingConfig(1, 0, 1), 1, black, PerTile(NearestBy<P>(1)),
                         CancelReads(Some(1), None), availableMemory)
               == ProducerCancelled(Assemble(Consume([[TileMeta(0, 0, 1, 1)]], pl).stitched, pl, black), [1])
  {
    var config := TilingConfig(1, 0, 1);
    TileCountOfOne(image.width);
    TileCountOfOne(image.height);
    CancelledBatches(image);
    CancelledConsumer(image, black);
    assert availableMemory >= RequiredMemory(2, 1) / 1024;
    CancelledOutcome(image, config, 1, black, PerTile(NearestBy<P>(1)), CancelReads(Some(1), None), availableMemory);
  }

  /**
   * A 2 x 1 image cut into 1-pixel tiles, one tile per batch, where the
   * producer reads the cancel flag as set just before the second tile: the
   * first tile is stitched, the channel closes, and the result the source
   * returns is a success whose second pixel is still the black canvas,
   * where the intended result is the cancellation error.
   */
  lemma ProducerCancelReturnsPartialImage<P>(image: Image<P>, black: P, availableMemory: nat)
    requires image.Valid() && image.width == 2 && image.height == 1 && availableMemory >= 102400
    requires image.At(1, 0) != black
    ensures var o := TiledSpec(image, TilingConfig(1, 0, 1), 1, black, PerTile(NearestBy<P>(1)),
                               CancelReads(Some(1), None), availableMemory);
            SourceResult(o).Ok? && SourceResult(o).value.Valid()
            && SourceResult(o).value.width == 2 && SourceResult(o).value.height == 1
            && SourceResult(o).value.At(1, 0) == black != image.At(1, 0)
            && IntendedResult(o) == Err(CANCELLED)
  {
    ProducerCancelOutcome(image, black, availableMemory);
    var pl := CancelledPipeline(image);
    var m0 := TileMeta(0, 0, 1, 1);
    CancelledConsumer(image, black);
    var img := Assemble(Consume([[m0]], pl).stitched, pl, black);
    assert img.At(1, 0) == PixelAfter(Consume([[m0]], pl).stitched, pl, black, 1, 0);
    CancelledIsError(TiledSpec(image, TilingConfig(1, 0, 1), 1, black, PerTile(NearestBy<P>(1)),
                               CancelReads(Some(1), None), availableMemory));
  }
}
