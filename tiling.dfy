// Tile-grid arithmetic of the tiled upscaler: how many tiles cover an image,
// how much of each tile is real content, the padding used, the region of the
// output each tile is stitched into, and the fact that those regions
// partition the output.

module Tiling {
  import opened Raster

  /** Tile edge, configured padding and batch size requested by the caller. */
  datatype TilingConfig = TilingConfig(tileSize: nat, padding: nat, batchSize: nat)

  /** Grid position of a tile and how much of it is real image content. */
  datatype TileMeta = TileMeta(xIndex: nat, yIndex: nat, contentWidth: nat, contentHeight: nat)

  /** Padding used around every tile when the grid has more than one tile. */
  const MIN_PADDING: nat := 32

  // ---------------------------------------------------------------------
  // Small facts of multiplication and division used by the grid proofs.

  lemma MulMonotone(a: nat, b: nat, c: nat)
    ensures a <= b ==> a * c <= b * c
  {
    if a <= b {
      assert b * c == a * c + (b - a) * c;
    }
  }

  lemma NextRowStart(y: nat, w: nat)
    ensures y * w + w == (y + 1) * w
  {
  }

  lemma MulCommutes(a: nat, b: nat)
    ensures a * b == b * a
  {
  }

  lemma MulCancelLess(a: nat, b: nat, c: nat)
    requires a * c < b * c
    ensures a < b
  {
    MulMonotone(b, a, c);
  }

  lemma DivUnique(n: nat, d: nat, q: nat)
    requires d > 0 && q * d <= n < q * d + d
    ensures n / d == q && n % d == n - q * d
  {
    var r := n / d;
    assert n == r * d + n % d;
    MulMonotone(r + 1, q, d);
    MulMonotone(q + 1, r, d);
    assert (r + 1) * d == r * d + d;
    assert (q + 1) * d == q * d + d;
  }

  /** Number of tiles of edge `b` needed to cover `a` pixels. */
  function CeilDiv(a: nat, b: nat): nat
    requires b > 0
  {
    (a + b - 1) / b
  }

  /** The count covers the pixels, one tile fewer does not, and some pixels need some tile. */
  lemma CeilDivBounds(a: nat, b: nat)
    requires b > 0
    ensures CeilDiv(a, b) * b >= a
    ensures CeilDiv(a, b) > 0 ==> (CeilDiv(a, b) - 1) * b < a
    ensures a > 0 ==> CeilDiv(a, b) > 0
  {
    var r := CeilDiv(a, b);
    assert a + b - 1 == r * b + (a + b - 1) % b;
    assert r > 0 ==> (r - 1) * b < a by {
      if r > 0 {
        assert (r - 1) * b == r * b - b;
      }
    }
  }

  /** Tiles needed along one axis. */
  function TileCount(extent: nat, tileSize: nat): nat
    requires tileSize > 0
  {
    CeilDiv(extent, tileSize)
  }

  /** With 1-pixel tiles there is one tile per pixel. */
  lemma TileCountOfOne(extent: nat)
    ensures TileCount(extent, 1) == extent
  {
  }

  /** Every tile index below the count starts inside the image. */
  lemma TileStartsInside(extent: nat, tileSize: nat, index: nat)
    requires tileSize > 0 && index < TileCount(extent, tileSize)
    ensures index * tileSize < extent
  {
    var r := TileCount(extent, tileSize);
    CeilDivBounds(extent, tileSize);
    MulMonotone(index, r - 1, tileSize);
  }

  /**
   * Real content of the tile at `index` along one axis: a full tile, except
   * the last one, which stops at the image edge.
   */
  function ContentSize(extent: nat, index: nat, tileSize: nat): (r: nat)
    requires tileSize > 0 && index * tileSize < extent
    ensures 1 <= r <= tileSize
    ensures index * tileSize + r <= extent
    ensures r < tileSize ==> index * tileSize + r == extent
  {
    if tileSize <= extent - index * tileSize then tileSize else extent - index * tileSize
  }

  /** No padding for a single-tile image; otherwise at least MIN_PADDING. */
  function EffectivePadding(totalTiles: nat, configured: nat): (p: nat)
    ensures totalTiles == 1 ==> p == 0
    ensures totalTiles != 1 ==> p >= MIN_PADDING && p >= configured
    ensures totalTiles != 1 ==> (p == configured || p == MIN_PADDING)
  {
    if totalTiles == 1 then 0 else if configured >= MIN_PADDING then configured else MIN_PADDING
  }

  /** Metadata of the tile in column x, row y of an image's grid. */
  function MetaAt(x: nat, y: nat, width: nat, height: nat, tileSize: nat): (m: TileMeta)
    requires tileSize > 0
    requires x < TileCount(width, tileSize) && y < TileCount(height, tileSize)
    ensures m.xIndex == x && m.yIndex == y
    ensures 1 <= m.contentWidth <= tileSize && 1 <= m.contentHeight <= tileSize
  {
    TileStartsInside(width, tileSize, x);
    TileStartsInside(height, tileSize, y);
    TileMeta(x, y, ContentSize(width, x, tileSize), ContentSize(height, y, tileSize))
  }

  /** Grid rows: row y holds the metadata of tiles (0, y) .. (tilesX - 1, y). */
  function GridRows(width: nat, height: nat, tileSize: nat): (rows: seq<seq<TileMeta>>)
    requires tileSize > 0
    ensures |rows| == TileCount(height, tileSize)
    ensures forall y | 0 <= y < |rows| :: |rows[y]| == TileCount(width, tileSize)
  {
    var tx := TileCount(width, tileSize);
    var ty := TileCount(height, tileSize);
    seq(ty, (y: int) requires 0 <= y < ty =>
      seq(tx, (x: int) requires 0 <= x < tx => MetaAt(x, y, width, height, tileSize)))
  }

  /** Every tile of the grid, in row-major order. */
  function GridMetas(width: nat, height: nat, tileSize: nat): seq<TileMeta>
    requires tileSize > 0
  {
    Flatten(GridRows(width, height, tileSize))
  }

  /**
   * The grid holds tilesX * tilesY tiles, and tile (x, y) is entry
   * y * tilesX + x: row-major order.
   */
  lemma GridMetasAt(width: nat, height: nat, tileSize: nat, x: nat, y: nat)
    requires tileSize > 0
    requires x < TileCount(width, tileSize) && y < TileCount(height, tileSize)
    ensures |GridMetas(width, height, tileSize)| == TileCount(width, tileSize) * TileCount(height, tileSize)
    ensures y * TileCount(width, tileSize) + x < |GridMetas(width, height, tileSize)|
    ensures GridMetas(width, height, tileSize)[y * TileCount(width, tileSize) + x]
            == MetaAt(x, y, width, height, tileSize)
  {
    var rows := GridRows(width, height, tileSize);
    var tx := TileCount(width, tileSize);
    FlattenLength(rows, tx);
    FlattenAt(rows, tx, y, x);
    assert |rows| * tx == tx * TileCount(height, tileSize);
  }

  /** Grid row y is the run of entries from y * tilesX on, one per column. */
  lemma GridRowEntries(width: nat, height: nat, tileSize: nat, y: nat, k: nat)
    requires tileSize > 0 && y < TileCount(height, tileSize) && k == y * TileCount(width, tileSize)
    ensures k + TileCount(width, tileSize) <= |GridMetas(width, height, tileSize)|
    ensures forall x | 0 <= x < TileCount(width, tileSize) ::
              GridMetas(width, height, tileSize)[k + x] == MetaAt(x, y, width, height, tileSize)
  {
    var tx := TileCount(width, tileSize);
    forall x | 0 <= x < tx
      ensures k + x < |GridMetas(width, height, tileSize)|
      ensures GridMetas(width, height, tileSize)[k + x] == MetaAt(x, y, width, height, tileSize)
    {
      GridMetasAt(width, height, tileSize, x, y);
    }
    if tx > 0 {
      GridMetasAt(width, height, tileSize, tx - 1, y);
    }
  }

  lemma GridMetasLength(width: nat, height: nat, tileSize: nat)
    requires tileSize > 0
    ensures |GridMetas(width, height, tileSize)| == TileCount(width, tileSize) * TileCount(height, tileSize)
  {
    var rows := GridRows(width, height, tileSize);
    FlattenLength(rows, TileCount(width, tileSize));
  }

  /** Position j of a row-major block with `cols` columns and `rows` rows. */
  lemma RowMajorSplit(j: nat, cols: nat, rows: nat)
    requires cols > 0 && j < cols * rows
    ensures j / cols < rows && j == (j / cols) * cols + j % cols
  {
    var y := j / cols;
    MulMonotone(rows, y, cols);
    assert cols * rows == rows * cols;
  }

  /** A positive product has a positive first factor. */
  lemma PositiveFactor(a: nat, b: nat)
    requires a * b > 0
    ensures a > 0
  {
  }

  /** Every entry of the grid is the metadata of some tile position of the grid. */
  lemma GridMetasEntry(width: nat, height: nat, tileSize: nat, j: nat)
    requires tileSize > 0 && j < |GridMetas(width, height, tileSize)|
    ensures var tx := TileCount(width, tileSize);
            tx > 0 && j / tx < TileCount(height, tileSize)
            && GridMetas(width, height, tileSize)[j] == MetaAt(j % tx, j / tx, width, height, tileSize)
  {
    var tx := TileCount(width, tileSize);
    var ty := TileCount(height, tileSize);
    GridMetasLength(width, height, tileSize);
    PositiveFactor(tx, ty);
    var q, r := j / tx, j % tx;
    RowMajorSplit(j, tx, ty);
    assert q < ty && r < tx && j == q * tx + r;
    GridMetasAt(width, height, tileSize, r, q);
  }

  // ---------------------------------------------------------------------
  // Where a tile is stitched.  The output is `scale` times larger; tile
  // (x, y) lands at (x * tileSize * scale, y * tileSize * scale) and covers
  // its content times the scale, cut at the output's edge.

  /** Along one axis: output coordinate c lies in the stitched span of tile `index`. */
  predicate InSpan(index: nat, content: nat, tileSize: nat, scale: nat, outExtent: nat, c: nat)
  {
    index * tileSize * scale <= c < index * tileSize * scale + content * scale && c < outExtent
  }

  /** Output pixel (X, Y) lies in the region stitched from the tile `m`. */
  predicate InRegion(m: TileMeta, tileSize: nat, scale: nat, outW: nat, outH: nat, X: nat, Y: nat)
  {
    InSpan(m.xIndex, m.contentWidth, tileSize, scale, outW, X)
    && InSpan(m.yIndex, m.contentHeight, tileSize, scale, outH, Y)
  }

  /** A positive tile edge times a positive scale is a positive stride. */
  lemma StridePositive(tileSize: nat, scale: nat)
    requires tileSize > 0 && scale > 0
    ensures tileSize * scale > 0
  {
    MulMonotone(1, tileSize, scale);
  }

  /** Grid index of the tile whose stitched span holds scaled coordinate c. */
  function SpanIndex(c: nat, tileSize: nat, scale: nat): nat
    requires tileSize > 0 && scale > 0
  {
    StridePositive(tileSize, scale);
    c / (tileSize * scale)
  }

  /** The tile a scaled coordinate falls in starts inside the image. */
  lemma SpanOwnerStart(extent: nat, tileSize: nat, scale: nat, c: nat)
    requires tileSize > 0 && scale > 0 && c < extent * scale
    ensures tileSize * scale > 0
    ensures var t := c / (tileSize * scale);
            t * tileSize < extent && t * tileSize * scale == t * (tileSize * scale)
  {
    StridePositive(tileSize, scale);
    var stride := tileSize * scale;
    var t := c / stride;
    assert t * stride <= c;
    assert t * tileSize * scale == t * stride;
    MulCancelLess(t * tileSize, extent, scale);
  }

  /** The offset of a scaled coordinate inside its tile is below the scaled content. */
  lemma SpanOwnerOffset(extent: nat, tileSize: nat, scale: nat, c: nat, t: nat)
    requires tileSize > 0 && scale > 0 && c < extent * scale
    requires tileSize * scale > 0 && t == c / (tileSize * scale)
    requires t * tileSize < extent && t * tileSize * scale == t * (tileSize * scale)
    ensures c - t * tileSize * scale == c % (tileSize * scale)
    ensures c - t * tileSize * scale < ContentSize(extent, t, tileSize) * scale
  {
    var stride := tileSize * scale;
    var start := t * tileSize * scale;
    assert c == t * stride + c % stride;
    var content := ContentSize(extent, t, tileSize);
    if content < tileSize {
      assert content == extent - t * tileSize;
      assert content * scale == extent * scale - start;
    }
  }

  /**
   * Along one axis, scaled coordinate c is covered by the tile
   * t = c / (tileSize * scale), at offset c % (tileSize * scale).
   */
  lemma SpanOwner(extent: nat, tileSize: nat, scale: nat, c: nat)
    requires tileSize > 0 && c < extent * scale
    ensures scale > 0 && tileSize * scale > 0
    ensures var t := c / (tileSize * scale);
            t * tileSize < extent && t < TileCount(extent, tileSize)
            && InSpan(t, ContentSize(extent, t, tileSize), tileSize, scale, extent * scale, c)
            && c - t * tileSize * scale == c % (tileSize * scale)
  {
    assert scale > 0;
    SpanOwnerStart(extent, tileSize, scale, c);
    var t := c / (tileSize * scale);
    SpanOwnerOffset(extent, tileSize, scale, c, t);
    MulCancelLess(t, TileCount(extent, tileSize), tileSize);
  }

  /** Along one axis no other tile's span covers the same scaled coordinate. */
  lemma SpanUnique(extent: nat, tileSize: nat, scale: nat, c: nat, t: nat)
    requires tileSize > 0 && t * tileSize < extent
    requires InSpan(t, ContentSize(extent, t, tileSize), tileSize, scale, extent * scale, c)
    ensures tileSize * scale > 0 && t == c / (tileSize * scale)
  {
    var stride := tileSize * scale;
    var content := ContentSize(extent, t, tileSize);
    assert scale > 0;
    StridePositive(tileSize, scale);
    MulMonotone(content, tileSize, scale);
    assert t * tileSize * scale == t * stride;
    DivUnique(c, stride, t);
  }
}
