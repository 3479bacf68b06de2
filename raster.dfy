// Images as values: a width, a height and rows of pixels of an abstract
// pixel type, with the row-major raw order used by flat pixel buffers.

module Raster {

  /** One more than the largest u32, the type of image dimensions and of raw buffer offsets computed from them. */
  const U32_LIMIT: nat := 0x1_0000_0000

  datatype Image<P> = Image(width: nat, height: nat, rows: seq<seq<P>>)
  {
    /** `height` rows of `width` pixels each. */
    predicate Valid()
    {
      |rows| == height && forall y | 0 <= y < height :: |rows[y]| == width
    }

    function At(x: nat, y: nat): P
      requires Valid() && x < width && y < height
    {
      rows[y][x]
    }
  }

  /** Position y * w + x of a w-wide row-major buffer lies inside w * h cells. */
  lemma RowMajorBound(y: nat, x: nat, w: nat, h: nat)
    requires y < h && x < w
    ensures y * w + x < h * w
  {
    var k: nat := h - y - 1;
    assert h == y + 1 + k;
    assert h * w == y * w + w + k * w by {
      assert (y + 1 + k) * w == y * w + w + k * w;
    }
    assert 0 <= k * w;
  }

  /** Rows laid end to end, first row first. */
  function Flatten<P>(rows: seq<seq<P>>): seq<P>
  {
    if rows == [] then [] else Flatten(rows[..|rows| - 1]) + rows[|rows| - 1]
  }

  /** The raw row-major pixel sequence of an image. */
  function Pixels<P>(img: Image<P>): seq<P>
  {
    Flatten(img.rows)
  }

  /** A flattened block of equal-width rows holds rows * width pixels. */
  lemma {:induction false} FlattenLength<P>(rows: seq<seq<P>>, w: nat)
    requires forall y | 0 <= y < |rows| :: |rows[y]| == w
    ensures |Flatten(rows)| == |rows| * w
  {
    if rows != [] {
      var n := |rows| - 1;
      FlattenLength(rows[..n], w);
      assert (n + 1) * w == n * w + w;
    }
  }

  /** In a flattened block of equal-width rows, row y column x sits at y * w + x. */
  lemma {:induction false} FlattenAt<P>(rows: seq<seq<P>>, w: nat, y: nat, x: nat)
    requires forall j | 0 <= j < |rows| :: |rows[j]| == w
    requires y < |rows| && x < w
    ensures y * w + x < |Flatten(rows)| && Flatten(rows)[y * w + x] == rows[y][x]
  {
    var n := |rows| - 1;
    var init := rows[..n];
    var k := y * w + x;
    FlattenLength(rows, w);
    FlattenLength(init, w);
    RowMajorBound(y, x, w, |rows|);
    if y < n {
      RowMajorBound(y, x, w, n);
      FlattenAt(init, w, y, x);
      assert Flatten(rows)[k] == Flatten(init)[k];
    } else {
      assert k == n * w + x;
    }
  }

  /** The image a raw row-major buffer of exactly w * h pixels describes. */
  function FromPixels<P>(w: nat, h: nat, px: seq<P>): (img: Image<P>)
    requires |px| == w * h
    ensures img.Valid() && img.width == w && img.height == h
  {
    Image(w, h, seq(h, (y: int) requires 0 <= y < h =>
      seq(w, (x: int) requires 0 <= x < w =>
        RowMajorBound(y, x, w, h); px[y * w + x])))
  }

  /** Pixel (x, y) of a raw buffer read as an image is buffer cell y * w + x. */
  lemma FromPixelsAt<P>(w: nat, h: nat, px: seq<P>, x: nat, y: nat)
    requires |px| == w * h && x < w && y < h
    ensures y * w + x < |px| && FromPixels(w, h, px).At(x, y) == px[y * w + x]
  {
    RowMajorBound(y, x, w, h);
  }

  /** Reading an image's raw pixels back gives the same image. */
  lemma FromPixelsOfPixels<P>(img: Image<P>)
    requires img.Valid()
    ensures |Pixels(img)| == img.width * img.height
    ensures FromPixels(img.width, img.height, Pixels(img)) == img
  {
    FlattenLength(img.rows, img.width);
    assert |Pixels(img)| == img.width * img.height;
    var back := FromPixels(img.width, img.height, Pixels(img));
    forall y | 0 <= y < img.height
      ensures back.rows[y] == img.rows[y]
    {
      forall x | 0 <= x < img.width
        ensures back.rows[y][x] == img.rows[y][x]
      {
        FromPixelsAt(img.width, img.height, Pixels(img), x, y);
        FlattenAt(img.rows, img.width, y, x);
      }
    }
  }

  /** Row i of a flattened block of equal-width rows is the slice [i * w, (i + 1) * w). */
  lemma FlattenChunk<P>(rows: seq<seq<P>>, w: nat, i: nat)
    requires forall j | 0 <= j < |rows| :: |rows[j]| == w
    requires i < |rows|
    ensures i * w + w <= |Flatten(rows)| && Flatten(rows)[i * w..i * w + w] == rows[i]
  {
    if w == 0 {
      assert i * w == 0;
    } else {
      FlattenAt(rows, w, i, w - 1);
    }
    forall x | 0 <= x < w
      ensures Flatten(rows)[i * w + x] == rows[i][x]
    {
      FlattenAt(rows, w, i, x);
    }
  }
}
