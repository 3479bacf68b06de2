// Tensor packing and unpacking for batched inference, the pool of recycled
// tensor buffers, the copy of an inference result into a caller's buffer,
// and the probe that detects a model's scale factor.  Element values (f32 or
// f16) are opaque: turning one channel of a pixel into an element, three
// elements back into a pixel, and one element width into the other are
// parameters.  The inference session itself is a parameter too: a function
// from an input shape and tensor to an output shape and data, or an error.

module Inference {
  import opened Errors
  import opened Text
  import opened Raster

  const USIZE_LIMIT: nat := 0x1_0000_0000_0000_0000

  /** A signed 64-bit value cast to u32: the low 32 bits. */
  function AsU32(x: int): (r: nat)
    ensures r < U32_LIMIT && (x - r) % U32_LIMIT == 0
    ensures 0 <= x < U32_LIMIT ==> r == x
  {
    x % U32_LIMIT
  }

  /** A signed 64-bit value cast to usize on a 64-bit target: the value modulo 2^64. */
  function AsUsize(x: int): (r: nat)
    ensures r < USIZE_LIMIT && (x - r) % USIZE_LIMIT == 0
    ensures 0 <= x < USIZE_LIMIT ==> r == x
  {
    x % USIZE_LIMIT
  }

  /** Element type of a model's input tensor. */
  datatype ElementType = F32 | F16 | OtherElement(name: string)

  /** The debug name of an element type, as error messages print it. */
  function ElementName(t: ElementType): string
  {
    match t
    case F32 => "Float32"
    case F16 => "Float16"
    case OtherElement(name) => name
  }

  /** Tensor contents, in single or half precision. */
  datatype TensorData<E> = Float32(elements: seq<E>) | Float16(elements: seq<E>)

  /** A tensor buffer owned by a caller and filled in place; its precision never changes. */
  class TensorBuffer<E> {
    const half: bool
    var elements: seq<E>

    constructor (half: bool, elements: seq<E>)
      ensures this.half == half && this.elements == elements
    {
      this.half := half;
      this.elements := elements;
    }

    function Contents(): (d: TensorData<E>)
      reads this
      ensures d.elements == elements && (d.Float16? <==> half)
    {
      if half then Float16(elements) else Float32(elements)
    }
  }

  /** `data` resized to at least n elements, new cells set to `zero`; never shrunk. */
  function Grow<E>(data: seq<E>, n: nat, zero: E): (r: seq<E>)
    ensures |r| == if |data| < n then n else |data|
    ensures r[..|data|] == data
  {
    if |data| < n then data + seq(n - |data|, _ => zero) else data
  }

  // ---------------------------------------------------------------------
  // Buffer pool: one LIFO stack of recycled buffers per precision.

  /** A growable buffer: its elements and its reserved capacity. */
  datatype Buffer<T> = Buffer(elements: seq<T>, capacity: nat)

  /** Every pooled buffer has been emptied. */
  predicate AllCleared<T>(pool: seq<Buffer<T>>)
  {
    forall i | 0 <= i < |pool| :: pool[i].elements == []
  }

  /** Room reserved for `additional` more elements: the capacity becomes at least length + additional. */
  function Reserve<T>(b: Buffer<T>, additional: nat): (r: Buffer<T>)
    ensures r.elements == b.elements
    ensures r.capacity >= b.capacity && r.capacity >= |b.elements| + additional
    ensures r.capacity == b.capacity || r.capacity == |b.elements| + additional
  {
    if b.capacity >= |b.elements| + additional then b else Buffer(b.elements, |b.elements| + additional)
  }

  /**
   * Taking a buffer for `capacity` elements from a pool: the most recently
   * returned buffer, grown when too small and emptied, or a fresh buffer
   * when the pool is empty.  Returns the buffer and the remaining pool.
   */
  function Checkout<T>(pool: seq<Buffer<T>>, capacity: nat): (r: (Buffer<T>, seq<Buffer<T>>))
    requires AllCleared(pool)
    ensures r.0.elements == [] && r.0.capacity >= capacity && AllCleared(r.1)
    ensures pool == [] ==> r.1 == [] && r.0.capacity == capacity
    ensures pool != [] ==> r.1 == pool[..|pool| - 1] && r.0.capacity >= pool[|pool| - 1].capacity
  {
    if pool == [] then (Buffer([], capacity), pool)
    else
      var b := pool[|pool| - 1];
      var grown := if b.capacity < capacity then Reserve(b, capacity - |b.elements|) else b;
      (Buffer([], grown.capacity), pool[..|pool| - 1])
  }

  /** Returning a buffer: it is emptied and pushed on top. */
  function Checkin<T>(pool: seq<Buffer<T>>, b: Buffer<T>): (r: seq<Buffer<T>>)
    ensures |r| == |pool| + 1 && r[..|pool|] == pool
    ensures AllCleared(pool) ==> AllCleared(r)
  {
    pool + [Buffer([], b.capacity)]
  }

  /** Last in, first out: taking right after returning gives the returned buffer back, emptied. */
  lemma CheckoutAfterCheckin<T>(pool: seq<Buffer<T>>, b: Buffer<T>, capacity: nat)
    requires AllCleared(pool)
    ensures Checkout(Checkin(pool, b), capacity)
            == (Buffer([], if b.capacity < capacity then capacity else b.capacity), pool)
  {
    assert Checkin(pool, b)[..|pool|] == pool;
  }

  /** Taking and returning the same buffer leaves the pool as it was, up to a larger capacity on top. */
  lemma CheckinAfterCheckout<T>(pool: seq<Buffer<T>>, capacity: nat)
    requires AllCleared(pool) && pool != []
    ensures var (b, rest) := Checkout(pool, capacity);
            var back := Checkin(rest, b);
            |back| == |pool| && back[..|pool| - 1] == pool[..|pool| - 1]
            && back[|pool| - 1].elements == [] && back[|pool| - 1].capacity >= pool[|pool| - 1].capacity
  {
  }

  class BufferPool<F, H> {
    var f32Buffers: seq<Buffer<F>>
    var f16Buffers: seq<Buffer<H>>

    predicate Valid()
      reads this
    {
      AllCleared(f32Buffers) && AllCleared(f16Buffers)
    }

    constructor (capacity: nat)
      ensures Valid() && f32Buffers == [] && f16Buffers == []
    {
      f32Buffers := [];
      f16Buffers := [];
    }

    method GetF32(capacity: nat) returns (buf: Buffer<F>)
      requires Valid()
      modifies this
      ensures Valid()
      ensures (buf, f32Buffers) == Checkout(old(f32Buffers), capacity)
      ensures f16Buffers == old(f16Buffers)
    {
      if f32Buffers == [] {
        buf := Buffer([], capacity);
      } else {
        var b := f32Buffers[|f32Buffers| - 1];
        f32Buffers := f32Buffers[..|f32Buffers| - 1];
        if b.capacity < capacity {
          b := Reserve(b, capacity - |b.elements|);
        }
        buf := Buffer([], b.capacity);
      }
    }

    method ReturnF32(buf: Buffer<F>)
      requires Valid()
      modifies this
      ensures Valid()
      ensures f32Buffers == Checkin(old(f32Buffers), buf)
      ensures f16Buffers == old(f16Buffers)
    {
      var cleared := Buffer([], buf.capacity);
      f32Buffers := f32Buffers + [cleared];
    }

    method GetF16(capacity: nat) returns (buf: Buffer<H>)
      requires Valid()
      modifies this
      ensures Valid()
      ensures (buf, f16Buffers) == Checkout(old(f16Buffers), capacity)
      ensures f32Buffers == old(f32Buffers)
    {
      if f16Buffers == [] {
        buf := Buffer([], capacity);
      } else {
        var b := f16Buffers[|f16Buffers| - 1];
        f16Buffers := f16Buffers[..|f16Buffers| - 1];
        if b.capacity < capacity {
          b := Reserve(b, capacity - |b.elements|);
        }
        buf := Buffer([], b.capacity);
      }
    }

    method ReturnF16(buf: Buffer<H>)
      requires Valid()
      modifies this
      ensures Valid()
      ensures f16Buffers == Checkin(old(f16Buffers), buf)
      ensures f32Buffers == old(f32Buffers)
    {
      var cleared := Buffer([], buf.capacity);
      f16Buffers := f16Buffers + [cleared];
    }
  }

  // ---------------------------------------------------------------------
  // Packing a batch of images into one N x C x H x W tensor.

  /** Channel c (0 red, 1 green, 2 blue) of every pixel, in raw row-major order. */
  function Plane<P, E>(img: Image<P>, encode: (P, nat) -> E, c: nat): (r: seq<E>)
    ensures |r| == |Pixels(img)|
  {
    var px := Pixels(img);
    seq(|px|, (p: int) requires 0 <= p < |px| => encode(px[p], c))
  }

  /** One image in planar layout: its red plane, then green, then blue. */
  function Planes<P, E>(img: Image<P>, encode: (P, nat) -> E): seq<E>
  {
    Plane(img, encode, 0) + Plane(img, encode, 1) + Plane(img, encode, 2)
  }

  function PlanesOf<P, E>(images: seq<Image<P>>, encode: (P, nat) -> E): (r: seq<seq<E>>)
    ensures |r| == |images|
  {
    seq(|images|, (i: int) requires 0 <= i < |images| => Planes(images[i], encode))
  }

  /** A batch in planar layout: the images' planes one after another. */
  function Packed<P, E>(images: seq<Image<P>>, encode: (P, nat) -> E): seq<E>
  {
    Flatten(PlanesOf(images, encode))
  }

  /** All images have the given dimensions. */
  predicate SameSize<P>(images: seq<Image<P>>, w: nat, h: nat)
  {
    forall j | 0 <= j < |images| :: images[j].width == w && images[j].height == h
  }

  /** The three channels of raw pixel p sit at p, n + p and 2n + p of an image's planes. */
  lemma PlanesPixel<P, E>(img: Image<P>, encode: (P, nat) -> E, p: nat)
    requires p < |Pixels(img)|
    ensures var n := |Pixels(img)|;
            |Planes(img, encode)| == 3 * n
            && Planes(img, encode)[p] == encode(Pixels(img)[p], 0)
            && Planes(img, encode)[n + p] == encode(Pixels(img)[p], 1)
            && Planes(img, encode)[2 * n + p] == encode(Pixels(img)[p], 2)
  {
  }

  /** Channel c of pixel (x, y) sits at c * w * h + y * w + x of an image's planes. */
  lemma PlanesAt<P, E>(img: Image<P>, encode: (P, nat) -> E, c: nat, x: nat, y: nat)
    requires img.Valid() && c < 3 && x < img.width && y < img.height
    ensures var wh := img.width * img.height;
            |Planes(img, encode)| == 3 * wh && y * img.width + x < wh
            && Planes(img, encode)[c * wh + (y * img.width + x)] == encode(img.At(x, y), c)
  {
    FlattenLength(img.rows, img.width);
    FlattenAt(img.rows, img.width, y, x);
    RowMajorBound(y, x, img.width, img.height);
    PlanesPixel(img, encode, y * img.width + x);
  }

  lemma PlanesLength<P, E>(images: seq<Image<P>>, encode: (P, nat) -> E, w: nat, h: nat)
    requires forall j | 0 <= j < |images| :: images[j].Valid()
    requires SameSize(images, w, h)
    ensures forall j | 0 <= j < |images| :: |PlanesOf(images, encode)[j]| == 3 * (w * h)
    ensures |Packed(images, encode)| == |images| * (3 * (w * h))
  {
    forall j | 0 <= j < |images|
      ensures |PlanesOf(images, encode)[j]| == 3 * (w * h)
    {
      FlattenLength(images[j].rows, w);
    }
    FlattenLength(PlanesOf(images, encode), 3 * (w * h));
  }

  /** Where image i, channel c, pixel (x, y) of a batch of w x h images goes in planar layout. */
  function PlanarIndex(i: nat, c: nat, x: nat, y: nat, w: nat, h: nat): nat
  {
    i * (3 * (w * h)) + c * (w * h) + (y * w + x)
  }

  /** The packed layout: image i, channel c, pixel (x, y) sits at i * 3wh + c * wh + y * w + x. */
  lemma PackedAt<P, E>(images: seq<Image<P>>, encode: (P, nat) -> E, w: nat, h: nat, i: nat, c: nat, x: nat, y: nat)
    requires forall j | 0 <= j < |images| :: images[j].Valid()
    requires SameSize(images, w, h)
    requires i < |images| && c < 3 && x < w && y < h
    ensures |Packed(images, encode)| == |images| * (3 * (w * h))
    ensures PlanarIndex(i, c, x, y, w, h) < |Packed(images, encode)|
    ensures Packed(images, encode)[PlanarIndex(i, c, x, y, w, h)] == encode(images[i].At(x, y), c)
  {
    var wh := w * h;
    PlanesLength(images, encode, w, h);
    PlanesAt(images[i], encode, c, x, y);
    var q := c * wh + (y * w + x);
    assert q < 3 * wh;
    FlattenAt(PlanesOf(images, encode), 3 * wh, i, q);
    assert PlanarIndex(i, c, x, y, w, h) == i * (3 * wh) + q;
  }

  /**
   * `d` holds the batch in planar layout: image i, channel c, pixel (x, y)
   * at i * 3wh + c * wh + y * w + x.
   */
  ghost predicate PlanarLayout<P, E>(d: seq<E>, images: seq<Image<P>>, encode: (P, nat) -> E, w: nat, h: nat)
    requires forall j | 0 <= j < |images| :: images[j].Valid()
    requires SameSize(images, w, h)
  {
    forall i: nat, c: nat, x: nat, y: nat | i < |images| && c < 3 && x < w && y < h ::
      PlanarIndex(i, c, x, y, w, h) < |d|
      && d[PlanarIndex(i, c, x, y, w, h)] == encode(images[i].At(x, y), c)
  }

  /** The packed batch has the planar layout, and so has anything that starts with it. */
  lemma PackedLayout<P, E>(images: seq<Image<P>>, encode: (P, nat) -> E, w: nat, h: nat, tail: seq<E>)
    requires forall j | 0 <= j < |images| :: images[j].Valid()
    requires SameSize(images, w, h)
    ensures PlanarLayout(Packed(images, encode) + tail, images, encode, w, h)
  {
    var d := Packed(images, encode) + tail;
    forall i: nat, c: nat, x: nat, y: nat | i < |images| && c < 3 && x < w && y < h
      ensures PlanarIndex(i, c, x, y, w, h) < |d|
              && d[PlanarIndex(i, c, x, y, w, h)] == encode(images[i].At(x, y), c)
    {
      PackedAtTail(images, encode, w, h, tail, i, c, x, y);
    }
  }

  lemma PackedAtTail<P, E>(images: seq<Image<P>>, encode: (P, nat) -> E, w: nat, h: nat, tail: seq<E>,
                           i: nat, c: nat, x: nat, y: nat)
    requires forall j | 0 <= j < |images| :: images[j].Valid()
    requires SameSize(images, w, h)
    requires i < |images| && c < 3 && x < w && y < h
    ensures var d := Packed(images, encode) + tail;
            PlanarIndex(i, c, x, y, w, h) < |d|
            && d[PlanarIndex(i, c, x, y, w, h)] == encode(images[i].At(x, y), c)
  {
    PackedAt(images, encode, w, h, i, c, x, y);
  }

  /** Packing one more image appends its planes. */
  lemma PackedSnoc<P, E>(images: seq<Image<P>>, encode: (P, nat) -> E, k: nat)
    requires k < |images|
    ensures Packed(images[..k + 1], encode) == Packed(images[..k], encode) + Planes(images[k], encode)
  {
    var rows := PlanesOf(images[..k + 1], encode);
    assert rows[..k] == PlanesOf(images[..k], encode);
  }

  const NO_IMAGES: AppError := Unknown("No images provided for batching")

  function DimensionMismatch(w: nat, h: nat, i: nat, iw: nat, ih: nat): AppError
  {
    Unknown("Batch dimension mismatch: Image 0 is " + NatToString(w) + "x" + NatToString(h)
            + ", but Image " + NatToString(i) + " is " + NatToString(iw) + "x" + NatToString(ih))
  }

  function TypeMismatch(target: ElementType): AppError
  {
    Unknown("Buffer type mismatch. Target: " + ElementName(target) + ", Buffer: ...")
  }

  /** Index of the first image whose dimensions are not w x h. */
  function FirstMismatch<P>(images: seq<Image<P>>, w: nat, h: nat): (r: Option<nat>)
    ensures r.None? <==> SameSize(images, w, h)
    ensures r.Some? ==> r.value < |images| && (images[r.value].width != w || images[r.value].height != h)
                        && SameSize(images[..r.value], w, h)
  {
    if images == [] then None
    else
      var k := |images| - 1;
      var prev := FirstMismatch(images[..k], w, h);
      if prev.Some? then
        assert images[..k][..prev.value] == images[..prev.value];
        prev
      else if images[k].width != w || images[k].height != h then Some(k)
      else
        assert forall j | 0 <= j < k :: images[j] == images[..k][j];
        None
  }

  /** Packing needs the target element type to match the buffer's precision. */
  predicate Compatible(target: ElementType, half: bool)
  {
    (target == F16 && half) || (target == F32 && !half)
  }

  /** The element count of a packed batch: n images of 3 planes of w * h. */
  function BatchLength<P>(images: seq<Image<P>>): nat
    requires images != []
  {
    |images| * (3 * (images[0].width * images[0].height))
  }

  /**
   * What packing does to a buffer holding `data`: the tensor shape
   * [n, 3, h, w] and the new contents, or the error of the first check that
   * fails (empty batch, an image of other dimensions, a buffer of the wrong
   * precision).
   */
  function PackOutcome<P, E>(images: seq<Image<P>>, target: ElementType, half: bool, data: seq<E>,
                             encode: (P, nat) -> E, zero: E): AppResult<(seq<int>, seq<E>)>
    requires forall j | 0 <= j < |images| :: images[j].Valid()
  {
    if images == [] then Err(NO_IMAGES)
    else
      var w := images[0].width;
      var h := images[0].height;
      match FirstMismatch(images, w, h)
      case Some(i) => Err(DimensionMismatch(w, h, i, images[i].width, images[i].height))
      case None =>
        if !Compatible(target, half) then Err(TypeMismatch(target))
        else
          var total := BatchLength(images);
          PlanesLength(images, encode, w, h);
          Ok(([|images|, 3, h, w], Packed(images, encode) + Grow(data, total, zero)[total..]))
  }

  /** Packing fails exactly on an empty batch, mixed dimensions or a precision mismatch. */
  lemma PackRejects<P, E>(images: seq<Image<P>>, target: ElementType, half: bool, data: seq<E>,
                          encode: (P, nat) -> E, zero: E)
    requires forall j | 0 <= j < |images| :: images[j].Valid()
    ensures PackOutcome(images, target, half, data, encode, zero).Err?
            <==> images == [] || !SameSize(images, images[0].width, images[0].height) || !Compatible(target, half)
    ensures images == [] ==> PackOutcome(images, target, half, data, encode, zero) == Err(NO_IMAGES)
  {
  }

  /**
   * A successful pack gives shape [n, 3, h, w], grows the buffer to at least
   * n * 3 * w * h elements and never shrinks it, leaves every element past
   * the batch as it was, and stores the batch in planar layout.
   */
  lemma PackLayout<P, E>(images: seq<Image<P>>, target: ElementType, half: bool, data: seq<E>,
                         encode: (P, nat) -> E, zero: E)
    requires forall j | 0 <= j < |images| :: images[j].Valid()
    requires PackOutcome(images, target, half, data, encode, zero).Ok?
    ensures images != [] && SameSize(images, images[0].width, images[0].height)
    ensures var total := BatchLength(images);
            var (shape, d) := PackOutcome(images, target, half, data, encode, zero).value;
            shape == [|images|, 3, images[0].height, images[0].width]
            && |d| == (if |data| < total then total else |data|)
            && (forall k | total <= k < |data| :: d[k] == data[k])
            && PlanarLayout(d, images, encode, images[0].width, images[0].height)
  {
    var w := images[0].width;
    var h := images[0].height;
    var total := BatchLength(images);
    PlanesLength(images, encode, w, h);
    var grown := Grow(data, total, zero);
    var d := Packed(images, encode) + grown[total..];
    assert PackOutcome(images, target, half, data, encode, zero).value.1 == d;
    forall k | total <= k < |data|
      ensures d[k] == data[k]
    {
      assert d[k] == grown[k] == grown[..|data|][k];
    }
    PackedLayout(images, encode, w, h, grown[total..]);
  }

  /** Writes one image's red, green and blue planes, pixel by pixel. */
  method PlanarImage<P, E>(img: Image<P>, encode: (P, nat) -> E) returns (chunk: seq<E>)
    ensures chunk == Planes(img, encode)
  {
    var raw := Pixels(img);
    var r, g, b := [], [], [];
    var i := 0;
    while i < |raw|
      invariant 0 <= i <= |raw|
      invariant r == Plane(img, encode, 0)[..i]
      invariant g == Plane(img, encode, 1)[..i]
      invariant b == Plane(img, encode, 2)[..i]
    {
      r := r + [encode(raw[i], 0)];
      g := g + [encode(raw[i], 1)];
      b := b + [encode(raw[i], 2)];
      i := i + 1;
    }
    assert Plane(img, encode, 0)[..i] == Plane(img, encode, 0);
    assert Plane(img, encode, 1)[..i] == Plane(img, encode, 1);
    assert Plane(img, encode, 2)[..i] == Plane(img, encode, 2);
    chunk := r + g + b;
  }

  /** A batch of one size that passes every check is packed into its planes, the buffer grown to fit. */
  lemma PackAccepts<P, E>(images: seq<Image<P>>, target: ElementType, half: bool, data: seq<E>,
                          encode: (P, nat) -> E, zero: E)
    requires forall j | 0 <= j < |images| :: images[j].Valid()
    requires images != [] && SameSize(images, images[0].width, images[0].height) && Compatible(target, half)
    ensures |Packed(images, encode)| == BatchLength(images)
    ensures PackOutcome(images, target, half, data, encode, zero)
            == Ok(([|images|, 3, images[0].height, images[0].width],
                   Packed(images, encode) + Grow(data, BatchLength(images), zero)[BatchLength(images)..]))
  {
    PlanesLength(images, encode, images[0].width, images[0].height);
  }

  /** Writes each image's planes over the front of a buffer already long enough for the batch. */
  method WriteBatch<P, E>(images: seq<Image<P>>, encode: (P, nat) -> E, buffer: TensorBuffer<E>, width: nat, height: nat)
    requires forall j | 0 <= j < |images| :: images[j].Valid()
    requires SameSize(images, width, height)
    requires |images| * (3 * (width * height)) <= |buffer.elements|
    modifies buffer
    ensures |Packed(images, encode)| == |images| * (3 * (width * height))
    ensures buffer.elements == Packed(images, encode) + old(buffer.elements)[|images| * (3 * (width * height))..]
  {
    ghost var base := buffer.elements;
    var perImage := width * height * 3;
    assert perImage == 3 * (width * height);
    var k := 0;
    PlanesLength(images[..k], encode, width, height);
    while k < |images|
      invariant 0 <= k <= |images|
      invariant k * perImage <= |images| * perImage
      invariant |Packed(images[..k], encode)| == k * perImage
      invariant buffer.elements == Packed(images[..k], encode) + base[k * perImage..]
    {
      var chunk := PlanarImage(images[k], encode);
      if perImage > 0 {
        RowMajorBound(k, perImage - 1, perImage, |images|);
      }
      assert (k + 1) * perImage == k * perImage + perImage;
      assert |chunk| == perImage by {
        FlattenLength(images[k].rows, width);
      }
      buffer.elements := buffer.elements[..k * perImage] + chunk + buffer.elements[(k + 1) * perImage..];
      PackedSnoc(images, encode, k);
      k := k + 1;
    }
    assert images[..k] == images;
  }

  /**
   * Packs a batch into `buffer` after checking it is non-empty, of one size
   * and of the buffer's precision; the buffer is grown, never shrunk, and
   * each image's chunk is written in turn.
   */
  method ImagesToBuffer<P, E>(images: seq<Image<P>>, target: ElementType, buffer: TensorBuffer<E>,
                              encode: (P, nat) -> E, zero: E) returns (r: AppResult<seq<int>>)
    requires forall j | 0 <= j < |images| :: images[j].Valid()
    requires images != [] ==> 0 < images[0].width * images[0].height < U32_LIMIT
    modifies buffer
    ensures var o := PackOutcome(images, target, buffer.half, old(buffer.elements), encode, zero);
            (o.Ok? ==> r == Ok(o.value.0) && buffer.elements == o.value.1)
            && (o.Err? ==> r == Err(o.error) && buffer.elements == old(buffer.elements))
  {
    if |images| == 0 {
      return Err(NO_IMAGES);
    }
    var width := images[0].width;
    var height := images[0].height;
    var i := 0;
    while i < |images|
      invariant 0 <= i <= |images|
      invariant SameSize(images[..i], width, height)
    {
      if images[i].width != width || images[i].height != height {
        assert FirstMismatch(images, width, height) == Some(i);
        return Err(DimensionMismatch(width, height, i, images[i].width, images[i].height));
      }
      i := i + 1;
    }
    assert images[..i] == images;
    if !Compatible(target, buffer.half) {
      return Err(TypeMismatch(target));
    }
    var pixelCount := width * height;
    var total := |images| * (pixelCount * 3);
    assert total == BatchLength(images);
    ghost var grown := Grow(buffer.elements, total, zero);
    PackAccepts(images, target, buffer.half, buffer.elements, encode, zero);
    if |buffer.elements| < total {
      buffer.elements := buffer.elements + seq(total - |buffer.elements|, _ => zero);
    }
    assert buffer.elements == grown;
    WriteBatch(images, encode, buffer, width, height);
    return Ok([|images|, 3, height, width]);
  }

  /**
   * Packs a batch into a fresh tensor: half precision when the model wants
   * f16, single precision otherwise.  The tensor holds exactly the packed
   * planes.
   */
  method ImagesToBatchTensor<P, E>(images: seq<Image<P>>, target: ElementType, encode: (P, nat) -> E, zero: E)
    returns (r: AppResult<(seq<int>, TensorData<E>)>)
    requires forall j | 0 <= j < |images| :: images[j].Valid()
    requires images != [] ==> 0 < images[0].width * images[0].height < U32_LIMIT
    ensures var o := PackOutcome(images, target, target == F16, [], encode, zero);
            (o.Ok? ==> r.Ok? && r.value.0 == o.value.0) && (o.Err? ==> r == Err(o.error))
    ensures r.Ok? ==> r.value.1.elements == Packed(images, encode) && (r.value.1.Float16? <==> target == F16)
  {
    var buffer := new TensorBuffer(target == F16, []);
    var shape := ImagesToBuffer(images, target, buffer, encode, zero);
    if shape.Err? {
      return Err(shape.error);
    }
    PackLayout(images, target, target == F16, [], encode, zero);
    PlanesLength(images, encode, images[0].width, images[0].height);
    return Ok((shape.value, buffer.Contents()));
  }

  // ---------------------------------------------------------------------
  // Unpacking an output tensor into images.

  function LengthMismatch(len: nat, expected: nat, w: nat, h: nat): AppError
  {
    Unknown("Tensor data length " + NatToString(len) + " does not match expected size "
            + NatToString(expected) + " for " + NatToString(w) + "x" + NatToString(h))
  }

  const RAW_BUFFER_ERROR: AppError := Unknown("Failed to create image buffer from raw data")

  /** n pixels read from three planes of n elements each. */
  function Unplanar<P, E>(data: seq<E>, n: nat, decode: (E, E, E) -> P): (r: seq<P>)
    requires 3 * n <= |data|
    ensures |r| == n
  {
    seq(n, (p: int) requires 0 <= p < n => decode(data[p], data[n + p], data[2 * n + p]))
  }

  /**
   * One image from its planar data.  The pixel count and the raw byte
   * count are computed in 32 bits: when 3 * w * h does not fit, the raw
   * buffer comes out too short and building the image fails.
   */
  function TensorToImage<P, E>(data: seq<E>, width: nat, height: nat, decode: (E, E, E) -> P): (r: AppResult<Image<P>>)
    ensures r.Ok? <==> |data| == 3 * (width * height) && 3 * (width * height) < U32_LIMIT
    ensures r.Ok? ==> r.value.Valid() && r.value.width == width && r.value.height == height
  {
    var wh := width * height;
    var pixelCount := wh % U32_LIMIT;
    assert wh < U32_LIMIT ==> pixelCount == wh;
    if |data| != pixelCount * 3 then Err(LengthMismatch(|data|, pixelCount * 3, width, height))
    else if wh * 3 >= U32_LIMIT then Err(RAW_BUFFER_ERROR)
    else Ok(FromPixels(width, height, Unplanar(data, pixelCount, decode)))
  }

  /** Pixel (x, y) of an unpacked image is built from the three planes' entries at y * w + x. */
  lemma TensorToImageAt<P, E>(data: seq<E>, width: nat, height: nat, decode: (E, E, E) -> P, x: nat, y: nat)
    requires TensorToImage(data, width, height, decode).Ok? && x < width && y < height
    ensures var wh := width * height;
            var p := y * width + x;
            p < wh && 2 * wh + p < |data|
            && TensorToImage(data, width, height, decode).value.At(x, y) == decode(data[p], data[wh + p], data[2 * wh + p])
  {
    var wh := width * height;
    var p := y * width + x;
    RowMajorBound(y, x, width, height);
    assert |data| == 3 * wh && 3 * wh < U32_LIMIT;
    assert wh % U32_LIMIT == wh;
    var px := Unplanar(data, wh, decode);
    assert TensorToImage(data, width, height, decode) == Ok(FromPixels(width, height, px));
    FromPixelsAt(width, height, px, x, y);
    assert px[p] == decode(data[p], data[wh + p], data[2 * wh + p]);
  }

  /** Reading the three planes of an image with a decoder that inverts the encoder gives its raw pixels. */
  lemma UnplanarPlanes<P(!new), E>(img: Image<P>, encode: (P, nat) -> E, decode: (E, E, E) -> P)
    requires forall px: P :: decode(encode(px, 0), encode(px, 1), encode(px, 2)) == px
    ensures |Planes(img, encode)| == 3 * |Pixels(img)|
    ensures Unplanar(Planes(img, encode), |Pixels(img)|, decode) == Pixels(img)
  {
    var n := |Pixels(img)|;
    var u := Unplanar(Planes(img, encode), n, decode);
    forall p | 0 <= p < n
      ensures u[p] == Pixels(img)[p]
    {
      PlanesPixel(img, encode, p);
      var px := Pixels(img)[p];
      assert u[p] == decode(encode(px, 0), encode(px, 1), encode(px, 2));
    }
  }

  /** Unpacking a packed image with a decoder that inverts the encoder gives the image back. */
  lemma TensorImageRoundTrip<P(!new), E>(img: Image<P>, encode: (P, nat) -> E, decode: (E, E, E) -> P)
    requires img.Valid() && 3 * (img.width * img.height) < U32_LIMIT
    requires forall px: P :: decode(encode(px, 0), encode(px, 1), encode(px, 2)) == px
    ensures TensorToImage(Planes(img, encode), img.width, img.height, decode) == Ok(img)
  {
    var wh := img.width * img.height;
    FromPixelsOfPixels(img);
    UnplanarPlanes(img, encode, decode);
    assert wh % U32_LIMIT == wh;
  }

  /** Images 0 .. k-1 cut from consecutive slices of `perImage` elements; the first failure wins. */
  function SliceImages<P, E>(data: seq<E>, perImage: nat, width: nat, height: nat, k: nat, decode: (E, E, E) -> P)
    : (r: AppResult<seq<Image<P>>>)
    requires k * perImage <= |data|
    ensures r.Ok? ==> |r.value| == k
    ensures r.Ok? ==> forall i | 0 <= i < k ::
              i * perImage + perImage <= |data|
              && TensorToImage(data[i * perImage..i * perImage + perImage], width, height, decode) == Ok(r.value[i])
    ensures r.Err? ==> exists i | 0 <= i < k ::
              i * perImage + perImage <= |data|
              && TensorToImage(data[i * perImage..i * perImage + perImage], width, height, decode) == Err(r.error)
  {
    if k == 0 then Ok([])
    else
      assert (k - 1) * perImage + perImage == k * perImage;
      match SliceImages(data, perImage, width, height, k - 1, decode)
      case Err(e) => Err(e)
      case Ok(imgs) =>
        match TensorToImage(data[(k - 1) * perImage..k * perImage], width, height, decode)
        case Err(e) => Err(e)
        case Ok(img) => Ok(imgs + [img])
  }

  /** When every slice decodes, slicing gives exactly those images. */
  lemma {:induction false} SliceImagesAll<P, E>(data: seq<E>, perImage: nat, width: nat, height: nat, k: nat,
                                                decode: (E, E, E) -> P, images: seq<Image<P>>)
    requires k * perImage <= |data| && |images| == k
    requires forall i | 0 <= i < k ::
               i * perImage + perImage <= |data|
               && TensorToImage(data[i * perImage..i * perImage + perImage], width, height, decode) == Ok(images[i])
    ensures SliceImages(data, perImage, width, height, k, decode) == Ok(images)
  {
    if k > 0 {
      assert (k - 1) * perImage + perImage == k * perImage;
      SliceImagesAll(data, perImage, width, height, k - 1, decode, images[..k - 1]);
      assert images[..k - 1] + [images[k - 1]] == images;
    }
  }

  /** Data that decodes as one image is exactly one image's worth: its own first slice. */
  lemma WholeSlice<P, E>(data: seq<E>, width: nat, height: nat, decode: (E, E, E) -> P)
    requires TensorToImage(data, width, height, decode).Ok?
    ensures var perImage := (width * height * 3) % U32_LIMIT;
            perImage == |data| && data[0 * perImage..0 * perImage + perImage] == data
  {
    assert width * height * 3 == 3 * (width * height);
  }

  function RankError(rank: nat): AppError
  {
    Unknown("Unexpected output tensor rank: " + NatToString(rank))
  }

  function BatchSizeMismatch(expected: nat, got: nat): AppError
  {
    Unknown("Batch output size mismatch. Expected " + NatToString(expected) + ", got " + NatToString(got))
  }

  /**
   * Splits an output tensor of shape [n, c, h, w] into n images.  The rank
   * must be 4; one image is decoded directly; otherwise the data must hold
   * exactly n times 3 * w * h elements (that product taken in 32 bits).
   */
  function BatchTensorToImages<P, E>(shape: seq<int>, data: seq<E>, decode: (E, E, E) -> P): (r: AppResult<seq<Image<P>>>)
    ensures |shape| != 4 ==> r == Err(RankError(|shape|))
    ensures r.Ok? ==> forall i | 0 <= i < |r.value| ::
              r.value[i].Valid() && r.value[i].width == AsU32(shape[3]) && r.value[i].height == AsU32(shape[2])
    ensures |shape| == 4 && r.Ok? ==> |r.value| == AsUsize(shape[0])
    ensures |shape| == 4 && AsUsize(shape[0]) != 1 ==>
              var perImage := (AsU32(shape[3]) * AsU32(shape[2]) * 3) % U32_LIMIT;
              |data| != AsUsize(shape[0]) * perImage ==> r == Err(BatchSizeMismatch(AsUsize(shape[0]) * perImage, |data|))
    ensures |shape| == 4 && r.Ok? ==>
              var perImage := (AsU32(shape[3]) * AsU32(shape[2]) * 3) % U32_LIMIT;
              forall i | 0 <= i < |r.value| ::
                i * perImage + perImage <= |data|
                && TensorToImage(data[i * perImage..i * perImage + perImage], AsU32(shape[3]), AsU32(shape[2]), decode)
                   == Ok(r.value[i])
  {
    if |shape| != 4 then Err(RankError(|shape|))
    else
      var batch := AsUsize(shape[0]);
      var height := AsU32(shape[2]);
      var width := AsU32(shape[3]);
      if batch == 1 then
        match TensorToImage(data, width, height, decode)
        case Err(e) => Err(e)
        case Ok(img) =>
          WholeSlice(data, width, height, decode);
          Ok([img])
      else
        var perImage := (width * height * 3) % U32_LIMIT;
        if |data| != batch * perImage then Err(BatchSizeMismatch(batch * perImage, |data|))
        else SliceImages(data, perImage, width, height, batch, decode)
  }

  /**
   * Unpacking what packing produced gives the batch back: for images of one
   * size that fits, and a decoder that inverts the encoder.
   */
  lemma BatchRoundTrip<P(!new), E>(images: seq<Image<P>>, encode: (P, nat) -> E, decode: (E, E, E) -> P, w: nat, h: nat)
    requires forall j | 0 <= j < |images| :: images[j].Valid()
    requires SameSize(images, w, h) && |images| < USIZE_LIMIT
    requires w < U32_LIMIT && h < U32_LIMIT && 3 * (w * h) < U32_LIMIT
    requires forall px: P :: decode(encode(px, 0), encode(px, 1), encode(px, 2)) == px
    ensures BatchTensorToImages([|images|, 3, h, w], Packed(images, encode), decode) == Ok(images)
  {
    if |images| == 1 {
      SingleRoundTrip(images, encode, decode, w, h);
    } else {
      SeveralRoundTrip(images, encode, decode, w, h);
    }
  }

  lemma SingleRoundTrip<P(!new), E>(images: seq<Image<P>>, encode: (P, nat) -> E, decode: (E, E, E) -> P, w: nat, h: nat)
    requires forall j | 0 <= j < |images| :: images[j].Valid()
    requires SameSize(images, w, h) && |images| == 1
    requires w < U32_LIMIT && h < U32_LIMIT && 3 * (w * h) < U32_LIMIT
    requires forall px: P :: decode(encode(px, 0), encode(px, 1), encode(px, 2)) == px
    ensures BatchTensorToImages([|images|, 3, h, w], Packed(images, encode), decode) == Ok(images)
  {
    var perImage := 3 * (w * h);
    var data := Packed(images, encode);
    assert AsUsize(1) == 1 && AsU32(h) == h && AsU32(w) == w;
    assert TensorToImage(data, w, h, decode) == Ok(images[0]) by {
      PackedSlices(images, encode, decode, w, h);
      assert data[0..perImage] == data;
    }
    assert images == [images[0]];
  }

  lemma SeveralRoundTrip<P(!new), E>(images: seq<Image<P>>, encode: (P, nat) -> E, decode: (E, E, E) -> P, w: nat, h: nat)
    requires forall j | 0 <= j < |images| :: images[j].Valid()
    requires SameSize(images, w, h) && |images| < USIZE_LIMIT && |images| != 1
    requires w < U32_LIMIT && h < U32_LIMIT && 3 * (w * h) < U32_LIMIT
    requires forall px: P :: decode(encode(px, 0), encode(px, 1), encode(px, 2)) == px
    ensures BatchTensorToImages([|images|, 3, h, w], Packed(images, encode), decode) == Ok(images)
  {
    var n := |images|;
    var perImage := 3 * (w * h);
    var data := Packed(images, encode);
    assert (w * h * 3) % U32_LIMIT == perImage;
    assert AsUsize(n) == n && AsU32(h) == h && AsU32(w) == w;
    assert |data| == n * perImage && SliceImages(data, perImage, w, h, n, decode) == Ok(images) by {
      PackedSlices(images, encode, decode, w, h);
      SliceImagesAll(data, perImage, w, h, n, decode, images);
    }
  }

  /** Slice i of a packed batch unpacks to image i. */
  lemma PackedSlices<P(!new), E>(images: seq<Image<P>>, encode: (P, nat) -> E, decode: (E, E, E) -> P, w: nat, h: nat)
    requires forall j | 0 <= j < |images| :: images[j].Valid()
    requires SameSize(images, w, h) && 3 * (w * h) < U32_LIMIT
    requires forall px: P :: decode(encode(px, 0), encode(px, 1), encode(px, 2)) == px
    ensures |Packed(images, encode)| == |images| * (3 * (w * h))
    ensures forall i | 0 <= i < |images| ::
              i * (3 * (w * h)) + 3 * (w * h) <= |Packed(images, encode)|
              && TensorToImage(Packed(images, encode)[i * (3 * (w * h))..i * (3 * (w * h)) + 3 * (w * h)], w, h, decode)
                 == Ok(images[i])
  {
    var perImage := 3 * (w * h);
    var rows := PlanesOf(images, encode);
    PlanesLength(images, encode, w, h);
    forall i | 0 <= i < |images|
      ensures i * perImage + perImage <= |Packed(images, encode)|
      ensures TensorToImage(Packed(images, encode)[i * perImage..i * perImage + perImage], w, h, decode) == Ok(images[i])
    {
      FlattenChunk(rows, perImage, i);
      TensorImageRoundTrip(images[i], encode, decode);
    }
  }

  /** Unpacking from a reusable buffer: only its first `validLen` elements, widened if half precision. */
  function BatchBufferToImages<P, E>(shape: seq<int>, buffer: TensorData<E>, validLen: nat,
                                     widen: E -> E, decode: (E, E, E) -> P): (r: AppResult<seq<Image<P>>>)
    requires validLen <= |buffer.elements|
    ensures buffer.Float32? ==> r == BatchTensorToImages(shape, buffer.elements[..validLen], decode)
  {
    match buffer
    case Float32(data) => BatchTensorToImages(shape, data[..validLen], decode)
    case Float16(data) =>
      BatchTensorToImages(shape, seq(validLen, (i: int) requires 0 <= i < validLen => widen(data[i])), decode)
  }

  // ---------------------------------------------------------------------
  // Running inference into a recycled output buffer.

  /**
   * The buffer after an inference result is copied in: grown to the
   * result's length when shorter, its first entries overwritten (narrowed
   * to half precision for a half-precision buffer), the rest untouched.
   */
  function CopyResult<E>(buf: seq<E>, data: seq<E>, half: bool, narrow: E -> E, zero: E): (r: seq<E>)
  {
    var grown := Grow(buf, |data|, zero);
    var written := if half then seq(|data|, (i: int) requires 0 <= i < |data| => narrow(data[i])) else data;
    written + grown[|data|..]
  }

  /** The copy grows the buffer only when too short, writes exactly the result and keeps the tail. */
  lemma CopyResultShape<E>(buf: seq<E>, data: seq<E>, half: bool, narrow: E -> E, zero: E)
    ensures var r := CopyResult(buf, data, half, narrow, zero);
            |r| == (if |buf| < |data| then |data| else |buf|)
            && (!half ==> r[..|data|] == data)
            && (half ==> forall i | 0 <= i < |data| :: r[i] == narrow(data[i]))
            && (forall k | |data| <= k < |buf| :: r[k] == buf[k])
  {
    var grown := Grow(buf, |data|, zero);
    forall k | |data| <= k < |buf|
      ensures CopyResult(buf, data, half, narrow, zero)[k] == buf[k]
    {
      assert grown[k] == grown[..|buf|][k];
    }
  }

  /** Reading a single-precision buffer back after the copy sees exactly the inference result. */
  lemma CopyThenUnpack<P, E>(shape: seq<int>, buf: seq<E>, data: seq<E>, narrow: E -> E, widen: E -> E,
                             zero: E, decode: (E, E, E) -> P)
    ensures |data| <= |CopyResult(buf, data, false, narrow, zero)|
    ensures BatchBufferToImages(shape, Float32(CopyResult(buf, data, false, narrow, zero)), |data|, widen, decode)
            == BatchTensorToImages(shape, data, decode)
  {
    CopyResultShape(buf, data, false, narrow, zero);
  }

  /** An inference session: from input shape and tensor to output shape and data, or an error. */
  type Runner<!E> = (seq<int>, TensorData<E>) -> AppResult<(seq<int>, seq<E>)>

  /**
   * Runs inference and copies the result into `output`, returning the
   * output shape and the number of valid elements.  A failed run leaves
   * the buffer untouched.
   */
  method RunWithBinding<E>(shape: seq<int>, input: TensorData<E>, output: TensorBuffer<E>, run: Runner<E>,
                           narrow: E -> E, zero: E) returns (r: AppResult<(seq<int>, nat)>)
    modifies output
    ensures run(shape, input).Err? ==> r == Err(run(shape, input).error) && output.elements == old(output.elements)
    ensures run(shape, input).Ok? ==>
              r == Ok((run(shape, input).value.0, |run(shape, input).value.1|))
              && output.elements == CopyResult(old(output.elements), run(shape, input).value.1, output.half, narrow, zero)
  {
    var outcome := run(shape, input);
    if outcome.Err? {
      return Err(outcome.error);
    }
    var (outShape, data) := outcome.value;
    var len := |data|;
    ghost var grown := Grow(output.elements, len, zero);
    if |output.elements| < len {
      output.elements := output.elements + seq(len - |output.elements|, _ => zero);
    }
    assert output.elements == grown;
    if !output.half {
      output.elements := data + output.elements[len..];
    } else {
      ghost var narrowed := seq(len, (i: int) requires 0 <= i < len => narrow(data[i]));
      var i := 0;
      while i < len
        invariant 0 <= i <= len && |output.elements| == |grown|
        invariant output.elements[..i] == narrowed[..i]
        invariant output.elements[i..] == grown[i..]
      {
        output.elements := output.elements[i := narrow(data[i])];
        i := i + 1;
      }
      assert output.elements == narrowed + grown[len..] by {
        assert output.elements[..len] == narrowed;
      }
    }
    return Ok((outShape, len));
  }

  // ---------------------------------------------------------------------
  // Scale detection: probe the model with zero inputs of growing size.

  const PROBE_SIZES: seq<nat> := [64, 256, 512]
  const NO_SIZES_TESTED: AppError := Unknown("No sizes tested")
  const INVALID_OUTPUT_SHAPE: AppError := Unknown("Invalid output shape from model")

  /** Output shape of one probe run with a 1 x 3 x d x d input, or its error. */
  type Probe = nat -> AppResult<seq<int>>

  /** Positive probe sizes. */
  predicate PositiveSizes(sizes: seq<nat>)
  {
    forall i | 0 <= i < |sizes| :: sizes[i] > 0
  }

  /** What a successful probe at size d says: output width over input width, or an error for a rank below 4. */
  function ScaleFromOutput(out: seq<int>, d: nat): (r: AppResult<nat>)
    requires d > 0
    ensures r.Err? <==> |out| < 4
    ensures r.Ok? ==> r.value * d <= AsU32(out[3]) < r.value * d + d
  {
    if |out| < 4 then Err(INVALID_OUTPUT_SHAPE) else Ok(AsU32(out[3]) / d)
  }

  /**
   * Probing `sizes` in order: the first run that succeeds decides; when
   * every run fails, the last run's error.
   */
  function DetectOver(probe: Probe, sizes: seq<nat>, lastError: AppError): AppResult<nat>
    requires PositiveSizes(sizes)
  {
    if sizes == [] then Err(lastError)
    else
      match probe(sizes[0])
      case Ok(out) => ScaleFromOutput(out, sizes[0])
      case Err(e) => DetectOver(probe, sizes[1..], e)
  }

  function DetectScaleSpec(probe: Probe): AppResult<nat>
  {
    DetectOver(probe, PROBE_SIZES, NO_SIZES_TESTED)
  }

  method DetectScale(probe: Probe) returns (r: AppResult<nat>)
    ensures r == DetectScaleSpec(probe)
  {
    var sizes := PROBE_SIZES;
    var lastError := NO_SIZES_TESTED;
    var i := 0;
    while i < |sizes|
      invariant 0 <= i <= |sizes|
      invariant DetectOver(probe, sizes[i..], lastError) == DetectScaleSpec(probe)
    {
      var inputDim := sizes[i];
      assert sizes[i..][0] == inputDim && sizes[i..][1..] == sizes[i + 1..];
      match probe(inputDim) {
        case Ok(out) =>
          if |out| < 4 {
            return Err(INVALID_OUTPUT_SHAPE);
          }
          return Ok(AsU32(out[3]) / inputDim);
        case Err(e) =>
          lastError := e;
      }
      i := i + 1;
    }
    return Err(lastError);
  }

  /**
   * The first probe that succeeds decides: when the runs before sizes[k]
   * failed and the run at sizes[k] succeeded, the outcome is read from that
   * run alone, whatever any later run would do.
   */
  lemma {:induction false} DetectOverFirst(probe: Probe, other: Probe, sizes: seq<nat>, lastError: AppError, k: nat)
    requires PositiveSizes(sizes) && k < |sizes|
    requires forall j | 0 <= j < k :: probe(sizes[j]).Err?
    requires probe(sizes[k]).Ok?
    requires forall j | 0 <= j <= k :: other(sizes[j]) == probe(sizes[j])
    ensures DetectOver(other, sizes, lastError) == DetectOver(probe, sizes, lastError)
    ensures DetectOver(probe, sizes, lastError) == ScaleFromOutput(probe(sizes[k]).value, sizes[k])
  {
    assert other(sizes[0]) == probe(sizes[0]);
    if k > 0 {
      DetectOverFirst(probe, other, sizes[1..], probe(sizes[0]).error, k - 1);
    }
  }

  /** When every probe fails, the outcome is the last probe's error. */
  lemma {:induction false} DetectOverAllFail(probe: Probe, sizes: seq<nat>, lastError: AppError)
    requires PositiveSizes(sizes) && sizes != []
    requires forall j | 0 <= j < |sizes| :: probe(sizes[j]).Err?
    ensures DetectOver(probe, sizes, lastError) == Err(probe(sizes[|sizes| - 1]).error)
  {
    if |sizes| > 1 {
      DetectOverAllFail(probe, sizes[1..], probe(sizes[0]).error);
    }
  }

  /** Scale detection tries 64, then 256, then 512 and stops at the first run that succeeds. */
  lemma DetectFirstSuccess(probe: Probe, other: Probe, k: nat)
    requires k < 3
    requires forall j | 0 <= j < k :: probe(PROBE_SIZES[j]).Err?
    requires probe(PROBE_SIZES[k]).Ok?
    requires forall j | 0 <= j <= k :: other(PROBE_SIZES[j]) == probe(PROBE_SIZES[j])
    ensures DetectScaleSpec(other) == DetectScaleSpec(probe)
    ensures DetectScaleSpec(probe) == ScaleFromOutput(probe(PROBE_SIZES[k]).value, PROBE_SIZES[k])
  {
    DetectOverFirst(probe, other, PROBE_SIZES, NO_SIZES_TESTED, k);
  }

  /** When all three runs fail, detection reports the error of the run at 512. */
  lemma DetectAllFail(probe: Probe)
    requires probe(64).Err? && probe(256).Err? && probe(512).Err?
    ensures DetectScaleSpec(probe) == Err(probe(512).error)
  {
    DetectOverAllFail(probe, PROBE_SIZES, NO_SIZES_TESTED);
  }
}
