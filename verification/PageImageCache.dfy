/** Decoded pages kept in memory within a budget of bytes. */
module PageImageCache {
  import opened Wrappers

  /** The largest std::size_t. */
  const MAX_SIZE: nat := 0xffff_ffff_ffff_ffff

  /** A picture with its pixels; three bytes a pixel once decoded. */
  datatype Image = Image(width: nat, height: nat, pixels: seq<int>)

  /** A page as the renderer left it in memory: `size` bytes used of a buffer of `capacity`. */
  datatype Bitmap = Bitmap(width: int, height: int, channels: int, pageIndex: int, pageNumber: int, size: nat,
                           capacity: nat, pixels: seq<int>)

  datatype Page = Page(width: int, height: int, pageIndex: int, pageNumber: int, path: string)

  datatype Cached = Decoded(image: Image) | Rendered(bitmap: Bitmap)

  function DecodedBytes(image: Image): nat { image.width * image.height * 3 }

  function Bytes(c: Cached): nat { if c.Decoded? then DecodedBytes(c.image) else c.bitmap.capacity }

  function Converted(b: Bitmap): Image
    requires b.width > 0 && b.height > 0
  {
    Image(b.width, b.height, b.pixels)
  }

  /** The shape the cache accepts: the page's own size, four channels, and a product that fits a size. */
  predicate Fits(page: Page, b: Bitmap) {
    && b.width > 0 && b.height > 0 && b.channels == 4 && b.width == page.width && b.height == page.height
    && b.pageIndex == page.pageIndex && b.pageNumber == page.pageNumber
    && b.width <= MAX_SIZE / 4 / b.height && b.size == b.width * b.height * 4
  }

  /** The guard against overflow shuts out no picture whose bytes a size can count, and lets no other one in. */
  lemma FitsExactlyWhen(page: Page, b: Bitmap)
    ensures Fits(page, b) <==>
            && 0 < b.width == page.width && 0 < b.height == page.height
            && b.pageIndex == page.pageIndex && b.pageNumber == page.pageNumber
            && b.channels == 4 && b.size == b.channels * b.width * b.height <= MAX_SIZE
  {
    if b.width > 0 && b.height > 0 {
      QuotientBounds(b.width, b.height, MAX_SIZE / 4);
      assert b.channels == 4 ==> b.channels * b.width * b.height == b.width * b.height * 4;
    }
  }

  lemma QuotientBounds(w: nat, h: nat, n: nat)
    requires h > 0
    ensures w <= n / h <==> w * h <= n
  {
    var q, r := n / h, n % h;
    assert n == q * h + r;
    if w <= q {
      assert (q - w) * h >= 0;
    } else {
      assert (w - q - 1) * h >= 0;
    }
  }

  // ---- bytes of a map of images ----

  ghost function Sum(images: map<string, Cached>): nat {
    if images == map[] then 0
    else
      var key :| key in images;
      Bytes(images[key]) + Sum(images - {key})
  }

  lemma {:induction false} SumWithout(images: map<string, Cached>, key: string)
    requires key in images
    ensures Sum(images) == Bytes(images[key]) + Sum(images - {key})
    decreases |images|
  {
    var other :| other in images && Sum(images) == Bytes(images[other]) + Sum(images - {other});
    if other != key {
      SumWithout(images - {other}, key);
      SumWithout(images - {key}, other);
      assert images - {other} - {key} == images - {key} - {other};
    }
  }

  lemma SumUpdated(images: map<string, Cached>, key: string, c: Cached)
    ensures Sum(images[key := c]) == Bytes(c) + (if key in images then Sum(images) - Bytes(images[key]) else Sum(images))
  {
    SumWithout(images[key := c], key);
    if key in images {
      SumWithout(images, key);
      assert images[key := c] - {key} == images - {key};
    } else {
      assert images[key := c] - {key} == images;
    }
  }

  function Max(a: nat, b: nat): nat { if a < b then b else a }

  class Cache {
    const maximum: nat
    /** What decoding a file gives, or nothing when it fails; the files do not change. */
    const decode: string -> Option<Image>
    var images: map<string, Cached>
    var resident: nat
    var peak: nat

    /** A cached entry shows what decoding its file would. */
    ghost predicate Shows(path: string, c: Cached) {
      match c
      case Decoded(image) => decode(path) == Some(image)
      case Rendered(b) =>
        && b.width > 0 && b.height > 0 && decode(path) == Some(Converted(b))
        && b.width * b.height * 4 <= b.capacity
    }

    ghost predicate Valid()
      reads this
    {
      && resident == Sum(images) && resident <= maximum && resident <= peak <= maximum
      && forall path | path in images :: Shows(path, images[path])
    }

    constructor (maximum: nat, decode: string -> Option<Image>)
      ensures Valid() && this.maximum == maximum && this.decode == decode && images == map[]
    {
      this.maximum, this.decode, images, resident, peak := maximum, decode, map[], 0, 0;
    }

    /**
      Takes in a rendered page without decoding it, if it has the right shape, fits the
      budget and is new. The caller vouches that the file holds the same picture.
     */
    method AdmitRendered(page: Page, bitmap: Bitmap) returns (admitted: bool)
      requires Valid() && bitmap.size <= bitmap.capacity
      requires Fits(page, bitmap) ==> decode(page.path) == Some(Converted(bitmap))
      modifies this
      ensures Valid() && peak == Max(old(peak), resident)
      ensures admitted <==> Fits(page, bitmap) && bitmap.capacity <= maximum - old(resident) && page.path !in old(images)
      ensures images == if admitted then old(images)[page.path := Rendered(bitmap)] else old(images)
    {
      if !Fits(page, bitmap) || bitmap.capacity > maximum - resident || page.path in images { return false; }
      SumUpdated(images, page.path, Rendered(bitmap));
      images := images[page.path := Rendered(bitmap)];
      resident := resident + bitmap.capacity;
      peak := Max(peak, resident);
      admitted := true;
    }

    /** A rendered entry becomes a decoded one; that never takes more room. */
    method Convert(path: string)
      requires Valid() && path in images && images[path].Rendered?
      modifies this
      ensures Valid() && peak == old(peak)
      ensures images == old(images)[path := Decoded(Converted(old(images[path].bitmap)))]
    {
      var bitmap := images[path].bitmap;
      assert Shows(path, images[path]);
      var image := Converted(bitmap);
      ConvertedIsSmaller(bitmap);
      SumWithout(images, path);
      SumUpdated(images, path, Decoded(image));
      images := images[path := Decoded(image)];
      resident := resident - bitmap.capacity;
      resident := resident + DecodedBytes(image);
    }

    static lemma ConvertedIsSmaller(b: Bitmap)
      requires b.width > 0 && b.height > 0 && b.width * b.height * 4 <= b.capacity
      ensures DecodedBytes(Converted(b)) <= b.capacity
    {
      var area := b.width * b.height;
      assert area >= 0;
    }

    /** Reading gives what decoding the file gives, whether or not the page was or is now cached. */
    method Read(path: string) returns (image: Option<Image>)
      requires Valid()
      modifies this
      ensures Valid() && image == decode(path)
      ensures peak == Max(old(peak), resident)
      ensures old(images).Keys <= images.Keys <= old(images).Keys + {path}
      ensures path in images <==> path in old(images) ||
                                  (image.Some? && DecodedBytes(image.value) <= maximum - old(resident))
      ensures path in images ==> image.Some? && images[path] == Decoded(image.value)
      ensures forall p | p in old(images) && p != path :: images[p] == old(images)[p]
    {
      if path in images {
        assert Shows(path, images[path]);
        if images[path].Rendered? {
          Convert(path);
        }
        return Some(images[path].image);
      }
      image := decode(path);
      if image.None? { return; }
      var bytes := DecodedBytes(image.value);
      if bytes <= maximum - resident {
        SumUpdated(images, path, Decoded(image.value));
        images := images[path := Decoded(image.value)];
        resident := resident + bytes;
        peak := Max(peak, resident);
      }
    }

    /** Everything is let go; the peak stays. */
    method Clear()
      requires Valid()
      modifies this
      ensures Valid() && images == map[] && resident == 0 && peak == old(peak)
    {
      images, resident := map[], 0;
    }
  }
}
