/**
 * `imageToDIB` (internal/clipboard/clipboard_windows.go): the 24-bit Windows
 * device-independent bitmap handed to the clipboard as CF_DIB. A 40-byte
 * BITMAPINFOHEADER, little-endian, is followed by the pixel rows bottom-up,
 * three bytes per pixel in blue, green, red order, each row padded to a
 * multiple of 4 bytes.
 */
module Dib {

  const HEADER_SIZE: nat := 40
  const TWO_32: nat := 0x1_0000_0000

  type Byte = x: int | 0 <= x < 0x100

  /** A colour channel as `RGBA()` returns it: 16 bits. */
  type Channel = x: int | 0 <= x < 0x1_0000

  datatype Rgb = Rgb(r: Channel, g: Channel, b: Channel)

  /**
   * An image of `Bounds().Dx()` by `Bounds().Dy()` pixels; `at(x, y)` is the
   * colour at `(Bounds().Min.X + x, Bounds().Min.Y + y)`, row 0 at the top.
   */
  datatype Image = Image(width: nat, height: nat, at: (nat, nat) -> Rgb)

  /** The bytes per stored row, `((width*3 + 3) / 4) * 4`. */
  function RowSize(width: nat): (n: nat)
    ensures n % 4 == 0 && 3 * width <= n < 3 * width + 4
  {
    ((width * 3 + 3) / 4) * 4
  }

  /** No smaller multiple of 4 holds a row of `width` pixels. */
  lemma RowSizeSmallest(width: nat, m: int)
    requires m % 4 == 0 && 3 * width <= m
    ensures RowSize(width) <= m
  {
    var n := RowSize(width);
    assert n == 4 * (n / 4) && m == 4 * (m / 4);
    assert n / 4 <= m / 4;
  }

  function ImageSize(img: Image): nat {
    RowSize(img.width) * img.height
  }

  /** A 16-bit field, least significant byte first. */
  function Le16(v: nat): (s: seq<Byte>)
    requires v < 0x1_0000
    ensures |s| == 2
  {
    [v % 0x100, v / 0x100]
  }

  /**
   * A 32-bit field, least significant byte first: the low 32 bits of `v`, which
   * is what `int32(v)` and `uint32(v)` store.
   */
  function Le32(v: int): (s: seq<Byte>)
    ensures |s| == 4
  {
    var u := v % TWO_32;
    [u % 0x100, (u / 0x100) % 0x100, (u / 0x1_0000) % 0x100, u / 0x100_0000]
  }

  function U16At(s: seq<Byte>, i: nat): nat
    requires i + 2 <= |s|
  {
    s[i] as int + 0x100 * s[i + 1] as int
  }

  function U32At(s: seq<Byte>, i: nat): nat
    requires i + 4 <= |s|
  {
    s[i] as int + 0x100 * s[i + 1] as int + 0x1_0000 * s[i + 2] as int + 0x100_0000 * s[i + 3] as int
  }

  /** Reading back a 32-bit field gives its value modulo 2^32. */
  lemma Le32Decodes(v: int)
    ensures U32At(Le32(v), 0) == v % TWO_32
  {
    var u := v % TWO_32;
    var a := u / 0x100;
    var b := a / 0x100;
    assert u / 0x1_0000 == b;
    assert u / 0x100_0000 == b / 0x100;
    assert u == u % 0x100 + 0x100 * a;
    assert a == a % 0x100 + 0x100 * b;
    assert b == b % 0x100 + 0x100 * (b / 0x100);
  }

  /**
   * BITMAPINFOHEADER as `binary.Write` lays it out: Size, Width, Height, Planes,
   * BitCount, Compression, SizeImage, XPelsPerMeter, YPelsPerMeter, ClrUsed,
   * ClrImportant.
   */
  function InfoHeader(img: Image): (h: seq<Byte>)
    ensures |h| == HEADER_SIZE
  {
    Le32(40) + Le32(img.width) + Le32(img.height) + Le16(1) + Le16(24) + Le32(0)
    + Le32(ImageSize(img)) + Le32(0) + Le32(0) + Le32(0) + Le32(0)
  }

  lemma U32OfSlice(s: seq<Byte>, i: nat, f: seq<Byte>)
    requires i + 4 <= |s| && s[i..i + 4] == f
    ensures U32At(s, i) == U32At(f, 0)
  {
    assert s[i] == f[0] && s[i + 1] == f[1] && s[i + 2] == f[2] && s[i + 3] == f[3];
  }

  /** The header's fields read back: 40, the size, one plane, 24 bits, BI_RGB, the pixel bytes, zeros. */
  lemma InfoHeaderFields(img: Image)
    ensures var h := InfoHeader(img);
            && U32At(h, 0) == 40
            && U32At(h, 4) == img.width % TWO_32
            && U32At(h, 8) == img.height % TWO_32
            && U16At(h, 12) == 1
            && U16At(h, 14) == 24
            && U32At(h, 16) == 0
            && U32At(h, 20) == ImageSize(img) % TWO_32
            && forall k :: 24 <= k < HEADER_SIZE ==> h[k] == 0
  {
    HeaderDimensions(img);
    HeaderConstants(img);
  }

  /** The width, height and pixel-byte fields of the header. */
  lemma HeaderDimensions(img: Image)
    ensures var h := InfoHeader(img);
            U32At(h, 4) == img.width % TWO_32 && U32At(h, 8) == img.height % TWO_32
            && U32At(h, 20) == ImageSize(img) % TWO_32
  {
    var h := InfoHeader(img);
    Le32Decodes(img.width);
    U32OfSlice(h, 4, Le32(img.width));
    Le32Decodes(img.height);
    U32OfSlice(h, 8, Le32(img.height));
    Le32Decodes(ImageSize(img));
    U32OfSlice(h, 20, Le32(ImageSize(img)));
  }

  /** The fields of the header that do not depend on the image. */
  lemma HeaderConstants(img: Image)
    ensures var h := InfoHeader(img);
            && U32At(h, 0) == 40 && U16At(h, 12) == 1 && U16At(h, 14) == 24 && U32At(h, 16) == 0
            && forall k :: 24 <= k < HEADER_SIZE ==> h[k] == 0
  {
  }

  /** Byte `c` of a stored pixel: the high 8 bits of blue, green, then red. */
  function ChannelByte(p: Rgb, c: nat): Byte
    requires c < 3
  {
    (if c == 0 then p.b else if c == 1 then p.g else p.r) / 0x100
  }

  /**
   * Stored row `r` of the pixel data: image row `height-1-r`, three bytes per
   * pixel, then zero padding up to `RowSize`.
   */
  function StoredRow(img: Image, r: nat): (s: seq<Byte>)
    requires r < img.height
    ensures |s| == RowSize(img.width)
  {
    seq(RowSize(img.width), j => RowByte(img, r, j))
  }

  /** Byte `j` of stored row `r`. */
  function RowByte(img: Image, r: nat, j: int): Byte
    requires r < img.height
  {
    if 0 <= j < 3 * img.width then ChannelByte(img.at(j / 3, img.height - 1 - r), j % 3) else 0
  }

  /** The first `n` stored rows, one after the other. */
  function StoredRows(img: Image, n: nat): (s: seq<Byte>)
    requires n <= img.height
    ensures |s| == n * RowSize(img.width)
  {
    if n == 0 then [] else StoredRows(img, n - 1) + StoredRow(img, n - 1)
  }

  /** Bytes `3x..3x+2` of stored row `r` are pixel `x` of image row `height-1-r`. */
  lemma StoredPixel(img: Image, y: nat, x: nat, c: nat)
    requires y < img.height && x < img.width && c < 3
    ensures 3 * x + c < RowSize(img.width)
    ensures RowByte(img, img.height - 1 - y, 3 * x + c) == ChannelByte(img.at(x, y), c)
  {
    assert (3 * x + c) / 3 == x && (3 * x + c) % 3 == c;
  }

  /** The nonlinear step of RowFits, kept apart so the solver sees it alone: a positive multiple of `d` is at least `d`. */
  lemma MultipleBelow(a: int, d: int)
    requires d > 0
    ensures a >= 1 ==> a * d >= d
  {
  }

  /** Byte `j` of stored row `r` follows the `r` rows before it in the pixel data. */
  lemma {:induction false} StoredRowsIndex(img: Image, n: nat, r: nat, j: nat)
    requires r < n <= img.height && j < RowSize(img.width)
    ensures |StoredRows(img, r)| + j < |StoredRows(img, n)|
    ensures StoredRows(img, n)[|StoredRows(img, r)| + j] == StoredRow(img, r)[j]
  {
    assert StoredRows(img, n) == StoredRows(img, n - 1) + StoredRow(img, n - 1);
    if r < n - 1 {
      StoredRowsIndex(img, n - 1, r, j);
    }
  }

  /**
   * Pixel `(x, y)` sits in stored row `height-1-y`, which starts after the
   * `height-1-y` rows before it, at bytes `3x..3x+2`, as B, G, R.
   */
  lemma PixelPlacement(img: Image, x: nat, y: nat, c: nat)
    requires x < img.width && y < img.height && c < 3
    ensures var stored := StoredRows(img, img.height);
            var start := |StoredRows(img, img.height - 1 - y)|;
            && start == (img.height - 1 - y) * RowSize(img.width)
            && start + 3 * x + c < |stored|
            && stored[start + 3 * x + c] == ChannelByte(img.at(x, y), c)
  {
    var row := img.height - 1 - y;
    var col := 3 * x + c;
    assert col / 3 == x && col % 3 == c;
    StoredRowsIndex(img, img.height, row, col);
  }

  /** The padding at the end of each stored row is zero. */
  lemma PaddingIsZero(img: Image, row: nat, col: nat)
    requires row < img.height && 3 * img.width <= col < RowSize(img.width)
    ensures var stored := StoredRows(img, img.height);
            var start := |StoredRows(img, row)|;
            && start == row * RowSize(img.width)
            && start + col < |stored|
            && stored[start + col] == 0
  {
    StoredRowsIndex(img, img.height, row, col);
  }

  /** `buf` holds `prefix` and is zero after it. */
  predicate Filled(buf: seq<Byte>, prefix: seq<Byte>) {
    |prefix| <= |buf| && buf[..|prefix|] == prefix && forall k :: |prefix| <= k < |buf| ==> buf[k] == 0
  }

  /** Stored row `row` fits in the pixel data after the rows before it. */
  lemma RowFits(img: Image, row: nat)
    requires row < img.height
    ensures |StoredRows(img, row)| + RowSize(img.width) <= ImageSize(img)
  {
    var rs := RowSize(img.width);
    assert StoredRows(img, row + 1) == StoredRows(img, row) + StoredRow(img, row);
    assert img.height * rs - (row + 1) * rs == (img.height - (row + 1)) * rs;
    if rs > 0 && row + 1 < img.height {
      MultipleBelow(img.height - (row + 1), rs);
    }
  }

  /**
   * The pixel data while stored row `row` is being written: the rows before it
   * are in place, the first `x` pixels of the row are written, and every byte
   * after them is still zero.
   */
  ghost predicate RowProgress(img: Image, buf: seq<Byte>, row: nat, x: nat)
    requires row < img.height
  {
    var start := |StoredRows(img, row)|;
    && x <= img.width
    && start + RowSize(img.width) <= |buf|
    && buf[..start] == StoredRows(img, row)
    && (forall j :: 0 <= j < 3 * x ==> buf[start + j] == RowByte(img, row, j))
    && (forall k :: start + 3 * x <= k < |buf| ==> buf[k] == 0)
  }

  /** `buf` with the three bytes of pixel `x` of stored row `row` written. */
  function PutPixel(img: Image, buf: seq<Byte>, row: nat, x: nat): (s: seq<Byte>)
    requires row < img.height && x < img.width
    requires |StoredRows(img, row)| + RowSize(img.width) <= |buf|
    ensures |s| == |buf|
  {
    var o := |StoredRows(img, row)| + 3 * x;
    buf[o := RowByte(img, row, 3 * x)][o + 1 := RowByte(img, row, 3 * x + 1)][o + 2 := RowByte(img, row, 3 * x + 2)]
  }

  /** Writing the next pixel advances the row by one pixel. */
  lemma RowStep(img: Image, buf: seq<Byte>, row: nat, x: nat)
    requires row < img.height && x < img.width && RowProgress(img, buf, row, x)
    ensures RowProgress(img, PutPixel(img, buf, row, x), row, x + 1)
  {
    var start := |StoredRows(img, row)|;
    var next := PutPixel(img, buf, row, x);
    assert next[..start] == buf[..start];
    forall j | 0 <= j < 3 * (x + 1)
      ensures next[start + j] == RowByte(img, row, j)
    {
      if j < 3 * x {
        assert next[start + j] == buf[start + j];
      }
    }
  }

  /** A row whose every pixel is written completes the first `row + 1` stored rows. */
  lemma RowEnds(img: Image, buf: seq<Byte>, row: nat, rows: nat)
    requires row < img.height && rows == row + 1 && RowProgress(img, buf, row, img.width)
    ensures Filled(buf, StoredRows(img, rows))
  {
    var done := StoredRows(img, row);
    var stored := StoredRow(img, row);
    assert StoredRows(img, rows) == done + stored;
    forall k | 0 <= k < |done| + |stored|
      ensures buf[k] == (done + stored)[k]
    {
      if k < |done| {
        assert buf[k] == buf[..|done|][k];
      } else {
        assert buf[|done| + (k - |done|)] == buf[k];
      }
    }
    assert buf[..|done + stored|] == done + stored;
  }

  /** One step of the inner loop of `imageToDIB`: pixel `(x, y)` into its three bytes. */
  method StorePixel(img: Image, pixels: array<Byte>, x: nat, y: nat)
    requires pixels.Length == ImageSize(img) && x < img.width && y < img.height
    requires |StoredRows(img, img.height - 1 - y)| + RowSize(img.width) <= pixels.Length
    modifies pixels
    ensures pixels[..] == PutPixel(img, old(pixels[..]), img.height - 1 - y, x)
  {
    var width := img.width;
    var height := img.height;
    var rowSize := RowSize(width);
    var p := img.at(x, y);
    var offset := (height - 1 - y) * rowSize + x * 3;
    assert offset == |StoredRows(img, height - 1 - y)| + 3 * x;
    StoredPixel(img, y, x, 0);
    StoredPixel(img, y, x, 1);
    StoredPixel(img, y, x, 2);
    pixels[offset] := p.b / 0x100;
    pixels[offset + 1] := p.g / 0x100;
    pixels[offset + 2] := p.r / 0x100;
  }

  /** The inner loop of `imageToDIB`: image row `y` into stored row `height-1-y`, left to right. */
  method StoreRow(img: Image, pixels: array<Byte>, y: nat)
    requires pixels.Length == ImageSize(img) && y < img.height
    requires Filled(pixels[..], StoredRows(img, img.height - 1 - y))
    modifies pixels
    ensures Filled(pixels[..], StoredRows(img, img.height - y))
  {
    var width := img.width;
    ghost var row := img.height - 1 - y;
    RowFits(img, row);
    assert RowProgress(img, pixels[..], row, 0);
    var x := 0;
    while x < width
      invariant 0 <= x <= width
      invariant RowProgress(img, pixels[..], row, x)
    {
      RowStep(img, pixels[..], row, x);
      StorePixel(img, pixels, x, y);
      x := x + 1;
    }
    RowEnds(img, pixels[..], row, img.height - y);
  }

  /** `imageToDIB`: the header, then the stored rows written into a zeroed buffer bottom-up. */
  method ImageToDib(img: Image) returns (dib: seq<Byte>)
    ensures |dib| == HEADER_SIZE + RowSize(img.width) * img.height
    ensures dib[..HEADER_SIZE] == InfoHeader(img)
    ensures dib[HEADER_SIZE..] == StoredRows(img, img.height)
  {
    var width := img.width;
    var height := img.height;
    var rowSize := ((width * 3 + 3) / 4) * 4;
    var imageSize := rowSize * height;
    var header := InfoHeader(img);
    var pixels := new Byte[imageSize](_ => 0);
    var y: int := height - 1;
    while y >= 0
      invariant -1 <= y < height && pixels.Length == ImageSize(img)
      invariant Filled(pixels[..], StoredRows(img, height - 1 - y))
    {
      StoreRow(img, pixels, y);
      y := y - 1;
    }
    assert pixels[..] == StoredRows(img, height);
    dib := header + pixels[..];
  }
}
