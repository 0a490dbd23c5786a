/** `read_mnist_images` and `read_mnist_labels` of exp/w_constant/readFiles.h, over the bytes
    of an IDX file held in memory. The stream is read front to back: a 16-byte header (magic,
    image count, rows, columns) followed by one byte per pixel, or an 8-byte header (magic,
    label count) followed by one byte per label. */
module MnistReader {

  newtype byte = x: int | 0 <= x < 256

  datatype Option<T> = None | Some(value: T)

  /** The byte at `pos`; past the end of the file a read delivers nothing and the
      zero-initialised destination keeps 0. */
  function ByteAt(data: seq<byte>, pos: nat): (b: byte)
    ensures pos < |data| ==> b == data[pos]
  {
    if pos < |data| then data[pos] else 0
  }

  // ---------------------------------------------------------------------------------------
  // The 32-bit header fields

  const TWO_32: int := 0x1_0000_0000
  const TWO_31: int := 0x8000_0000

  /** The value of four bytes read into a native `int32_t` on a little-endian host, as an
      unsigned 32-bit pattern. */
  function LittleEndian(b0: byte, b1: byte, b2: byte, b3: byte): (v: nat)
    ensures v < TWO_32
  {
    b0 as nat + 0x100 * (b1 as nat + 0x100 * (b2 as nat + 0x100 * b3 as nat))
  }

  /** The value of four bytes most significant first, the byte order of the IDX format. */
  function BigEndian(b0: byte, b1: byte, b2: byte, b3: byte): (v: nat)
    ensures v < TWO_32
  {
    LittleEndian(b3, b2, b1, b0)
  }

  /** A 32-bit pattern's four bytes, least significant first. */
  function Bytes(x: nat): (r: (byte, byte, byte, byte))
    requires x < TWO_32
    ensures LittleEndian(r.0, r.1, r.2, r.3) == x
  {
    var b0, r0 := x % 0x100, x / 0x100;
    var b1, r1 := r0 % 0x100, r0 / 0x100;
    var b2, r2 := r1 % 0x100, r1 / 0x100;
    (b0 as byte, b1 as byte, b2 as byte, r2 as byte)
  }

  /** The bytes of a little-endian value are the bytes it was made of. */
  lemma BytesOfLittleEndian(b0: byte, b1: byte, b2: byte, b3: byte)
    ensures Bytes(LittleEndian(b0, b1, b2, b3)) == (b0, b1, b2, b3)
  {
    var x := LittleEndian(b0, b1, b2, b3);
    var r2 := b2 as nat + 0x100 * b3 as nat;
    var r1 := b1 as nat + 0x100 * r2;
    assert x == b0 as nat + 0x100 * r1;
    DigitSplit(b0, r1);
    DigitSplit(b1, r2);
    DigitSplit(b2, b3 as nat);
  }

  /** Splitting off the lowest base-256 digit. */
  lemma DigitSplit(b: byte, rest: nat)
    ensures (b as nat + 0x100 * rest) % 0x100 == b as nat
    ensures (b as nat + 0x100 * rest) / 0x100 == rest
  {
  }

  /** `__builtin_bswap32`: the four bytes of a 32-bit pattern in reverse order. */
  function Bswap32(x: nat): (r: nat)
    requires x < TWO_32
    ensures r < TWO_32
  {
    var b := Bytes(x);
    LittleEndian(b.3, b.2, b.1, b.0)
  }

  /** Swapping the bytes of a native little-endian read decodes the field big-endian. */
  lemma SwappedReadIsBigEndian(b0: byte, b1: byte, b2: byte, b3: byte)
    ensures Bswap32(LittleEndian(b0, b1, b2, b3)) == BigEndian(b0, b1, b2, b3)
  {
    BytesOfLittleEndian(b0, b1, b2, b3);
  }

  /** Swapping twice gives the pattern back. */
  lemma Bswap32Involutive(x: nat)
    requires x < TWO_32
    ensures Bswap32(Bswap32(x)) == x
  {
    var b := Bytes(x);
    BytesOfLittleEndian(b.3, b.2, b.1, b.0);
  }

  /** A 32-bit pattern read as a two's-complement `int32_t`. */
  function ToInt32(x: nat): (v: int)
    requires x < TWO_32
    ensures -TWO_31 <= v < TWO_31
    ensures (v - x) % TWO_32 == 0
  {
    if x < TWO_31 then x else x - TWO_32
  }

  /** `256^k`, one more than the largest value of k bytes. */
  function Span(k: nat): (r: nat)
    ensures r > 0
  {
    if k == 0 then 1 else 0x100 * Span(k - 1)
  }

  /** The value of the k bytes from `pos`, most significant first. */
  function BigEndianAt(data: seq<byte>, pos: nat, k: nat): (v: nat)
    ensures v < Span(k)
    decreases k
  {
    if k == 0 then 0 else BigEndianAt(data, pos, k - 1) * 0x100 + ByteAt(data, pos + k - 1) as nat
  }

  /** The header field at `pos`: a signed 32-bit big-endian value. */
  function Field(data: seq<byte>, pos: nat): (v: int)
    ensures -TWO_31 <= v < TWO_31
  {
    assert Span(4) == TWO_32;
    ToInt32(BigEndianAt(data, pos, 4))
  }

  /** `file.read` of four bytes into an `int32_t`, then `__builtin_bswap32`: the header field
      at `pos`. */
  method ReadField(data: seq<byte>, pos: nat) returns (v: int)
    ensures v == Field(data, pos)
  {
    var b0, b1, b2, b3 := ByteAt(data, pos), ByteAt(data, pos + 1), ByteAt(data, pos + 2), ByteAt(data, pos + 3);
    var native := LittleEndian(b0, b1, b2, b3);
    v := ToInt32(Bswap32(native));
    SwappedReadIsBigEndian(b0, b1, b2, b3);
    assert BigEndianAt(data, pos, 4) == BigEndian(b0, b1, b2, b3);
  }

  // ---------------------------------------------------------------------------------------
  // Pixels

  /** One pixel byte scaled into `[0.1, 0.9]`; with `inverse` the byte's brightness is
      reversed first. */
  function Pixel(b: byte, inverse: bool): real
  {
    if inverse then (1.0 - b as real / 255.0) * 0.8 + 0.1 else (b as real / 255.0) * 0.8 + 0.1
  }

  /** Every pixel lies in `[0.1, 0.9]`: black is 0.1 and white 0.9. */
  lemma PixelRange(b: byte, inverse: bool)
    ensures 0.1 <= Pixel(b, inverse) <= 0.9
    ensures Pixel(0, false) == 0.1 && Pixel(255, false) == 0.9
  {
  }

  /** The inverse pixel of a byte is the normal pixel of its complement. */
  lemma InversePixel(b: byte)
    ensures Pixel(b, true) == Pixel(255 - b, false)
  {
  }

  /** The normal scaling is strictly increasing, so no two bytes give the same pixel. */
  lemma PixelMonotonic(b: byte, c: byte)
    ensures b < c <==> Pixel(b, false) < Pixel(c, false)
    ensures Pixel(b, false) == Pixel(c, false) ==> b == c
  {
  }

  // ---------------------------------------------------------------------------------------
  // Images

  /** The first k pixels of the image whose bytes start at `pos`. */
  function Row(data: seq<byte>, inverse: bool, pos: nat, k: nat): (r: seq<real>)
    ensures |r| == k
    decreases k
  {
    if k == 0 then [] else Row(data, inverse, pos, k - 1) + [Pixel(ByteAt(data, pos + k - 1), inverse)]
  }

  /** Pixel j of the image at `pos` comes from byte `pos + j`. */
  lemma {:induction false} RowAt(data: seq<byte>, inverse: bool, pos: nat, k: nat, j: nat)
    requires j < k
    ensures Row(data, inverse, pos, k)[j] == Pixel(ByteAt(data, pos + j), inverse)
    decreases k
  {
    if j < k - 1 {
      RowAt(data, inverse, pos, k - 1, j);
    }
  }

  /** Where image i starts when images of `size` bytes are stored one after the other from
      `pos`. */
  function ImageStart(pos: nat, size: nat, i: nat): nat
  {
    pos + i * size
  }

  /** The next image starts `size` bytes after this one. */
  lemma ImageStartNext(pos: nat, size: nat, i: nat)
    ensures ImageStart(pos, size, i + 1) == ImageStart(pos, size, i) + size
  {
  }

  /** The first n images of `size` pixels each, stored one after the other from `pos`. */
  function Rows(data: seq<byte>, inverse: bool, pos: nat, size: nat, n: nat): (r: seq<seq<real>>)
    ensures |r| == n
    decreases n
  {
    if n == 0 then [] else Rows(data, inverse, pos, size, n - 1) + [Row(data, inverse, ImageStart(pos, size, n - 1), size)]
  }

  /** Image i of the sequence is the one whose bytes start `i * size` after `pos`. */
  lemma {:induction false} RowsAt(data: seq<byte>, inverse: bool, pos: nat, size: nat, n: nat, i: nat)
    requires i < n
    ensures Rows(data, inverse, pos, size, n)[i] == Row(data, inverse, ImageStart(pos, size, i), size)
    decreases n
  {
    if i < n - 1 {
      RowsAt(data, inverse, pos, size, n - 1, i);
    }
  }

  /** What `read_mnist_images` returns: the image count, the image size and the images. */
  datatype ImageSet = ImageSet(numImages: nat, imageSize: nat, images: seq<seq<real>>)

  /** The decoding of an image file. A negative image count or image size makes the vector
      constructors throw and a product `rows * cols` out of the `int` range overflows; the
      model has no value for those files. The magic number is not checked. */
  function DecodeImages(data: seq<byte>, inverse: bool): (r: Option<ImageSet>)
  {
    var n := Field(data, 4);
    var size := Field(data, 8) * Field(data, 12);
    if n < 0 || size < 0 || size >= TWO_31 then None
    else Some(ImageSet(n, size, Rows(data, inverse, 16, size, n)))
  }

  /** A file whose header has a non-negative image count and an image size within `int`
      decodes, and holds `n_images` images of `rows * cols` pixels each; pixel j of image i is
      scaled from byte `16 + i * rows * cols + j`. */
  lemma DecodeImagesPixels(data: seq<byte>, inverse: bool, i: nat, j: nat)
    requires Field(data, 4) >= 0 && 0 <= Field(data, 8) * Field(data, 12) < TWO_31
    ensures DecodeImages(data, inverse).Some?
    ensures var s := DecodeImages(data, inverse).value;
            && s.numImages == Field(data, 4)
            && s.imageSize == Field(data, 8) * Field(data, 12)
            && |s.images| == s.numImages
            && (i < s.numImages ==> |s.images[i]| == s.imageSize)
            && (i < s.numImages && j < s.imageSize ==>
                  s.images[i][j] == Pixel(ByteAt(data, ImageStart(16, s.imageSize, i) + j), inverse))
  {
    var s := DecodeImages(data, inverse).value;
    if i < s.numImages {
      RowsAt(data, inverse, 16, s.imageSize, s.numImages, i);
      if j < s.imageSize {
        RowAt(data, inverse, ImageStart(16, s.imageSize, i), s.imageSize, j);
      }
    }
  }

  /** Two files that hold the same bytes from position `p` on. */
  ghost predicate AgreeFrom(data: seq<byte>, other: seq<byte>, p: nat)
  {
    forall q: nat :: q >= p ==> ByteAt(data, q) == ByteAt(other, q)
  }

  /** A field read where two files agree has the same value. */
  lemma {:induction false} BigEndianAtAgree(data: seq<byte>, other: seq<byte>, p: nat, pos: nat, k: nat)
    requires AgreeFrom(data, other, p) && pos >= p
    ensures BigEndianAt(data, pos, k) == BigEndianAt(other, pos, k)
    decreases k
  {
    if k > 0 {
      BigEndianAtAgree(data, other, p, pos, k - 1);
    }
  }

  /** An image read where two files agree has the same pixels. */
  lemma {:induction false} RowAgree(data: seq<byte>, other: seq<byte>, p: nat, inverse: bool, pos: nat, k: nat)
    requires AgreeFrom(data, other, p) && pos >= p
    ensures Row(data, inverse, pos, k) == Row(other, inverse, pos, k)
    decreases k
  {
    if k > 0 {
      RowAgree(data, other, p, inverse, pos, k - 1);
    }
  }

  /** Images read where two files agree are the same images. */
  lemma {:induction false} RowsAgree(data: seq<byte>, other: seq<byte>, p: nat, inverse: bool, pos: nat, size: nat, n: nat)
    requires AgreeFrom(data, other, p) && pos >= p
    ensures Rows(data, inverse, pos, size, n) == Rows(other, inverse, pos, size, n)
    decreases n
  {
    if n > 0 {
      RowsAgree(data, other, p, inverse, pos, size, n - 1);
      RowAgree(data, other, p, inverse, ImageStart(pos, size, n - 1), size);
    }
  }

  /** The decoding reads nothing from the first four bytes: the magic number is never
      validated. */
  lemma DecodeImagesIgnoresMagic(data: seq<byte>, other: seq<byte>, inverse: bool)
    requires |data| == |other| >= 4 && data[4..] == other[4..]
    ensures DecodeImages(data, inverse) == DecodeImages(other, inverse)
  {
    forall q: nat | q >= 4 ensures ByteAt(data, q) == ByteAt(other, q) {
      if q < |data| {
        assert data[q] == data[4..][q - 4];
      }
    }
    BigEndianAtAgree(data, other, 4, 4, 4);
    BigEndianAtAgree(data, other, 4, 8, 4);
    BigEndianAtAgree(data, other, 4, 12, 4);
    var n := Field(data, 4);
    var size := Field(data, 8) * Field(data, 12);
    if n >= 0 && 0 <= size < TWO_31 {
      RowsAgree(data, other, 4, inverse, 16, size, n);
    }
  }

  /** The label decoding reads nothing from the first four bytes either. */
  lemma DecodeLabelsIgnoresMagic(data: seq<byte>, other: seq<byte>)
    requires |data| == |other| >= 4 && data[4..] == other[4..]
    ensures DecodeLabels(data) == DecodeLabels(other)
  {
    forall q: nat | q >= 4 ensures ByteAt(data, q) == ByteAt(other, q) {
      if q < |data| {
        assert data[q] == data[4..][q - 4];
      }
    }
    BigEndianAtAgree(data, other, 4, 4, 4);
    if Field(data, 4) >= 0 {
      LabelsAgree(data, other, 4, 8, Field(data, 4));
    }
  }

  /** The inner loop of `read_mnist_images`: the `size` pixels of one image, one byte each,
      from `pos` on. */
  method ReadImage(data: seq<byte>, inverse: bool, pos: nat, size: nat) returns (row: seq<real>)
    ensures row == Row(data, inverse, pos, size)
  {
    var pixels := new real[size];
    var j := 0;
    while j < size
      invariant 0 <= j <= size
      invariant pixels[..j] == Row(data, inverse, pos, j)
    {
      var temp := ByteAt(data, pos + j);
      pixels[j] := Pixel(temp, inverse);
      assert pixels[..j + 1] == pixels[..j] + [pixels[j]];
      j := j + 1;
    }
    assert pixels[..] == pixels[..size];
    row := pixels[..];
  }

  /** `read_mnist_images`: reads the header, byte-swaps its fields, then fills image after
      image, pixel after pixel, from the bytes that follow, one byte per pixel. */
  method ReadImages(data: seq<byte>, inverse: bool) returns (r: Option<ImageSet>)
    ensures r == DecodeImages(data, inverse)
  {
    var magic := ReadField(data, 0);
    var nImages := ReadField(data, 4);
    var nRows := ReadField(data, 8);
    var nCols := ReadField(data, 12);
    var imageSize := nRows * nCols;
    if nImages < 0 || imageSize < 0 || imageSize >= TWO_31 {
      return None;
    }
    var images: seq<seq<real>> := [];
    var pos: nat := 16;
    var i := 0;
    while i < nImages
      invariant 0 <= i <= nImages
      invariant pos == ImageStart(16, imageSize, i)
      invariant images == Rows(data, inverse, 16, imageSize, i)
    {
      var row := ReadImage(data, inverse, pos, imageSize);
      ImageStartNext(16, imageSize, i);
      images := images + [row];
      pos := pos + imageSize;
      i := i + 1;
    }
    r := Some(ImageSet(nImages, imageSize, images));
  }

  // ---------------------------------------------------------------------------------------
  // Labels

  /** The first n labels, one byte each from `pos` on. */
  function Labels(data: seq<byte>, pos: nat, n: nat): (r: seq<int>)
    ensures |r| == n
    decreases n
  {
    if n == 0 then [] else Labels(data, pos, n - 1) + [ByteAt(data, pos + n - 1) as int]
  }

  /** Label i is the raw byte `pos + i`. */
  lemma {:induction false} LabelsAt(data: seq<byte>, pos: nat, n: nat, i: nat)
    requires i < n
    ensures Labels(data, pos, n)[i] == ByteAt(data, pos + i) as int
    decreases n
  {
    if i < n - 1 {
      LabelsAt(data, pos, n - 1, i);
    }
  }

  /** Labels read where two files agree are the same labels. */
  lemma {:induction false} LabelsAgree(data: seq<byte>, other: seq<byte>, p: nat, pos: nat, n: nat)
    requires AgreeFrom(data, other, p) && pos >= p
    ensures Labels(data, pos, n) == Labels(other, pos, n)
    decreases n
  {
    if n > 0 {
      LabelsAgree(data, other, p, pos, n - 1);
    }
  }

  /** What `read_mnist_labels` returns: the label count and the labels. */
  datatype LabelSet = LabelSet(numLabels: nat, labels: seq<int>)

  /** The decoding of a label file. A negative label count makes the vector constructor
      throw; the model has no value for that file. The magic number is not checked. */
  function DecodeLabels(data: seq<byte>): (r: Option<LabelSet>)
  {
    var n := Field(data, 4);
    if n < 0 then None else Some(LabelSet(n, Labels(data, 8, n)))
  }

  /** A decoded label file holds `n_labels` labels; label i is byte `8 + i`, so every label
      lies in `[0, 255]`. */
  lemma DecodeLabelsValues(data: seq<byte>, i: nat)
    requires DecodeLabels(data).Some?
    ensures var s := DecodeLabels(data).value;
            && s.numLabels == Field(data, 4) && |s.labels| == s.numLabels
            && (i < s.numLabels ==> s.labels[i] == ByteAt(data, 8 + i) as int && 0 <= s.labels[i] <= 255)
  {
    var s := DecodeLabels(data).value;
    if i < s.numLabels {
      LabelsAt(data, 8, s.numLabels, i);
    }
  }

  /** `read_mnist_labels`: reads the header, byte-swaps its fields, then one byte per label. */
  method ReadLabels(data: seq<byte>) returns (r: Option<LabelSet>)
    ensures r == DecodeLabels(data)
  {
    var magic := ReadField(data, 0);
    var nLabels := ReadField(data, 4);
    if nLabels < 0 {
      return None;
    }
    var labels := new int[nLabels];
    var i := 0;
    while i < nLabels
      invariant 0 <= i <= nLabels
      invariant labels[..i] == Labels(data, 8, i)
    {
      var temp := ByteAt(data, 8 + i);
      labels[i] := temp as int;
      assert labels[..i + 1] == labels[..i] + [labels[i]];
      i := i + 1;
    }
    assert labels[..] == labels[..nLabels];
    r := Some(LabelSet(nLabels, labels[..]));
  }
}
