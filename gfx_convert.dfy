/**
 * The bit-plane tile converter of the 1943 graphics ROM tool: tiles stored
 * as bit planes, addressed through a `gfx_layout`, are re-emitted as 16-bit
 * words of four 4-bit pixels, each tile walked column by column from the
 * right-most column to the left-most one and each column from top to bottom
 * (a counter-clockwise rotation of the tile).
 */
module GfxConvert {

  import Bits

  const MAX_GFX_PLANES: nat := 4
  const MAX_GFX_SIZE: nat := 32

  /**
   * A `gfx_layout`: element size in pixels, number of elements, number of
   * bit planes, the bit offset of each plane, column and row, and the
   * distance between two elements in bits. The offset arrays have their
   * C sizes (4 planes, 32 columns, 32 rows); unused entries are 0.
   */
  datatype Layout = Layout(
    width: nat,
    height: nat,
    total: nat,
    planes: nat,
    planeOffset: seq<nat>,
    xOffset: seq<nat>,
    yOffset: seq<nat>,
    charIncrement: nat)

  predicate ValidLayout(lay: Layout)
  {
    && |lay.planeOffset| == MAX_GFX_PLANES && |lay.xOffset| == MAX_GFX_SIZE && |lay.yOffset| == MAX_GFX_SIZE
    && lay.planes <= MAX_GFX_PLANES && lay.width <= MAX_GFX_SIZE && lay.height <= MAX_GFX_SIZE
  }

  /** An array initializer: the given entries, then zeros up to the array size. */
  function Pad(s: seq<nat>, n: nat): (r: seq<nat>)
    requires |s| <= n
    ensures |r| == n && r[..|s|] == s
    ensures forall i | |s| <= i < n :: r[i] == 0
  {
    s + seq(n - |s|, _ => 0)
  }

  // The five layouts of the 1943 graphics ROMs.

  /** 2048 characters of 8x8 pixels, 2 bits per pixel, 16 bytes each (32 KB). */
  const ChrLayout1943 := Layout(
    8, 8, 2048, 2,
    Pad([4, 0], 4),
    Pad([0, 1, 2, 3, 8+0, 8+1, 8+2, 8+3], 32),
    Pad([0*16, 1*16, 2*16, 3*16, 4*16, 5*16, 6*16, 7*16], 32),
    16*8)

  /** 1024 characters of 8x8 pixels, 2 bits per pixel, 16 bytes each (16 KB). */
  const ChrLayoutGs := Layout(
    8, 8, 1024, 2,
    Pad([4, 0], 4),
    Pad([0, 1, 2, 3, 8+0, 8+1, 8+2, 8+3], 32),
    Pad([0*16, 1*16, 2*16, 3*16, 4*16, 5*16, 6*16, 7*16], 32),
    16*8)

  /** The 32 column offsets shared by the 32x32 tile layouts. */
  const TileXOffsets: seq<nat> :=
    [0, 1, 2, 3, 8+0, 8+1, 8+2, 8+3,
     64*8+0, 64*8+1, 64*8+2, 64*8+3, 65*8+0, 65*8+1, 65*8+2, 65*8+3,
     128*8+0, 128*8+1, 128*8+2, 128*8+3, 129*8+0, 129*8+1, 129*8+2, 129*8+3,
     192*8+0, 192*8+1, 192*8+2, 192*8+3, 193*8+0, 193*8+1, 193*8+2, 193*8+3]

  /** The 32 row offsets shared by the 32x32 tile layouts. */
  const TileYOffsets: seq<nat> :=
    [0*16, 1*16, 2*16, 3*16, 4*16, 5*16, 6*16, 7*16,
     8*16, 9*16, 10*16, 11*16, 12*16, 13*16, 14*16, 15*16,
     16*16, 17*16, 18*16, 19*16, 20*16, 21*16, 22*16, 23*16,
     24*16, 25*16, 26*16, 27*16, 28*16, 29*16, 30*16, 31*16]

  /** 512 foreground tiles of 32x32 pixels, 4 bits per pixel, 256 bytes each (256 KB). */
  const FgnLayout := Layout(
    32, 32, 512, 4,
    [512*256*8+4, 512*256*8+0, 4, 0],
    TileXOffsets,
    TileYOffsets,
    256*8)

  /** 128 background tiles of 32x32 pixels, 4 bits per pixel, 256 bytes each (64 KB). */
  const BgnLayout := Layout(
    32, 32, 128, 4,
    [128*256*8+4, 128*256*8+0, 4, 0],
    TileXOffsets,
    TileYOffsets,
    256*8)

  /** 2048 sprites of 16x16 pixels, 4 bits per pixel, 64 bytes each (256 KB). */
  const SprLayout1943 := Layout(
    16, 16, 2048, 4,
    [2048*64*8+4, 2048*64*8+0, 4, 0],
    Pad([0, 1, 2, 3, 8+0, 8+1, 8+2, 8+3,
         32*8+0, 32*8+1, 32*8+2, 32*8+3, 33*8+0, 33*8+1, 33*8+2, 33*8+3], 32),
    Pad([0*16, 1*16, 2*16, 3*16, 4*16, 5*16, 6*16, 7*16,
         8*16, 9*16, 10*16, 11*16, 12*16, 13*16, 14*16, 15*16], 32),
    64*8)

  // Bit addressing

  /** The bit offset of plane p of pixel (x, y), relative to the element's first byte. */
  function BitOffset(lay: Layout, p: nat, x: nat, y: nat): nat
    requires ValidLayout(lay) && p < lay.planes && x < lay.width && y < lay.height
  {
    lay.planeOffset[p] + lay.xOffset[x] + lay.yOffset[y]
  }

  /** The first byte of element t: the source pointer moves `charincrement >> 3` bytes per element. */
  function TileBase(lay: Layout, t: nat): (r: nat)
    ensures r == t * (lay.charIncrement / 8)
  {
    if t == 0 then 0 else TileBase(lay, t - 1) + lay.charIncrement / 8
  }

  /** The byte holding plane p of pixel (x, y) of element t: `bit >> 3` bytes after the element's first byte. */
  function ByteIndex(lay: Layout, t: nat, p: nat, x: nat, y: nat): (r: nat)
    requires ValidLayout(lay) && p < lay.planes && x < lay.width && y < lay.height
    ensures TileBase(lay, t) <= r
    ensures 8 * (r - TileBase(lay, t)) <= BitOffset(lay, p, x, y) < 8 * (r - TileBase(lay, t)) + 8
  {
    TileBase(lay, t) + BitOffset(lay, p, x, y) / 8
  }

  /** Every byte the conversion reads lies inside the source image of n bytes. */
  predicate ReadsInside(lay: Layout, n: nat)
    requires ValidLayout(lay)
  {
    forall t, p, x, y | 0 <= t < lay.total && 0 <= p < lay.planes && 0 <= x < lay.width && 0 <= y < lay.height ::
      ByteIndex(lay, t, p, x, y) < n
  }

  /**
   * Plane p of pixel (x, y) of element t: bit `bit & 7` of the byte,
   * counted from the most significant one (`0x80 >> (bit & 7)`). A byte
   * outside the image reads as 0; under ReadsInside that never happens.
   */
  predicate SampleBit(lay: Layout, src: seq<bv8>, t: nat, p: nat, x: nat, y: nat)
    requires ValidLayout(lay) && p < lay.planes && x < lay.width && y < lay.height
    ensures SampleBit(lay, src, t, p, x, y) ==> ByteIndex(lay, t, p, x, y) < |src|
  {
    var i := ByteIndex(lay, t, p, x, y);
    i < |src| && src[i] & (0x80 >> (BitOffset(lay, p, x, y) % 8)) != 0
  }

  // Pixels and words

  /** The nibble bit of plane p: bit `3 - p`, so plane 0 is the most significant. */
  function PlaneMask(p: nat): (r: bv16)
    requires p < MAX_GFX_PLANES
  {
    if p == 0 then 8 else if p == 1 then 4 else if p == 2 then 2 else 1
  }

  /** The planes below n of a pixel, plane p going to bit `3 - p` of the nibble. */
  function PlaneBits(lay: Layout, src: seq<bv8>, t: nat, x: nat, y: nat, n: nat): (r: bv16)
    requires ValidLayout(lay) && n <= lay.planes && x < lay.width && y < lay.height
    ensures r < 16
  {
    if n == 0 then 0
    else PlaneBits(lay, src, t, x, y, n - 1) | (if SampleBit(lay, src, t, n - 1, x, y) then PlaneMask(n - 1) else 0)
  }

  /** The 4-bit pixel (x, y) of element t. */
  function Pixel(lay: Layout, src: seq<bv8>, t: nat, x: nat, y: nat): (r: bv16)
    requires ValidLayout(lay) && x < lay.width && y < lay.height
    ensures r < 16
  {
    PlaneBits(lay, src, t, x, y, lay.planes)
  }

  /** One row of the accumulator: `word >> 4`, then the row's pixel in the top nibble. */
  function ShiftIn(word: bv16, q: bv16): (r: bv16)
    ensures q < 16 ==> r >> 12 == q && r & 0xFFF == word >> 4
  {
    (word >> 4) | (q << 12)
  }

  /** The accumulator after rows 0 .. y - 1 of column x of element t, starting from `word0`. */
  function Accumulated(lay: Layout, src: seq<bv8>, t: nat, x: nat, word0: bv16, y: nat): bv16
    requires ValidLayout(lay) && x < lay.width && y <= lay.height
  {
    if y == 0 then word0
    else ShiftIn(Accumulated(lay, src, t, x, word0, y - 1), Pixel(lay, src, t, x, y - 1))
  }

  /** Word k of column x of element t: rows 4k .. 4k+3, the earliest in bits 3..0 and the latest in bits 15..12. */
  function Word(lay: Layout, src: seq<bv8>, t: nat, x: nat, k: nat): (r: bv16)
    requires ValidLayout(lay) && x < lay.width && 4 * k + 4 <= lay.height
    ensures r & 0xF == Pixel(lay, src, t, x, 4 * k)
    ensures (r >> 4) & 0xF == Pixel(lay, src, t, x, 4 * k + 1)
    ensures (r >> 8) & 0xF == Pixel(lay, src, t, x, 4 * k + 2)
    ensures r >> 12 == Pixel(lay, src, t, x, 4 * k + 3)
  {
    Pixel(lay, src, t, x, 4 * k)
      | (Pixel(lay, src, t, x, 4 * k + 1) << 4)
      | (Pixel(lay, src, t, x, 4 * k + 2) << 8)
      | (Pixel(lay, src, t, x, 4 * k + 3) << 12)
  }

  /** The number of words per column: a partial group of rows at the bottom is never emitted. */
  function WordsPerColumn(lay: Layout): (r: nat)
    ensures 4 * r <= lay.height < 4 * r + 4
  {
    lay.height / 4
  }

  /** The first n words of column x of element t. */
  function ColumnWords(lay: Layout, src: seq<bv8>, t: nat, x: nat, n: nat): (r: seq<bv16>)
    requires ValidLayout(lay) && x < lay.width && n <= WordsPerColumn(lay)
    ensures |r| == n
  {
    if n == 0 then [] else ColumnWords(lay, src, t, x, n - 1) + [Word(lay, src, t, x, n - 1)]
  }

  /** The first c columns of element t in output order: columns `width - 1` down to `width - c`. */
  function ColumnsDone(lay: Layout, src: seq<bv8>, t: nat, c: nat): (r: seq<bv16>)
    requires ValidLayout(lay) && c <= lay.width
  {
    if c == 0 then []
    else ColumnsDone(lay, src, t, c - 1) + ColumnWords(lay, src, t, lay.width - c, WordsPerColumn(lay))
  }

  /** The words of the first n elements. */
  function TilesUpTo(lay: Layout, src: seq<bv8>, n: nat): (r: seq<bv16>)
    requires ValidLayout(lay)
  {
    if n == 0 then [] else TilesUpTo(lay, src, n - 1) + ColumnsDone(lay, src, n - 1, lay.width)
  }

  /** The converted image. */
  function Converted(lay: Layout, src: seq<bv8>): seq<bv16>
    requires ValidLayout(lay)
  {
    TilesUpTo(lay, src, lay.total)
  }

  // The converter

  /** Four nibble shifts push out all sixteen bits the accumulator held before. */
  lemma FourShifts(w: bv16, a1: bv16, a2: bv16, a3: bv16, a4: bv16, q0: bv16, q1: bv16, q2: bv16, q3: bv16)
    requires q0 < 16 && q1 < 16 && q2 < 16 && q3 < 16
    requires a1 == ShiftIn(w, q0) && a2 == ShiftIn(a1, q1) && a3 == ShiftIn(a2, q2) && a4 == ShiftIn(a3, q3)
    ensures a4 == q0 | (q1 << 4) | (q2 << 8) | (q3 << 12)
  {
  }

  /** One row of the accumulator, as a fact about row y. */
  lemma AccumulatedStep(lay: Layout, src: seq<bv8>, t: nat, x: nat, word0: bv16, y: nat)
    requires ValidLayout(lay) && x < lay.width && 0 < y <= lay.height
    ensures Accumulated(lay, src, t, x, word0, y)
      == ShiftIn(Accumulated(lay, src, t, x, word0, y - 1), Pixel(lay, src, t, x, y - 1))
  {
  }

  /**
   * The accumulator after row 4k + 3 is exactly word k, whatever it held
   * before row 4k: nothing of the previous word or column carries over.
   */
  lemma AccumulatedWord(lay: Layout, src: seq<bv8>, t: nat, x: nat, word0: bv16, k: nat)
    requires ValidLayout(lay) && x < lay.width && 4 * k + 4 <= lay.height
    ensures Accumulated(lay, src, t, x, word0, 4 * k + 4) == Word(lay, src, t, x, k)
  {
    AccumulatedStep(lay, src, t, x, word0, 4 * k + 1);
    AccumulatedStep(lay, src, t, x, word0, 4 * k + 2);
    AccumulatedStep(lay, src, t, x, word0, 4 * k + 3);
    AccumulatedStep(lay, src, t, x, word0, 4 * k + 4);
    FourShifts(Accumulated(lay, src, t, x, word0, 4 * k),
      Accumulated(lay, src, t, x, word0, 4 * k + 1), Accumulated(lay, src, t, x, word0, 4 * k + 2),
      Accumulated(lay, src, t, x, word0, 4 * k + 3), Accumulated(lay, src, t, x, word0, 4 * k + 4),
      Pixel(lay, src, t, x, 4 * k), Pixel(lay, src, t, x, 4 * k + 1),
      Pixel(lay, src, t, x, 4 * k + 2), Pixel(lay, src, t, x, 4 * k + 3));
  }

  /** The bit `0x8000 >> p` that plane p sets is bit `3 - p` of the top nibble. */
  lemma PlaneBitInTopNibble(acc: bv16, pb: bv16, p: nat)
    requires p < 4
    ensures acc | ((pb | PlaneMask(p)) << 12) == (acc | (pb << 12)) | (0x8000 >> p)
  {
    if p == 0 {
    } else if p == 1 {
    } else if p == 2 {
    } else {
    }
  }

  /** One iteration of the plane loop: a set plane bit p is `0x8000 >> p` of the word. */
  lemma PlaneStep(lay: Layout, src: seq<bv8>, t: nat, x: nat, y: nat, p: nat, shifted: bv16)
    requires ValidLayout(lay) && p < lay.planes && x < lay.width && y < lay.height
    ensures var before := shifted | (PlaneBits(lay, src, t, x, y, p) << 12);
            shifted | (PlaneBits(lay, src, t, x, y, p + 1) << 12)
              == if SampleBit(lay, src, t, p, x, y) then before | (0x8000 >> p) else before
  {
    if SampleBit(lay, src, t, p, x, y) {
      PlaneBitInTopNibble(shifted, PlaneBits(lay, src, t, x, y, p), p);
    } else {
      assert PlaneBits(lay, src, t, x, y, p + 1) == PlaneBits(lay, src, t, x, y, p) | 0;
    }
  }

  /**
   * The body of the row loop: the accumulator moves down a nibble, then the
   * plane loop ORs `0x8000 >> p` into it for every set plane p of pixel
   * (x, y) of element t, so the pixel lands in the top nibble.
   */
  method SampleRow(lay: Layout, src: seq<bv8>, base: nat, t: nat, x: nat, y: nat, acc: bv16) returns (word: bv16)
    requires ValidLayout(lay) && ReadsInside(lay, |src|)
    requires t < lay.total && x < lay.width && y < lay.height && base == TileBase(lay, t)
    ensures word == ShiftIn(acc, Pixel(lay, src, t, x, y))
  {
    var shifted := acc >> 4;
    word := shifted;
    var p := 0;
    while p < lay.planes
      invariant 0 <= p <= lay.planes
      invariant word == shifted | (PlaneBits(lay, src, t, x, y, p) << 12)
    {
      var bit := lay.planeOffset[p] + lay.xOffset[x] + lay.yOffset[y];
      assert base + bit / 8 == ByteIndex(lay, t, p, x, y) < |src|;
      PlaneStep(lay, src, t, x, y, p, shifted);
      if src[base + bit / 8] & (0x80 >> (bit % 8)) != 0 {
        word := word | (0x8000 >> p);
      }
      p := p + 1;
    }
  }

  /** At row 4k + 3 the accumulator completes the column's words 0 .. k. */
  lemma EmitWord(lay: Layout, src: seq<bv8>, t: nat, x: nat, word0: bv16, k: nat, word: bv16)
    requires ValidLayout(lay) && x < lay.width && 4 * k + 4 <= lay.height
    requires word == Accumulated(lay, src, t, x, word0, 4 * k + 4)
    ensures ColumnWords(lay, src, t, x, k) + [word] == ColumnWords(lay, src, t, x, k + 1)
  {
    AccumulatedWord(lay, src, t, x, word0, k);
  }

  /** Row y + 1 is in the same group of four as row y, unless row y ends its group. */
  lemma RowGroup(y: nat)
    ensures y % 4 != 3 ==> (y + 1) / 4 == y / 4
    ensures y % 4 == 3 ==> (y + 1) / 4 == y / 4 + 1 && y + 1 == 4 * (y / 4) + 4
  {
  }

  /**
   * The row loop of column x: every row shifts the accumulator down by a
   * nibble and samples its pixel; every fourth row emits the accumulator,
   * which then holds exactly that row and the three above it.
   */
  method ConvertColumn(lay: Layout, src: seq<bv8>, base: nat, t: nat, x: nat, word0: bv16)
    returns (words: seq<bv16>, word: bv16)
    requires ValidLayout(lay) && ReadsInside(lay, |src|)
    requires t < lay.total && x < lay.width && base == TileBase(lay, t)
    ensures words == ColumnWords(lay, src, t, x, WordsPerColumn(lay))
    ensures word == Accumulated(lay, src, t, x, word0, lay.height)
  {
    word := word0;
    words := [];
    var ymax: int := lay.height - 1;
    var y := 0;
    while y <= ymax
      invariant 0 <= y <= ymax + 1
      invariant words == ColumnWords(lay, src, t, x, y / 4)
      invariant word == Accumulated(lay, src, t, x, word0, y)
    {
      word := SampleRow(lay, src, base, t, x, y, word);
      AccumulatedStep(lay, src, t, x, word0, y + 1);
      RowGroup(y);
      Bits.LowTwoBits(y);
      if Bits.BitAnd(y, 3) == 3 {
        EmitWord(lay, src, t, x, word0, y / 4, word);
        words := words + [word];
      }
      y := y + 1;
    }
  }

  /**
   * `gfx_convert_CCW`: for every element, every column from right to left
   * and every row from top to bottom, the pixel's planes are sampled into
   * the top nibble of `word` after it moves down by one nibble; every fourth
   * row the word is appended to the output. The source pointer moves
   * `charincrement >> 3` bytes per element.
   */
  method ConvertCcw(lay: Layout, src: seq<bv8>) returns (dst: seq<bv16>)
    requires ValidLayout(lay) && ReadsInside(lay, |src|)
    ensures dst == Converted(lay, src)
  {
    var xmax: int := lay.width - 1;
    var word: bv16 := 0;
    var base: nat := 0;
    dst := [];
    var t := 0;
    while t < lay.total
      invariant 0 <= t <= lay.total
      invariant base == TileBase(lay, t)
      invariant dst == TilesUpTo(lay, src, t)
    {
      var x := xmax;
      while x >= 0
        invariant -1 <= x <= xmax
        invariant dst == TilesUpTo(lay, src, t) + ColumnsDone(lay, src, t, xmax - x)
      {
        var column;
        column, word := ConvertColumn(lay, src, base, t, x, word);
        dst := dst + column;
        x := x - 1;
      }
      base := base + lay.charIncrement / 8;
      t := t + 1;
    }
  }

  // Output layout

  /** A product of naturals is a natural. */
  lemma NatProduct(a: nat, b: nat)
    ensures a * b >= 0
  {
  }

  /** Block j of c blocks of q: `(c - 1) * q + q == c * q`, and an offset inside block j is below `c * q`. */
  lemma Blocks(c: nat, q: nat, j: nat, k: nat)
    requires j < c && k < q
    ensures 0 <= j * q
    ensures (c - 1) * q + q == c * q
    ensures j * q + k < c * q
    ensures j < c - 1 ==> j * q + k < (c - 1) * q
  {
    assert (c - 1) * q + q == c * q;
    assert (j + 1) * q <= c * q by {
      assert c - (j + 1) >= 0;
      assert c * q - (j + 1) * q == (c - (j + 1)) * q;
    }
    if j < c - 1 {
      assert (j + 1) * q <= (c - 1) * q by {
        assert (c - 1) * q - (j + 1) * q == (c - 1 - (j + 1)) * q;
      }
    }
  }

  /** Indexing into `before + block` when before holds c - 1 blocks of q and block is block c - 1. */
  lemma BlockIndex<T>(before: seq<T>, block: seq<T>, c: nat, q: nat, j: nat, k: nat)
    requires |before| == (c - 1) * q && |block| == q && j < c && k < q
    ensures j * q + k < |before + block|
    ensures j == c - 1 ==> (before + block)[j * q + k] == block[k]
    ensures j < c - 1 ==> j * q + k < |before| && (before + block)[j * q + k] == before[j * q + k]
  {
    Blocks(c, q, j, k);
  }

  /** Word k of column x is position k of the column's words. */
  lemma {:induction false} ColumnWordsIndex(lay: Layout, src: seq<bv8>, t: nat, x: nat, n: nat, k: nat)
    requires ValidLayout(lay) && x < lay.width && n <= WordsPerColumn(lay) && k < n
    ensures ColumnWords(lay, src, t, x, n)[k] == Word(lay, src, t, x, k)
  {
    if k < n - 1 {
      ColumnWordsIndex(lay, src, t, x, n - 1, k);
    }
  }

  /** `ColumnsDone` holds c columns of `h/4` words each. */
  lemma {:induction false} ColumnsDoneLength(lay: Layout, src: seq<bv8>, t: nat, c: nat)
    requires ValidLayout(lay) && c <= lay.width
    ensures |ColumnsDone(lay, src, t, c)| == c * WordsPerColumn(lay)
  {
    if c > 0 {
      ColumnsDoneLength(lay, src, t, c - 1);
      assert (c - 1) * WordsPerColumn(lay) + WordsPerColumn(lay) == c * WordsPerColumn(lay);
    }
  }

  /** `TilesUpTo` holds n elements of `w * h/4` words each. */
  lemma {:induction false} TilesUpToLength(lay: Layout, src: seq<bv8>, n: nat)
    requires ValidLayout(lay)
    ensures |TilesUpTo(lay, src, n)| == n * (lay.width * WordsPerColumn(lay))
  {
    if n > 0 {
      TilesUpToLength(lay, src, n - 1);
      ColumnsDoneLength(lay, src, n - 1, lay.width);
      var m := lay.width * WordsPerColumn(lay);
      assert (n - 1) * m + m == n * m;
    }
  }

  /** The position of word k of the j-th column emitted within its element: `j * h/4 + k`. */
  function ColumnIndex(lay: Layout, j: nat, k: nat): (r: nat)
    requires j < lay.width && k < WordsPerColumn(lay)
    ensures r < lay.width * WordsPerColumn(lay)
  {
    Blocks(lay.width, WordsPerColumn(lay), j, k);
    j * WordsPerColumn(lay) + k
  }

  /** Word k of the j-th column emitted, column `width - 1 - j`, follows the j earlier columns of the element. */
  lemma {:induction false} ColumnsDoneIndex(lay: Layout, src: seq<bv8>, t: nat, c: nat, j: nat, k: nat)
    requires ValidLayout(lay) && c <= lay.width && j < c && k < WordsPerColumn(lay)
    ensures ColumnIndex(lay, j, k) < |ColumnsDone(lay, src, t, c)|
      && ColumnsDone(lay, src, t, c)[ColumnIndex(lay, j, k)]
         == ColumnWords(lay, src, t, lay.width - 1 - j, WordsPerColumn(lay))[k]
  {
    var q := WordsPerColumn(lay);
    var before := ColumnsDone(lay, src, t, c - 1);
    var column := ColumnWords(lay, src, t, lay.width - c, q);
    assert ColumnsDone(lay, src, t, c) == before + column;
    ColumnsDoneLength(lay, src, t, c - 1);
    BlockIndex(before, column, c, q, j, k);
    if j < c - 1 {
      ColumnsDoneIndex(lay, src, t, c - 1, j, k);
    }
  }

  /** Position i of element t's words follows the t earlier elements' words. */
  lemma {:induction false} TilesUpToIndex(lay: Layout, src: seq<bv8>, n: nat, t: nat, i: nat)
    requires ValidLayout(lay) && t < n && i < lay.width * WordsPerColumn(lay)
    ensures t * (lay.width * WordsPerColumn(lay)) + i < |TilesUpTo(lay, src, n)|
    ensures i < |ColumnsDone(lay, src, t, lay.width)|
      && TilesUpTo(lay, src, n)[t * (lay.width * WordsPerColumn(lay)) + i] == ColumnsDone(lay, src, t, lay.width)[i]
  {
    var m := lay.width * WordsPerColumn(lay);
    var before := TilesUpTo(lay, src, n - 1);
    var tile := ColumnsDone(lay, src, n - 1, lay.width);
    assert TilesUpTo(lay, src, n) == before + tile;
    TilesUpToLength(lay, src, n - 1);
    ColumnsDoneLength(lay, src, n - 1, lay.width);
    BlockIndex(before, tile, n, m, t, i);
    if t < n - 1 {
      TilesUpToIndex(lay, src, n - 1, t, i);
    }
  }

  /** Word k of column x of element t is word `(w - 1 - x) * h/4 + k` of the element. */
  lemma ElementIndex(lay: Layout, src: seq<bv8>, t: nat, x: nat, k: nat)
    requires ValidLayout(lay) && x < lay.width && k < WordsPerColumn(lay)
    ensures ColumnIndex(lay, lay.width - 1 - x, k) < |ColumnsDone(lay, src, t, lay.width)|
      && ColumnsDone(lay, src, t, lay.width)[ColumnIndex(lay, lay.width - 1 - x, k)] == Word(lay, src, t, x, k)
  {
    ColumnsDoneIndex(lay, src, t, lay.width, lay.width - 1 - x, k);
    ColumnWordsIndex(lay, src, t, x, WordsPerColumn(lay), k);
  }

  /** The output position of word k of column x of element t: `t * (w * h/4) + (w - 1 - x) * h/4 + k`. */
  function OutputIndex(lay: Layout, t: nat, x: nat, k: nat): nat
    requires x < lay.width && k < WordsPerColumn(lay)
  {
    NatProduct(t, lay.width * WordsPerColumn(lay));
    t * (lay.width * WordsPerColumn(lay)) + ColumnIndex(lay, lay.width - 1 - x, k)
  }

  /**
   * The output is the elements one after the other, each column by column
   * from the right-most one and each column top to bottom: word k of column
   * x of element t is output word `t * (w * h/4) + (w - 1 - x) * h/4 + k`,
   * and there are `total * w * h/4` words in all.
   */
  lemma ConvertedIndex(lay: Layout, src: seq<bv8>, t: nat, x: nat, k: nat)
    requires ValidLayout(lay) && t < lay.total && x < lay.width && k < WordsPerColumn(lay)
    ensures |Converted(lay, src)| == lay.total * (lay.width * WordsPerColumn(lay))
    ensures OutputIndex(lay, t, x, k) < |Converted(lay, src)|
      && Converted(lay, src)[OutputIndex(lay, t, x, k)] == Word(lay, src, t, x, k)
  {
    TilesUpToLength(lay, src, lay.total);
    TilesUpToIndex(lay, src, lay.total, t, ColumnIndex(lay, lay.width - 1 - x, k));
    ElementIndex(lay, src, t, x, k);
  }

  // Pixels, planes and nibbles

  /** The four nibbles of a packed word, the first one in bits 3..0. */
  lemma PackedNibbles(w: bv16, q0: bv16, q1: bv16, q2: bv16, q3: bv16)
    requires q0 < 16 && q1 < 16 && q2 < 16 && q3 < 16
    requires w == q0 | (q1 << 4) | (q2 << 8) | (q3 << 12)
    ensures w & 0xF == q0 && (w >> 4) & 0xF == q1 && (w >> 8) & 0xF == q2 && w >> 12 == q3
  {
  }

  /**
   * A pixel is its planes' bits: plane p is bit `3 - p` of the nibble
   * (bit `15 - p` of the word while it is the top nibble), and a plane
   * beyond the layout's planes is 0.
   */
  lemma PixelPlanes(lay: Layout, src: seq<bv8>, t: nat, x: nat, y: nat)
    requires ValidLayout(lay) && x < lay.width && y < lay.height
    ensures Pixel(lay, src, t, x, y)
      == (if 0 < lay.planes && SampleBit(lay, src, t, 0, x, y) then 8 else 0)
       | (if 1 < lay.planes && SampleBit(lay, src, t, 1, x, y) then 4 else 0)
       | (if 2 < lay.planes && SampleBit(lay, src, t, 2, x, y) then 2 else 0)
       | (if 3 < lay.planes && SampleBit(lay, src, t, 3, x, y) then 1 else 0)
  {
    var b0 := if 0 < lay.planes && SampleBit(lay, src, t, 0, x, y) then 8 else 0;
    var b1 := if 1 < lay.planes && SampleBit(lay, src, t, 1, x, y) then 4 else 0;
    var b2 := if 2 < lay.planes && SampleBit(lay, src, t, 2, x, y) then 2 else 0;
    var b3 := if 3 < lay.planes && SampleBit(lay, src, t, 3, x, y) then 1 else 0;
    assert PlaneBits(lay, src, t, x, y, 0) == 0;
    if lay.planes >= 1 {
      assert PlaneBits(lay, src, t, x, y, 1) == b0;
    }
    if lay.planes >= 2 {
      assert PlaneBits(lay, src, t, x, y, 2) == b0 | b1;
    }
    if lay.planes >= 3 {
      assert PlaneBits(lay, src, t, x, y, 3) == b0 | b1 | b2;
    }
    if lay.planes >= 4 {
      assert PlaneBits(lay, src, t, x, y, 4) == b0 | b1 | b2 | b3;
    }
  }

  /** With two planes only the upper two bits of a pixel can be set. */
  lemma TwoPlanePixels(lay: Layout, src: seq<bv8>, t: nat, x: nat, y: nat)
    requires ValidLayout(lay) && lay.planes == 2 && x < lay.width && y < lay.height
    ensures Pixel(lay, src, t, x, y) & 3 == 0
  {
    PixelPlanes(lay, src, t, x, y);
  }

  /** The mask `0x80 >> k` picks bit k of a byte counted from the most significant one. */
  lemma MsbFirst(b: bv8, k: nat)
    requires k < 8
    ensures (b & (0x80 >> k) != 0) == ((b >> (7 - k)) & 1 == 1)
  {
    if k == 0 {
    } else if k == 1 {
    } else if k == 2 {
    } else if k == 3 {
    } else if k == 4 {
    } else if k == 5 {
    } else if k == 6 {
    } else {
    }
  }

  // The declared layouts fit their ROM images exactly

  /**
   * Bounds on the offsets bound every byte read: the largest read is in the
   * last element at the largest plane, column and row offsets.
   */
  lemma ReadsInsideByBounds(lay: Layout, n: nat, pMax: nat, xMax: nat, yMax: nat)
    requires ValidLayout(lay) && lay.total > 0
    requires forall p | 0 <= p < lay.planes :: lay.planeOffset[p] <= pMax
    requires forall x | 0 <= x < lay.width :: lay.xOffset[x] <= xMax
    requires forall y | 0 <= y < lay.height :: lay.yOffset[y] <= yMax
    requires TileBase(lay, lay.total - 1) + (pMax + xMax + yMax) / 8 < n
    ensures ReadsInside(lay, n)
  {
    forall t, p, x, y | 0 <= t < lay.total && 0 <= p < lay.planes && 0 <= x < lay.width && 0 <= y < lay.height
      ensures ByteIndex(lay, t, p, x, y) < n
    {
      Bits.MulMonotone(lay.total - 1, t, lay.charIncrement / 8);
      assert BitOffset(lay, p, x, y) / 8 <= (pMax + xMax + yMax) / 8;
    }
  }

  /** The largest column and row offsets of the 32x32 tile layouts. */
  lemma TileOffsetBounds()
    ensures forall x | 0 <= x < 32 :: TileXOffsets[x] <= 193 * 8 + 3
    ensures forall y | 0 <= y < 32 :: TileYOffsets[y] <= 31 * 16
    ensures TileXOffsets[31] == 193 * 8 + 3 && TileYOffsets[31] == 31 * 16
  {
  }

  /** The largest column and row offsets of the 16x16 sprite layout. */
  lemma SpriteOffsetBounds()
    ensures forall x | 0 <= x < 16 :: SprLayout1943.xOffset[x] <= 33 * 8 + 3
    ensures forall y | 0 <= y < 16 :: SprLayout1943.yOffset[y] <= 15 * 16
    ensures SprLayout1943.xOffset[15] == 33 * 8 + 3 && SprLayout1943.yOffset[15] == 15 * 16
  {
  }

  /** The largest column and row offsets of the 8x8 character layouts. */
  lemma CharOffsetBounds()
    ensures forall x | 0 <= x < 8 :: ChrLayout1943.xOffset[x] <= 8 + 3 && ChrLayoutGs.xOffset[x] <= 8 + 3
    ensures forall y | 0 <= y < 8 :: ChrLayout1943.yOffset[y] <= 7 * 16 && ChrLayoutGs.yOffset[y] <= 7 * 16
    ensures ChrLayout1943.planeOffset[0] == 4 && ChrLayout1943.xOffset[7] == 8 + 3 && ChrLayout1943.yOffset[7] == 7 * 16
    ensures ChrLayoutGs.planeOffset[0] == 4 && ChrLayoutGs.xOffset[7] == 8 + 3 && ChrLayoutGs.yOffset[7] == 7 * 16
  {
  }

  /** `chrlayout_1943`: 32 KB in, the last byte read is the last byte loaded, 0x10000 bytes out. */
  lemma ChrLayout1943Fits(src: seq<bv8>)
    ensures ValidLayout(ChrLayout1943)
    ensures ReadsInside(ChrLayout1943, 0x8000)
    ensures ByteIndex(ChrLayout1943, 2047, 0, 7, 7) == 0x8000 - 1
    ensures 2 * |Converted(ChrLayout1943, src)| == 0x10000
  {
    assert BitOffset(ChrLayout1943, 0, 7, 7) == 4 + 11 + 7 * 16;
    assert TileBase(ChrLayout1943, 2047) == 2047 * 16;
    CharOffsetBounds();
    ReadsInsideByBounds(ChrLayout1943, 0x8000, 4, 11, 112);
    TilesUpToLength(ChrLayout1943, src, 2048);
  }

  /** `chrlayout_gs`: 16 KB in, the last byte read is the last byte loaded, 0x8000 bytes out. */
  lemma ChrLayoutGsFits(src: seq<bv8>)
    ensures ValidLayout(ChrLayoutGs)
    ensures ReadsInside(ChrLayoutGs, 0x4000)
    ensures ByteIndex(ChrLayoutGs, 1023, 0, 7, 7) == 0x4000 - 1
    ensures 2 * |Converted(ChrLayoutGs, src)| == 0x8000
  {
    assert BitOffset(ChrLayoutGs, 0, 7, 7) == 4 + 11 + 7 * 16;
    assert TileBase(ChrLayoutGs, 1023) == 1023 * 16;
    CharOffsetBounds();
    ReadsInsideByBounds(ChrLayoutGs, 0x4000, 4, 11, 112);
    TilesUpToLength(ChrLayoutGs, src, 1024);
  }

  /** `fgnlayout`: 256 KB in, the last byte read is the last byte loaded, 0x40000 bytes out. */
  lemma FgnLayoutFits(src: seq<bv8>)
    ensures ValidLayout(FgnLayout)
    ensures ReadsInside(FgnLayout, 0x40000)
    ensures ByteIndex(FgnLayout, 511, 0, 31, 31) == 0x40000 - 1
    ensures 2 * |Converted(FgnLayout, src)| == 0x40000
  {
    assert BitOffset(FgnLayout, 0, 31, 31) == 512 * 256 * 8 + 4 + 193 * 8 + 3 + 31 * 16;
    assert TileBase(FgnLayout, 511) == 511 * 256;
    TileOffsetBounds();
    ReadsInsideByBounds(FgnLayout, 0x40000, 512 * 256 * 8 + 4, 193 * 8 + 3, 31 * 16);
    TilesUpToLength(FgnLayout, src, 512);
  }

  /** `bgnlayout`: 64 KB in, the last byte read is the last byte loaded, 0x10000 bytes out. */
  lemma BgnLayoutFits(src: seq<bv8>)
    ensures ValidLayout(BgnLayout)
    ensures ReadsInside(BgnLayout, 0x10000)
    ensures ByteIndex(BgnLayout, 127, 0, 31, 31) == 0x10000 - 1
    ensures 2 * |Converted(BgnLayout, src)| == 0x10000
  {
    assert BitOffset(BgnLayout, 0, 31, 31) == 128 * 256 * 8 + 4 + 193 * 8 + 3 + 31 * 16;
    assert TileBase(BgnLayout, 127) == 127 * 256;
    TileOffsetBounds();
    ReadsInsideByBounds(BgnLayout, 0x10000, 128 * 256 * 8 + 4, 193 * 8 + 3, 31 * 16);
    TilesUpToLength(BgnLayout, src, 128);
  }

  /** `sprlayout_1943`: 256 KB in, the last byte read is the last byte loaded, 0x40000 bytes out. */
  lemma SprLayout1943Fits(src: seq<bv8>)
    ensures ValidLayout(SprLayout1943)
    ensures ReadsInside(SprLayout1943, 0x40000)
    ensures ByteIndex(SprLayout1943, 2047, 0, 15, 15) == 0x40000 - 1
    ensures 2 * |Converted(SprLayout1943, src)| == 0x40000
  {
    assert BitOffset(SprLayout1943, 0, 15, 15) == 2048 * 64 * 8 + 4 + 33 * 8 + 3 + 15 * 16;
    assert TileBase(SprLayout1943, 2047) == 2047 * 64;
    SpriteOffsetBounds();
    ReadsInsideByBounds(SprLayout1943, 0x40000, 2048 * 64 * 8 + 4, 33 * 8 + 3, 15 * 16);
    TilesUpToLength(SprLayout1943, src, 2048);
  }
}
