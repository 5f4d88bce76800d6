/**
  Average colour of a rectangle of a raw pixel buffer (Grab::Calculations).

  The sums the averager accumulates are specified by RowSum and RectSum, which
  add one sample per pixel; the methods add four pixels per step, as the
  unrolled loops of the source do, and are proved equal to those sums.
 */
module Calculations {
  import opened Types

  /** The pixel layouts the averager knows; Unsupported stands for every other BufferFormat value. */
  datatype BufferFormat = Argb | Abgr | Rgba | Bgra | Rgb565 | Unsupported

  datatype Channel = Red | Green | Blue

  predicate IsFourByte(f: BufferFormat) {
    f == Argb || f == Abgr || f == Rgba || f == Bgra
  }

  function BytesPerPixel(f: BufferFormat): nat {
    if f == Rgb565 then 2 else 4
  }

  /** Where each channel sits inside a four-byte pixel. */
  function ChannelOffset(f: BufferFormat, ch: Channel): (off: nat)
    requires IsFourByte(f)
    ensures off < 4
  {
    match f
    case Argb => (match ch case Blue => 0 case Green => 1 case Red => 2)
    case Abgr => (match ch case Red => 0 case Green => 1 case Blue => 2)
    case Rgba => (match ch case Blue => 1 case Green => 2 case Red => 3)
    case Bgra => (match ch case Red => 1 case Green => 2 case Blue => 3)
  }

  // RGB565 decode of a little-endian pixel (lo, hi), the source's _565R, _565G
  // and _565B macros. On bytes their bit operations are arithmetic: x & 0xF8
  // clears the three low bits (x - x % 8), (x << 3) & 0x38 is (x % 8) * 8,
  // (x >> 5) & 0x07 is x / 32, the OR joins disjoint bits (a sum), << 2 and
  // << 3 multiply by 4 and 8, and (x & 0x1F) is x % 32.

  function Red565(lo: Byte, hi: Byte): Byte {
    hi - hi % 8
  }

  function Green565(lo: Byte, hi: Byte): Byte {
    ((hi % 8) * 8 + lo / 32) * 4
  }

  function Blue565(lo: Byte, hi: Byte): Byte {
    (lo % 32) * 8
  }

  /**
    The decoders read the 5-6-5 bit fields of the 16-bit word hi:lo (red in
    bits 11-15, green in bits 5-10, blue in bits 0-4) and scale each to eight
    bits: red and blue by 8, green by 4.
   */
  lemma Rgb565Fields(lo: Byte, hi: Byte)
    ensures var p := hi * 256 + lo;
      && Red565(lo, hi) == (p / 2048) * 8
      && Green565(lo, hi) == ((p / 32) % 64) * 4
      && Blue565(lo, hi) == (p % 32) * 8
  {
    var p := hi * 256 + lo;
    assert p / 2048 == hi / 8;
    assert p / 32 == hi * 8 + lo / 32;
    assert (hi * 8 + lo / 32) % 64 == (hi % 8) * 8 + lo / 32;
    assert p % 32 == lo % 32;
  }

  /** The byte at position i, or 0 outside the buffer (the methods never read there). */
  function ByteAt(buf: seq<Byte>, i: int): Byte {
    if 0 <= i < |buf| then buf[i] else 0
  }

  /** The sum of n bytes taken every fourth byte from q: one channel of n consecutive four-byte pixels. */
  function ByteSum(buf: seq<Byte>, q: int, n: nat): nat
    decreases n
  {
    if n == 0 then 0 else ByteAt(buf, q) + ByteSum(buf, q + 4, n - 1)
  }

  /** The channel ch of an RGB565 pixel given its two bytes. */
  function Decode565(ch: Channel, lo: Byte, hi: Byte): Byte {
    (match ch
     case Red => Red565(lo, hi)
     case Green => Green565(lo, hi)
     case Blue => Blue565(lo, hi))
  }

  /** The sum of channel ch over n consecutive RGB565 pixels, the first of which starts at byte p. */
  function Sum565(buf: seq<Byte>, ch: Channel, p: int, n: nat): nat
    decreases n
  {
    if n == 0 then 0 else Decode565(ch, ByteAt(buf, p), ByteAt(buf, p + 1)) + Sum565(buf, ch, p + 2, n - 1)
  }

  /** The sum of channel ch over n pixels of a row, the first of which starts at byte p; nothing for an unknown layout. */
  function RowSum(buf: seq<Byte>, f: BufferFormat, ch: Channel, p: int, n: nat): nat {
    if IsFourByte(f) then ByteSum(buf, p + ChannelOffset(f, ch), n)
    else if f == Rgb565 then Sum565(buf, ch, p, n)
    else 0
  }

  /** The sum of channel ch over `rows` rows of w pixels, the first row starting at byte p, one row every pitch bytes. */
  function RectSum(buf: seq<Byte>, f: BufferFormat, ch: Channel, pitch: nat, p: int, w: nat, rows: nat): nat
    decreases rows
  {
    if rows == 0 then 0
    else RowSum(buf, f, ch, p, w) + RectSum(buf, f, ch, pitch, p + pitch, w, rows - 1)
  }

  /** First byte of row `row` of the rectangle: pitch * (y + row) + x * bytesPerPixel. */
  function RowStart(f: BufferFormat, pitch: nat, rect: Rect, row: int): int {
    pitch * (rect.y + row) + rect.x * BytesPerPixel(f)
  }

  /** The sum of channel ch over every pixel of the rectangle. */
  function ChannelSum(buf: seq<Byte>, f: BufferFormat, ch: Channel, pitch: nat, rect: Rect): nat {
    RectSum(buf, f, ch, pitch, RowStart(f, pitch, rect, 0), Max0(rect.width), Max0(rect.height))
  }

  /** Number of pixels of the rectangle; a negative side counts as zero. */
  function Area(rect: Rect): nat {
    Max0(rect.width) * Max0(rect.height)
  }

  /** v is the mean of n values adding up to sum, rounded down. */
  predicate IsFloorMean(v: int, sum: int, n: int) {
    v * n <= sum < (v + 1) * n
  }

  /** v is the mean of n values adding up to sum, rounded to nearest with halves going up. */
  predicate IsRoundedMean(v: int, sum: int, n: int) {
    (2 * v - 1) * n <= 2 * sum < (2 * v + 1) * n
  }

  /**
    What calculateAvgColor stores in *result: each channel sum divided by the
    pixel count and truncated, masked with 0xff; with no pixel the sums
    themselves, which are then zero.
   */
  function AverageColor(buf: seq<Byte>, f: BufferFormat, pitch: nat, rect: Rect): Rgb {
    var count := Area(rect);
    MakeRgb(TruncatedMean(ChannelSum(buf, f, Red, pitch, rect), count),
            TruncatedMean(ChannelSum(buf, f, Green, pitch, rect), count),
            TruncatedMean(ChannelSum(buf, f, Blue, pitch, rect), count))
  }

  /** One channel of calculateAvgColor: divided and masked when more than one pixel was added, else left alone. */
  function TruncatedMean(sum: nat, count: nat): nat {
    if count > 1 then (sum / count) % 256 else sum
  }

  /** Every byte the averager reads lies inside a buffer of `len` bytes. */
  predicate Covers(len: nat, pitch: nat, rect: Rect, bpp: nat) {
    rect.width <= 0 || rect.height <= 0 ||
    (rect.x >= 0 && rect.y >= 0 &&
     pitch * (rect.y + rect.height - 1) + (rect.x + rect.width) * bpp <= len)
  }

  // ---------------------------------------------------------------------------
  // Arithmetic

  lemma MulLeftMono(a: nat, b: int, c: int)
    requires b <= c
    ensures a * b <= a * c
  {
  }

  lemma MulSucc(a: int, b: int)
    ensures a * (b + 1) == a * b + a
    ensures (b + 1) * a == b * a + a
  {
  }

  lemma MulPred(a: int, n: int)
    ensures a * n == a * (n - 1) + a
    ensures n * a == (n - 1) * a + a
  {
  }

  /** The next row of the rectangle starts pitch bytes further on. */
  lemma RowStartNext(f: BufferFormat, pitch: nat, rect: Rect, row: int)
    ensures RowStart(f, pitch, rect, row + 1) == RowStart(f, pitch, rect, row) + pitch
  {
    assert pitch * (rect.y + (row + 1)) == pitch * (rect.y + row) + pitch by {
      MulSucc(pitch, rect.y + row);
    }
  }

  /** A positive multiple of four is at least four. */
  lemma PositiveMultipleOfFour(left: int, quads: int)
    requires left == 4 * quads && left > 0
    ensures left >= 4
  {
  }

  lemma FloorMeanOf(sum: nat, n: nat)
    requires n > 0
    ensures IsFloorMean(sum / n, sum, n)
  {
  }

  /** The truncated mean is the only value within one step of the sum. */
  lemma FloorMeanUnique(sum: nat, n: nat, v: int)
    requires n > 0 && IsFloorMean(v, sum, n)
    ensures sum / n == v
  {
    var q := sum / n;
    FloorMeanOf(sum, n);
    if q < v {
      MulLeftMono(n, q + 1, v);
      assert false;
    }
    if q > v {
      MulLeftMono(n, v + 1, q);
      assert false;
    }
  }

  /** A sum of n values below 256 has a truncated mean below 256, so masking it with 0xff changes nothing. */
  lemma FloorMeanIsByte(sum: nat, n: nat)
    requires n > 0 && sum <= 255 * n
    ensures sum / n < 256
  {
    var q := sum / n;
    FloorMeanOf(sum, n);
    if q >= 256 {
      MulLeftMono(n, 256, q);
      assert false;
    }
  }

  /** Every row of a covered rectangle lies inside the buffer. */
  lemma RowFits(len: nat, f: BufferFormat, pitch: nat, rect: Rect, row: int)
    requires Covers(len, pitch, rect, BytesPerPixel(f))
    requires rect.width > 0 && 0 <= row < rect.height
    ensures 0 <= RowStart(f, pitch, rect, row)
    ensures RowStart(f, pitch, rect, row) + rect.width * BytesPerPixel(f) <= len
  {
    MulLeftMono(pitch, rect.y + row, rect.y + rect.height - 1);
    MulLeftMono(pitch, 0, rect.y + row);
  }

  // ---------------------------------------------------------------------------
  // Facts about the sums

  /** The channel at offset o of four consecutive four-byte pixels from byte index, as the unrolled loop adds it. */
  function Quad(buf: seq<Byte>, index: int, o: int): nat
    requires 0 <= index && 0 <= o && index + 12 + o < |buf|
  {
    buf[index + o] as int + buf[index + 4 + o] + buf[index + 8 + o] + buf[index + 12 + o]
  }

  /** The channel ch of four consecutive RGB565 pixels from byte index, as the unrolled loop adds it. */
  function Quad565(buf: seq<Byte>, ch: Channel, index: int): nat
    requires 0 <= index && index + 7 < |buf|
  {
    Decode565(ch, buf[index], buf[index + 1]) as int + Decode565(ch, buf[index + 2], buf[index + 3])
    + Decode565(ch, buf[index + 4], buf[index + 5]) + Decode565(ch, buf[index + 6], buf[index + 7])
  }

  /** The first four pixels of a four-byte run are what one unrolled step adds; the rest starts sixteen bytes on. */
  lemma QuadStep(buf: seq<Byte>, index: int, o: nat, n: nat)
    requires n >= 4 && 0 <= index && o < 4 && index + 16 <= |buf|
    ensures ByteSum(buf, index + o, n) == Quad(buf, index, o) + ByteSum(buf, index + 16 + o, n - 4)
  {
    assert ByteSum(buf, index + o, n) == buf[index + o] + ByteSum(buf, index + 4 + o, n - 1);
    assert ByteSum(buf, index + 4 + o, n - 1) == buf[index + 4 + o] + ByteSum(buf, index + 8 + o, n - 2);
    assert ByteSum(buf, index + 8 + o, n - 2) == buf[index + 8 + o] + ByteSum(buf, index + 12 + o, n - 3);
    assert ByteSum(buf, index + 12 + o, n - 3) == buf[index + 12 + o] + ByteSum(buf, index + 16 + o, n - 4);
  }

  /** The first four pixels of an RGB565 run are what one unrolled step adds; the rest starts eight bytes on. */
  lemma Quad565Step(buf: seq<Byte>, ch: Channel, index: int, n: nat)
    requires n >= 4 && 0 <= index && index + 8 <= |buf|
    ensures Sum565(buf, ch, index, n) == Quad565(buf, ch, index) + Sum565(buf, ch, index + 8, n - 4)
  {
    assert Sum565(buf, ch, index, n) == Decode565(ch, buf[index], buf[index + 1]) + Sum565(buf, ch, index + 2, n - 1);
    assert Sum565(buf, ch, index + 2, n - 1) == Decode565(ch, buf[index + 2], buf[index + 3]) + Sum565(buf, ch, index + 4, n - 2);
    assert Sum565(buf, ch, index + 4, n - 2) == Decode565(ch, buf[index + 4], buf[index + 5]) + Sum565(buf, ch, index + 6, n - 3);
    assert Sum565(buf, ch, index + 6, n - 3) == Decode565(ch, buf[index + 6], buf[index + 7]) + Sum565(buf, ch, index + 8, n - 4);
  }

  lemma {:induction false} ByteSumBound(buf: seq<Byte>, q: int, n: nat)
    ensures ByteSum(buf, q, n) <= 255 * n
    decreases n
  {
    if n > 0 {
      ByteSumBound(buf, q + 4, n - 1);
    }
  }

  lemma {:induction false} Sum565Bound(buf: seq<Byte>, ch: Channel, p: int, n: nat)
    ensures Sum565(buf, ch, p, n) <= 255 * n
    decreases n
  {
    if n > 0 {
      Sum565Bound(buf, ch, p + 2, n - 1);
    }
  }

  /** A row of n pixels adds up to at most 255 per pixel in every channel. */
  lemma RowSumBound(buf: seq<Byte>, f: BufferFormat, ch: Channel, p: int, n: nat)
    ensures RowSum(buf, f, ch, p, n) <= 255 * n
  {
    if IsFourByte(f) {
      ByteSumBound(buf, p + ChannelOffset(f, ch), n);
    } else if f == Rgb565 {
      Sum565Bound(buf, ch, p, n);
    }
  }

  lemma {:induction false} RectSumBound(buf: seq<Byte>, f: BufferFormat, ch: Channel, pitch: nat, p: int, w: nat, rows: nat)
    ensures RectSum(buf, f, ch, pitch, p, w, rows) <= 255 * (w * rows)
    decreases rows
  {
    if rows > 0 {
      RectSumBound(buf, f, ch, pitch, p + pitch, w, rows - 1);
      RowSumBound(buf, f, ch, p, w);
      MulSucc(w, rows - 1);
    }
  }

  lemma {:induction false} RectSumOfEmptyRows(buf: seq<Byte>, f: BufferFormat, ch: Channel, pitch: nat, p: int, rows: nat)
    ensures RectSum(buf, f, ch, pitch, p, 0, rows) == 0
    decreases rows
  {
    if rows > 0 {
      RectSumOfEmptyRows(buf, f, ch, pitch, p + pitch, rows - 1);
    }
  }

  /** A rectangle with no pixel has zero sums. */
  lemma EmptyRectSums(buf: seq<Byte>, f: BufferFormat, ch: Channel, pitch: nat, rect: Rect)
    requires Area(rect) == 0
    ensures ChannelSum(buf, f, ch, pitch, rect) == 0
  {
    if Max0(rect.width) == 0 {
      RectSumOfEmptyRows(buf, f, ch, pitch, RowStart(f, pitch, rect, 0), Max0(rect.height));
    } else {
      assert Max0(rect.height) == 0;
    }
  }

  /** For a sum of count bytes the masked mean is the plain truncated mean. */
  lemma TruncatedMeanIsMean(sum: nat, count: nat)
    requires count > 0 && sum <= 255 * count
    ensures TruncatedMean(sum, count) == sum / count
    ensures TruncatedMean(sum, count) < 256
    ensures IsFloorMean(TruncatedMean(sum, count), sum, count)
  {
    ByteMean(sum, count);
  }

  lemma AverageChannel(buf: seq<Byte>, f: BufferFormat, ch: Channel, pitch: nat, rect: Rect)
    requires Area(rect) > 0
    ensures IsFloorMean(Component(AverageColor(buf, f, pitch, rect), ch), ChannelSum(buf, f, ch, pitch, rect), Area(rect))
  {
    var s := ChannelSum(buf, f, ch, pitch, rect);
    RectSumBound(buf, f, ch, pitch, RowStart(f, pitch, rect, 0), Max0(rect.width), Max0(rect.height));
    TruncatedMeanIsMean(s, Area(rect));
    var q := TruncatedMean(s, Area(rect));
    assert MakeRgb(q, q, q).red == q;
    assert Component(AverageColor(buf, f, pitch, rect), ch) == q by {
      match ch
      case Red => assert AverageColor(buf, f, pitch, rect).red == q;
      case Green => assert AverageColor(buf, f, pitch, rect).green == q;
      case Blue => assert AverageColor(buf, f, pitch, rect).blue == q;
    }
  }

  /**
    What calculateAvgColor computes: for a rectangle with pixels, each channel
    of the result is the channel's mean over all pixels, rounded down; for an
    empty rectangle the result is opaque black.
   */
  lemma AverageColorIsMean(buf: seq<Byte>, f: BufferFormat, pitch: nat, rect: Rect)
    ensures var c := AverageColor(buf, f, pitch, rect);
      && c.alpha == 0xFF
      && (Area(rect) == 0 ==> IsBlack(c))
      && (Area(rect) > 0 ==>
            && IsFloorMean(c.red, ChannelSum(buf, f, Red, pitch, rect), Area(rect))
            && IsFloorMean(c.green, ChannelSum(buf, f, Green, pitch, rect), Area(rect))
            && IsFloorMean(c.blue, ChannelSum(buf, f, Blue, pitch, rect), Area(rect)))
  {
    if Area(rect) == 0 {
      EmptyRectSums(buf, f, Red, pitch, rect);
      EmptyRectSums(buf, f, Green, pitch, rect);
      EmptyRectSums(buf, f, Blue, pitch, rect);
    } else {
      AverageChannel(buf, f, Red, pitch, rect);
      AverageChannel(buf, f, Green, pitch, rect);
      AverageChannel(buf, f, Blue, pitch, rect);
    }
  }

  // ---------------------------------------------------------------------------
  // Uniform buffers

  /** The channel value every pixel of a buffer filled with byte v has. */
  function UniformSample(f: BufferFormat, ch: Channel, v: Byte): nat {
    if IsFourByte(f) then v
    else if f == Rgb565 then Decode565(ch, v, v)
    else 0
  }

  predicate Filled(buf: seq<Byte>, v: Byte) {
    forall i :: 0 <= i < |buf| ==> buf[i] == v
  }

  lemma {:induction false} ByteSumUniform(buf: seq<Byte>, v: Byte, q: int, n: nat)
    requires Filled(buf, v)
    requires 0 <= q && (n > 0 ==> q + 4 * (n - 1) < |buf|)
    ensures ByteSum(buf, q, n) == n * v
    decreases n
  {
    if n > 0 {
      ByteSumUniform(buf, v, q + 4, n - 1);
      MulPred(v, n);
    }
  }

  lemma {:induction false} Sum565Uniform(buf: seq<Byte>, v: Byte, ch: Channel, p: int, n: nat)
    requires Filled(buf, v)
    requires 0 <= p && p + 2 * n <= |buf|
    ensures Sum565(buf, ch, p, n) == n * Decode565(ch, v, v)
    decreases n
  {
    if n > 0 {
      Sum565Uniform(buf, v, ch, p + 2, n - 1);
      MulPred(Decode565(ch, v, v), n);
    }
  }

  /** A row inside a buffer filled with byte v adds up to n times the channel value of one pixel. */
  lemma RowSumUniform(buf: seq<Byte>, f: BufferFormat, ch: Channel, v: Byte, p: int, n: nat)
    requires Filled(buf, v)
    requires 0 <= p && p + n * BytesPerPixel(f) <= |buf|
    ensures RowSum(buf, f, ch, p, n) == n * UniformSample(f, ch, v)
  {
    if IsFourByte(f) {
      ByteSumUniform(buf, v, p + ChannelOffset(f, ch), n);
    } else if f == Rgb565 {
      Sum565Uniform(buf, v, ch, p, n);
    }
  }

  /**
    Every row of a buffer filled with byte v adds up to rowTotal, the row's
    width times one pixel's channel value, so the rectangle adds up to rows
    times that. span is the byte length of one row.
   */
  lemma {:induction false} RectSumUniform(buf: seq<Byte>, f: BufferFormat, ch: Channel, v: Byte, pitch: nat, p: int, w: nat, rows: nat,
                                          span: nat, rowTotal: nat)
    requires Filled(buf, v)
    requires span == w * BytesPerPixel(f) && rowTotal == w * UniformSample(f, ch, v)
    requires rows > 0 ==> 0 <= p && p + pitch * (rows - 1) + span <= |buf|
    ensures RectSum(buf, f, ch, pitch, p, w, rows) == rows * rowTotal
    decreases rows
  {
    if rows > 0 {
      assert p + span <= |buf| && (rows > 1 ==> p + pitch + pitch * (rows - 2) + span <= |buf|) by {
        MulPred(pitch, rows - 1);
        MulLeftMono(pitch, 0, rows - 1);
      }
      RectSumUniform(buf, f, ch, v, pitch, p + pitch, w, rows - 1, span, rowTotal);
      RowSumUniform(buf, f, ch, v, p, w);
      MulPred(rowTotal, rows);
    }
  }

  /**
    A buffer filled with byte v averages to (v, v, v) in every four-byte
    layout, and to the decoded (v, v) pair in RGB565, over any covered
    rectangle with at least one pixel.
   */
  lemma UniformAverage(buf: seq<Byte>, f: BufferFormat, v: Byte, pitch: nat, rect: Rect)
    requires Filled(buf, v)
    requires Covers(|buf|, pitch, rect, BytesPerPixel(f))
    requires Area(rect) > 0
    ensures AverageColor(buf, f, pitch, rect) ==
      MakeRgb(UniformSample(f, Red, v), UniformSample(f, Green, v), UniformSample(f, Blue, v))
  {
    var w, h := rect.width, rect.height;
    assert w > 0 && h > 0;
    var p := RowStart(f, pitch, rect, 0);
    RowFits(|buf|, f, pitch, rect, 0);
    MulSucc(pitch, rect.y + h - 1 - 1);
    assert pitch * (rect.y + h - 1) == pitch * rect.y + pitch * (h - 1) by {
      MulDistrib(pitch, rect.y, h - 1);
    }
    forall ch: Channel
      ensures ChannelSum(buf, f, ch, pitch, rect) / Area(rect) == UniformSample(f, ch, v)
      ensures UniformSample(f, ch, v) < 256
    {
      var u := UniformSample(f, ch, v);
      RectSumUniform(buf, f, ch, v, pitch, p, w, h, w * BytesPerPixel(f), w * u);
      assert h * (w * u) == u * Area(rect) by { MulAssoc(h, w, u); }
      FloorMeanUnique(ChannelSum(buf, f, ch, pitch, rect), Area(rect), u) by {
        MulSucc(Area(rect), u);
      }
    }
  }

  lemma MulDistrib(a: int, b: int, c: int)
    ensures a * (b + c) == a * b + a * c
  {
  }

  lemma MulAssoc(a: int, b: int, c: int)
    ensures a * (b * c) == c * (b * a)
  {
  }

  /** A 4x1 ARGB window over sixteen bytes set to 0xFA averages to (0xFA, 0xFA, 0xFA). */
  lemma ArgbFilledExample(buf: seq<Byte>)
    requires |buf| == 16 && Filled(buf, 0xFA)
    ensures AverageColor(buf, Argb, 16, Rect(0, 0, 4, 1)) == MakeRgb(0xFA, 0xFA, 0xFA)
  {
    var u := UniformSample(Argb, Red, 0xFA);
    assert u == UniformSample(Argb, Green, 0xFA) == UniformSample(Argb, Blue, 0xFA) == 0xFA;
    assert AverageColor(buf, Argb, 16, Rect(0, 0, 4, 1)) == MakeRgb(u, u, u) by {
      assert Covers(|buf|, 16, Rect(0, 0, 4, 1), 4);
      UniformAverage(buf, Argb, 0xFA, 16, Rect(0, 0, 4, 1));
    }
  }

  /** An 8x1 RGB565 window over sixteen bytes set to 0xFA averages to (248, 92, 208). */
  lemma Rgb565FilledExample(buf: seq<Byte>)
    requires |buf| == 16 && Filled(buf, 0xFA)
    ensures AverageColor(buf, Rgb565, 16, Rect(0, 0, 8, 1)) == MakeRgb(248, 92, 208)
  {
    UniformAverage(buf, Rgb565, 0xFA, 16, Rect(0, 0, 8, 1));
  }

  // ---------------------------------------------------------------------------
  // The averager

  /** The inner loop of a four-byte layout: the channel sums of one row of w pixels from byte start, four pixels per step. */
  method AccumulateRowFourByte(buffer: seq<Byte>, format: BufferFormat, start: nat, w: nat)
    returns (r: nat, g: nat, b: nat)
    requires IsFourByte(format) && w % 4 == 0
    requires start + w * 4 <= |buffer|
    ensures r == RowSum(buffer, format, Red, start, w)
    ensures g == RowSum(buffer, format, Green, start, w)
    ensures b == RowSum(buffer, format, Blue, start, w)
  {
    var ro, go, bo := ChannelOffset(format, Red), ChannelOffset(format, Green), ChannelOffset(format, Blue);
    r, g, b := 0, 0, 0;
    var index := start;
    var currentX := 0;
    ghost var left: nat := w;
    ghost var quads: nat := w / 4;
    while currentX < w
      invariant 0 <= currentX <= w
      invariant left == w - currentX && left == 4 * quads && index == start + currentX * 4
      invariant r + ByteSum(buffer, index + ro, left) == ByteSum(buffer, start + ro, w)
      invariant g + ByteSum(buffer, index + go, left) == ByteSum(buffer, start + go, w)
      invariant b + ByteSum(buffer, index + bo, left) == ByteSum(buffer, start + bo, w)
    {
      PositiveMultipleOfFour(left, quads);
      assert index + 16 <= |buffer|;
      b := b + Quad(buffer, index, bo);
      g := g + Quad(buffer, index, go);
      r := r + Quad(buffer, index, ro);
      QuadStep(buffer, index, ro, left);
      QuadStep(buffer, index, go, left);
      QuadStep(buffer, index, bo, left);
      index := index + 4 * 4;
      currentX := currentX + 4;
      left, quads := left - 4, quads - 1;
    }
  }

  /** The inner loop of RGB565: the channel sums of one row of w pixels from byte start, four pixels per step. */
  method AccumulateRowRgb565(buffer: seq<Byte>, start: nat, w: nat)
    returns (r: nat, g: nat, b: nat)
    requires w % 4 == 0
    requires start + w * 2 <= |buffer|
    ensures r == RowSum(buffer, Rgb565, Red, start, w)
    ensures g == RowSum(buffer, Rgb565, Green, start, w)
    ensures b == RowSum(buffer, Rgb565, Blue, start, w)
  {
    r, g, b := 0, 0, 0;
    var index := start;
    var currentX := 0;
    ghost var left: nat := w;
    ghost var quads: nat := w / 4;
    while currentX < w
      invariant 0 <= currentX <= w
      invariant left == w - currentX && left == 4 * quads && index == start + currentX * 2
      invariant r + Sum565(buffer, Red, index, left) == Sum565(buffer, Red, start, w)
      invariant g + Sum565(buffer, Green, index, left) == Sum565(buffer, Green, start, w)
      invariant b + Sum565(buffer, Blue, index, left) == Sum565(buffer, Blue, start, w)
    {
      PositiveMultipleOfFour(left, quads);
      assert index + 8 <= |buffer|;
      b := b + Quad565(buffer, Blue, index);
      g := g + Quad565(buffer, Green, index);
      r := r + Quad565(buffer, Red, index);
      Quad565Step(buffer, Red, index, left);
      Quad565Step(buffer, Green, index, left);
      Quad565Step(buffer, Blue, index, left);
      index := index + 2 * 4;
      currentX := currentX + 4;
      left, quads := left - 4, quads - 1;
    }
  }

  /**
    The two nested loops of calculateAvgColor for a supported layout: the
    three channel sums over the rectangle and the number of pixels added.
   */
  method Accumulate(buffer: seq<Byte>, format: BufferFormat, pitch: nat, rect: Rect)
    returns (r: nat, g: nat, b: nat, count: nat)
    requires format != Unsupported
    requires rect.width % 4 == 0
    requires Covers(|buffer|, pitch, rect, BytesPerPixel(format))
    ensures r == ChannelSum(buffer, format, Red, pitch, rect)
    ensures g == ChannelSum(buffer, format, Green, pitch, rect)
    ensures b == ChannelSum(buffer, format, Blue, pitch, rect)
    ensures count == Area(rect)
  {
    var w, h := Max0(rect.width), Max0(rect.height);
    var bpp := BytesPerPixel(format);
    r, g, b, count := 0, 0, 0, 0;
    var currentY := 0;
    while currentY < rect.height
      invariant 0 <= currentY <= h
      invariant r + RectSum(buffer, format, Red, pitch, RowStart(format, pitch, rect, currentY), w, h - currentY) == ChannelSum(buffer, format, Red, pitch, rect)
      invariant g + RectSum(buffer, format, Green, pitch, RowStart(format, pitch, rect, currentY), w, h - currentY) == ChannelSum(buffer, format, Green, pitch, rect)
      invariant b + RectSum(buffer, format, Blue, pitch, RowStart(format, pitch, rect, currentY), w, h - currentY) == ChannelSum(buffer, format, Blue, pitch, rect)
      invariant count == w * currentY
    {
      var index := RowStart(format, pitch, rect, currentY);
      var rowR: nat, rowG: nat, rowB: nat := 0, 0, 0;
      if rect.width > 0 {
        assert 0 <= index && index + w * bpp <= |buffer| by {
          RowFits(|buffer|, format, pitch, rect, currentY);
        }
        if format == Rgb565 {
          rowR, rowG, rowB := AccumulateRowRgb565(buffer, index, w);
        } else {
          rowR, rowG, rowB := AccumulateRowFourByte(buffer, format, index, w);
        }
      }
      r, g, b := r + rowR, g + rowG, b + rowB;
      count := count + w;
      assert count == w * (currentY + 1) by { MulSucc(w, currentY); }
      RowStartNext(format, pitch, rect, currentY);
      currentY := currentY + 1;
    }
  }

  /**
    calculateAvgColor: status 0 and the truncated mean colour for a supported
    layout; status -1 and nothing written for any other layout.
   */
  method CalculateAvgColor(buffer: seq<Byte>, format: BufferFormat, pitch: nat, rect: Rect)
    returns (status: int, result: Option<Rgb>)
    requires rect.width % 4 == 0
    requires Covers(|buffer|, pitch, rect, BytesPerPixel(format))
    ensures format == Unsupported <==> status == -1
    ensures format != Unsupported <==> status == 0
    ensures format == Unsupported ==> result == None
    ensures format != Unsupported ==> result == Some(AverageColor(buffer, format, pitch, rect))
  {
    if format == Unsupported {
      return -1, None;
    }
    var r, g, b, count := Accumulate(buffer, format, pitch, rect);
    status, result := 0, Some(MakeRgb(TruncatedMean(r, count), TruncatedMean(g, count), TruncatedMean(b, count)));
  }

  // ---------------------------------------------------------------------------
  // Mean of a colour list

  function Component(c: Rgb, ch: Channel): Byte {
    match ch
    case Red => c.red
    case Green => c.green
    case Blue => c.blue
  }

  /** Sum of one channel over a list of colours. */
  function ListSum(colors: seq<Rgb>, ch: Channel): nat
    decreases |colors|
  {
    if colors == [] then 0
    else ListSum(colors[..|colors| - 1], ch) + Component(colors[|colors| - 1], ch)
  }

  lemma {:induction false} ListSumBound(colors: seq<Rgb>, ch: Channel)
    ensures ListSum(colors, ch) <= 255 * |colors|
  {
    if colors != [] {
      ListSumBound(colors[..|colors| - 1], ch);
    }
  }

  /** The colour whose channels are the truncated means of the list's channels. */
  function ListMean(colors: seq<Rgb>): Rgb
    requires |colors| > 0
  {
    var n := |colors|;
    MakeRgb(ListSum(colors, Red) / n, ListSum(colors, Green) / n, ListSum(colors, Blue) / n)
  }

  /** A sum of n bytes has a truncated mean that is itself a byte and satisfies IsFloorMean. */
  lemma ByteMean(sum: nat, n: nat)
    requires n > 0 && sum <= 255 * n
    ensures 0 <= sum / n < 256 && IsFloorMean(sum / n, sum, n)
  {
    FloorMeanIsByte(sum, n);
    FloorMeanOf(sum, n);
  }

  lemma ListMeanChannel(colors: seq<Rgb>, ch: Channel)
    requires |colors| > 0
    ensures IsFloorMean(Component(ListMean(colors), ch), ListSum(colors, ch), |colors|)
  {
    var n := |colors|;
    var s := ListSum(colors, ch);
    ListSumBound(colors, ch);
    ByteMean(s, n);
    var q := s / n;
    assert MakeRgb(q, q, q).red == q;
    assert Component(ListMean(colors), ch) == q by {
      match ch
      case Red => assert ListMean(colors).red == q;
      case Green => assert ListMean(colors).green == q;
      case Blue => assert ListMean(colors).blue == q;
    }
  }

  /** Each channel of the list mean is the truncated mean of that channel over the list, and the mean is opaque. */
  lemma ListMeanIsMean(colors: seq<Rgb>)
    requires |colors| > 0
    ensures ListMean(colors).alpha == 0xFF
    ensures IsFloorMean(ListMean(colors).red, ListSum(colors, Red), |colors|)
    ensures IsFloorMean(ListMean(colors).green, ListSum(colors, Green), |colors|)
    ensures IsFloorMean(ListMean(colors).blue, ListSum(colors, Blue), |colors|)
  {
    ListMeanChannel(colors, Red);
    ListMeanChannel(colors, Green);
    ListMeanChannel(colors, Blue);
  }

  /**
    calculateAvgColor over a colour list: the list mean. The source divides
    by the list size without checking it, so the list must not be empty.
   */
  method CalculateAvgColorOfList(colors: seq<Rgb>) returns (c: Rgb)
    requires |colors| > 0
    ensures c == ListMean(colors)
  {
    var r, g, b := 0, 0, 0;
    var i := 0;
    while i < |colors|
      invariant 0 <= i <= |colors|
      invariant r == ListSum(colors[..i], Red)
      invariant g == ListSum(colors[..i], Green)
      invariant b == ListSum(colors[..i], Blue)
    {
      assert colors[..i + 1][..i] == colors[..i];
      r := r + colors[i].red;
      g := g + colors[i].green;
      b := b + colors[i].blue;
      i := i + 1;
    }
    assert colors[..i] == colors;
    var n := |colors|;
    r := r / n;
    g := g / n;
    b := b / n;
    c := MakeRgb(r, g, b);
  }
}
