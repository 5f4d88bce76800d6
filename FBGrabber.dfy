/**
  The Linux framebuffer grabber: the colour of one capture region read from a
  16-bit framebuffer image (getColor), and one grab pass (FBGrabber::_grab)
  over a data provider that opens the device, reads the screen information
  and reads the raw frame.
 */
module FramebufferGrabber {
  import opened Types
  import Calculations

  /** What the FBIOGET_VSCREENINFO ioctl reports that the grabber uses. */
  datatype ScreenInfo = ScreenInfo(xres: nat, yres: nat, bitsPerPixel: nat)

  /** getBytesPerPixel: (bbp + 7) >> 3, the number of whole bytes that hold bbp bits. */
  function BytesPerPixel(bbp: nat): (n: nat)
    ensures 8 * n - 8 < bbp <= 8 * n
  {
    (bbp + 7) / 8
  }

  /** getBufSize: the byte size of one frame. */
  function BufSize(info: ScreenInfo): nat {
    info.xres * info.yres * BytesPerPixel(info.bitsPerPixel)
  }

  // ---------------------------------------------------------------------------
  // Clipping and alignment

  /** C's `width % 4` on an int: the remainder takes the sign of the dividend. */
  function CRem4(a: int): (r: int)
    ensures a >= 0 ==> 0 <= r < 4
    ensures a < 0 ==> -4 < r <= 0
    ensures (a - r) % 4 == 0
  {
    if a >= 0 then a % 4 else -((-a) % 4)
  }

  /**
    One axis of getColor's clip, with the comparison against the screen size
    done on signed integers: the clipped span starts at the later of the two
    starts and ends at the earlier of the two ends, so it is the intersection
    of [start, start + len) with [0, limit) whenever that is not empty.
   */
  function ClipSpan(start: int, len: int, limit: nat): (s: (int, int))
    ensures s.0 == Max0(start)
    ensures s.0 + s.1 == Min(start + len, limit)
  {
    var (x, w) := if start < 0 then (0, len + start) else (start, len);
    if x + w > limit then (x, w - ((x + w) - limit)) else (x, w)
  }

  /**
    The same clip as the source writes it: `x + width` is an int and the screen
    size unsigned, so the comparison converts a negative `x + width` to a large
    unsigned value, which counts as past the screen edge; the subtraction then
    leaves the span reaching from x to the edge.
   */
  function ClipSpanAsWritten(start: int, len: int, limit: nat): (int, int) {
    var (x, w) := if start < 0 then (0, len + start) else (start, len);
    if x + w < 0 || x + w > limit then (x, w - ((x + w) - limit)) else (x, w)
  }

  /** Whenever the widget does not end left of (above) the screen, both clips agree. */
  lemma ClipAgrees(start: int, len: int, limit: nat)
    requires start + len >= 0
    ensures ClipSpanAsWritten(start, len, limit) == ClipSpan(start, len, limit)
  {
  }

  /**
    A widget lying wholly left of a 640-pixel screen, from x = -100 to x = -50:
    the intended clip leaves it empty, but the clip as written widens it to the
    whole screen row, which lies entirely outside the widget.
   */
  lemma ClipAsWrittenCounterexample()
    ensures ClipSpan(-100, 50, 640) == (0, -50)
    ensures ClipSpanAsWritten(-100, 50, 640) == (0, 640)
    ensures ClipSpanAsWritten(-100, 50, 640).0 >= -100 + 50
  {
  }

  /**
    The width alignment `width - width % 4`: a non-negative width goes down to
    the largest multiple of four not above it; a width of -1 to -3 becomes 0;
    a width of -4 or less stays negative.
   */
  function Align(w: int): (a: int)
    ensures w >= 0 ==> 0 <= a <= w < a + 4 && a % 4 == 0
    ensures -4 < w < 0 ==> a == 0
    ensures w <= -4 ==> a < 0
  {
    w - CRem4(w)
  }

  /** The rectangle getColor averages over: the widget clipped to the screen, width aligned to four pixels. */
  function ClippedRect(info: ScreenInfo, rect: Rect): Rect {
    var (x, w) := ClipSpan(rect.x, rect.width, info.xres);
    var (y, h) := ClipSpan(rect.y, rect.height, info.yres);
    Rect(x, y, Align(w), h)
  }

  // ---------------------------------------------------------------------------
  // The colour of one region

  /** round((double) sum / count) & 0xff for a non-zero count; otherwise the sum, which getColor leaves alone. */
  function RoundedMean(sum: nat, count: nat): nat {
    if count != 0 then ((2 * sum + count) / (2 * count)) % 256 else sum
  }

  /** The rounded mean of each RGB565 channel over a rectangle of a frame with the given pitch. */
  function RoundedAverage(frame: seq<Byte>, pitch: nat, rect: Rect): Rgb {
    var n := Calculations.Area(rect);
    MakeRgb(RoundedMean(Calculations.ChannelSum(frame, Calculations.Rgb565, Calculations.Red, pitch, rect), n),
            RoundedMean(Calculations.ChannelSum(frame, Calculations.Rgb565, Calculations.Green, pitch, rect), n),
            RoundedMean(Calculations.ChannelSum(frame, Calculations.Rgb565, Calculations.Blue, pitch, rect), n))
  }

  /**
    What getColor returns: the QRgb 0 for a missing buffer or for a clipped
    rectangle with a negative side; opaque black when the depth is not 16 bits
    per pixel; otherwise the rounded mean colour of the clipped rectangle of
    the frame, whose rows are xres pixels of two bytes apart.
   */
  function GetColorSpec(buf: Option<seq<Byte>>, info: ScreenInfo, rect: Rect): Rgb {
    if buf.None? then Zero
    else
      var c := ClippedRect(info, rect);
      if c.width < 0 || c.height < 0 then Zero
      else if info.bitsPerPixel != 16 then MakeRgb(0, 0, 0)
      else RoundedAverage(buf.value, 2 * info.xres, c)
  }

  /** The rectangle as the source clips it, with the unsigned comparison of ClipSpanAsWritten. */
  function ClippedRectAsWritten(info: ScreenInfo, rect: Rect): Rect {
    var (x, w) := ClipSpanAsWritten(rect.x, rect.width, info.xres);
    var (y, h) := ClipSpanAsWritten(rect.y, rect.height, info.yres);
    Rect(x, y, Align(w), h)
  }

  /** What getColor returns as the source writes it: GetColorSpec over the rectangle clipped as written. */
  function GetColorSpecAsWritten(buf: Option<seq<Byte>>, info: ScreenInfo, rect: Rect): Rgb {
    if buf.None? then Zero
    else
      var c := ClippedRectAsWritten(info, rect);
      if c.width < 0 || c.height < 0 then Zero
      else if info.bitsPerPixel != 16 then MakeRgb(0, 0, 0)
      else RoundedAverage(buf.value, 2 * info.xres, c)
  }

  /**
    The model's getColor and the source's agree on every widget that does
    not end left of or above the screen; they differ only where the
    unsigned comparison widens an off-screen widget (ClipAsWrittenCounterexample).
   */
  lemma GetColorAgrees(buf: Option<seq<Byte>>, info: ScreenInfo, rect: Rect)
    requires rect.x + rect.width >= 0 && rect.y + rect.height >= 0
    ensures ClippedRectAsWritten(info, rect) == ClippedRect(info, rect)
    ensures GetColorSpecAsWritten(buf, info, rect) == GetColorSpec(buf, info, rect)
  {
    ClipAgrees(rect.x, rect.width, info.xres);
    ClipAgrees(rect.y, rect.height, info.yres);
  }

  lemma MulTwice(q: int, n: int)
    ensures q * (2 * n) == 2 * (q * n)
    ensures (q + 1) * (2 * n) == 2 * (q * n) + 2 * n
    ensures (2 * q - 1) * n == 2 * (q * n) - n
    ensures (2 * q + 1) * n == 2 * (q * n) + n
  {
  }

  /** The floor of (2 sum + n) / (2 n) is sum / n rounded to nearest, and below 256 for samples below 256. */
  lemma HalfUpIsRounded(q: int, sum: nat, n: nat)
    requires n > 0 && sum <= 255 * n
    requires Calculations.IsFloorMean(q, 2 * sum + n, 2 * n)
    ensures 0 <= q < 256
    ensures Calculations.IsRoundedMean(q, sum, n)
  {
    MulTwice(q, n);
    if q >= 256 {
      Calculations.MulLeftMono(2 * n, 256, q);
      assert false;
    }
  }

  /** The masked rounded mean of count samples below 256 is the mean rounded to nearest, and a byte. */
  lemma RoundedMeanIsMean(sum: nat, count: nat)
    requires count > 0 && sum <= 255 * count
    ensures RoundedMean(sum, count) < 256
    ensures Calculations.IsRoundedMean(RoundedMean(sum, count), sum, count)
  {
    var q := (2 * sum + count) / (2 * count);
    Calculations.FloorMeanOf(2 * sum + count, 2 * count);
    HalfUpIsRounded(q, sum, count);
  }

  /**
    Every byte the 16-bit loop reads lies inside a frame of getBufSize bytes:
    a rectangle inside the screen, two bytes per pixel and a pitch of two bytes
    per screen column.
   */
  lemma ScreenCovers(len: nat, info: ScreenInfo, rect: Rect)
    requires info.bitsPerPixel == 16 && BufSize(info) <= len
    requires rect.width > 0 && rect.height > 0 ==>
      0 <= rect.x && 0 <= rect.y && rect.x + rect.width <= info.xres && rect.y + rect.height <= info.yres
    ensures Calculations.Covers(len, 2 * info.xres, rect, 2)
  {
    if rect.width > 0 && rect.height > 0 {
      var pitch, rows := 2 * info.xres, info.yres;
      assert BufSize(info) == pitch * rows by {
        assert BytesPerPixel(16) == 2;
        DoubleRows(info.xres, info.yres);
      }
      assert pitch * (rect.y + rect.height - 1) <= pitch * (rows - 1) by {
        Calculations.MulLeftMono(pitch, rect.y + rect.height - 1, rows - 1);
      }
      assert pitch * rows == pitch * (rows - 1) + pitch by {
        Calculations.MulPred(pitch, rows);
      }
    }
  }

  /** A clipped rectangle with pixels lies on the screen, and a clipped width that is not negative is a multiple of four. */
  lemma ClippedOnScreen(info: ScreenInfo, rect: Rect)
    ensures var c := ClippedRect(info, rect);
      c.width >= 0 ==> c.width % 4 == 0
    ensures var c := ClippedRect(info, rect);
      c.width > 0 && c.height > 0 ==>
        0 <= c.x && 0 <= c.y && c.x + c.width <= info.xres && c.y + c.height <= info.yres
  {
    var (x, w) := ClipSpan(rect.x, rect.width, info.xres);
    assert Align(w) <= w || w < 0;
  }

  lemma DoubleRows(a: nat, b: nat)
    ensures a * b * 2 == (2 * a) * b
  {
  }

  /**
    getColor. The coordinates are clipped in place as in the source, with the
    screen comparison done on signed values (see ClipSpanAsWritten for the
    comparison as the source writes it); the 16-bit case adds RGB565 samples
    four pixels at a time exactly as calculateAvgColor's RGB565 case does, with
    the row start (screenWidth * k + x) * 2.
   */
  method GetColor(buf: Option<seq<Byte>>, info: ScreenInfo, rect: Rect) returns (c: Rgb)
    requires buf.Some? && info.bitsPerPixel == 16 ==> BufSize(info) <= |buf.value|
    ensures c == GetColorSpec(buf, info, rect)
  {
    var x, y, width, height := rect.x, rect.y, rect.width, rect.height;
    if buf.None? {
      return Zero;
    }
    if x < 0 {
      width := width + x;
      x := 0;
    }
    if y < 0 {
      height := height + y;
      y := 0;
    }
    var screenWidth, screenHeight := info.xres, info.yres;
    if x + width > screenWidth {
      width := width - ((x + width) - screenWidth);
    }
    if y + height > screenHeight {
      height := height - ((y + height) - screenHeight);
    }
    width := Align(width);
    assert Rect(x, y, width, height) == ClippedRect(info, rect);
    ClippedOnScreen(info, rect);
    if width < 0 || height < 0 {
      return Zero;
    }
    if info.bitsPerPixel != 16 {
      // No samples are added: the three sums stay 0 and the count 0.
      return MakeRgb(0, 0, 0);
    }
    c := AverageArea(buf.value, info, Rect(x, y, width, height));
  }

  /**
    The 16-bit branch of getColor: RGB565 samples added four pixels at a time
    as calculateAvgColor's RGB565 case does, rows screenWidth * 2 bytes apart,
    then each sum replaced by its rounded mean when any pixel was added.
   */
  method AverageArea(frame: seq<Byte>, info: ScreenInfo, area: Rect) returns (c: Rgb)
    requires info.bitsPerPixel == 16 && BufSize(info) <= |frame|
    requires area.width % 4 == 0
    requires area.width > 0 && area.height > 0 ==>
      0 <= area.x && 0 <= area.y && area.x + area.width <= info.xres && area.y + area.height <= info.yres
    ensures c == RoundedAverage(frame, 2 * info.xres, area)
  {
    ScreenCovers(|frame|, info, area);
    var r, g, b, count := Calculations.Accumulate(frame, Calculations.Rgb565, 2 * info.xres, area);
    if count != 0 {
      r, g, b := RoundedMean(r, count), RoundedMean(g, count), RoundedMean(b, count);
    }
    c := MakeRgb(r, g, b);
  }

  /**
    The outcomes of getColor: 0 without a buffer or when the clipped rectangle
    has a negative side; otherwise an opaque colour, black unless the depth is
    16 bits and the clipped rectangle has pixels, in which case each channel
    is the rounded mean of that channel over exactly the pixels of the widget
    that lie on the screen.
   */
  lemma GetColorIsRoundedMean(buf: Option<seq<Byte>>, info: ScreenInfo, rect: Rect)
    ensures buf.None? ==> GetColorSpec(buf, info, rect) == Zero
    ensures var c := ClippedRect(info, rect);
      buf.Some? && (c.width < 0 || c.height < 0) ==> GetColorSpec(buf, info, rect) == Zero
    ensures var c := ClippedRect(info, rect);
      buf.Some? && c.width >= 0 && c.height >= 0 ==>
        && GetColorSpec(buf, info, rect).alpha == 0xFF
        && (info.bitsPerPixel != 16 || Calculations.Area(c) == 0 ==> IsBlack(GetColorSpec(buf, info, rect)))
    ensures var c := ClippedRect(info, rect);
      buf.Some? && info.bitsPerPixel == 16 && Calculations.Area(c) > 0 ==>
        && rect.x <= c.x && c.x + c.width <= rect.x + rect.width && c.x + c.width <= info.xres
        && rect.y <= c.y && c.y + c.height <= rect.y + rect.height && c.y + c.height <= info.yres
        && 0 <= c.x && 0 <= c.y && c.width % 4 == 0
        && Calculations.IsRoundedMean(GetColorSpec(buf, info, rect).red,
             Calculations.ChannelSum(buf.value, Calculations.Rgb565, Calculations.Red, 2 * info.xres, c), Calculations.Area(c))
        && Calculations.IsRoundedMean(GetColorSpec(buf, info, rect).green,
             Calculations.ChannelSum(buf.value, Calculations.Rgb565, Calculations.Green, 2 * info.xres, c), Calculations.Area(c))
        && Calculations.IsRoundedMean(GetColorSpec(buf, info, rect).blue,
             Calculations.ChannelSum(buf.value, Calculations.Rgb565, Calculations.Blue, 2 * info.xres, c), Calculations.Area(c))
  {
    var c := ClippedRect(info, rect);
    if buf.Some? && c.width >= 0 && c.height >= 0 && info.bitsPerPixel == 16 {
      var pitch := 2 * info.xres;
      if Calculations.Area(c) == 0 {
        Calculations.EmptyRectSums(buf.value, Calculations.Rgb565, Calculations.Red, pitch, c);
        Calculations.EmptyRectSums(buf.value, Calculations.Rgb565, Calculations.Green, pitch, c);
        Calculations.EmptyRectSums(buf.value, Calculations.Rgb565, Calculations.Blue, pitch, c);
      } else {
        RoundedChannel(buf.value, pitch, c, Calculations.Red);
        RoundedChannel(buf.value, pitch, c, Calculations.Green);
        RoundedChannel(buf.value, pitch, c, Calculations.Blue);
      }
    }
  }

  lemma RoundedChannel(frame: seq<Byte>, pitch: nat, c: Rect, ch: Calculations.Channel)
    requires Calculations.Area(c) > 0
    ensures var s := Calculations.ChannelSum(frame, Calculations.Rgb565, ch, pitch, c);
      RoundedMean(s, Calculations.Area(c)) < 256 && Calculations.IsRoundedMean(RoundedMean(s, Calculations.Area(c)), s, Calculations.Area(c))
  {
    var s := Calculations.ChannelSum(frame, Calculations.Rgb565, ch, pitch, c);
    Calculations.RectSumBound(frame, Calculations.Rgb565, ch, pitch, Calculations.RowStart(Calculations.Rgb565, pitch, c, 0),
                              Max0(c.width), Max0(c.height));
    RoundedMeanIsMean(s, Calculations.Area(c));
  }

  // ---------------------------------------------------------------------------
  // One grab pass

  /**
    The framebuffer data provider (FBGrabberDataProvider) with the operating
    system cut away: whether open(2) of the device file succeeds, what the
    FBIOGET_VSCREENINFO ioctl reports and the bytes read(2) delivers are
    fields the environment sets; fd is the provider's descriptor, 0 when
    closed and -1 after a failed open.
   */
  class FrameDevice {
    var fd: int
    var canOpen: bool
    var screen: Option<ScreenInfo>
    var frame: seq<Byte>

    constructor(canOpen: bool, screen: Option<ScreenInfo>, frame: seq<Byte>)
      ensures fd == 0 && this.canOpen == canOpen && this.screen == screen && this.frame == frame
    {
      this.fd := 0;
      this.canOpen := canOpen;
      this.screen := screen;
      this.frame := frame;
    }

    /**
      openDevice: -2 when a descriptor is already held, -1 when opening fails
      (the descriptor then holds -1), 0 once the device is open.
     */
    method OpenDevice() returns (status: int)
      modifies this
      ensures old(fd) != 0 ==> status == -2 && fd == old(fd)
      ensures old(fd) == 0 && !canOpen ==> status == -1 && fd == -1
      ensures old(fd) == 0 && canOpen ==> status == 0 && fd > 0
      ensures canOpen == old(canOpen) && screen == old(screen) && frame == old(frame)
    {
      if fd != 0 {
        return -2;
      }
      if !canOpen {
        fd := -1;
        return -1;
      }
      fd := 1;
      status := 0;
    }

    /** closeDevice: releases any descriptor it holds, even the -1 left by a failed open. */
    method CloseDevice()
      modifies this
      ensures fd == 0
      ensures canOpen == old(canOpen) && screen == old(screen) && frame == old(frame)
    {
      if fd != 0 {
        fd := 0;
      }
    }

    /** readFbScreenInfo: the screen information, or nothing when the ioctl fails. */
    method ReadFbScreenInfo() returns (info: Option<ScreenInfo>)
      ensures info == screen
    {
      info := screen;
    }

    /**
      readFbData: succeeds exactly when the buffer exists and the device
      delivers all n bytes, which then fill the first n bytes of the buffer.
      A read into a null buffer hands back that null buffer, which the caller
      takes as failure.
     */
    method ReadFbData(buf: array?<Byte>, n: nat) returns (ok: bool)
      requires buf != null ==> n <= buf.Length
      modifies buf
      ensures ok <==> buf != null && n <= |frame|
      ensures ok ==> buf[..n] == frame[..n] && buf[n..] == old(buf[n..])
      ensures !ok && buf != null ==> buf[..] == old(buf[..])
    {
      if buf == null || |frame| < n {
        return false;
      }
      forall i | 0 <= i < n {
        buf[i] := frame[i];
      }
      assert buf[..n] == frame[..n];
      ok := true;
    }
  }

  /** What _grab appends for one region: its colour when its area is enabled, opaque black otherwise. */
  function RegionColor(frame: seq<Byte>, info: ScreenInfo, region: Region): Rgb {
    if region.enabled then GetColorSpec(Some(frame), info, region.rect) else MakeRgb(0, 0, 0)
  }

  /**
    The loop of _grab over the regions: one colour per region, in order, got
    from getColor for an enabled area and opaque black for a disabled one.
   */
  method RegionColors(frame: seq<Byte>, info: ScreenInfo, regions: seq<Region>) returns (colors: seq<Rgb>)
    requires info.bitsPerPixel == 16 ==> BufSize(info) <= |frame|
    ensures |colors| == |regions|
    ensures forall i :: 0 <= i < |regions| ==> colors[i] == RegionColor(frame, info, regions[i])
  {
    colors := [];
    var i := 0;
    while i < |regions|
      invariant 0 <= i <= |regions| && |colors| == i
      invariant forall j :: 0 <= j < i ==> colors[j] == RegionColor(frame, info, regions[j])
    {
      var color;
      if regions[i].enabled {
        color := GetColor(Some(frame), info, regions[i].rect);
      } else {
        color := MakeRgb(0, 0, 0);
      }
      colors := colors + [color];
      i := i + 1;
    }
  }

  /**
    FBGrabber: the frame buffer m_buf with its size m_bufSize, the result list
    it fills and the capture regions it reads.
   */
  class FBGrabber {
    const device: FrameDevice
    var buf: array?<Byte>
    var bufSize: nat
    var grabResult: seq<Rgb>
    var regions: seq<Region>

    /** The buffer holds exactly bufSize bytes; before the first allocation there is none and the size is 0. */
    ghost predicate Valid()
      reads this
    {
      (buf == null ==> bufSize == 0) && (buf != null ==> buf.Length == bufSize)
    }

    constructor(device: FrameDevice, grabResult: seq<Rgb>, regions: seq<Region>)
      ensures Valid() && buf == null && bufSize == 0
      ensures this.device == device && this.grabResult == grabResult && this.regions == regions
    {
      this.device := device;
      this.buf := null;
      this.bufSize := 0;
      this.grabResult := grabResult;
      this.regions := regions;
    }

    /**
      _grab. The grab succeeds exactly when the device opens, reports its
      screen and delivers a whole frame into an existing buffer; the buffer is
      replaced by a zero-filled one exactly when its size differs from the
      frame size the screen implies; on success the result list holds one
      colour per region, in order; the device is closed in every case.
     */
    method Grab() returns (result: GrabResult)
      requires Valid()
      modifies this, device, buf
      ensures Valid() && device.fd == 0
      ensures device.canOpen == old(device.canOpen) && device.screen == old(device.screen) && device.frame == old(device.frame)
      ensures regions == old(regions)
      ensures var info := device.screen;
        var readsFrame := old(device.fd) == 0 && device.canOpen && info.Some?;
        && (readsFrame ==> bufSize == BufSize(info.value))
        && (readsFrame && old(bufSize) != BufSize(info.value) ==> fresh(buf))
        && (!(readsFrame && old(bufSize) != BufSize(info.value)) ==> buf == old(buf) && bufSize == old(bufSize))
        && (result == GrabResultOk <==> readsFrame && buf != null && BufSize(info.value) <= |device.frame|)
      ensures result == GrabResultOk ==>
        && buf != null && buf[..] == device.frame[..bufSize]
        && |grabResult| == |regions|
        && forall i :: 0 <= i < |regions| ==> grabResult[i] == RegionColor(buf[..], device.screen.value, regions[i])
      ensures result == GrabResultError ==> grabResult == old(grabResult)
      ensures result == GrabResultError && old(buf) != null && buf == old(buf) ==> buf[..] == old(buf[..])
      ensures result == GrabResultError && fresh(buf) ==> forall i :: 0 <= i < bufSize ==> buf[i] == 0
    {
      result := GrabResultError;
      var status := device.OpenDevice();
      if status == 0 {
        var info := device.ReadFbScreenInfo();
        if info.Some? {
          var size := BufSize(info.value);
          if bufSize != size {
            bufSize := size;
            buf := new Byte[size](_ => 0);
          }
          var ok := device.ReadFbData(buf, bufSize);
          if ok {
            assert buf[..] == buf[..bufSize];
            grabResult := RegionColors(buf[..], info.value, regions);
            result := GrabResultOk;
          }
        }
      }
      device.CloseDevice();
    }
  }
}
