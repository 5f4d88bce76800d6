/**
  The Lightpack USB device driver: colours packed into 61-byte frames, ten
  LEDs per frame and per device; settings commands fanned out to every
  device; the ping timer restarted after every transfer. The USB transport is
  cut away: a write is recorded in the log of sent frames, and what reads and
  device enumeration return is held in fields and parameters.
 */
module LightpackDevice {
  import opened Types

  /** A libusb device handle; the handles in the device list are never null. */
  type Handle = nat

  const LedsPerDevice: nat := 10
  const PingDeviceInterval: nat := 1000
  const WriteBufferIndexCommand: nat := 0
  const WriteBufferIndexDataStart: nat := 1
  /** The length of the read and write buffers: one command byte and six bytes for each of ten LEDs. */
  const BufferLength: nat := 61

  // Command codes of the device protocol; the model relies only on their being distinct.
  const CmdUpdateLeds: Byte := 1
  const CmdSetTimerOptions: Byte := 3
  const CmdSetPwmLevelMaxValue: Byte := 4
  const CmdSetSmoothSlowdown: Byte := 5

  /** A colour after the colour modifications: one unsigned 12-bit value per channel (only the low 12 bits are sent). */
  datatype StructRgb = StructRgb(r: nat, g: nat, b: nat)

  /** One control transfer to a device: the 61 bytes of the write buffer at that moment. */
  datatype Frame = Frame(device: Handle, bytes: seq<Byte>)

  /** The settings the driver reads. */
  datatype DeviceSettings = DeviceSettings(refreshDelay: int, colorDepth: int, smoothSlowdown: int,
                                           backlightEnabled: bool, pingEverySecond: bool)

  /** restartPingDevice starts the ping timer exactly when the backlight and the ping are both enabled. */
  predicate PingWanted(s: DeviceSettings) {
    s.backlightEnabled && s.pingEverySecond
  }

  // ---------------------------------------------------------------------------
  // Frame layout

  /** (c & 0x0FF0) >> 4: the high eight of the twelve bits. */
  function High(c: nat): Byte {
    (c % 4096) / 16
  }

  /** c & 0x000F: the low four bits. */
  function Low(c: nat): Byte {
    c % 16
  }

  /** The six bytes of one LED: the three high bytes, then the three low nibbles. */
  function LedBytes(c: StructRgb): (s: seq<Byte>)
    ensures |s| == 6
  {
    [High(c.r), High(c.g), High(c.b), Low(c.r), Low(c.g), Low(c.b)]
  }

  function PackLeds(leds: seq<StructRgb>): (s: seq<Byte>)
    ensures |s| == 6 * |leds|
    decreases |leds|
  {
    if leds == [] then [] else PackLeds(leds[..|leds| - 1]) + LedBytes(leds[|leds| - 1])
  }

  function ZeroBytes(n: nat): (s: seq<Byte>)
    ensures |s| == n
  {
    seq(n, _ => 0)
  }

  /** The write buffer holding up to ten packed LEDs after the command byte, zero after them. */
  function FrameImage(command: Byte, leds: seq<StructRgb>): (s: seq<Byte>)
    requires |leds| <= LedsPerDevice
    ensures |s| == BufferLength
  {
    [command] + PackLeds(leds) + ZeroBytes(60 - 6 * |leds|)
  }

  /** How many frames n LEDs take: one per ten, the last one possibly short. */
  function ChunkCount(n: nat): nat {
    (n + 9) / 10
  }

  /** The LEDs of frame j: LEDs 10j to 10j + 9, as far as there are any. */
  function Chunk(leds: seq<StructRgb>, j: nat): (c: seq<StructRgb>)
    requires j < ChunkCount(|leds|)
    ensures 0 < |c| <= LedsPerDevice
  {
    leds[10 * j .. Min(10 * j + 10, |leds|)]
  }

  /** The frames setColors sends: frame j carries chunk j and goes to device j. */
  function LedFrames(leds: seq<StructRgb>, devices: seq<Handle>): (fs: seq<Frame>)
    requires |leds| <= 10 * |devices|
    ensures |fs| == ChunkCount(|leds|)
  {
    seq(ChunkCount(|leds|), j requires 0 <= j < ChunkCount(|leds|) =>
      Frame(devices[j], FrameImage(CmdUpdateLeds, Chunk(leds, j))))
  }

  /** The same frame sent to every device, in order. */
  function Broadcast(devices: seq<Handle>, image: seq<Byte>): (fs: seq<Frame>)
    ensures |fs| == |devices|
  {
    seq(|devices|, i requires 0 <= i < |devices| => Frame(devices[i], image))
  }

  /** The buffer after a write of `command` to each of n devices: the command byte is set when there is at least one. */
  function Stamped(buffer: seq<Byte>, command: Byte, n: nat): seq<Byte>
    requires |buffer| == BufferLength
  {
    if n > 0 then buffer[0 := command] else buffer
  }

  /** The payload of setRefreshDelay: value & 0xff, then value >> 8 cut to a byte. */
  function RefreshImage(buffer: seq<Byte>, value: int): (s: seq<Byte>)
    requires |buffer| == BufferLength
    ensures |s| == BufferLength
  {
    buffer[1 := value % 256][2 := (value / 256) % 256]
  }

  /** The payload of setColorDepth and setSmoothSlowdown: (unsigned char) value. */
  function ByteImage(buffer: seq<Byte>, value: int): (s: seq<Byte>)
    requires |buffer| == BufferLength
    ensures |s| == BufferLength
  {
    buffer[1 := value % 256]
  }

  /** The buffer after the settings pass: refresh delay, colour depth and smoothness each written and sent to n devices. */
  function SettingsBuffer(buffer: seq<Byte>, s: DeviceSettings, n: nat): (b: seq<Byte>)
    requires |buffer| == BufferLength
    ensures |b| == BufferLength
  {
    var b1 := RefreshImage(buffer, s.refreshDelay);
    var b2 := ByteImage(Stamped(b1, CmdSetTimerOptions, n), s.colorDepth);
    var b3 := ByteImage(Stamped(b2, CmdSetPwmLevelMaxValue, n), s.smoothSlowdown);
    Stamped(b3, CmdSetSmoothSlowdown, n)
  }

  /** The frames of the settings pass: the timer options to every device, then the PWM level, then the smoothness. */
  function SettingsFrames(buffer: seq<Byte>, s: DeviceSettings, devices: seq<Handle>): seq<Frame>
    requires |buffer| == BufferLength
  {
    var n := |devices|;
    var b1 := RefreshImage(buffer, s.refreshDelay);
    var b2 := ByteImage(Stamped(b1, CmdSetTimerOptions, n), s.colorDepth);
    var b3 := ByteImage(Stamped(b2, CmdSetPwmLevelMaxValue, n), s.smoothSlowdown);
    Broadcast(devices, b1[WriteBufferIndexCommand := CmdSetTimerOptions])
      + Broadcast(devices, b2[WriteBufferIndexCommand := CmdSetPwmLevelMaxValue])
      + Broadcast(devices, b3[WriteBufferIndexCommand := CmdSetSmoothSlowdown])
  }

  // ---------------------------------------------------------------------------
  // Facts about the frames

  /** The twelve-bit value a high byte and a low nibble stand for. */
  function Join(high: int, low: int): int {
    high * 16 + low
  }

  lemma {:induction false} PackLedsAt(leds: seq<StructRgb>, j: nat, t: nat)
    requires j < |leds| && t < 6
    ensures PackLeds(leds)[6 * j + t] == LedBytes(leds[j])[t]
    decreases |leds|
  {
    var k := |leds| - 1;
    if j < k {
      PackLedsAt(leds[..k], j, t);
      assert leds[..k][j] == leds[j];
    }
  }

  /** The high byte and the low nibble together give back the low twelve bits. */
  lemma JoinSplit(c: nat)
    ensures Join(High(c), Low(c)) == c % 4096
  {
    var q := c % 4096;
    assert c == 4096 * (c / 4096) + q;
    assert c % 16 == q % 16 by {
      assert c == 16 * (256 * (c / 4096) + q / 16) + q % 16;
    }
  }

  /** One LED of a frame decodes back to the low twelve bits of each of its channels. */
  lemma LedRoundTrip(command: Byte, leds: seq<StructRgb>, j: nat)
    requires j < |leds| <= LedsPerDevice
    ensures var img := FrameImage(command, leds);
      && Join(img[1 + 6 * j], img[1 + 6 * j + 3]) == leds[j].r % 4096
      && Join(img[1 + 6 * j + 1], img[1 + 6 * j + 4]) == leds[j].g % 4096
      && Join(img[1 + 6 * j + 2], img[1 + 6 * j + 5]) == leds[j].b % 4096
  {
    var img := FrameImage(command, leds);
    var p := PackLeds(leds);
    var k := 6 * j;
    assert img[1 + k .. 1 + k + 6] == p[k .. k + 6];
    assert p[k .. k + 6] == LedBytes(leds[j]) by {
      PackLedsAt(leds, j, 0);
      PackLedsAt(leds, j, 1);
      PackLedsAt(leds, j, 2);
      PackLedsAt(leds, j, 3);
      PackLedsAt(leds, j, 4);
      PackLedsAt(leds, j, 5);
    }
    JoinSplit(leds[j].r);
    JoinSplit(leds[j].g);
    JoinSplit(leds[j].b);
  }

  /**
    A frame decodes back to what was packed: the command at index 0, each
    LED's channels at 1 + 6j (high byte) and 1 + 6j + 3 (low nibble), giving
    back the channel's low twelve bits, and zero bytes after the last LED.
   */
  lemma FrameRoundTrip(command: Byte, leds: seq<StructRgb>)
    requires |leds| <= LedsPerDevice
    ensures var img := FrameImage(command, leds);
      && img[WriteBufferIndexCommand] == command
      && (forall j :: 0 <= j < |leds| ==>
            && Join(img[1 + 6 * j], img[1 + 6 * j + 3]) == leds[j].r % 4096
            && Join(img[1 + 6 * j + 1], img[1 + 6 * j + 4]) == leds[j].g % 4096
            && Join(img[1 + 6 * j + 2], img[1 + 6 * j + 5]) == leds[j].b % 4096)
      && (forall i :: 1 + 6 * |leds| <= i < BufferLength ==> img[i] == 0)
  {
    forall j | 0 <= j < |leds| {
      LedRoundTrip(command, leds, j);
    }
  }

  /**
    setColors' chunking: LED i travels in frame i / 10, at position i % 10 of
    that frame, and every frame but the last is full.
   */
  lemma ChunksCover(leds: seq<StructRgb>, i: nat)
    requires i < |leds|
    ensures i / 10 < ChunkCount(|leds|)
    ensures i % 10 < |Chunk(leds, i / 10)| && Chunk(leds, i / 10)[i % 10] == leds[i]
    ensures i / 10 < ChunkCount(|leds|) - 1 ==> |Chunk(leds, i / 10)| == LedsPerDevice
  {
  }

  /** Twenty-three LEDs on three devices go out as three frames of 10, 10 and 3 LEDs, to devices 0, 1 and 2. */
  lemma TwentyThreeLeds(leds: seq<StructRgb>, devices: seq<Handle>)
    requires |leds| == 23 && |devices| == 3
    ensures |LedFrames(leds, devices)| == 3
    ensures |Chunk(leds, 0)| == 10 && |Chunk(leds, 1)| == 10 && |Chunk(leds, 2)| == 3
    ensures LedFrames(leds, devices)[0].device == devices[0]
    ensures LedFrames(leds, devices)[1].device == devices[1]
    ensures LedFrames(leds, devices)[2].device == devices[2]
  {
  }

  /**
    What each device receives from the settings pass: three frames, device i
    getting frames i, n + i and 2n + i; the first carries the timer options
    command with the refresh delay's low and high bytes, the second the PWM
    level command with the colour depth's byte, the third the smoothness
    command with the smoothness's byte.
   */
  lemma SettingsFramesShape(buffer: seq<Byte>, s: DeviceSettings, devices: seq<Handle>, i: nat)
    requires |buffer| == BufferLength && i < |devices|
    ensures var fs := SettingsFrames(buffer, s, devices); var n := |devices|;
      && |fs| == 3 * n
      && fs[i].device == devices[i] && fs[n + i].device == devices[i] && fs[2 * n + i].device == devices[i]
      && fs[i].bytes[0] == CmdSetTimerOptions
      && fs[i].bytes[1] == s.refreshDelay % 256 && fs[i].bytes[2] == (s.refreshDelay / 256) % 256
      && fs[n + i].bytes[0] == CmdSetPwmLevelMaxValue && fs[n + i].bytes[1] == s.colorDepth % 256
      && fs[2 * n + i].bytes[0] == CmdSetSmoothSlowdown && fs[2 * n + i].bytes[1] == s.smoothSlowdown % 256
  {
    var n := |devices|;
    var b1 := RefreshImage(buffer, s.refreshDelay);
    var b2 := ByteImage(Stamped(b1, CmdSetTimerOptions, n), s.colorDepth);
    var b3 := ByteImage(Stamped(b2, CmdSetPwmLevelMaxValue, n), s.smoothSlowdown);
    var f1 := Broadcast(devices, b1[WriteBufferIndexCommand := CmdSetTimerOptions]);
    var f2 := Broadcast(devices, b2[WriteBufferIndexCommand := CmdSetPwmLevelMaxValue]);
    var f3 := Broadcast(devices, b3[WriteBufferIndexCommand := CmdSetSmoothSlowdown]);
    var fs := SettingsFrames(buffer, s, devices);
    assert fs == f1 + f2 + f3;
    assert fs[i] == f1[i] && fs[n + i] == f2[i] && fs[2 * n + i] == f3[i];
  }

  /**
    The capacity check of setColors: a list the devices accept never needs
    more frames than there are devices, so every frame has a device to go
    to; with no device open only the empty list is accepted.
   */
  lemma FramesFitDevices(ledCount: nat, deviceCount: nat)
    requires ledCount <= deviceCount * LedsPerDevice
    ensures ChunkCount(ledCount) <= deviceCount
    ensures deviceCount == 0 ==> ledCount == 0
  {
  }

  /** Appending one LED's six bytes at the write position of a partly filled frame gives the frame with that LED added. */
  lemma AppendLed(leds: seq<StructRgb>, c: StructRgb)
    requires |leds| < LedsPerDevice
    ensures var img := FrameImage(0, leds); var index := 1 + 6 * |leds|;
      img[..index] + LedBytes(c) + img[index + 6..] == FrameImage(0, leds + [c])
  {
    assert (leds + [c])[..|leds|] == leds;
    var img := FrameImage(0, leds);
    var index := 1 + 6 * |leds|;
    assert img[..index] == [0] + PackLeds(leds);
    assert img[index + 6..] == ZeroBytes(60 - 6 * (|leds| + 1));
  }

  // ---------------------------------------------------------------------------
  // The driver

  class LedDeviceLightpack {
    var devices: seq<Handle>
    const writeBuffer: array<Byte>
    var colorsSaved: seq<Rgb>
    var colorsBuffer: seq<StructRgb>
    var pingTimerActive: bool
    var settings: DeviceSettings
    /** Whether a read control transfer from a device succeeds. */
    var readSucceeds: bool
    /** applyColorModifications, applied to each colour. */
    const colorModifier: Rgb -> StructRgb
    /** Every transfer written, in order. */
    var sent: seq<Frame>
    /** Every commandCompleted signal, in order. */
    var completed: seq<bool>

    ghost predicate Valid()
      reads this
    {
      writeBuffer.Length == BufferLength
    }

    /** The state no transfer touches. */
    ghost function Held(): (seq<Handle>, seq<Rgb>, seq<StructRgb>, DeviceSettings, bool)
      reads this
    {
      (devices, colorsSaved, colorsBuffer, settings, readSucceeds)
    }

    constructor(settings: DeviceSettings, readSucceeds: bool, colorModifier: Rgb -> StructRgb)
      ensures Valid() && fresh(writeBuffer) && writeBuffer[..] == ZeroBytes(BufferLength)
      ensures devices == [] && colorsSaved == [] && colorsBuffer == [] && !pingTimerActive
      ensures this.settings == settings && this.readSucceeds == readSucceeds && this.colorModifier == colorModifier
      ensures sent == [] && completed == []
    {
      devices := [];
      writeBuffer := new Byte[BufferLength](_ => 0);
      colorsSaved := [];
      colorsBuffer := [];
      pingTimerActive := false;
      this.settings := settings;
      this.readSucceeds := readSucceeds;
      this.colorModifier := colorModifier;
      sent := [];
      completed := [];
    }

    /** maxLedsCount: ten LEDs per open device. */
    function MaxLedsCount(): nat
      reads this
    {
      |devices| * LedsPerDevice
    }

    /** restartPingDevice: the ping timer runs exactly when the settings ask for it; the transfer outcome is ignored. */
    method RestartPingDevice(isSuccess: bool)
      modifies this
      ensures pingTimerActive == PingWanted(settings)
      ensures Held() == old(Held()) && sent == old(sent) && completed == old(completed)
    {
      if settings.backlightEnabled && settings.pingEverySecond {
        pingTimerActive := true;
      } else {
        pingTimerActive := false;
      }
    }

    /** timerPingDeviceTimeout: reports a successful transfer, which restarts the ping timer. */
    method TimerPingDeviceTimeout()
      modifies this
      ensures pingTimerActive == PingWanted(settings)
      ensures Held() == old(Held()) && sent == old(sent) && completed == old(completed)
    {
      RestartPingDevice(true);
    }

    /** memset of the write buffer. */
    method ClearWriteBuffer()
      requires Valid()
      modifies writeBuffer
      ensures writeBuffer[..] == ZeroBytes(BufferLength)
    {
      forall i | 0 <= i < writeBuffer.Length {
        writeBuffer[i] := 0;
      }
    }

    /**
      writeBufferToDevice: the command goes to byte 0 and the whole buffer is
      sent; the transfer's outcome only restarts the ping timer, and the
      result is always success.
     */
    method WriteBufferToDevice(command: Byte, device: Handle) returns (ok: bool)
      requires Valid()
      modifies this, writeBuffer
      ensures ok
      ensures writeBuffer[..] == old(writeBuffer[..])[WriteBufferIndexCommand := command]
      ensures sent == old(sent) + [Frame(device, writeBuffer[..])]
      ensures pingTimerActive == PingWanted(settings)
      ensures Held() == old(Held()) && completed == old(completed)
    {
      writeBuffer[WriteBufferIndexCommand] := command;
      sent := sent + [Frame(device, writeBuffer[..])];
      RestartPingDevice(true);
      ok := true;
    }

    /**
      writeBufferToDeviceWithCheck with a device handle, which is never null:
      one write, which always succeeds, so the second attempt and the reopen
      are never reached.
     */
    method WriteBufferToDeviceWithCheck(command: Byte, device: Handle) returns (ok: bool)
      requires Valid()
      modifies this, writeBuffer
      ensures ok
      ensures writeBuffer[..] == old(writeBuffer[..])[WriteBufferIndexCommand := command]
      ensures sent == old(sent) + [Frame(device, writeBuffer[..])]
      ensures pingTimerActive == PingWanted(settings)
      ensures Held() == old(Held()) && completed == old(completed)
    {
      var written := WriteBufferToDevice(command, device);
      if !written {
        assert false;
      }
      ok := true;
    }

    /**
      The loop the settings commands and switchOffLeds share: the buffer sent
      with the command to every device in turn; no write fails.
     */
    method SendToAll(command: Byte) returns (ok: bool)
      requires Valid()
      modifies this, writeBuffer
      ensures ok
      ensures writeBuffer[..] == Stamped(old(writeBuffer[..]), command, |devices|)
      ensures sent == old(sent) + Broadcast(devices, old(writeBuffer[..])[WriteBufferIndexCommand := command])
      ensures pingTimerActive == (if |devices| > 0 then PingWanted(settings) else old(pingTimerActive))
      ensures Held() == old(Held()) && completed == old(completed)
    {
      ghost var image := old(writeBuffer[..])[WriteBufferIndexCommand := command];
      ok := true;
      var i := 0;
      while i < |devices|
        invariant 0 <= i <= |devices| && Held() == old(Held()) && completed == old(completed)
        invariant writeBuffer[..] == Stamped(old(writeBuffer[..]), command, i)
        invariant sent == old(sent) + Broadcast(devices[..i], image)
        invariant pingTimerActive == (if i > 0 then PingWanted(settings) else old(pingTimerActive))
        invariant ok
      {
        var written := WriteBufferToDeviceWithCheck(command, devices[i]);
        if !written {
          ok := false;
        }
        assert Broadcast(devices[..i + 1], image) == Broadcast(devices[..i], image) + [Frame(devices[i], image)];
        i := i + 1;
      }
      assert devices[..i] == devices;
    }

    /** Write one LED's six bytes at a position of the write buffer. */
    method PackLed(index: nat, c: StructRgb)
      requires Valid() && index + 6 <= BufferLength
      modifies writeBuffer
      ensures writeBuffer[..] == old(writeBuffer[..])[..index] + LedBytes(c) + old(writeBuffer[..])[index + 6..]
    {
      writeBuffer[index] := High(c.r);
      writeBuffer[index + 1] := High(c.g);
      writeBuffer[index + 2] := High(c.b);
      writeBuffer[index + 3] := Low(c.r);
      writeBuffer[index + 4] := Low(c.g);
      writeBuffer[index + 5] := Low(c.b);
    }

    /**
      resizeColorsBuffer: nothing happens when the size already matches;
      otherwise the buffer holds min(size, maxLedsCount()) default entries.
     */
    method ResizeColorsBuffer(buffSize: int)
      modifies this
      ensures |old(colorsBuffer)| == buffSize ==> colorsBuffer == old(colorsBuffer)
      ensures |old(colorsBuffer)| != buffSize ==>
        colorsBuffer == seq(Max0(Min(buffSize, MaxLedsCount())), _ => StructRgb(0, 0, 0))
      ensures devices == old(devices) && colorsSaved == old(colorsSaved) && settings == old(settings)
      ensures readSucceeds == old(readSucceeds) && pingTimerActive == old(pingTimerActive)
      ensures sent == old(sent) && completed == old(completed)
    {
      if |colorsBuffer| == buffSize {
        return;
      }
      var size := buffSize;
      if size > MaxLedsCount() {
        size := MaxLedsCount();
      }
      var entries: seq<StructRgb> := [];
      var i := 0;
      while i < size
        invariant 0 <= i <= Max0(size) && entries == seq(i, _ => StructRgb(0, 0, 0))
      {
        entries := entries + [StructRgb(0, 0, 0)];
        i := i + 1;
      }
      colorsBuffer := entries;
    }

    /**
      setColors. More colours than the devices take are refused without any
      write or signal. Otherwise the colours are saved, modified, packed six
      bytes per LED and sent ten LEDs per frame, frame j to device j, the
      buffer cleared after every frame; then success is signalled.
     */
    method SetColors(colors: seq<Rgb>)
      requires Valid()
      modifies this, writeBuffer
      ensures devices == old(devices) && settings == old(settings) && readSucceeds == old(readSucceeds)
      ensures old(|devices|) == 0 && |colors| > 0 ==>
        && sent == old(sent) && completed == old(completed) && Held() == old(Held())
        && writeBuffer[..] == old(writeBuffer[..]) && pingTimerActive == old(pingTimerActive)
      ensures |colors| > old(MaxLedsCount()) ==>
        && colorsSaved == old(colorsSaved) && colorsBuffer == old(colorsBuffer)
        && sent == old(sent) && completed == old(completed)
        && writeBuffer[..] == old(writeBuffer[..]) && pingTimerActive == old(pingTimerActive)
      ensures |colors| <= old(MaxLedsCount()) ==>
        && colorsSaved == colors
        && colorsBuffer == seq(|colors|, i requires 0 <= i < |colors| => colorModifier(colors[i]))
        && sent == old(sent) + LedFrames(colorsBuffer, devices)
        && completed == old(completed) + [true]
        && writeBuffer[..] == ZeroBytes(BufferLength)
        && pingTimerActive == (if |colors| > 0 then PingWanted(settings) else old(pingTimerActive))
    {
      if |colors| > MaxLedsCount() {
        return;
      }
      ResizeColorsBuffer(|colors|);
      colorsSaved := colors;
      colorsBuffer := seq(|colors|, i requires 0 <= i < |colors| => colorModifier(colors[i]));
      ClearWriteBuffer();
      var ok := SendLedFrames(colorsBuffer);
      completed := completed + [ok];
    }

    /**
      The state of setColors' loop before LED i: the LEDs from `start` on are
      packed in the buffer after a zero command byte, the frames of all
      earlier LEDs are sent, and the ping timer restarted if any was.
     */
    ghost predicate Sending(leds: seq<StructRgb>, i: nat, start: nat, flushed: nat, buffIndex: nat,
                            sent0: seq<Frame>, ping0: bool)
      reads this, writeBuffer
    {
      && start <= i <= |leds| <= 10 * |devices| && i - start < LedsPerDevice
      && (i < |leds| ==> start == 10 * flushed)
      && (i == |leds| ==> start == i)
      && buffIndex == 1 + 6 * (i - start)
      && writeBuffer[..] == FrameImage(0, leds[start..i])
      && sent == sent0 + LedFrames(leds[..start], devices)
      && pingTimerActive == (if start > 0 then PingWanted(settings) else ping0)
    }

    /**
      The loop of setColors: LEDs packed six bytes each after the command
      byte; after every tenth LED and after the last, the frame goes to the
      device of that group of ten and the buffer is cleared.
     */
    method SendLedFrames(leds: seq<StructRgb>) returns (ok: bool)
      requires Valid() && |leds| <= 10 * |devices| && writeBuffer[..] == ZeroBytes(BufferLength)
      modifies this, writeBuffer
      ensures Held() == old(Held()) && completed == old(completed)
      ensures ok
      ensures sent == old(sent) + LedFrames(leds, devices)
      ensures writeBuffer[..] == ZeroBytes(BufferLength)
      ensures pingTimerActive == (if |leds| > 0 then PingWanted(settings) else old(pingTimerActive))
    {
      var buffIndex := WriteBufferIndexDataStart;
      ok := true;
      ghost var start := 0;
      ghost var flushed := 0;
      assert FrameImage(0, []) == [0] + ZeroBytes(60);
      var i := 0;
      while i < |leds|
        invariant Valid() && Sending(leds, i, start, flushed, buffIndex, old(sent), old(pingTimerActive))
        invariant ok && Held() == old(Held()) && completed == old(completed)
      {
        var written;
        buffIndex, start, flushed, written := SendStep(leds, i, buffIndex, start, flushed, old(sent), old(pingTimerActive));
        if !written {
          ok := false;
        }
        i := i + 1;
      }
      assert leds[..i] == leds;
      assert FrameImage(0, []) == [0] + ZeroBytes(60);
    }

    /** One iteration of setColors' loop: pack LED i, and flush when it ends a group of ten or is the last. */
    method SendStep(leds: seq<StructRgb>, i: nat, buffIndex: nat, ghost start: nat, ghost flushed: nat,
                    ghost sent0: seq<Frame>, ghost ping0: bool)
      returns (nextIndex: nat, ghost nextStart: nat, ghost nextFlushed: nat, ok: bool)
      requires Valid() && i < |leds| && Sending(leds, i, start, flushed, buffIndex, sent0, ping0)
      modifies this, writeBuffer
      ensures Sending(leds, i + 1, nextStart, nextFlushed, nextIndex, sent0, ping0)
      ensures ok && Held() == old(Held()) && completed == old(completed)
    {
      PackNext(leds[start..i], leds[i], buffIndex);
      assert leds[start..i + 1] == leds[start..i] + [leds[i]];
      nextIndex, nextStart, nextFlushed, ok := buffIndex + 6, start, flushed, true;
      if (i + 1) % LedsPerDevice == 0 || i == |leds| - 1 {
        ok := FlushChunk(leds, i, start, flushed, sent0);
        nextIndex, nextStart, nextFlushed := WriteBufferIndexDataStart, i + 1, flushed + 1;
      }
    }

    /** The flush in setColors' loop after LED i: the frames sent grow to cover LEDs 0 to i. */
    method FlushChunk(leds: seq<StructRgb>, i: nat, ghost start: nat, ghost flushed: nat, ghost sent0: seq<Frame>)
      returns (ok: bool)
      requires Valid() && start <= i < |leds| <= 10 * |devices| && i - start < LedsPerDevice && start == 10 * flushed
      requires (i + 1) % LedsPerDevice == 0 || i == |leds| - 1
      requires writeBuffer[..] == FrameImage(0, leds[start..i + 1])
      requires sent == sent0 + LedFrames(leds[..start], devices)
      modifies this, writeBuffer
      ensures ok && Held() == old(Held()) && completed == old(completed)
      ensures writeBuffer[..] == FrameImage(0, [])
      ensures sent == sent0 + LedFrames(leds[..i + 1], devices)
      ensures pingTimerActive == PingWanted(settings)
      ensures i + 1 < |leds| ==> i + 1 == 10 * (flushed + 1)
    {
      FlushStep(leds, start, i, flushed, devices);
      ok := FlushFrame(leds[start..i + 1], devices[(i + LedsPerDevice) / LedsPerDevice - 1]);
    }

    /** One LED packed at the write position of a partly filled frame. */
    method PackNext(ghost pending: seq<StructRgb>, c: StructRgb, buffIndex: nat)
      requires Valid() && |pending| < LedsPerDevice && buffIndex == 1 + 6 * |pending|
      requires writeBuffer[..] == FrameImage(0, pending)
      modifies writeBuffer
      ensures writeBuffer[..] == FrameImage(0, pending + [c])
    {
      AppendLed(pending, c);
      PackLed(buffIndex, c);
    }

    /** A filled frame sent with the LED update command to one device, then the buffer cleared. */
    method FlushFrame(ghost chunk: seq<StructRgb>, device: Handle) returns (ok: bool)
      requires Valid() && |chunk| <= LedsPerDevice && writeBuffer[..] == FrameImage(0, chunk)
      modifies this, writeBuffer
      ensures ok
      ensures sent == old(sent) + [Frame(device, FrameImage(CmdUpdateLeds, chunk))]
      ensures writeBuffer[..] == ZeroBytes(BufferLength) == FrameImage(0, [])
      ensures pingTimerActive == PingWanted(settings)
      ensures Held() == old(Held()) && completed == old(completed)
    {
      StampFrame(CmdUpdateLeds, chunk);
      ok := WriteBufferToDeviceWithCheck(CmdUpdateLeds, device);
      ClearWriteBuffer();
      assert FrameImage(0, []) == [0] + ZeroBytes(60);
    }

    /** switchOffLeds: saved colours all 0 (maxLedsCount() of them if there were none), then an all-zero frame to every device. */
    method SwitchOffLeds()
      requires Valid()
      modifies this, writeBuffer
      ensures old(|colorsSaved|) == 0 ==> colorsSaved == seq(old(MaxLedsCount()), _ => Zero)
      ensures old(|colorsSaved|) != 0 ==> colorsSaved == seq(old(|colorsSaved|), _ => Zero)
      ensures writeBuffer[..] == Stamped(ZeroBytes(BufferLength), CmdUpdateLeds, |devices|)
      ensures sent == old(sent) + Broadcast(devices, ZeroBytes(BufferLength)[WriteBufferIndexCommand := CmdUpdateLeds])
      ensures completed == old(completed) + [true]
      ensures pingTimerActive == (|devices| > 0 && PingWanted(settings))
      ensures devices == old(devices) && colorsBuffer == old(colorsBuffer)
      ensures settings == old(settings) && readSucceeds == old(readSucceeds)
    {
      var saved := colorsSaved;
      if |saved| == 0 {
        var i := 0;
        while i < MaxLedsCount()
          invariant 0 <= i <= MaxLedsCount() && saved == seq(i, _ => Zero)
        {
          saved := saved + [Zero];
          i := i + 1;
        }
      } else {
        var i := 0;
        while i < |saved|
          invariant 0 <= i <= |saved| && |saved| == |colorsSaved|
          invariant forall j :: 0 <= j < i ==> saved[j] == Zero
        {
          saved := saved[i := Zero];
          i := i + 1;
        }
      }
      colorsSaved := saved;
      pingTimerActive := false;
      ClearWriteBuffer();
      var ok := SendToAll(CmdUpdateLeds);
      completed := completed + [ok];
    }

    /** setRefreshDelay: value & 0xff and value >> 8 at bytes 1 and 2, the rest of the buffer kept, sent to every device. */
    method SetRefreshDelay(value: int)
      requires Valid()
      modifies this, writeBuffer
      ensures var image := RefreshImage(old(writeBuffer[..]), value);
        && writeBuffer[..] == Stamped(image, CmdSetTimerOptions, |devices|)
        && sent == old(sent) + Broadcast(devices, image[WriteBufferIndexCommand := CmdSetTimerOptions])
      ensures completed == old(completed) + [true]
      ensures pingTimerActive == (if |devices| > 0 then PingWanted(settings) else old(pingTimerActive))
      ensures Held() == old(Held())
    {
      writeBuffer[WriteBufferIndexDataStart] := value % 256;
      writeBuffer[WriteBufferIndexDataStart + 1] := (value / 256) % 256;
      var ok := SendToAll(CmdSetTimerOptions);
      completed := completed + [ok];
    }

    /** setColorDepth: (unsigned char) value at byte 1, the rest of the buffer kept, sent to every device. */
    method SetColorDepth(value: int)
      requires Valid()
      modifies this, writeBuffer
      ensures var image := ByteImage(old(writeBuffer[..]), value);
        && writeBuffer[..] == Stamped(image, CmdSetPwmLevelMaxValue, |devices|)
        && sent == old(sent) + Broadcast(devices, image[WriteBufferIndexCommand := CmdSetPwmLevelMaxValue])
      ensures completed == old(completed) + [true]
      ensures pingTimerActive == (if |devices| > 0 then PingWanted(settings) else old(pingTimerActive))
      ensures Held() == old(Held())
    {
      writeBuffer[WriteBufferIndexDataStart] := value % 256;
      var ok := SendToAll(CmdSetPwmLevelMaxValue);
      completed := completed + [ok];
    }

    /** setSmoothSlowdown: (unsigned char) value at byte 1, the rest of the buffer kept, sent to every device. */
    method SetSmoothSlowdown(value: int)
      requires Valid()
      modifies this, writeBuffer
      ensures var image := ByteImage(old(writeBuffer[..]), value);
        && writeBuffer[..] == Stamped(image, CmdSetSmoothSlowdown, |devices|)
        && sent == old(sent) + Broadcast(devices, image[WriteBufferIndexCommand := CmdSetSmoothSlowdown])
      ensures completed == old(completed) + [true]
      ensures pingTimerActive == (if |devices| > 0 then PingWanted(settings) else old(pingTimerActive))
      ensures Held() == old(Held())
    {
      writeBuffer[WriteBufferIndexDataStart] := value % 256;
      var ok := SendToAll(CmdSetSmoothSlowdown);
      completed := completed + [ok];
    }

    /** setColorSequence: nothing to send; success is signalled. */
    method SetColorSequence()
      modifies this
      ensures completed == old(completed) + [true]
      ensures Held() == old(Held()) && sent == old(sent) && pingTimerActive == old(pingTimerActive)
    {
      completed := completed + [true];
    }

    /** readDataFromDevice: the transfer's outcome, which also restarts the ping timer. */
    method ReadDataFromDevice(device: Handle) returns (ok: bool)
      modifies this
      ensures ok == readSucceeds
      ensures pingTimerActive == PingWanted(settings)
      ensures Held() == old(Held()) && sent == old(sent) && completed == old(completed)
    {
      ok := readSucceeds;
      RestartPingDevice(ok);
    }

    /** requestFirmwareVersion: failure without a device; otherwise the outcome of a read from the first device. */
    method RequestFirmwareVersion()
      modifies this
      ensures completed == old(completed) + [|devices| > 0 && readSucceeds]
      ensures pingTimerActive == (if |devices| > 0 then PingWanted(settings) else old(pingTimerActive))
      ensures Held() == old(Held()) && sent == old(sent)
    {
      if |devices| < 1 {
        completed := completed + [false];
        return;
      }
      var ok := ReadDataFromDevice(devices[0]);
      completed := completed + [ok];
    }

    /**
      updateDeviceSettings: the refresh delay, the colour depth and the
      smoothness from the settings, each sent to every device, then the
      firmware version requested.
     */
    method UpdateDeviceSettings()
      requires Valid()
      modifies this, writeBuffer
      ensures writeBuffer[..] == SettingsBuffer(old(writeBuffer[..]), settings, |devices|)
      ensures sent == old(sent) + SettingsFrames(old(writeBuffer[..]), settings, devices)
      ensures completed == old(completed) + [true, true, true, |devices| > 0 && readSucceeds]
      ensures pingTimerActive == (if |devices| > 0 then PingWanted(settings) else old(pingTimerActive))
      ensures Held() == old(Held())
    {
      SetRefreshDelay(settings.refreshDelay);
      SetColorDepth(settings.colorDepth);
      SetSmoothSlowdown(settings.smoothSlowdown);
      RequestFirmwareVersion();
    }

    /** closeDevices: every handle released; no device left. */
    method CloseDevices()
      modifies this
      ensures devices == []
      ensures colorsSaved == old(colorsSaved) && colorsBuffer == old(colorsBuffer) && settings == old(settings)
      ensures readSucceeds == old(readSucceeds) && pingTimerActive == old(pingTimerActive)
      ensures sent == old(sent) && completed == old(completed)
    {
      devices := [];
    }

    /**
      open: nothing when devices are already open. Otherwise the handles the
      USB enumeration opened (`found`) become the devices; with none, the
      failure restarts the ping timer; with some, the device settings are
      sent and the success restarts the ping timer.
     */
    method Open(found: seq<Handle>)
      requires Valid()
      modifies this, writeBuffer
      ensures old(|devices|) > 0 ==>
        && devices == old(devices) && sent == old(sent) && completed == old(completed)
        && pingTimerActive == old(pingTimerActive) && writeBuffer[..] == old(writeBuffer[..])
      ensures old(|devices|) == 0 ==> devices == found && pingTimerActive == PingWanted(settings)
      ensures old(|devices|) == 0 && |found| == 0 ==>
        sent == old(sent) && completed == old(completed) && writeBuffer[..] == old(writeBuffer[..])
      ensures old(|devices|) == 0 && |found| > 0 ==>
        && sent == old(sent) + SettingsFrames(old(writeBuffer[..]), settings, found)
        && writeBuffer[..] == SettingsBuffer(old(writeBuffer[..]), settings, |found|)
        && completed == old(completed) + [true, true, true, readSucceeds]
      ensures colorsSaved == old(colorsSaved) && colorsBuffer == old(colorsBuffer)
      ensures settings == old(settings) && readSucceeds == old(readSucceeds)
    {
      if |devices| > 0 {
        return;
      }
      devices := devices + found;
      if |devices| == 0 {
        RestartPingDevice(false);
        return;
      }
      UpdateDeviceSettings();
      RestartPingDevice(true);
    }

    /** tryToReopenDevice: close everything, open again, and report whether a device is open. */
    method TryToReopenDevice(found: seq<Handle>) returns (ok: bool)
      requires Valid()
      modifies this, writeBuffer
      ensures ok <==> |found| > 0
      ensures devices == found && pingTimerActive == PingWanted(settings)
      ensures |found| == 0 ==>
        sent == old(sent) && completed == old(completed) && writeBuffer[..] == old(writeBuffer[..])
      ensures |found| > 0 ==>
        && sent == old(sent) + SettingsFrames(old(writeBuffer[..]), settings, found)
        && writeBuffer[..] == SettingsBuffer(old(writeBuffer[..]), settings, |found|)
        && completed == old(completed) + [true, true, true, readSucceeds]
      ensures colorsSaved == old(colorsSaved) && colorsBuffer == old(colorsBuffer)
      ensures settings == old(settings) && readSucceeds == old(readSucceeds)
    {
      CloseDevices();
      Open(found);
      ok := |devices| != 0;
    }
  }

  /** Writing the command byte into a frame built with command 0 gives the frame built with that command. */
  lemma StampFrame(command: Byte, leds: seq<StructRgb>)
    requires |leds| <= LedsPerDevice
    ensures FrameImage(0, leds)[WriteBufferIndexCommand := command] == FrameImage(command, leds)
  {
  }

  /** A full chunk is the same whichever longer prefix of the LEDs it is taken from. */
  lemma ChunkOfPrefix(leds: seq<StructRgb>, n: nat, j: nat)
    requires 10 * j + 10 <= n <= |leds|
    ensures j < ChunkCount(n) && Chunk(leds[..n], j) == leds[10 * j .. 10 * j + 10]
  {
    assert Min(10 * j + 10, n) == 10 * j + 10;
    assert forall k :: 10 * j <= k < 10 * j + 10 ==> leds[..n][k] == leds[k];
  }

  /**
    The step of setColors' loop that flushes after LED i: the frame filled so
    far is chunk `flushed` in full, the device index (i + 10) / 10 - 1 is
    that chunk's number, and the frames sent so far extend by exactly it.
   */
  lemma FlushStep(leds: seq<StructRgb>, start: nat, i: nat, flushed: nat, devices: seq<Handle>)
    requires start <= i < |leds| <= 10 * |devices| && i - start < LedsPerDevice && start == 10 * flushed
    requires (i + 1) % LedsPerDevice == 0 || i == |leds| - 1
    ensures flushed < ChunkCount(|leds|) && Chunk(leds, flushed) == leds[start..i + 1]
    ensures (i + LedsPerDevice) / LedsPerDevice - 1 == flushed
    ensures i + 1 < |leds| ==> i + 1 == 10 * (flushed + 1)
    ensures LedFrames(leds[..i + 1], devices)
      == LedFrames(leds[..start], devices) + [Frame(devices[flushed], FrameImage(CmdUpdateLeds, leds[start..i + 1]))]
  {
    FlushCounters(|leds|, start, i, flushed);
    var a := LedFrames(leds[..start], devices);
    var b := LedFrames(leds[..i + 1], devices);
    forall j | 0 <= j < flushed
      ensures b[j] == a[j]
    {
      ChunkOfPrefix(leds, i + 1, j);
      ChunkOfPrefix(leds, start, j);
    }
    assert Chunk(leds[..i + 1], flushed) == leds[start..i + 1];
  }

  /** The counting behind FlushStep: which chunk ends at LED i, and where the next one starts. */
  lemma FlushCounters(n: nat, start: nat, i: nat, flushed: nat)
    requires start <= i < n && i - start < 10 && start == 10 * flushed
    requires (i + 1) % 10 == 0 || i == n - 1
    ensures flushed < ChunkCount(n) && Min(10 * flushed + 10, n) == i + 1
    ensures Min(10 * flushed + 10, i + 1) == i + 1
    ensures (i + 10) / 10 - 1 == flushed
    ensures i + 1 < n ==> i + 1 == 10 * (flushed + 1)
    ensures ChunkCount(start) == flushed && ChunkCount(i + 1) == flushed + 1
  {
  }
}
