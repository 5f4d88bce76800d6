# Lightpack / Prismatik core in Dafny

This project models the core of Prismatik, the desktop software that drives
Lightpack ambient-light devices, and proves properties of the model. The core
has three parts:

* **Pixel averaging** (`Calculations.dfy`, `FBGrabber.dfy`).
  * `calculateAvgColor` reduces a rectangle of a raw frame to one colour. It
    handles four 32-bit channel orders and packed RGB565, and it adds four
    pixels per step.
  * `calculateAvgColor` over a colour list gives the component-wise mean.
  * The framebuffer grabber's `getColor` clips a widget to the screen, aligns
    its width down to a multiple of four and rounds the RGB565 mean to the
    nearest integer. The model clips with the intended signed comparison;
    the source's unsigned comparison is modelled beside it (see Findings).
  * `FBGrabber::_grab` manages the frame buffer and fills one colour per
    capture region.
* **Grab scheduling** (`GrabManager.dfy`). The grab manager holds:
  * the new and current colour lists;
  * the LED widgets, each reduced to its index and its area flag;
  * the grabber registry and the grabber in use;
  * the policy flags for averaging, pausing and sending only changed colours.
* **Lightpack device framing** (`LedDeviceLightpack.dfy`).
  * Colours are packed into 61-byte frames: one command byte, then six bytes
    for each of at most ten LEDs.
  * Frame j goes to device j.
  * Settings commands are sent to every device.
  * The ping timer is restarted after every transfer.

Shared value types are in `Types.dfy`:
* the QRgb word, kept as its four bytes;
* rectangles, capture regions and grab results.

The code runs step by step, so the model keeps that shape:
* Averaging, the region loop, the list resizes, the change detection and the
  frame packing are methods with loop invariants.
* `FBGrabber`, `GrabManager`, `LedDeviceLightpack` and the framebuffer device
  are classes whose methods update their fields.
* The Lightpack write buffer is a 61-byte `array`.

Each method is proved against specification functions:
* `ChannelSum` and `AverageColor` for the averagers;
* `GetColorSpec` for `getColor`;
* `Averaged` and `Changed` for `handleGrabbedColors`;
* `LedFrames`, `FrameImage` and `Broadcast` for what the driver writes.

Lemmas then state what those functions mean:
* truncated and rounded means;
* bounds and round trips;
* idempotence of the average mode;
* how the LED chunks cover the colours.

Integers are unbounded. Every mask and truncating cast in the source is
written out as `%` or `/`:
* the `& 0xff` after a mean;
* `(unsigned char)` of a setting;
* the 12-bit masks of the packing.

Transfers and emitted signals are kept as logs in fields:
* `sent` holds the frames written;
* `completed` holds the `commandCompleted` values.

Timers are boolean fields or the interval last started.

## Model

| member | source | states |
|---|---|---|
| Types.MakeRgb | Software/src/grab/calculations.cpp:133 | qRgb: alpha 0xFF; each channel kept when it is already a byte |
| Types.WordRoundTrip | Software/src/grab/calculations.cpp:140-142 | about this model's representation rather than those lines: reading a colour's four bytes back out of its 32-bit QRgb word, as qAlpha/qRed/qGreen/qBlue do, gives the same colour, so comparing `Rgb` records is comparing QRgb words |
| Calculations.Rgb565Fields | Software/src/grab/calculations.cpp:31-33 | the `_565R`, `_565G`, `_565B` macros read the 5-6-5 bit fields of the little-endian word hi:lo, scaled by 8, 4 and 8 |
| Calculations.AccumulateRowFourByte | Software/src/grab/calculations.cpp:49-55 | the unrolled inner loop of a 32-bit format adds exactly the channel's bytes of the row's w pixels |
| Calculations.AccumulateRowRgb565 | Software/src/grab/calculations.cpp:111-117 | the unrolled RGB565 inner loop adds exactly the decoded channel of each of the row's w pixels |
| Calculations.Accumulate | Software/src/grab/calculations.cpp:43-121 | for a width that is a multiple of 4 and a rectangle inside the buffer, the row loop, which starts each row at pitch*(y+row) + x*bpp, ends with the three channel sums over every pixel and count == width*height |
| Calculations.CalculateAvgColor | Software/src/grab/calculations.cpp:35-135 | status -1 and nothing written for an unknown format; otherwise status 0 and the truncated mean colour |
| Calculations.RectSumBound | Software/src/grab/calculations.cpp:47-56 | a channel sum over w*rows pixels is at most 255*w*rows |
| Calculations.EmptyRectSums | Software/src/grab/calculations.cpp:47-49 | a rectangle with no pixel leaves all sums at zero |
| Calculations.TruncatedMeanIsMean | Software/src/grab/calculations.cpp:127-131 | for a non-zero count the masked quotient is the sum divided by the count, rounded down, and it is a byte |
| Calculations.AverageColorIsMean | Software/src/grab/calculations.cpp:127-133 | the result is opaque; each channel is the floor mean of that channel over the rectangle; an empty rectangle gives black |
| Calculations.UniformAverage | Software/src/grab/calculations.cpp:44-133 | a buffer filled with one byte v averages to (v, v, v) in every 32-bit format, and to the decoded RGB565 sample in RGB565 |
| Calculations.ArgbFilledExample | Software/tests/GrabCalculationTest.cpp:4-11 | ARGB, 4x1, all bytes 0xFA gives qRgb(0xFA, 0xFA, 0xFA) |
| Calculations.Rgb565FilledExample | Software/tests/GrabCalculationTest.cpp:13-22 | RGB565, 8x1, all bytes 0xFA gives qRgb(248, 92, 208) |
| Calculations.ListSumBound | Software/src/grab/calculations.cpp:139-143 | the list sums are at most 255 per colour |
| Calculations.ByteMean | Software/src/grab/calculations.cpp:144-146 | the quotient of a sum of bytes by their number is a byte and is their floor mean |
| Calculations.ListMeanIsMean | Software/src/grab/calculations.cpp:137-148 | the list mean is opaque and each channel is the floor mean of that channel over the list |
| Calculations.CalculateAvgColorOfList | Software/src/grab/calculations.cpp:137-148 | the summing loop gives the list mean of a non-empty list |
| FramebufferGrabber.BytesPerPixel | Software/src/grab/FBGrabber.cpp:42-45 | (bbp + 7) >> 3 is the number of whole bytes that hold bbp bits |
| FramebufferGrabber.CRem4 | Software/src/grab/FBGrabber.cpp:88 | C's `width % 4`: the remainder has the sign of the width, is smaller than 4 in size, and leaves a multiple of 4 |
| FramebufferGrabber.ClipSpan | Software/src/grab/FBGrabber.cpp:72-85 | the clipped span starts at max(0, start) and ends at min(start + len, screen size), i.e. it is the widget's intersection with the screen |
| FramebufferGrabber.ClipAgrees | Software/src/grab/FBGrabber.cpp:84-85 | when the widget does not end left of (above) the screen, the clip as written equals the intersection |
| FramebufferGrabber.ClipAsWrittenCounterexample | Software/src/grab/FBGrabber.cpp:84-85 | for x = -100, width 50 on a 640-pixel screen the clip as written yields a whole screen row instead of the empty intersection |
| FramebufferGrabber.GetColorAgrees | Software/src/grab/FBGrabber.cpp:72-146 | for every widget that does not end left of or above the screen, the rectangle the source clips and the result of getColor as written equal the model's |
| FramebufferGrabber.Align | Software/src/grab/FBGrabber.cpp:88 | a non-negative width is aligned down to the largest multiple of 4 not above it; a width of -1 to -3 becomes 0; a width of -4 or below stays negative |
| FramebufferGrabber.HalfUpIsRounded | Software/src/grab/FBGrabber.cpp:135-139 | (2*sum + n) / (2*n) is the mean rounded to nearest, halves up, and is a byte |
| FramebufferGrabber.RoundedMeanIsMean | Software/src/grab/FBGrabber.cpp:135-139 | for a non-zero count the masked rounded quotient is the nearest-integer mean of the samples |
| FramebufferGrabber.ScreenCovers | Software/src/grab/FBGrabber.cpp:104-114 | a clipped rectangle of a 16-bit screen lies inside the xres*yres*2-byte frame, so every byte the loop reads is in bounds |
| FramebufferGrabber.GetColor | Software/src/grab/FBGrabber.cpp:56-146 | getColor in place, with the corrected clip: null buffer gives 0; clip and align; a negative side gives 0; only 16 bits per pixel adds samples; rounded means when count is non-zero; qRgb of the result |
| FramebufferGrabber.AverageArea | Software/src/grab/FBGrabber.cpp:102-141 | the 16-bit branch gives the rounded RGB565 mean over the clipped rectangle |
| FramebufferGrabber.GetColorIsRoundedMean | Software/src/grab/FBGrabber.cpp:56-146 | for the corrected clip: 0 without a buffer or with a negative side; otherwise opaque, and black unless 16 bits and some pixel; the clipped rectangle lies inside both the widget and the screen with a width multiple of 4; each channel is the rounded mean over those pixels |
| FramebufferGrabber.FrameDevice.OpenDevice | Software/src/grab/FBGrabber.cpp:154-164 | -2 when a descriptor is already held, -1 (descriptor -1) when open fails, 0 with a positive descriptor otherwise |
| FramebufferGrabber.FrameDevice.CloseDevice | Software/src/grab/FBGrabber.cpp:166-172 | the descriptor is released |
| FramebufferGrabber.FrameDevice.ReadFbScreenInfo | Software/src/grab/FBGrabber.cpp:174-187 | the screen information, or none when the query fails |
| FramebufferGrabber.FrameDevice.ReadFbData | Software/src/grab/FBGrabber.cpp:189-197 | success iff the buffer exists and the whole frame is available; then the first n bytes are the frame's and the rest are unchanged |
| FramebufferGrabber.RegionColors | Software/src/grab/FBGrabber.cpp:256-259 | one colour per region, in order: getColor for an enabled area, qRgb(0,0,0) otherwise |
| FramebufferGrabber.FBGrabber.Grab | Software/src/grab/FBGrabber.cpp:230-269 | Ok iff open, screen info and the full read succeed; the buffer is replaced by a zero-filled one exactly when its size differs from getBufSize, and then bufSize == getBufSize; on Ok the results are one colour per region of the frame read; on error the results are unchanged; the device is always closed |
| GrabManagement.AveragedIsMean | Software/src/GrabManager.cpp:306-332 | in average mode every enabled slot becomes the opaque component-wise floor mean of the enabled slots; every other slot is untouched |
| GrabManagement.EnabledNonEmpty | Software/src/GrabManager.cpp:318-323 | with an enabled widget the divisor countGrabEnabled is non-zero |
| GrabManagement.MeanOfRepeat | Software/src/GrabManager.cpp:318-323 | the mean of n copies of an opaque colour is that colour |
| GrabManagement.AveragedIdempotent | Software/src/GrabManager.cpp:306-332 | averaging already averaged colours changes nothing |
| GrabManagement.SecondPassQuiet | Software/src/GrabManager.cpp:306-362 | handling the same grabbed colours twice reports no change the second time |
| GrabManagement.AverageEnabled | Software/src/GrabManager.cpp:306-332 | the two loops of the average mode compute Averaged |
| GrabManagement.DetectChanges | Software/src/GrabManager.cpp:350-357 | afterwards current equals new on every widget slot and is unchanged beyond; the flag is true iff some slot differed |
| GrabManagement.GrabManager.InitColorLists | Software/src/GrabManager.cpp:535-547 | both lists hold n zeros (none for a negative n) |
| GrabManagement.GrabManager.ClearColorsNew | Software/src/GrabManager.cpp:549-557 | every new colour is 0 and the length is kept |
| GrabManagement.GrabManager.ClearColorsCurrent | Software/src/GrabManager.cpp:559-567 | every current colour is 0 and the length is kept |
| GrabManagement.GrabManager.InitLedWidgets | Software/src/GrabManager.cpp:569-619 | exactly n widgets; the kept prefix is unchanged; appended widgets are numbered by position |
| GrabManagement.GrabManager.SetNumberOfLeds | Software/src/GrabManager.cpp:212-224 | both colour lists become n zeros and the widgets are n widgets numbered by position, each with the area flag its settings reload gives, so there is one slot per widget |
| GrabManagement.GrabManager.Start | Software/src/GrabManager.cpp:124-141 | new colours always zeroed; with a grabber either start it and the FPS timer, or stop both, zero the current colours and report 0 |
| GrabManagement.GrabManager.QueryGrabber | Software/src/GrabManager.cpp:512-527 | the requested grabber if registered, else the Qt grabber; its interval is set to the slowdown |
| GrabManagement.GrabManager.OnGrabberTypeChanged | Software/src/GrabManager.cpp:143-168 | the old grabber is stopped; the requested one (or the Qt fallback) becomes current with the slowdown as interval, and is started when the old one was grabbing; other registered grabbers are untouched |
| GrabManagement.GrabManager.HandleGrabbedColors | Software/src/GrabManager.cpp:283-367 | no grabber: nothing; paused: grab timer at 50 ms and no list changes; otherwise new and current hold the grabbed (averaged) colours and they are sent iff not only-if-changed or some slot changed |
| GrabManagement.GrabManager.OnFrameGrabAttempted | Software/src/GrabManager.cpp:529-533 | an error changes nothing; a successful grab has exactly the effect of handleGrabbedColors: nothing without a grabber, the 50 ms timer while paused, otherwise the (averaged) colours stored and sent iff not only-if-changed or some slot changed |
| GrabManagement.GrabManager.PauseWhileResizeOrMoving | Software/src/GrabManager.cpp:375-379 | sets the pause flag and nothing else |
| GrabManagement.GrabManager.ResumeAfterResizeOrMoving | Software/src/GrabManager.cpp:381-385 | clears the pause flag and nothing else |
| LightpackDevice.FrameImage | Software/src/LedDeviceLightpack.hpp:79-80 | a frame of at most ten LEDs fills exactly the 61-byte buffer |
| LightpackDevice.JoinSplit | Software/src/LedDeviceLightpack.cpp:101-110 | ((c & 0xFF0) >> 4) << 4 \| (c & 0xF) == c & 0xFFF |
| LightpackDevice.LedRoundTrip | Software/src/LedDeviceLightpack.cpp:101-110 | LED j of a frame sits at 1 + 6j: its high bytes and low nibbles give back each channel's low 12 bits |
| LightpackDevice.FrameRoundTrip | Software/src/LedDeviceLightpack.cpp:94-110 | a frame decodes to its command at index 0, every packed LED, and zeros after the last LED |
| LightpackDevice.ChunksCover | Software/src/LedDeviceLightpack.cpp:112-118 | LED i travels in frame i/10 at position i%10, and every frame but the last is full |
| LightpackDevice.TwentyThreeLeds | Software/src/LedDeviceLightpack.cpp:112-118 | 23 colours on three devices give three frames of 10, 10 and 3 LEDs, to devices 0, 1 and 2 |
| LightpackDevice.FramesFitDevices | Software/src/LedDeviceLightpack.hpp:60 | a colour list within maxLedsCount() never needs more frames than there are devices, so `m_devices[(i+10)/10 - 1]` always exists; with no device only the empty list fits |
| LightpackDevice.SettingsFramesShape | Software/src/LedDeviceLightpack.cpp:154-195 | the settings pass is one frame per device for each setting in turn: timer options carrying the refresh delay's low and high bytes, then the PWM level carrying the colour depth's low byte, then smoothness carrying its low byte; the i-th frame of each group goes to device i |
| LightpackDevice.AppendLed | Software/src/LedDeviceLightpack.cpp:101-110 | writing an LED's six bytes at the running index extends the pending frame by that LED |
| LightpackDevice.StampFrame | Software/src/LedDeviceLightpack.cpp:318 | setting byte 0 to the command gives the frame with that command |
| LightpackDevice.FlushStep | Software/src/LedDeviceLightpack.cpp:112-118 | flushing after LED i sends exactly the next chunk, to device (i+10)/10-1, and the next chunk starts at i+1 |
| LightpackDevice.LedDeviceLightpack.constructor | Software/src/LedDeviceLightpack.cpp:42-60 | no device, empty lists, a zeroed 61-byte write buffer |
| LightpackDevice.LedDeviceLightpack.RestartPingDevice | Software/src/LedDeviceLightpack.cpp:422-433 | the ping timer runs iff backlight and ping-every-second are both enabled, whatever the success argument |
| LightpackDevice.LedDeviceLightpack.TimerPingDeviceTimeout | Software/src/LedDeviceLightpack.cpp:435-474 | reports success, which restarts the ping timer as the settings say |
| LightpackDevice.LedDeviceLightpack.ClearWriteBuffer | Software/src/LedDeviceLightpack.cpp:96 | the memset zeroes all 61 bytes |
| LightpackDevice.LedDeviceLightpack.WriteBufferToDevice | Software/src/LedDeviceLightpack.cpp:311-329 | byte 0 becomes the command; the whole buffer is sent; the result is always true |
| LightpackDevice.LedDeviceLightpack.WriteBufferToDeviceWithCheck | Software/src/LedDeviceLightpack.cpp:367-390 | with a device handle, one write, always true |
| LightpackDevice.LedDeviceLightpack.SendToAll | Software/src/LedDeviceLightpack.cpp:163-168 | the buffer with the command goes to every device in order; no failure |
| LightpackDevice.LedDeviceLightpack.PackLed | Software/src/LedDeviceLightpack.cpp:101-110 | the six bytes of one LED written at the index, the rest of the buffer unchanged |
| LightpackDevice.LedDeviceLightpack.PackNext | Software/src/LedDeviceLightpack.cpp:101-110 | one more LED packed into the pending frame |
| LightpackDevice.LedDeviceLightpack.FlushFrame | Software/src/LedDeviceLightpack.cpp:113-117 | the filled frame sent with the LED update command, then the buffer zeroed |
| LightpackDevice.LedDeviceLightpack.FlushChunk | Software/src/LedDeviceLightpack.cpp:112-118 | after the flush at LED i the frames sent cover LEDs 0 to i |
| LightpackDevice.LedDeviceLightpack.SendStep | Software/src/LedDeviceLightpack.cpp:97-119 | one loop iteration keeps the packing/flushing invariant |
| LightpackDevice.LedDeviceLightpack.SendLedFrames | Software/src/LedDeviceLightpack.cpp:92-119 | the loop sends exactly LedFrames: chunk j to device j; the buffer is zeroed afterwards |
| LightpackDevice.LedDeviceLightpack.ResizeColorsBuffer | Software/src/LedDeviceLightpack.cpp:392-410 | nothing when the size matches; otherwise min(n, maxLedsCount()) default entries |
| LightpackDevice.LedDeviceLightpack.SetColors | Software/src/LedDeviceLightpack.cpp:68-126 | over maxLedsCount(), and so any non-empty list with no device open: nothing written or signalled; otherwise colours saved and modified, LedFrames sent, and commandCompleted(true) signalled once |
| LightpackDevice.LedDeviceLightpack.SwitchOffLeds | Software/src/LedDeviceLightpack.cpp:128-154 | saved colours all 0 (maxLedsCount() of them if there were none); an all-zero LED update to every device; commandCompleted(true) |
| LightpackDevice.LedDeviceLightpack.SetRefreshDelay | Software/src/LedDeviceLightpack.cpp:156-169 | v & 0xFF at index 1 and (v >> 8) as a byte at index 2, rest of buffer kept, sent to every device |
| LightpackDevice.LedDeviceLightpack.SetColorDepth | Software/src/LedDeviceLightpack.cpp:171-183 | (unsigned char) v at index 1, rest kept, sent to every device |
| LightpackDevice.LedDeviceLightpack.SetSmoothSlowdown | Software/src/LedDeviceLightpack.cpp:185-197 | (unsigned char) v at index 1, rest kept, sent to every device |
| LightpackDevice.LedDeviceLightpack.SetColorSequence | Software/src/LedDeviceLightpack.cpp:199-202 | only commandCompleted(true) |
| LightpackDevice.LedDeviceLightpack.ReadDataFromDevice | Software/src/LedDeviceLightpack.cpp:291-309 | the read's outcome, which also restarts the ping timer |
| LightpackDevice.LedDeviceLightpack.RequestFirmwareVersion | Software/src/LedDeviceLightpack.cpp:204-231 | false without a device; otherwise the outcome of reading the first device |
| LightpackDevice.LedDeviceLightpack.UpdateDeviceSettings | Software/src/LedDeviceLightpack.cpp:233-243 | refresh delay, colour depth and smoothness each sent to every device (the settings frames), then the firmware request |
| LightpackDevice.LedDeviceLightpack.CloseDevices | Software/src/LedDeviceLightpack.cpp:412-420 | no device is left |
| LightpackDevice.LedDeviceLightpack.Open | Software/src/LedDeviceLightpack.cpp:246-289 | nothing when devices are open; otherwise the handles found become the devices; none: ping restarted only, nothing sent; some: exactly the settings frames sent to them, the buffer left as the settings pass leaves it, then ping restarted |
| LightpackDevice.LedDeviceLightpack.TryToReopenDevice | Software/src/LedDeviceLightpack.cpp:331-343 | true iff some device is open after close and open; the devices found then receive exactly the settings frames |

## Left out

- USB and framebuffer I/O are not modelled.
  - libusb enumeration, open and control transfers are outside the model. `Open` takes the handles the enumeration opened as a parameter.
  - A write is recorded in `sent`; whether a read succeeds is the field `readSucceeds`.
  - The framebuffer `open`/`ioctl`/`read` are `FrameDevice`, with the outcomes held in its fields.
  - A short read is modelled as a failure that leaves the buffer unchanged.
- Memory allocation in `_grab` never fails in the model.
- `LightpackDevice.LedDeviceLightpack.WriteBufferToDeviceWithCheck`: the null-handle branch (reopen, then write) is not modelled.
  - Every caller passes an element of the device list, and `open` only ever adds non-null handles.
  - The retry after a failed write is unreachable, because `writeBufferToDevice` always returns true.
- `readDataFromDeviceWithCheck` is not modelled; none of the modelled operations calls it.
- Firmware version string formatting and the read buffer's contents are left out. Only the `commandCompleted` outcome of `requestFirmwareVersion` is kept.
- The opcode values `CMD_UPDATE_LEDS`, `CMD_SET_TIMER_OPTIONS`, `CMD_SET_PWM_LEVEL_MAX_VALUE` and `CMD_SET_SMOOTH_SLOWDOWN` come from a command header that is not part of this model. The values used here (1, 3, 4, 5) matter only in being distinct.
- `applyColorModifications` belongs to the device base class, which is not part of this model.
  - It is the constant function `colorModifier`, applied to each colour.
  - Its gamma and brightness arithmetic is not modelled.
  - The default `StructRgb` entries `resizeColorsBuffer` appends are taken to be all-zero.
- `AbstractLedDevice::updateDeviceSettings`, called first by `updateDeviceSettings`, is not part of this model.
- Qt signals are modelled as follows:
  - `commandCompleted` is recorded in `completed`.
  - `updateLedsColors` is the `sent` result of `HandleGrabbedColors`.
  - `ambilightTimeOfUpdatingColors(0)` is the result of `Start`.
  - `openDeviceSuccess` and `ioDeviceSuccess` appear only through the `restartPingDevice` they trigger.
  - `firmwareVersion` is not kept.
- Timers are fields: the ping timer `pingTimerActive`, the FPS timer `fpsTimerActive`, and the grab timer `grabTimerInterval`.
- The mutex in `setColors` is not modelled; the model is sequential.
- `TimeEvaluations` FPS measurement in `handleGrabbedColors` is not modelled.
- These grab-manager parts are UI and geometry, not modelled:
  - `scaleLedWidgets`;
  - `setVisibleLedWidgets`, `setColoredLedWidgets`, `setWhiteLedWidgets`;
  - `updateScreenGeometry`, `onScreenCountChanged`;
  - widget visibility in `setNumberOfLeds`.
- `GrabManagement.GrabManager.SetNumberOfLeds`: each widget's `settingsProfileChanged` belongs to the widget class, which is not part of this model. The area flag each widget has after that reload is the parameter `reloaded`.
- These grab-manager parts are outside the model:
  - the constructor and `initGrabbers`/`initGrabber`, which build the platform grabbers (the registry is a map given as state);
  - the manager's own `settingsProfileChanged` slot, and `reset`;
  - the one-line settings slots `onGrabberStateChangeRequested`, `onGrabSlowdownChanged`, `onGrabAvgColorsEnabledChanged`, `onSendDataOnlyIfColorsEnabledChanged`.
- The D3D10 grabber is not modelled: in `onGrabberTypeChanged` it sits behind a preprocessor flag.
- A new widget's area flag, read from the settings, is the parameter `newAreaEnabled`.
- Commented-out code is not modelled: the 32-bit case of `getColor` and the ping body.
- The model does not capture 32-bit overflow:
  - channel sums over huge rectangles;
  - `xres * yres * bytesPerPixel`;
  - `pitch * (y + row)`.
  `int(r / (double) count)` and `round((double) r / count)` are modelled exactly as integer quotients, which is what they are for sums below 2^53.
- `GrabManagement.GrabManager.QueryGrabber`: requires the requested grabber or the Qt grabber to be registered. With neither, the source dereferences a null grabber.
- `FramebufferGrabber.GetColor`: clips with the corrected signed comparison (`ClipSpan`), not the source's unsigned one (`ClipSpanAsWritten`). The two agree whenever `x + width >= 0` and `y + height >= 0` (`ClipAgrees`, `GetColorAgrees`). For a widget ending left of (above) the screen, the source widens that side to the whole screen width (height) and averages pixels outside the widget, where the model's negative side gives 0. `RegionColors`, `FBGrabber.Grab` and `GetColorIsRoundedMean` inherit this.
- `FramebufferGrabber.GetColorIsRoundedMean`: characterises getColor with the corrected clip. For widgets ending left of or above the screen, the source's result is given only by `GetColorSpecAsWritten`; no mean property is proved about it.
- `GrabManagement.GrabManager.InitLedWidgets`: a negative count is excluded, because removing the last widget from an empty list is undefined in the source.
- `Calculations.CalculateAvgColorOfList`: the empty list is excluded, because the source divides by its size.
- `Calculations.CalculateAvgColor`: the width must be a multiple of 4 and the rectangle inside the buffer. The source asserts the first and reads out of bounds without the second.
- `LightpackDevice.LedDeviceLightpack.SetColors`: states that `commandCompleted` is true. The source's "false iff some flush failed" cannot arise, because writes never fail.

## Findings

| source | as written | input that shows it | evidently intended | confidence | as-written member | corrected member |
|---|---|---|---|---|---|---|
| Software/src/grab/FBGrabber.cpp:84-85 | `x + width > screenWidth` compares a signed sum with an `unsigned` screen width, so a negative `x + width` is converted to a huge unsigned value and the "overhang" is subtracted, giving `width = screenWidth - x` | screen 640 wide, widget at x = -100 with width 50 (entirely left of the screen): the clip yields x = 0, width 640, a whole screen row that is not part of the widget | the widget's intersection with the screen: x = 0, width -50, which getColor then rejects with 0 | high (not executed) | FramebufferGrabber.ClipAsWrittenCounterexample | FramebufferGrabber.ClipSpan |
