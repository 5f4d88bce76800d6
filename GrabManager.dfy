/**
  The grab manager: the colour lists the grabbers fill and the LEDs are sent,
  the list of LED widgets (each reduced to its index and whether its capture
  area is enabled), the registry of grabbers and the policy flags that decide
  how grabbed colours are post-processed and when they are sent on.
 */
module GrabManagement {
  import opened Types
  import Calculations

  /** The grabber kinds the registry has a slot for. */
  datatype GrabberType = WinAPI | D3D9 | X11 | MacCoreGraphics | QtEachWidget | Qt | WinAPIEachWidget

  /** The part of a grabber the manager drives: whether it is grabbing and its grab interval in milliseconds. */
  datatype GrabberState = GrabberState(started: bool, interval: int)

  /** A LED widget: the index it was created with and whether its capture area is enabled. */
  datatype LedWidget = LedWidget(id: nat, areaEnabled: bool)

  /** A list of n QRgb zeros. */
  function Zeros(n: nat): (s: seq<Rgb>)
    ensures |s| == n
  {
    seq(n, _ => Zero)
  }

  /** n copies of one colour. */
  function Repeat(c: Rgb, n: nat): (s: seq<Rgb>)
    ensures |s| == n
  {
    seq(n, _ => c)
  }

  // ---------------------------------------------------------------------------
  // The average mode

  /** The colours of the widgets whose area is enabled, in widget order. */
  function EnabledColors(colors: seq<Rgb>, widgets: seq<LedWidget>): (e: seq<Rgb>)
    requires |widgets| <= |colors|
    ensures |e| <= |widgets|
    decreases |widgets|
  {
    if widgets == [] then []
    else
      var k := |widgets| - 1;
      EnabledColors(colors, widgets[..k]) + (if widgets[k].areaEnabled then [colors[k]] else [])
  }

  /**
    The colour handleGrabbedColors gives every enabled widget in the average
    mode: the component-wise truncated mean of the enabled widgets' colours,
    which is qRgb(0, 0, 0) when there is none.
   */
  function AverageOf(colors: seq<Rgb>, widgets: seq<LedWidget>): Rgb
    requires |widgets| <= |colors|
  {
    var e := EnabledColors(colors, widgets);
    if |e| == 0 then MakeRgb(0, 0, 0) else Calculations.ListMean(e)
  }

  function AveragedAt(colors: seq<Rgb>, widgets: seq<LedWidget>, avg: Rgb, i: int): Rgb
    requires |widgets| <= |colors| && 0 <= i < |colors|
  {
    if i < |widgets| && widgets[i].areaEnabled then avg else colors[i]
  }

  /** The new colours after the average mode: every enabled slot set to the average, every other slot as it was. */
  function Averaged(colors: seq<Rgb>, widgets: seq<LedWidget>): (r: seq<Rgb>)
    requires |widgets| <= |colors|
    ensures |r| == |colors|
  {
    var avg := AverageOf(colors, widgets);
    seq(|colors|, i requires 0 <= i < |colors| => AveragedAt(colors, widgets, avg, i))
  }

  /** Whether some slot below n differs between the current and the new colours. */
  predicate Changed(current: seq<Rgb>, grabbed: seq<Rgb>, n: nat)
    requires n <= |current| && n <= |grabbed|
  {
    exists i :: 0 <= i < n && current[i] != grabbed[i]
  }

  lemma ListSumAppend(s: seq<Rgb>, c: Rgb, ch: Calculations.Channel)
    ensures Calculations.ListSum(s + [c], ch) == Calculations.ListSum(s, ch) + Calculations.Component(c, ch)
  {
    assert (s + [c])[..|s|] == s;
  }

  lemma {:induction false} ListSumRepeat(c: Rgb, n: nat, ch: Calculations.Channel)
    ensures Calculations.ListSum(Repeat(c, n), ch) == n * Calculations.Component(c, ch)
  {
    if n > 0 {
      assert Repeat(c, n)[..n - 1] == Repeat(c, n - 1);
      ListSumRepeat(c, n - 1, ch);
      Calculations.MulPred(n, Calculations.Component(c, ch));
    }
  }

  /** The mean of n copies of an opaque colour is that colour. */
  lemma MeanOfRepeat(c: Rgb, n: nat)
    requires n > 0 && c.alpha == 0xFF
    ensures Calculations.ListMean(Repeat(c, n)) == c
  {
    ListSumRepeat(c, n, Calculations.Red);
    ListSumRepeat(c, n, Calculations.Green);
    ListSumRepeat(c, n, Calculations.Blue);
    Calculations.FloorMeanUnique(n * c.red, n, c.red) by { Calculations.MulSucc(n, c.red); }
    Calculations.FloorMeanUnique(n * c.green, n, c.green) by { Calculations.MulSucc(n, c.green); }
    Calculations.FloorMeanUnique(n * c.blue, n, c.blue) by { Calculations.MulSucc(n, c.blue); }
  }

  /** After averaging, the enabled widgets of any prefix all hold the average. */
  lemma {:induction false} EnabledOfAveraged(colors: seq<Rgb>, widgets: seq<LedWidget>, k: nat)
    requires |widgets| <= |colors| && k <= |widgets|
    ensures EnabledColors(Averaged(colors, widgets), widgets[..k])
         == Repeat(AverageOf(colors, widgets), |EnabledColors(colors, widgets[..k])|)
  {
    var avg := AverageOf(colors, widgets);
    if k > 0 {
      EnabledOfAveraged(colors, widgets, k - 1);
      assert widgets[..k][..k - 1] == widgets[..k - 1];
      var prev := |EnabledColors(colors, widgets[..k - 1])|;
      if widgets[k - 1].areaEnabled {
        assert Averaged(colors, widgets)[k - 1] == avg;
        assert Repeat(avg, prev) + [avg] == Repeat(avg, prev + 1);
      } else {
        assert Repeat(avg, prev) + [] == Repeat(avg, prev);
      }
    }
  }

  /** One more widget adds its colour to the enabled list exactly when its area is enabled. */
  lemma EnabledStep(colors: seq<Rgb>, widgets: seq<LedWidget>, i: nat)
    requires |widgets| <= |colors| && i < |widgets|
    ensures EnabledColors(colors, widgets[..i + 1])
         == EnabledColors(colors, widgets[..i]) + (if widgets[i].areaEnabled then [colors[i]] else [])
  {
    var w := widgets[..i + 1];
    assert |w| - 1 == i && w[i] == widgets[i];
    assert w[..i] == widgets[..i];
  }

  /**
    In the average mode every enabled slot of the new colours becomes the
    truncated component-wise mean of the enabled slots, and every other slot
    keeps its colour.
   */
  lemma AveragedIsMean(colors: seq<Rgb>, widgets: seq<LedWidget>, i: int)
    requires |widgets| <= |colors| && 0 <= i < |colors|
    ensures !(i < |widgets| && widgets[i].areaEnabled) ==> Averaged(colors, widgets)[i] == colors[i]
    ensures i < |widgets| && widgets[i].areaEnabled ==>
      var e := EnabledColors(colors, widgets);
      var c := Averaged(colors, widgets)[i];
      && |e| > 0 && c.alpha == 0xFF
      && Calculations.IsFloorMean(c.red, Calculations.ListSum(e, Calculations.Red), |e|)
      && Calculations.IsFloorMean(c.green, Calculations.ListSum(e, Calculations.Green), |e|)
      && Calculations.IsFloorMean(c.blue, Calculations.ListSum(e, Calculations.Blue), |e|)
  {
    if i < |widgets| && widgets[i].areaEnabled {
      EnabledNonEmpty(colors, widgets, i);
      Calculations.ListMeanIsMean(EnabledColors(colors, widgets));
    }
  }

  /** An enabled widget contributes its colour, so the enabled list is not empty. */
  lemma {:induction false} EnabledNonEmpty(colors: seq<Rgb>, widgets: seq<LedWidget>, i: int)
    requires |widgets| <= |colors| && 0 <= i < |widgets| && widgets[i].areaEnabled
    ensures |EnabledColors(colors, widgets)| > 0
    decreases |widgets|
  {
    var k := |widgets| - 1;
    if i < k {
      assert widgets[..k][i] == widgets[i];
      EnabledNonEmpty(colors, widgets[..k], i);
    }
  }

  /** Averaging is idempotent: averaging the averaged colours again changes nothing. */
  lemma AveragedIdempotent(colors: seq<Rgb>, widgets: seq<LedWidget>)
    requires |widgets| <= |colors|
    ensures Averaged(Averaged(colors, widgets), widgets) == Averaged(colors, widgets)
  {
    var once := Averaged(colors, widgets);
    var avg := AverageOf(colors, widgets);
    var n := |EnabledColors(colors, widgets)|;
    EnabledOfAveraged(colors, widgets, |widgets|);
    assert widgets[..|widgets|] == widgets;
    if n > 0 {
      Calculations.ListMeanIsMean(EnabledColors(colors, widgets));
      MeanOfRepeat(avg, n);
      assert AverageOf(once, widgets) == avg;
    }
    forall i | 0 <= i < |once|
      ensures Averaged(once, widgets)[i] == once[i]
    {
      if i < |widgets| && widgets[i].areaEnabled {
        EnabledNonEmpty(colors, widgets, i);
      }
    }
  }

  /**
    With the same grabbed colours a second pass reports no change: the
    averaged colours are already averaged and the current list already holds
    them, so a manager that sends only changed colours sends nothing.
   */
  lemma SecondPassQuiet(current: seq<Rgb>, colors: seq<Rgb>, widgets: seq<LedWidget>, avgMode: bool)
    requires |widgets| <= |colors| && |widgets| <= |current|
    ensures var grabbed := if avgMode then Averaged(colors, widgets) else colors;
      var next := grabbed[..|widgets|] + current[|widgets|..];
      var again := if avgMode then Averaged(grabbed, widgets) else grabbed;
      again == grabbed && !Changed(next, again, |widgets|)
  {
    if avgMode {
      AveragedIdempotent(colors, widgets);
    }
  }

  // ---------------------------------------------------------------------------
  // The loops of handleGrabbedColors

  /** The average-mode loops: sum the enabled colours, divide by their count, store the mean in every enabled slot. */
  method AverageEnabled(colors: seq<Rgb>, widgets: seq<LedWidget>) returns (result: seq<Rgb>)
    requires |widgets| <= |colors|
    ensures result == Averaged(colors, widgets)
  {
    var avgR, avgG, avgB, countGrabEnabled := 0, 0, 0, 0;
    var i := 0;
    while i < |widgets|
      invariant 0 <= i <= |widgets|
      invariant avgR == Calculations.ListSum(EnabledColors(colors, widgets[..i]), Calculations.Red)
      invariant avgG == Calculations.ListSum(EnabledColors(colors, widgets[..i]), Calculations.Green)
      invariant avgB == Calculations.ListSum(EnabledColors(colors, widgets[..i]), Calculations.Blue)
      invariant countGrabEnabled == |EnabledColors(colors, widgets[..i])|
    {
      var e := EnabledColors(colors, widgets[..i]);
      EnabledStep(colors, widgets, i);
      if !widgets[i].areaEnabled {
        assert e + [] == e;
      } else {
        ListSumAppend(e, colors[i], Calculations.Red);
        ListSumAppend(e, colors[i], Calculations.Green);
        ListSumAppend(e, colors[i], Calculations.Blue);
        avgR := avgR + colors[i].red;
        avgG := avgG + colors[i].green;
        avgB := avgB + colors[i].blue;
        countGrabEnabled := countGrabEnabled + 1;
      }
      i := i + 1;
    }
    assert widgets[..i] == widgets;
    if countGrabEnabled != 0 {
      avgR := avgR / countGrabEnabled;
      avgG := avgG / countGrabEnabled;
      avgB := avgB / countGrabEnabled;
    }
    var avg := MakeRgb(avgR, avgG, avgB);
    assert avg == AverageOf(colors, widgets);
    result := colors;
    var ledIndex := 0;
    while ledIndex < |widgets|
      invariant 0 <= ledIndex <= |widgets| && |result| == |colors|
      invariant forall j :: 0 <= j < ledIndex ==> result[j] == AveragedAt(colors, widgets, avg, j)
      invariant forall j :: ledIndex <= j < |colors| ==> result[j] == colors[j]
    {
      if widgets[ledIndex].areaEnabled {
        result := result[ledIndex := avg];
      }
      ledIndex := ledIndex + 1;
    }
  }

  /**
    The change-detection loop: every slot below n that differs is copied from
    the new colours into the current ones, and the flag records whether any
    slot differed.
   */
  method DetectChanges(current: seq<Rgb>, grabbed: seq<Rgb>, n: nat) returns (updated: seq<Rgb>, isColorsChanged: bool)
    requires n <= |current| && n <= |grabbed|
    ensures updated == grabbed[..n] + current[n..]
    ensures isColorsChanged <==> Changed(current, grabbed, n)
  {
    updated := current;
    isColorsChanged := false;
    var i := 0;
    while i < n
      invariant 0 <= i <= n && |updated| == |current|
      invariant forall j :: 0 <= j < i ==> updated[j] == grabbed[j]
      invariant forall j :: i <= j < |current| ==> updated[j] == current[j]
      invariant isColorsChanged <==> exists j :: 0 <= j < i && current[j] != grabbed[j]
    {
      if updated[i] != grabbed[i] {
        updated := updated[i := grabbed[i]];
        isColorsChanged := true;
      }
      i := i + 1;
    }
    assert updated == grabbed[..n] + current[n..];
  }

  // ---------------------------------------------------------------------------
  // The manager

  class GrabManager {
    var colorsNew: seq<Rgb>
    var colorsCurrent: seq<Rgb>
    var ledWidgets: seq<LedWidget>
    /** The grabbers built for this platform, by kind; a kind without a grabber has no entry. */
    var grabbers: map<GrabberType, GrabberState>
    /** The grabber in use, named by its registry slot. */
    var grabber: Option<GrabberType>
    var isPauseGrabWhileResizeOrMoving: bool
    var avgColorsOnAllLeds: bool
    var isSendDataOnlyIfColorsChanged: bool
    /** Whether the FPS report timer runs. */
    var fpsTimerActive: bool
    /** The interval the grab timer was last started with. */
    var grabTimerInterval: Option<int>

    /** One colour slot per widget in both lists, widgets numbered by position, and the grabber in use registered. */
    ghost predicate Valid()
      reads this
    {
      && |colorsNew| == |ledWidgets| && |colorsCurrent| == |ledWidgets|
      && WidgetIds()
      && (grabber.Some? ==> grabber.value in grabbers)
    }

    ghost predicate WidgetIds()
      reads this
    {
      forall i :: 0 <= i < |ledWidgets| ==> ledWidgets[i].id == i
    }

    /** Everything but the colour lists and the widgets. */
    ghost function Control(): (map<GrabberType, GrabberState>, Option<GrabberType>, bool, bool, bool, bool, Option<int>)
      reads this
    {
      (grabbers, grabber, isPauseGrabWhileResizeOrMoving, avgColorsOnAllLeds, isSendDataOnlyIfColorsChanged,
       fpsTimerActive, grabTimerInterval)
    }

    /** initColorLists: both lists cleared, then n zeros appended to each (none for a negative n). */
    method InitColorLists(numberOfLeds: int)
      modifies this
      ensures colorsCurrent == Zeros(Max0(numberOfLeds)) && colorsNew == Zeros(Max0(numberOfLeds))
      ensures ledWidgets == old(ledWidgets) && Control() == old(Control())
    {
      var current: seq<Rgb> := [];
      var grabbed: seq<Rgb> := [];
      var i := 0;
      while i < numberOfLeds
        invariant 0 <= i <= Max0(numberOfLeds)
        invariant current == Zeros(i) && grabbed == Zeros(i)
      {
        current := current + [Zero];
        grabbed := grabbed + [Zero];
        i := i + 1;
      }
      colorsCurrent, colorsNew := current, grabbed;
    }

    /** clearColorsNew: every new colour set to 0, the length kept. */
    method ClearColorsNew()
      modifies this
      ensures colorsNew == Zeros(|old(colorsNew)|)
      ensures colorsCurrent == old(colorsCurrent) && ledWidgets == old(ledWidgets) && Control() == old(Control())
    {
      var colors := colorsNew;
      var i := 0;
      while i < |colors|
        invariant 0 <= i <= |colors| && |colors| == |colorsNew|
        invariant forall j :: 0 <= j < i ==> colors[j] == Zero
      {
        colors := colors[i := Zero];
        i := i + 1;
      }
      colorsNew := colors;
    }

    /** clearColorsCurrent: every current colour set to 0, the length kept. */
    method ClearColorsCurrent()
      modifies this
      ensures colorsCurrent == Zeros(|old(colorsCurrent)|)
      ensures colorsNew == old(colorsNew) && ledWidgets == old(ledWidgets) && Control() == old(Control())
    {
      var colors := colorsCurrent;
      var i := 0;
      while i < |colors|
        invariant 0 <= i <= |colors| && |colors| == |colorsCurrent|
        invariant forall j :: 0 <= j < i ==> colors[j] == Zero
      {
        colors := colors[i := Zero];
        i := i + 1;
      }
      colorsCurrent := colors;
    }

    /**
      initLedWidgets: ends with exactly numberOfLeds widgets. An empty list
      first gets one widget; then widgets are appended, each numbered by its
      position, or the last ones removed. The widgets kept are unchanged.
      Removing from an empty list is an error in the source, so the count may
      not be negative. A new widget's area flag comes from the settings and is
      passed in.
     */
    method InitLedWidgets(numberOfLeds: nat, newAreaEnabled: bool)
      requires WidgetIds()
      modifies this
      ensures |ledWidgets| == numberOfLeds && WidgetIds()
      ensures forall i :: 0 <= i < Min(numberOfLeds, |old(ledWidgets)|) ==> ledWidgets[i] == old(ledWidgets)[i]
      ensures forall i :: |old(ledWidgets)| <= i < numberOfLeds ==> ledWidgets[i] == LedWidget(i, newAreaEnabled)
      ensures colorsNew == old(colorsNew) && colorsCurrent == old(colorsCurrent) && Control() == old(Control())
    {
      var widgets := ledWidgets;
      if |widgets| == 0 {
        widgets := widgets + [LedWidget(|widgets|, newAreaEnabled)];
      }
      ghost var start := widgets;
      var diff := numberOfLeds - |widgets|;
      if diff > 0 {
        var i := 0;
        while i < diff
          invariant 0 <= i <= diff && |widgets| == |start| + i
          invariant widgets[..|start|] == start
          invariant forall j :: |start| <= j < |widgets| ==> widgets[j] == LedWidget(j, newAreaEnabled)
        {
          widgets := widgets + [LedWidget(|widgets|, newAreaEnabled)];
          i := i + 1;
        }
      } else {
        diff := -diff;
        while diff > 0
          invariant 0 <= diff <= |widgets| <= |start|
          invariant |widgets| - diff == numberOfLeds
          invariant widgets == start[..|widgets|]
        {
          widgets := widgets[..|widgets| - 1];
          diff := diff - 1;
        }
      }
      ledWidgets := widgets;
    }

    /**
      setNumberOfLeds: both colour lists and the widget list resized to the
      new count, which restores one colour slot per widget; then every widget
      reloads its settings from the profile. That reload belongs to the widget,
      which is not part of this model: `reloaded` holds the area flag each
      widget has after it.
     */
    method SetNumberOfLeds(numberOfLeds: nat, newAreaEnabled: bool, reloaded: seq<bool>)
      requires WidgetIds() && (grabber.Some? ==> grabber.value in grabbers)
      requires |reloaded| == numberOfLeds
      modifies this
      ensures Valid()
      ensures colorsCurrent == Zeros(numberOfLeds) && colorsNew == Zeros(numberOfLeds)
      ensures ledWidgets == seq(numberOfLeds, i requires 0 <= i < numberOfLeds => LedWidget(i, reloaded[i]))
      ensures Control() == old(Control())
    {
      InitColorLists(numberOfLeds);
      InitLedWidgets(numberOfLeds, newAreaEnabled);
      var widgets := ledWidgets;
      var i := 0;
      while i < |widgets|
        invariant 0 <= i <= |widgets| == numberOfLeds
        invariant forall j :: 0 <= j < i ==> widgets[j] == LedWidget(j, reloaded[j])
        invariant forall j :: i <= j < |widgets| ==> widgets[j].id == j
      {
        widgets := widgets[i := widgets[i].(areaEnabled := reloaded[i])];
        i := i + 1;
      }
      ledWidgets := widgets;
    }

    /**
      start: the new colours are always cleared; with a grabber, grabbing is
      started together with the FPS timer, or stopped with the current colours
      cleared, the FPS timer stopped and an update time of 0 reported.
     */
    method Start(isGrabEnabled: bool) returns (reportedTime: Option<int>)
      requires grabber.Some? ==> grabber.value in grabbers
      modifies this
      ensures colorsNew == Zeros(|old(colorsNew)|) && ledWidgets == old(ledWidgets) && grabber == old(grabber)
      ensures isPauseGrabWhileResizeOrMoving == old(isPauseGrabWhileResizeOrMoving) && avgColorsOnAllLeds == old(avgColorsOnAllLeds)
      ensures isSendDataOnlyIfColorsChanged == old(isSendDataOnlyIfColorsChanged) && grabTimerInterval == old(grabTimerInterval)
      ensures grabber.None? ==>
        colorsCurrent == old(colorsCurrent) && grabbers == old(grabbers) && fpsTimerActive == old(fpsTimerActive) && reportedTime == None
      ensures grabber.Some? && isGrabEnabled ==>
        && colorsCurrent == old(colorsCurrent) && fpsTimerActive && reportedTime == None
        && grabbers == old(grabbers)[grabber.value := old(grabbers)[grabber.value].(started := true)]
      ensures grabber.Some? && !isGrabEnabled ==>
        && colorsCurrent == Zeros(|old(colorsCurrent)|) && !fpsTimerActive && reportedTime == Some(0)
        && grabbers == old(grabbers)[grabber.value := old(grabbers)[grabber.value].(started := false)]
    {
      ClearColorsNew();
      reportedTime := None;
      if grabber.Some? {
        var g := grabber.value;
        if isGrabEnabled {
          fpsTimerActive := true;
          grabbers := grabbers[g := grabbers[g].(started := true)];
        } else {
          ClearColorsCurrent();
          fpsTimerActive := false;
          grabbers := grabbers[g := grabbers[g].(started := false)];
          reportedTime := Some(0);
        }
      }
    }

    /**
      queryGrabber: the grabber registered for the requested kind, or the Qt
      grabber when there is none; either way its interval is set to the grab
      slowdown. The source dereferences the result, so one of the two must exist.
     */
    method QueryGrabber(grabberType: GrabberType, grabSlowdown: int) returns (result: GrabberType)
      requires grabberType in grabbers || Qt in grabbers
      modifies this
      ensures result == (if grabberType in old(grabbers) then grabberType else Qt)
      ensures result in grabbers && grabbers == old(grabbers)[result := old(grabbers)[result].(interval := grabSlowdown)]
      ensures grabber == old(grabber) && colorsNew == old(colorsNew) && colorsCurrent == old(colorsCurrent) && ledWidgets == old(ledWidgets)
      ensures isPauseGrabWhileResizeOrMoving == old(isPauseGrabWhileResizeOrMoving) && avgColorsOnAllLeds == old(avgColorsOnAllLeds)
      ensures isSendDataOnlyIfColorsChanged == old(isSendDataOnlyIfColorsChanged)
      ensures fpsTimerActive == old(fpsTimerActive) && grabTimerInterval == old(grabTimerInterval)
    {
      if grabberType in grabbers {
        result := grabberType;
      } else {
        result := Qt;
      }
      grabbers := grabbers[result := grabbers[result].(interval := grabSlowdown)];
    }

    /**
      onGrabberTypeChanged: the grabber in use is stopped, the requested one
      (or the Qt fallback) becomes the grabber in use, and it is started
      exactly when the previous one was grabbing.
     */
    method OnGrabberTypeChanged(grabberType: GrabberType, grabSlowdown: int)
      requires grabber.Some? ==> grabber.value in grabbers
      requires grabberType in grabbers || Qt in grabbers
      modifies this
      ensures var selected := if grabberType in old(grabbers) then grabberType else Qt;
        var wasGrabbing := old(grabber).Some? && old(grabbers)[old(grabber).value].started;
        && grabber == Some(selected) && grabbers.Keys == old(grabbers).Keys
        && grabbers[selected].interval == grabSlowdown
        && (wasGrabbing ==> grabbers[selected].started)
        && (!wasGrabbing ==> grabbers[selected].started == (old(grabber) != Some(selected) && old(grabbers)[selected].started))
        && (old(grabber).Some? && old(grabber).value != selected ==>
              grabbers[old(grabber).value] == old(grabbers)[old(grabber).value].(started := false))
        && (forall t :: t in grabbers && t != selected && Some(t) != old(grabber) ==> grabbers[t] == old(grabbers)[t])
      ensures colorsNew == old(colorsNew) && colorsCurrent == old(colorsCurrent) && ledWidgets == old(ledWidgets)
      ensures isPauseGrabWhileResizeOrMoving == old(isPauseGrabWhileResizeOrMoving) && avgColorsOnAllLeds == old(avgColorsOnAllLeds)
      ensures isSendDataOnlyIfColorsChanged == old(isSendDataOnlyIfColorsChanged)
      ensures fpsTimerActive == old(fpsTimerActive) && grabTimerInterval == old(grabTimerInterval)
    {
      var isStartNeeded := false;
      if grabber.Some? {
        var g := grabber.value;
        isStartNeeded := grabbers[g].started;
        grabbers := grabbers[g := grabbers[g].(started := false)];
      }
      var selected := QueryGrabber(grabberType, grabSlowdown);
      grabber := Some(selected);
      if isStartNeeded {
        grabbers := grabbers[selected := grabbers[selected].(started := true)];
      }
    }

    /**
      handleGrabbedColors. Without a grabber nothing happens; while a widget
      is being moved or resized the grab timer is restarted at 50 ms and no
      colour changes. Otherwise the new colours are averaged in the average
      mode, the current colours take every new colour of a widget slot, and
      the current colours are sent unless only changes are to be sent and no
      slot changed.
     */
    method HandleGrabbedColors() returns (sent: Option<seq<Rgb>>)
      requires Valid()
      modifies this
      ensures Valid() && ledWidgets == old(ledWidgets)
      ensures grabbers == old(grabbers) && grabber == old(grabber) && fpsTimerActive == old(fpsTimerActive)
      ensures isPauseGrabWhileResizeOrMoving == old(isPauseGrabWhileResizeOrMoving) && avgColorsOnAllLeds == old(avgColorsOnAllLeds)
      ensures isSendDataOnlyIfColorsChanged == old(isSendDataOnlyIfColorsChanged)
      ensures grabber.None? || isPauseGrabWhileResizeOrMoving ==>
        colorsNew == old(colorsNew) && colorsCurrent == old(colorsCurrent) && sent == None
      ensures grabber.None? ==> grabTimerInterval == old(grabTimerInterval)
      ensures grabber.Some? && isPauseGrabWhileResizeOrMoving ==> grabTimerInterval == Some(50)
      ensures grabber.Some? && !isPauseGrabWhileResizeOrMoving ==>
        var n := |ledWidgets|;
        var grabbed := if avgColorsOnAllLeds then Averaged(old(colorsNew), ledWidgets) else old(colorsNew);
        && grabTimerInterval == old(grabTimerInterval)
        && colorsNew == grabbed && colorsCurrent == grabbed
        && (sent.Some? <==> !isSendDataOnlyIfColorsChanged || Changed(old(colorsCurrent), grabbed, n))
        && (sent.Some? ==> sent.value == grabbed)
    {
      sent := None;
      if grabber.None? {
        return;
      }
      if isPauseGrabWhileResizeOrMoving {
        grabTimerInterval := Some(50);
        return;
      }
      if avgColorsOnAllLeds {
        colorsNew := AverageEnabled(colorsNew, ledWidgets);
      }
      var updated, isColorsChanged := DetectChanges(colorsCurrent, colorsNew, |ledWidgets|);
      assert updated == colorsNew;
      colorsCurrent := updated;
      if !isSendDataOnlyIfColorsChanged || isColorsChanged {
        sent := Some(colorsCurrent);
      }
    }

    /** onFrameGrabAttempted: the grabbed colours are handled only after a successful grab. */
    method OnFrameGrabAttempted(grabResult: GrabResult) returns (sent: Option<seq<Rgb>>)
      requires Valid()
      modifies this
      ensures Valid()
      ensures ledWidgets == old(ledWidgets)
      ensures grabResult == GrabResultError ==>
        colorsNew == old(colorsNew) && colorsCurrent == old(colorsCurrent) && Control() == old(Control()) && sent == None
      ensures grabResult == GrabResultOk ==>
        && grabbers == old(grabbers) && grabber == old(grabber) && fpsTimerActive == old(fpsTimerActive)
        && isPauseGrabWhileResizeOrMoving == old(isPauseGrabWhileResizeOrMoving) && avgColorsOnAllLeds == old(avgColorsOnAllLeds)
        && isSendDataOnlyIfColorsChanged == old(isSendDataOnlyIfColorsChanged)
        && (grabber.None? || isPauseGrabWhileResizeOrMoving ==>
              colorsNew == old(colorsNew) && colorsCurrent == old(colorsCurrent) && sent == None)
        && (grabber.None? ==> grabTimerInterval == old(grabTimerInterval))
        && (grabber.Some? && isPauseGrabWhileResizeOrMoving ==> grabTimerInterval == Some(50))
        && (grabber.Some? && !isPauseGrabWhileResizeOrMoving ==>
              var grabbed := if avgColorsOnAllLeds then Averaged(old(colorsNew), ledWidgets) else old(colorsNew);
              && grabTimerInterval == old(grabTimerInterval)
              && colorsNew == grabbed && colorsCurrent == grabbed
              && (sent.Some? <==> !isSendDataOnlyIfColorsChanged || Changed(old(colorsCurrent), grabbed, |ledWidgets|))
              && (sent.Some? ==> sent.value == grabbed))
    {
      sent := None;
      if grabResult == GrabResultOk {
        sent := HandleGrabbedColors();
      }
    }

    /** pauseWhileResizeOrMoving: grabbed colours are held back until resumed. */
    method PauseWhileResizeOrMoving()
      modifies this
      ensures isPauseGrabWhileResizeOrMoving
      ensures colorsNew == old(colorsNew) && colorsCurrent == old(colorsCurrent) && ledWidgets == old(ledWidgets)
      ensures grabbers == old(grabbers) && grabber == old(grabber) && avgColorsOnAllLeds == old(avgColorsOnAllLeds)
      ensures isSendDataOnlyIfColorsChanged == old(isSendDataOnlyIfColorsChanged)
      ensures fpsTimerActive == old(fpsTimerActive) && grabTimerInterval == old(grabTimerInterval)
    {
      isPauseGrabWhileResizeOrMoving := true;
    }

    /** resumeAfterResizeOrMoving: grabbed colours are handled again. */
    method ResumeAfterResizeOrMoving()
      modifies this
      ensures !isPauseGrabWhileResizeOrMoving
      ensures colorsNew == old(colorsNew) && colorsCurrent == old(colorsCurrent) && ledWidgets == old(ledWidgets)
      ensures grabbers == old(grabbers) && grabber == old(grabber) && avgColorsOnAllLeds == old(avgColorsOnAllLeds)
      ensures isSendDataOnlyIfColorsChanged == old(isSendDataOnlyIfColorsChanged)
      ensures fpsTimerActive == old(fpsTimerActive) && grabTimerInterval == old(grabTimerInterval)
    {
      isPauseGrabWhileResizeOrMoving := false;
    }
  }
}
