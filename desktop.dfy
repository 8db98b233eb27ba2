/** The desktop controller: an ordered list of windows (the last one is in
    front), the active window, a pinch-driven drag, gesture-driven move and
    resize, and a status line. Drawing is left to a renderer. */
module Desktops {
  import opened Prelude
  import opened Windows

  /** Distance a swipe moves the active window. */
  const MoveStep := 50
  /** Push grows and pull shrinks the active window by these steps ... */
  const WidthStep := 50
  const HeightStep := 40
  /** ... between these bounds. */
  const MaxWidth := 600
  const MaxHeight := 400
  const MinWidth := 200
  const MinHeight := 150
  /** Frames a status message stays on screen. */
  const StatusFrames := 60
  /** Default size of the desktop canvas. */
  const DefaultDesktopWidth := 1280
  const DefaultDesktopHeight := 720
  /** Height the renderer keeps free for the taskbar at the bottom. */
  const TaskbarHeight := 60
  const WelcomeMessage := "Welcome! Use hand gestures to control windows"

  // ---------------------------------------------------------------------
  // Resizing

  /** `min(v + step, cap)`: one push. */
  function Grown(v: int, step: nat, cap: int): (r: int)
    ensures r <= cap && r <= v + step
    ensures r == cap || r == v + step
    ensures v <= cap ==> v <= r
  {
    Min(v + step, cap)
  }

  /** `max(v - step, floor)`: one pull. */
  function Shrunk(v: int, step: nat, floor: int): (r: int)
    ensures r >= floor && r >= v - step
    ensures r == floor || r == v - step
    ensures v >= floor ==> r <= v
  {
    Max(v - step, floor)
  }

  /** A pull undoes a push that was not cut off by the cap. */
  lemma ShrinkUndoesGrow(v: int, step: nat, floor: int, cap: int)
    requires floor <= v && v + step <= cap
    ensures Shrunk(Grown(v, step, cap), step, floor) == v
  {
  }

  function GrownTimes(v: int, step: nat, cap: int, n: nat): int
    decreases n
  {
    if n == 0 then v else GrownTimes(Grown(v, step, cap), step, cap, n - 1)
  }

  function ShrunkTimes(v: int, step: nat, floor: int, n: nat): int
    decreases n
  {
    if n == 0 then v else ShrunkTimes(Shrunk(v, step, floor), step, floor, n - 1)
  }

  /** `n` pushes grow a size by `n` steps until the cap, and never past it. */
  lemma {:induction false} GrownTimesClosedForm(v: int, step: nat, cap: int, n: nat)
    requires v <= cap
    ensures GrownTimes(v, step, cap, n) == Min(v + n * step, cap)
    decreases n
  {
    if n > 0 {
      GrownTimesClosedForm(Grown(v, step, cap), step, cap, n - 1);
      assert (n - 1) * step + step == n * step;
    }
  }

  /** `n` pulls shrink a size by `n` steps until the floor, and never past it. */
  lemma {:induction false} ShrunkTimesClosedForm(v: int, step: nat, floor: int, n: nat)
    requires v >= floor
    ensures ShrunkTimes(v, step, floor, n) == Max(v - n * step, floor)
    decreases n
  {
    if n > 0 {
      ShrunkTimesClosedForm(Shrunk(v, step, floor), step, floor, n - 1);
      assert (n - 1) * step + step == n * step;
    }
  }

  // ---------------------------------------------------------------------
  // Hit-testing

  /** The index of the front-most window containing the point, if any. */
  function Frontmost(ws: seq<Window>, px: int, py: int): (k: Option<nat>)
    reads ws
    ensures k.Some? ==> k.value < |ws| && ws[k.value].ContainsPoint(px, py)
    ensures k.Some? ==> forall j :: k.value < j < |ws| ==> !ws[j].ContainsPoint(px, py)
    ensures k.None? ==> forall j :: 0 <= j < |ws| ==> !ws[j].ContainsPoint(px, py)
    decreases |ws|
  {
    if |ws| == 0 then None
    else if ws[|ws| - 1].ContainsPoint(px, py) then Some(|ws| - 1)
    else Frontmost(ws[..|ws| - 1], px, py)
  }

  /** The three windows a new desktop starts with, back to front. */
  ghost predicate DemoLayout(ws: seq<Window>)
    reads ws
  {
    |ws| == 3 &&
    Shows(ws[0], 100, 100, 300, 200, "Notes") &&
    Shows(ws[1], 450, 150, 350, 250, "Browser") &&
    Shows(ws[2], 250, 350, 280, 180, "Music")
  }

  ghost predicate Shows(w: Window, x: int, y: int, width: int, height: int, title: string)
    reads w
  {
    w.x == x && w.y == y && w.width == width && w.height == height &&
    w.title == title && !w.isActive && !w.isMinimized
  }

  /** The demo windows lie on a desktop of the default size, above the
      taskbar, so the renderer's clamp of each drawn position into
      `[0, width - w.width]` by `[0, height - 60 - w.height]` leaves every
      one of them where it is. */
  lemma DemoFitsDefaultDesktop(ws: seq<Window>)
    requires DemoLayout(ws)
    ensures forall w :: w in ws ==> Max(0, Min(w.x, DefaultDesktopWidth - w.width)) == w.x
    ensures forall w :: w in ws ==>
              Max(0, Min(w.y, DefaultDesktopHeight - TaskbarHeight - w.height)) == w.y
  {
  }

  class Desktop {
    /** Screen size, used only by the renderer. */
    const width: int
    const height: int
    /** Back to front: the last window is drawn on top and hit first. */
    var windows: seq<Window>
    var activeWindow: Window?
    var dragging: bool
    var dragOffset: (int, int)
    var statusMessage: string
    var messageTimer: int

    ghost predicate Valid()
      reads this, windows
    {
      Distinct(windows) &&
      (activeWindow != null ==> activeWindow in windows) &&
      (forall w :: w in windows ==> (w.isActive <==> w == activeWindow)) &&
      (dragging ==> activeWindow != null) &&
      (forall w :: w in windows ==> MinWidth <= w.width <= MaxWidth && MinHeight <= w.height <= MaxHeight) &&
      0 <= messageTimer <= StatusFrames
    }

    /** At most one window is marked active, and it is the active window. */
    lemma AtMostOneActive()
      requires Valid()
      ensures forall v, w :: v in windows && w in windows && v.isActive && w.isActive ==> v == w
      ensures activeWindow == null ==> forall w :: w in windows ==> !w.isActive
    {
    }

    /** Every window of the desktop is taller than its title bar, so a pinch
        in a title bar is always a pinch on that window. */
    lemma TitleBarsWithinBodies(px: int, py: int)
      requires Valid()
      ensures forall w :: w in windows && w.InTitleBar(px, py) ==> w.ContainsPoint(px, py)
    {
    }

    constructor (width: int, height: int)
      ensures Valid()
      ensures this.width == width && this.height == height
      ensures DemoLayout(windows) && fresh(windows[0]) && fresh(windows[1]) && fresh(windows[2])
      ensures activeWindow == null && !dragging && dragOffset == (0, 0)
      ensures statusMessage == WelcomeMessage && messageTimer == 0
    {
      this.width := width;
      this.height := height;
      windows := [];
      activeWindow := null;
      dragging := false;
      dragOffset := (0, 0);
      statusMessage := WelcomeMessage;
      messageTimer := 0;
      new;
      CreateDemoWindows();
    }

    /** Replace the window list with three new demo windows. */
    method CreateDemoWindows()
      modifies this`windows
      ensures DemoLayout(windows) && Distinct(windows)
      ensures fresh(windows[0]) && fresh(windows[1]) && fresh(windows[2])
    {
      var notes := new Window(100, 100, 300, 200, "Notes");
      var browser := new Window(450, 150, 350, 250, "Browser");
      var music := new Window(250, 350, 280, 180, "Music");
      windows := [notes, browser, music];
    }

    /** The front-to-back search for the window under the cursor. */
    method FindClicked(x: int, y: int) returns (k: Option<nat>)
      ensures k == Frontmost(windows, x, y)
    {
      k := None;
      var i := |windows|;
      assert windows[..i] == windows;
      while i > 0
        invariant 0 <= i <= |windows|
        invariant Frontmost(windows, x, y) == Frontmost(windows[..i], x, y)
      {
        if windows[i - 1].ContainsPoint(x, y) {
          k := Some(i - 1);
          return;
        }
        assert windows[..i][..i - 1] == windows[..i - 1];
        i := i - 1;
      }
    }

    /** The index of the window a cursor event at `(x, y)` starts to drag:
        the pinch is on, no drag is in progress, and the point is in the
        title bar of the front-most window under the cursor. */
    ghost function GrabbedBy(x: int, y: int, pinching: bool): Option<nat>
      reads this, windows
    {
      if !pinching || dragging then None
      else match Frontmost(windows, x, y)
        case None => None
        case Some(k) => if windows[k].InTitleBar(x, y) then Some(k) else None
    }

    /** One cursor event: start, continue or end a drag. */
    method HandleCursor(x: int, y: int, pinching: bool)
      requires Valid()
      modifies this, windows
      ensures Valid()
      ensures old(GrabbedBy(x, y, pinching)).Some? ==>
                var c := old(windows)[old(GrabbedBy(x, y, pinching)).value];
                windows == RemoveFirst(old(windows), c) + [c] &&
                activeWindow == c && dragging &&
                dragOffset == (x - old(c.x), y - old(c.y)) &&
                c.x == old(c.x) && c.y == old(c.y)
      ensures old(GrabbedBy(x, y, pinching)).None? ==>
                windows == old(windows) && activeWindow == old(activeWindow) &&
                dragOffset == old(dragOffset) && dragging == (pinching && old(dragging))
      ensures dragging ==> activeWindow.x == x - dragOffset.0 && activeWindow.y == y - dragOffset.1
      ensures forall w :: w in old(windows) && (w != activeWindow || !dragging) ==>
                w.x == old(w.x) && w.y == old(w.y)
      ensures forall w :: w in old(windows) ==>
                w.width == old(w.width) && w.height == old(w.height) && w.isMinimized == old(w.isMinimized)
      ensures statusMessage == old(statusMessage) && messageTimer == old(messageTimer)
    {
      var clicked := FindClicked(x, y);
      if pinching {
        if !dragging && clicked.Some? {
          var c := windows[clicked.value];
          if c.InTitleBar(x, y) {
            StartDrag(c, x, y);
          }
        }
      } else {
        dragging := false;
      }
      if dragging && activeWindow != null {
        activeWindow.SetPosition(x - dragOffset.0, y - dragOffset.1);
      }
    }

    /** The start of a drag in `handle_cursor`: remember the grab offset,
        make `c` the active window and bring it to the front. */
    method StartDrag(c: Window, x: int, y: int)
      requires Valid() && c in windows && !dragging
      modifies this, windows
      ensures Valid()
      ensures windows == RemoveFirst(old(windows), c) + [c]
      ensures activeWindow == c && dragging && dragOffset == (x - old(c.x), y - old(c.y))
      ensures forall w :: w in old(windows) ==>
                w.x == old(w.x) && w.y == old(w.y) && w.width == old(w.width) &&
                w.height == old(w.height) && w.isMinimized == old(w.isMinimized)
      ensures statusMessage == old(statusMessage) && messageTimer == old(messageTimer)
    {
      // Bringing to front reads none of the drag fields, so it may come first.
      BringToFront(c);
      dragging := true;
      activeWindow := c;
      dragOffset := (x - c.x, y - c.y);
      c.isActive := true;
    }

    /** Move `w` to the end of the list and clear every other active flag. */
    method BringToFront(w: Window)
      requires Distinct(windows)
      modifies this`windows, windows
      ensures w in old(windows) ==> windows == RemoveFirst(old(windows), w) + [w]
      ensures w in old(windows) ==> forall v :: v in windows && v != w ==> !v.isActive
      ensures w !in old(windows) ==> windows == old(windows)
      ensures Distinct(windows) && forall v :: v in windows <==> v in old(windows)
      ensures forall v :: v in old(windows) && (v == w || w !in old(windows)) ==> v.isActive == old(v.isActive)
      ensures forall v :: v in old(windows) ==>
                v.x == old(v.x) && v.y == old(v.y) && v.width == old(v.width) &&
                v.height == old(v.height) && v.isMinimized == old(v.isMinimized)
    {
      if w in windows {
        MoveToBackPermutes(windows, w);
        var ws := RemoveFirst(windows, w) + [w];
        windows := ws;
        var i := 0;
        while i < |ws|
          invariant 0 <= i <= |ws| && windows == ws
          invariant forall j :: 0 <= j < i && ws[j] != w ==> !ws[j].isActive
          invariant forall v :: v in ws && (v == w || v !in ws[..i]) ==> v.isActive == old(v.isActive)
          invariant forall v :: v in old(windows) ==>
                      v.x == old(v.x) && v.y == old(v.y) && v.width == old(v.width) &&
                      v.height == old(v.height) && v.isMinimized == old(v.isMinimized)
        {
          if ws[i] != w {
            ws[i].isActive := false;
          }
          i := i + 1;
        }
      }
    }

    /** A swipe: activate the front window if none is active, otherwise move
        the active window one step in the named direction. */
    method HandleSwipe(direction: string)
      requires Valid()
      modifies this, windows
      ensures Valid()
      ensures windows == old(windows) && dragging == old(dragging) && dragOffset == old(dragOffset)
      ensures old(activeWindow) == null && |windows| > 0 ==> activeWindow == windows[|windows| - 1]
      ensures old(activeWindow) == null ==>
                (|windows| == 0 ==> activeWindow == null) &&
                statusMessage == old(statusMessage) && messageTimer == old(messageTimer)
      ensures old(activeWindow) != null ==> activeWindow == old(activeWindow)
      ensures old(activeWindow) != null && direction == "left" ==>
                activeWindow.x == old(activeWindow.x) - MoveStep && activeWindow.y == old(activeWindow.y)
      ensures old(activeWindow) != null && direction == "right" ==>
                activeWindow.x == old(activeWindow.x) + MoveStep && activeWindow.y == old(activeWindow.y)
      ensures old(activeWindow) != null && direction == "up" ==>
                activeWindow.x == old(activeWindow.x) && activeWindow.y == old(activeWindow.y) - MoveStep
      ensures old(activeWindow) != null && direction == "down" ==>
                activeWindow.x == old(activeWindow.x) && activeWindow.y == old(activeWindow.y) + MoveStep
      ensures old(activeWindow) != null && direction in {"left", "right", "up", "down"} ==>
                statusMessage == "Moved " + activeWindow.title + " " + direction &&
                messageTimer == StatusFrames
      ensures old(activeWindow) != null && direction !in {"left", "right", "up", "down"} ==>
                activeWindow.x == old(activeWindow.x) && activeWindow.y == old(activeWindow.y) &&
                statusMessage == old(statusMessage) && messageTimer == old(messageTimer)
      ensures forall w :: w in windows && (w != activeWindow || old(activeWindow) == null) ==>
                w.x == old(w.x) && w.y == old(w.y)
      ensures forall w :: w in windows ==>
                w.width == old(w.width) && w.height == old(w.height) && w.isMinimized == old(w.isMinimized)
    {
      if activeWindow == null {
        if |windows| > 0 {
          activeWindow := windows[|windows| - 1];
          activeWindow.isActive := true;
        }
        return;
      }
      var a := activeWindow;
      if direction == "left" {
        a.Move(-MoveStep, 0);
        SetStatus("Moved " + a.title + " left");
      } else if direction == "right" {
        a.Move(MoveStep, 0);
        SetStatus("Moved " + a.title + " right");
      } else if direction == "up" {
        a.Move(0, -MoveStep);
        SetStatus("Moved " + a.title + " up");
      } else if direction == "down" {
        a.Move(0, MoveStep);
        SetStatus("Moved " + a.title + " down");
      }
    }

    /** A push: enlarge the active window, up to the caps. */
    method HandlePush()
      requires Valid()
      modifies this, windows
      ensures Valid()
      ensures windows == old(windows) && activeWindow == old(activeWindow)
      ensures dragging == old(dragging) && dragOffset == old(dragOffset)
      ensures activeWindow != null ==>
                activeWindow.width == Grown(old(activeWindow.width), WidthStep, MaxWidth) &&
                activeWindow.height == Grown(old(activeWindow.height), HeightStep, MaxHeight) &&
                statusMessage == "Enlarged " + activeWindow.title && messageTimer == StatusFrames
      ensures activeWindow == null ==>
                statusMessage == old(statusMessage) && messageTimer == old(messageTimer)
      ensures forall w :: w in windows && w != activeWindow ==>
                w.width == old(w.width) && w.height == old(w.height)
      ensures forall w :: w in windows ==>
                w.x == old(w.x) && w.y == old(w.y) && w.isMinimized == old(w.isMinimized)
    {
      if activeWindow != null {
        var a := activeWindow;
        a.width := Grown(a.width, WidthStep, MaxWidth);
        a.height := Grown(a.height, HeightStep, MaxHeight);
        SetStatus("Enlarged " + a.title);
      }
    }

    /** A pull: shrink the active window, down to the floors. */
    method HandlePull()
      requires Valid()
      modifies this, windows
      ensures Valid()
      ensures windows == old(windows) && activeWindow == old(activeWindow)
      ensures dragging == old(dragging) && dragOffset == old(dragOffset)
      ensures activeWindow != null ==>
                activeWindow.width == Shrunk(old(activeWindow.width), WidthStep, MinWidth) &&
                activeWindow.height == Shrunk(old(activeWindow.height), HeightStep, MinHeight) &&
                statusMessage == "Shrunk " + activeWindow.title && messageTimer == StatusFrames
      ensures activeWindow == null ==>
                statusMessage == old(statusMessage) && messageTimer == old(messageTimer)
      ensures forall w :: w in windows && w != activeWindow ==>
                w.width == old(w.width) && w.height == old(w.height)
      ensures forall w :: w in windows ==>
                w.x == old(w.x) && w.y == old(w.y) && w.isMinimized == old(w.isMinimized)
    {
      if activeWindow != null {
        var a := activeWindow;
        a.width := Shrunk(a.width, WidthStep, MinWidth);
        a.height := Shrunk(a.height, HeightStep, MinHeight);
        SetStatus("Shrunk " + a.title);
      }
    }

    method SetStatus(message: string)
      modifies this`statusMessage, this`messageTimer
      ensures statusMessage == message && messageTimer == StatusFrames
    {
      statusMessage := message;
      messageTimer := StatusFrames;
    }

    /** The renderer's one effect on the desktop: a shown status message
        loses one frame. */
    method RenderTick()
      requires Valid()
      modifies this`messageTimer
      ensures Valid()
      ensures messageTimer == if old(messageTimer) > 0 then old(messageTimer) - 1 else old(messageTimer)
    {
      if messageTimer > 0 {
        messageTimer := messageTimer - 1;
      }
    }
  }
}
