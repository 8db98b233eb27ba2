# Gesture controller core, modelled in Dafny

This project models the two stateful engines of a hand-gesture desktop
controller and proves properties about them:

- **The gesture recogniser** (`Gestures.Recognizer`, file `gestures.dfy`).
  It keeps a bounded FIFO of fingertip positions (oldest first) and one
  cooldown counter shared by every gesture kind. From the buffer it
  classifies:
  - swipes, by the primary axis of the oldest-to-newest displacement;
  - pushes and pulls, by the sign and size of the vertical displacement;
  - circles, by path length, loop closure and a shoelace-style orientation sum.

  Every detection arms the cooldown, and every tracked frame (`Update`)
  lets one frame of it pass.
- **The window model** (`Windows.Window`, file `windows.dfy`). A window is
  an integer rectangle with closed-interval hit-testing for its body and for
  its 30-pixel title bar. It has move, set-position and minimise primitives.
- **The desktop controller** (`Desktops.Desktop`, file `desktop.dfy`). It
  owns an ordered list of windows, where the last one is in front, and a
  reference to the active window. It runs the pinch-driven drag state
  machine and brings a grabbed window to the front by remove-and-append. It
  moves and resizes the active window on swipe, push and pull, within caps
  and floors, and keeps a status line with a frame timer.

`prelude.dfy` (module `Prelude`) holds an `Option` type, Python's `abs`,
`min` and `max`, the predicate `Distinct` (no element twice), `IndexOf`
(the first occurrence of a member), Python's `list.remove` as
`RemoveFirst`, and the lemma `MoveToBackPermutes` (remove-and-append only
reorders a list).

Modelling choices:

- Windows are objects and `activeWindow` is a reference into the list,
  the same aliasing as in the source. `Desktop.Valid()` is the desktop
  invariant. The constructor establishes it. `HandleCursor`, `StartDrag`,
  `HandleSwipe`, `HandlePush`, `HandlePull` and `RenderTick` require it
  and keep it. `SetStatus` only sets the message and a timer of 60. The
  helpers `BringToFront` and `CreateDemoWindows` do not keep it on their
  own, and are called only where the caller restores it. `Valid()` says:
  - the windows are distinct;
  - the active window, if any, is in the list;
  - a window is marked active exactly when it is the active window;
  - a drag implies an active window;
  - every width is in [200, 600] and every height in [150, 400];
  - the status timer is in [0, 60].
- Square roots are gone. `sqrt(d2) < t` is decided exactly as
  `t > 0 && d2 < t*t` (`ShortOf`). `SqrtComparison` proves that the two
  agree, so a distance equal to the threshold passes it.
- The circle's path length is a sum of segment lengths given by a function
  `segLen`, which the caller supplies. `EuclideanLength` requires it to give
  the non-negative square root of the squared distance, the exact value
  that numpy's `sqrt` rounds.
- Inputs from the hand tracker (cursor position, pinch flag) are plain
  parameters. The renderer's only effect on state, the status timer
  countdown, is the separate method `RenderTick`.

Behaviour of the code worth noting:

- The code has no desktop reset operation. The demo windows are created only
  by the constructor.
- The code does not reject non-positive desktop dimensions. Of the
  non-positive history capacities it accepts only 0, which gives a history
  that stays empty; a negative one makes `deque` raise `ValueError`.
- `handle_swipe` with an active window and an unknown direction changes
  nothing, including the status line. With no active window, any direction,
  unknown ones included, activates the front window.
- The code never clears `is_active` when it activates the front window
  from `handle_swipe`. That is harmless only because no window can be
  active while `active_window` is unset. `AtMostOneActive` and `Valid()`
  make this explicit.
- The circle orientation follows the y-up convention of the shoelace
  formula. With screen coordinates, where y grows downwards, a loop drawn
  clockwise on screen is labelled counterclockwise (`ScreenClockwiseSquare`).
  The model keeps the code's labels.

## Model

| member | source | states |
|---|---|---|
| `Prelude.RemoveFirst` | virtual_window.py:214-215 | when the window is present, `list.remove` takes out exactly one copy of it and keeps the others in order; otherwise the list is unchanged |
| `Prelude.MoveToBackPermutes` | virtual_window.py:212-216 | remove-and-append is a permutation: same multiset, same members, and distinct stays distinct |
| `Gestures.Pushed` | gesture_recognizer.py:14-17 | appending to the bounded deque keeps the newest `capacity` points with the new point last; nothing is evicted below capacity, and only the oldest point is evicted when the buffer is full |
| `Gestures.PushedAllKeepsNewest` | gesture_recognizer.py:9-17 | after any run of observed positions the history is exactly the newest `capacity` of everything seen, oldest first |
| `Gestures.Tick` | gesture_recognizer.py:19-21 | one frame of cooldown decay: a positive cooldown drops by one, zero stays |
| `Gestures.TicksClosedForm` | gesture_recognizer.py:19-21 | after `n` frames a cooldown of `c` is `max(c - n, 0)`: it loses exactly one per frame and never goes below zero |
| `Gestures.DefaultHistoryKeepsLastTen` | gesture_recognizer.py:8-17 | with the default capacity, a recogniser that starts empty holds exactly the last ten positions given, or all of them when fewer |
| `Gestures.CooldownExpires` | gesture_recognizer.py:12-21 | after a detection the next 14 frames still suppress detection and the 15th frame re-enables it |
| `Gestures.SqrtComparison` | gesture_recognizer.py:37-38 | for the exact root `s` of the squared distance, `s < threshold` holds exactly when the integer test `ShortOf` does; equality passes |
| `Gestures.WantsByName` | gesture_recognizer.py:48 | requesting a direction by name accepts that direction and no other |
| `Gestures.Classify` | gesture_recognizer.py:41-45 | the primary direction of a displacement: horizontal when `abs(dx) > abs(dy)`, otherwise vertical, signed by the component |
| `Gestures.ClassifyCharacterized` | gesture_recognizer.py:41-45 | right iff `abs(dx) > abs(dy)` and `dx > 0`; left iff `abs(dx) > abs(dy)` and `dx <= 0`; down iff `abs(dx) <= abs(dy)` and `dy > 0`; up otherwise |
| `Gestures.ClassifyMostAligned` | gesture_recognizer.py:41-45 | the classified direction is one along which the hand moved farthest (`max(abs(dx), abs(dy))`), and on a tie between the axes it is vertical |
| `Gestures.PushPullExclusive` | gesture_recognizer.py:65-85 | with a non-negative threshold no history holds both a push and a pull, and a movement of exactly the threshold holds neither |
| `Gestures.SwipeRightExample` | gesture_recognizer.py:23-53 | at the default threshold 100, four frames at rest and then 150 pixels right is a right swipe, and 99 pixels is no swipe |
| `Gestures.PushPullExample` | gesture_recognizer.py:55-87 | at the default threshold 150, moving down 151 is a push, exactly 150 is not, and moving up 151 is a pull |
| `Gestures.PathLength` | gesture_recognizer.py:95-99 | the cumulative path length is non-negative and at least the length of the last segment |
| `Gestures.CrossSum` | gesture_recognizer.py:112-116 | the sum of `(x2 - x1) * (y2 + y1)` over consecutive pairs of the history |
| `Gestures.CrossSumReversed` | gesture_recognizer.py:112-116 | the orientation sum of the same path traced backwards is the negation of the original |
| `Gestures.ReversedOrientation` | gesture_recognizer.py:112-120 | a path with a non-zero orientation sum gets the opposite rotation label when traced backwards |
| `Gestures.ScreenClockwiseSquare` | gesture_recognizer.py:113-120 | a square traced clockwise in screen coordinates is labelled counterclockwise |
| `Gestures.SquareLoopExample` | gesture_recognizer.py:89-122 | eight points around a 100-pixel square ending 40 pixels from the start form a circle at the default threshold 200 (path length 360, ends 40 apart), and it is labelled counterclockwise |
| `Gestures.SumCross` | gesture_recognizer.py:112-116 | the accumulation loop computes the orientation sum over all consecutive pairs |
| `Gestures.SumPathLength` | gesture_recognizer.py:95-99 | the accumulation loop computes the cumulative path length; it sums every segment and overwrites none |
| `Gestures.Recognizer.constructor` | gesture_recognizer.py:8-12 | empty history with the given capacity, cooldown 0, cooldown period 15 |
| `Gestures.Recognizer.Update` | gesture_recognizer.py:14-21 | a position is appended through the bounded deque; no position leaves the history unchanged; the cooldown drops by one when positive and otherwise stays 0 |
| `Gestures.Recognizer.DetectSwipe` | gesture_recognizer.py:23-53 | fires iff there are at least 5 points, the displacement reaches the threshold, the request is `"any"` or names the classified direction, and the cooldown is 0; then it returns the classified direction and arms the cooldown, and otherwise the cooldown is untouched; the history never changes |
| `Gestures.Recognizer.DetectPush` | gesture_recognizer.py:55-71 | fires iff there are at least 5 points, `dy > threshold` and the cooldown is 0; firing arms the cooldown, and not firing leaves it; the history never changes |
| `Gestures.Recognizer.DetectPull` | gesture_recognizer.py:73-87 | fires iff there are at least 5 points, `dy < -threshold` and the cooldown is 0; firing arms the cooldown, and not firing leaves it; the history never changes |
| `Gestures.Recognizer.DetectCircle` | gesture_recognizer.py:89-122 | fires iff there are at least 8 points, the path length reaches the threshold, the ends are nearer than 50, and the cooldown is 0; then it returns clockwise iff the orientation sum is positive and arms the cooldown; the history never changes |
| `Gestures.Recognizer.Reset` | gesture_recognizer.py:124-126 | the history is empty and the cooldown is 0 |
| `Windows.Window.constructor` | virtual_window.py:8-17 | the given geometry and title, not active, not minimised |
| `Windows.Window.Move` | virtual_window.py:34-37 | translates the position by `(dx, dy)` and changes nothing else |
| `Windows.Window.SetPosition` | virtual_window.py:39-42 | sets the position and changes nothing else |
| `Windows.Window.ToggleMinimize` | virtual_window.py:44-46 | flips only the minimised flag; position and size are untouched |
| `Windows.ToggleMinimizeTwice` | virtual_window.py:44-46 | minimising twice restores the window exactly |
| `Windows.Window.ContainsPoint` | virtual_window.py:20-25 | false when minimised; otherwise the closed test `x <= px <= x + width` and `y <= py <= y + height` |
| `Windows.Window.InTitleBar` | virtual_window.py:27-32 | false when minimised; otherwise the closed test `x <= px <= x + width` and `y <= py <= y + 30` |
| `Windows.MinimizedHitsNothing` | virtual_window.py:20-32 | a minimised window contains no point and has no title-bar point |
| `Windows.CornersInside` | virtual_window.py:20-25 | the closed rectangle of a shown window includes all four corners |
| `Windows.OneUnitOutside` | virtual_window.py:20-25 | no point one unit beyond any edge is inside |
| `Windows.TitleBarWithinBody` | virtual_window.py:27-32 | for a window at least 30 tall, a title-bar point is a body point with `py <= y + 30`, and conversely |
| `Desktops.Grown` | virtual_window.py:249-250 | one push gives `min(v + step, cap)`: never above the cap, and never below the old size when that was within the cap |
| `Desktops.Shrunk` | virtual_window.py:256-257 | one pull gives `max(v - step, floor)`: never below the floor, and never above the old size when that was above the floor |
| `Desktops.ShrinkUndoesGrow` | virtual_window.py:246-258 | a pull undoes a push that the cap did not cut off |
| `Desktops.GrownTimesClosedForm` | virtual_window.py:246-251 | `n` pushes give `min(v + n*step, cap)` |
| `Desktops.ShrunkTimesClosedForm` | virtual_window.py:253-258 | `n` pulls give `max(v - n*step, floor)` |
| `Desktops.Frontmost` | virtual_window.py:187-191 | the hit-tested window is the last in the list that contains the point, and none after it does; no window is hit only when none contains the point |
| `Desktops.DemoFitsDefaultDesktop` | virtual_window.py:101-107 | on a desktop of the default size 1280 by 720, the renderer's clamp of the drawn position leaves every demo window where it is |
| `Desktops.Desktop.AtMostOneActive` | virtual_window.py:212-229 | at most one window is marked active, and none is when no window is the active one |
| `Desktops.Desktop.TitleBarsWithinBodies` | virtual_window.py:187-196 | on the desktop every title-bar point of a window is also a body point of that window |
| `Desktops.Desktop.constructor` | virtual_window.py:52-66 | exactly the three demo windows Notes, Browser and Music, with their geometry; no active window, no drag, offset (0, 0), the welcome message, timer 0; the invariant holds |
| `Desktops.Desktop.CreateDemoWindows` | virtual_window.py:68-74 | three distinct new windows with the listed geometry and titles |
| `Desktops.Desktop.FindClicked` | virtual_window.py:187-191 | the front-to-back loop finds the front-most window containing the point |
| `Desktops.Desktop.HandleCursor` | virtual_window.py:185-210 | a drag starts only on a pinch, with no drag in progress, in the title bar of the front-most window under the cursor; then the offset is cursor minus window position, the window goes to the end of the list, a permutation of the old list, and becomes the only active window, and it does not move on that call; while dragging, the active window sits at cursor minus offset; releasing the pinch ends the drag and moves nothing; sizes and status are untouched |
| `Desktops.Desktop.StartDrag` | virtual_window.py:196-201 | the drag start: offset recorded, window brought to front and made the only active window, no geometry changed |
| `Desktops.Desktop.BringToFront` | virtual_window.py:212-221 | a window in the list moves to the end, the rest keep their order, and every other window is deactivated; a window not in the list changes nothing; no geometry changes |
| `Desktops.Desktop.HandleSwipe` | virtual_window.py:223-244 | with no active window, the front window is activated and nothing moves; otherwise the active window moves exactly 50 in the named direction and the status names the window and direction with timer 60; an unknown direction changes nothing |
| `Desktops.Desktop.HandlePush` | virtual_window.py:246-251 | with an active window its width becomes `min(w + 50, 600)` and its height `min(h + 40, 400)`, and the status says it was enlarged; with none nothing changes; sizes stay in [200, 600] and [150, 400] |
| `Desktops.Desktop.HandlePull` | virtual_window.py:253-258 | with an active window its width becomes `max(w - 50, 200)` and its height `max(h - 40, 150)`, and the status says it was shrunk; with none nothing changes; sizes stay in range |
| `Desktops.Desktop.SetStatus` | virtual_window.py:260-263 | the message is replaced and the timer set to 60 |
| `Desktops.Desktop.RenderTick` | virtual_window.py:95-97 | a positive status timer loses one frame and a zero one stays |

## Left out

- Hand tracking (hand_tracker.py). It wraps MediaPipe and OpenCV, and its
  pinch test and finger count use floating point over library results. To
  the core these are only a cursor position and a pinch flag, which appear
  here as parameters.
- main.py. It duplicates the tracker class and contains no core logic.
- Drawing: `render`, `_draw_window`, `_draw_taskbar`, `_draw_status`. These
  do pixel output through OpenCV. The clamp in `_draw_window` only affects
  drawing and never writes back. The one state effect of `render`,
  the status timer countdown, is `RenderTick`.
- Window colours and `original_pos`. No logic reads them.
- The recogniser's `last_gesture` field. Nothing reads or updates it
  after construction.
- The close and minimise buttons that are drawn in each title bar. The code
  never handles them.
- Default argument values (history size 10, thresholds 100, 150 and 200,
  desktop size 1280 by 720). They are named constants
  (`DefaultHistorySize`, `DefaultSwipeThreshold`, `DefaultPushPullThreshold`,
  `DefaultCircleThreshold`, `DefaultDesktopWidth`, `DefaultDesktopHeight`)
  that callers pass explicitly; the example lemmas use them.
- `Gestures.Recognizer.constructor`: a negative capacity raises ValueError in
  the source; the `nat` parameter excludes it.
- Floating-point rounding in `detect_circle`'s path length. The model sums
  exact Euclidean lengths as reals.
- `Gestures.Recognizer.DetectSwipe`: thresholds are integers. Floating-point
  rounding of the square root is not modelled; it matters only for squared
  distances of about 2^52 or more.
- A history with no length limit (`deque(maxlen=None)`). The source never
  constructs one.
