/** The gesture recogniser: a bounded history of fingertip positions and one
    cooldown counter shared by every gesture kind, from which swipes, pushes,
    pulls and circles are classified. Coordinates are image pixels, with y
    growing downwards. */
module Gestures {
  import opened Prelude

  datatype Point = Point(x: int, y: int)

  datatype Direction = Left | Right | Up | Down

  datatype Rotation = Clockwise | Counterclockwise

  /** Default capacity of the position history. */
  const DefaultHistorySize := 10
  /** Frames during which a detected gesture suppresses every detector. */
  const CooldownFrames := 15
  /** Fewest buffered points for a swipe, push or pull. */
  const MinMotionPoints := 5
  /** Fewest buffered points for a circle. */
  const MinCirclePoints := 8
  /** Default thresholds of the detectors. */
  const DefaultSwipeThreshold := 100
  const DefaultPushPullThreshold := 150
  const DefaultCircleThreshold := 200
  /** A circle is closed when its ends are nearer than this. */
  const ClosureRadius := 50

  // ---------------------------------------------------------------------
  // The position history

  /** The last `n` elements of `s` (all of `s` when it is shorter). */
  function Newest(s: seq<Point>, n: nat): seq<Point> {
    s[|s| - Min(|s|, n)..]
  }

  /** The history after one observed position: `deque(maxlen = cap).append(p)`. */
  function Pushed(h: seq<Point>, cap: nat, p: Point): (r: seq<Point>)
    requires |h| <= cap
    ensures r == Newest(h + [p], cap)
    ensures |r| <= cap
    ensures cap > 0 ==> r[|r| - 1] == p
    ensures |h| < cap ==> r[..|h|] == h
    ensures 0 < |h| == cap ==> r[..|r| - 1] == h[1..]
  {
    if |h| < cap then h + [p] else (h + [p])[1..]
  }

  /** The history after observing each of `ps` in turn. */
  function PushedAll(h: seq<Point>, cap: nat, ps: seq<Point>): seq<Point>
    requires |h| <= cap
    decreases |ps|
  {
    if ps == [] then h else PushedAll(Pushed(h, cap, ps[0]), cap, ps[1..])
  }

  /** However many positions arrive, the history holds exactly the newest
      `cap` of everything seen, oldest first. */
  lemma {:induction false} PushedAllKeepsNewest(h: seq<Point>, cap: nat, ps: seq<Point>)
    requires |h| <= cap
    ensures PushedAll(h, cap, ps) == Newest(h + ps, cap)
    decreases |ps|
  {
    if ps == [] {
      assert h + ps == h;
    } else {
      var h' := Pushed(h, cap, ps[0]);
      PushedAllKeepsNewest(h', cap, ps[1..]);
      NewestOfNewest(h + [ps[0]], cap, ps[1..]);
      assert h + [ps[0]] + ps[1..] == h + ps;
    }
  }

  /** Forgetting old points early does not change the newest `n`. */
  lemma NewestOfNewest(s: seq<Point>, n: nat, t: seq<Point>)
    ensures Newest(Newest(s, n) + t, n) == Newest(s + t, n)
  {
  }

  /** With the default capacity, a recogniser that starts empty holds the
      last ten positions it was given, or all of them when there are fewer. */
  lemma DefaultHistoryKeepsLastTen(ps: seq<Point>)
    ensures PushedAll([], DefaultHistorySize, ps) == ps[|ps| - Min(|ps|, 10)..]
  {
    PushedAllKeepsNewest([], DefaultHistorySize, ps);
    assert [] + ps == ps;
  }

  // ---------------------------------------------------------------------
  // The cooldown

  /** One frame of cooldown decay. */
  function Tick(c: int): int {
    if c > 0 then c - 1 else c
  }

  /** The cooldown after `n` frames. */
  function Ticks(c: int, n: nat): int
    decreases n
  {
    if n == 0 then c else Ticks(Tick(c), n - 1)
  }

  /** The cooldown falls by one per frame and stops at zero, so it is zero
      again exactly `c` frames after it was set to `c`. */
  lemma {:induction false} TicksClosedForm(c: int, n: nat)
    requires c >= 0
    ensures Ticks(c, n) == Max(c - n, 0)
    decreases n
  {
    if n > 0 {
      TicksClosedForm(Tick(c), n - 1);
    }
  }

  /** After a detection, the next `CooldownFrames - 1` frames still suppress
      every detector and the `CooldownFrames`-th frame re-enables them. */
  lemma CooldownExpires()
    ensures Ticks(CooldownFrames, CooldownFrames - 1) > 0
    ensures Ticks(CooldownFrames, CooldownFrames) == 0
  {
    TicksClosedForm(CooldownFrames, CooldownFrames - 1);
    TicksClosedForm(CooldownFrames, CooldownFrames);
  }

  // ---------------------------------------------------------------------
  // Distances without square roots

  function Square(n: int): nat {
    n * n
  }

  /** The squared Euclidean distance between two points. */
  function SqDist(p: Point, q: Point): nat {
    Square(q.x - p.x) + Square(q.y - p.y)
  }

  /** `sqrt(d2) < t`, decided on integers. */
  predicate ShortOf(d2: nat, t: int) {
    t > 0 && d2 < t * t
  }

  /** For the exact square root `s` of `d2`, `s < t` holds exactly when
      `ShortOf(d2, t)` does; so equality with the threshold passes it. */
  lemma SqrtComparison(s: real, d2: nat, t: int)
    requires 0.0 <= s && s * s == d2 as real
    ensures s < t as real <==> ShortOf(d2, t)
  {
    var tr := t as real;
    assert (t * t) as real == tr * tr;
    if s < tr {
      assert s * s <= s * tr;
      assert s * tr < tr * tr;
    } else if t > 0 {
      assert s * s >= s * tr;
      assert s * tr >= tr * tr;
    }
  }

  // ---------------------------------------------------------------------
  // Swipes

  function DirectionName(d: Direction): string {
    match d
    case Left => "left"
    case Right => "right"
    case Up => "up"
    case Down => "down"
  }

  /** Does a swipe request (`"any"` or a direction's name) accept `d`? */
  predicate Wants(request: string, d: Direction) {
    request == "any" || request == DirectionName(d)
  }

  /** Requesting a direction by name accepts that direction and no other. */
  lemma WantsByName(d: Direction, e: Direction)
    ensures Wants(DirectionName(d), e) <==> d == e
  {
  }

  /** The primary direction of a displacement; ties go to the vertical axis. */
  function Classify(dx: int, dy: int): Direction {
    if Abs(dx) > Abs(dy) then
      if dx > 0 then Right else Left
    else
      if dy > 0 then Down else Up
  }

  /** How far the displacement `(dx, dy)` goes in direction `d`. */
  function Along(d: Direction, dx: int, dy: int): int {
    match d
    case Right => dx
    case Left => -dx
    case Down => dy
    case Up => -dy
  }

  /** Each direction is chosen exactly under its own condition. */
  lemma ClassifyCharacterized(dx: int, dy: int)
    ensures Classify(dx, dy) == Right <==> Abs(dx) > Abs(dy) && dx > 0
    ensures Classify(dx, dy) == Left <==> Abs(dx) > Abs(dy) && dx <= 0
    ensures Classify(dx, dy) == Down <==> Abs(dx) <= Abs(dy) && dy > 0
    ensures Classify(dx, dy) == Up <==> Abs(dx) <= Abs(dy) && dy <= 0
  {
  }

  /** The classified direction is one along which the hand moved farthest,
      and on a tie between the axes it is the vertical one. */
  lemma ClassifyMostAligned(dx: int, dy: int, d: Direction)
    ensures Along(Classify(dx, dy), dx, dy) == Max(Abs(dx), Abs(dy))
    ensures Along(d, dx, dy) <= Along(Classify(dx, dy), dx, dy)
    ensures Abs(dx) == Abs(dy) ==> Classify(dx, dy) == Up || Classify(dx, dy) == Down
  {
  }

  /** Displacement from the oldest to the newest buffered point. */
  function DeltaX(h: seq<Point>): int
    requires |h| > 0
  {
    h[|h| - 1].x - h[0].x
  }

  function DeltaY(h: seq<Point>): int
    requires |h| > 0
  {
    h[|h| - 1].y - h[0].y
  }

  /** The history holds a swipe: enough points, and the distance from the
      oldest to the newest reaches the threshold. */
  predicate SwipeMotion(h: seq<Point>, threshold: int) {
    |h| >= MinMotionPoints && !ShortOf(SqDist(h[0], h[|h| - 1]), threshold)
  }

  function SwipeDirection(h: seq<Point>): Direction
    requires |h| > 0
  {
    Classify(DeltaX(h), DeltaY(h))
  }

  // ---------------------------------------------------------------------
  // Push and pull

  /** The hand moved down (towards the camera) by more than the threshold. */
  predicate PushMotion(h: seq<Point>, threshold: int) {
    |h| >= MinMotionPoints && DeltaY(h) > threshold
  }

  /** The hand moved up (away from the camera) by more than the threshold. */
  predicate PullMotion(h: seq<Point>, threshold: int) {
    |h| >= MinMotionPoints && DeltaY(h) < -threshold
  }

  /** With a non-negative threshold one history never holds both a push and
      a pull, and a movement of exactly the threshold holds neither. */
  lemma PushPullExclusive(h: seq<Point>, threshold: int)
    requires threshold >= 0
    ensures !(PushMotion(h, threshold) && PullMotion(h, threshold))
    ensures |h| > 0 && Abs(DeltaY(h)) == threshold ==>
              !PushMotion(h, threshold) && !PullMotion(h, threshold)
  {
  }

  /** Four frames at rest and then 150 pixels to the right is a right swipe
      at the default threshold; stopping at 99 pixels is no swipe. */
  lemma SwipeRightExample()
    ensures var h := [Point(0, 0), Point(0, 0), Point(0, 0), Point(0, 0), Point(150, 0)];
            SwipeMotion(h, DefaultSwipeThreshold) && SwipeDirection(h) == Right
    ensures !SwipeMotion([Point(0, 0), Point(0, 0), Point(0, 0), Point(0, 0), Point(99, 0)],
                         DefaultSwipeThreshold)
  {
  }

  /** At the default threshold a downward movement of 151 pixels is a push,
      one of exactly 150 is not, and an upward one of 151 is a pull. */
  lemma PushPullExample()
    ensures PushMotion([Point(0, 0), Point(0, 0), Point(0, 0), Point(0, 0), Point(0, 151)],
                       DefaultPushPullThreshold)
    ensures !PushMotion([Point(0, 0), Point(0, 0), Point(0, 0), Point(0, 0), Point(0, 150)],
                        DefaultPushPullThreshold)
    ensures PullMotion([Point(0, 0), Point(0, 0), Point(0, 0), Point(0, 0), Point(0, -151)],
                       DefaultPushPullThreshold)
  {
  }

  // ---------------------------------------------------------------------
  // Circles

  /** One term of the shoelace-style orientation sum. */
  function CrossTerm(p: Point, q: Point): int {
    (q.x - p.x) * (q.y + p.y)
  }

  /** The orientation sum over consecutive pairs, oldest pair first. */
  function CrossSum(h: seq<Point>): int
    decreases |h|
  {
    if |h| < 2 then 0 else CrossSum(h[..|h| - 1]) + CrossTerm(h[|h| - 2], h[|h| - 1])
  }

  /** The path length: the sum of the segment lengths `segLen` gives. */
  function PathLength(h: seq<Point>, segLen: (Point, Point) -> real): (r: real)
    requires forall p, q :: segLen(p, q) >= 0.0
    ensures r >= 0.0
    ensures |h| >= 2 ==> r >= segLen(h[|h| - 2], h[|h| - 1])
    decreases |h|
  {
    if |h| < 2 then 0.0 else PathLength(h[..|h| - 1], segLen) + segLen(h[|h| - 2], h[|h| - 1])
  }

  /** The history holds a closed loop: enough points, a path at least as long
      as the threshold, and ends nearer than `ClosureRadius`. */
  predicate CircleMotion(h: seq<Point>, threshold: int, segLen: (Point, Point) -> real)
    requires forall p, q :: segLen(p, q) >= 0.0
  {
    |h| >= MinCirclePoints &&
    PathLength(h, segLen) >= threshold as real &&
    ShortOf(SqDist(h[0], h[|h| - 1]), ClosureRadius)
  }

  function Orientation(h: seq<Point>): Rotation {
    if CrossSum(h) > 0 then Clockwise else Counterclockwise
  }

  function Reverse(h: seq<Point>): (r: seq<Point>)
    ensures |r| == |h|
    decreases |h|
  {
    if h == [] then [] else Reverse(h[1..]) + [h[0]]
  }

  /** The orientation sum read from the front: first pair plus the rest. */
  lemma {:induction false} CrossSumFront(h: seq<Point>)
    requires |h| >= 2
    ensures CrossSum(h) == CrossTerm(h[0], h[1]) + CrossSum(h[1..])
    decreases |h|
  {
    if |h| > 2 {
      var init := h[..|h| - 1];
      CrossSumFront(init);
      assert init[1..] == h[1..][..|h[1..]| - 1];
    } else {
      assert h[..1] == [h[0]];
    }
  }

  /** The same loop traced in the opposite direction has the opposite
      orientation sum, so a clockwise loop reversed never reads clockwise. */
  lemma {:induction false} CrossSumReversed(h: seq<Point>)
    ensures CrossSum(Reverse(h)) == -CrossSum(h)
    decreases |h|
  {
    if |h| >= 2 {
      var t := h[1..];
      var rt := Reverse(t);
      var r := rt + [h[0]];
      assert Reverse(h) == r;
      assert r[..|r| - 1] == rt;
      assert rt == Reverse(t[1..]) + [t[0]];
      assert r[|r| - 2] == h[1];
      calc {
        CrossSum(r);
        CrossSum(rt) + CrossTerm(h[1], h[0]);
        { CrossSumReversed(t); CrossTermAntisymmetric(h[0], h[1]); }
        -CrossSum(t) - CrossTerm(h[0], h[1]);
        { CrossSumFront(h); }
        -CrossSum(h);
      }
    } else if |h| == 1 {
      assert Reverse(h) == [h[0]];
    }
  }

  lemma CrossTermAntisymmetric(p: Point, q: Point)
    ensures CrossTerm(q, p) == -CrossTerm(p, q)
  {
  }

  lemma ReversedOrientation(h: seq<Point>)
    ensures CrossSum(h) != 0 ==> Orientation(Reverse(h)) != Orientation(h)
  {
    CrossSumReversed(h);
  }

  /** With y growing downwards, this square is traced clockwise on screen,
      yet its orientation sum is negative: the label follows the y-up
      convention of the shoelace formula. */
  lemma ScreenClockwiseSquare()
    ensures Orientation([Point(0, 0), Point(100, 0), Point(100, 100), Point(0, 100), Point(0, 0)])
            == Counterclockwise
  {
    var a, b, c, d := Point(0, 0), Point(100, 0), Point(100, 100), Point(0, 100);
    assert [a, b][..1] == [a];
    assert [a, b, c][..2] == [a, b];
    assert [a, b, c, d][..3] == [a, b, c];
    assert [a, b, c, d, a][..4] == [a, b, c, d];
    assert CrossSum([a, b]) == 0;
    assert CrossSum([a, b, c]) == 0;
    assert CrossSum([a, b, c, d]) == -20000;
  }

  /** `segLen` measures every segment by its Euclidean length: a
      non-negative root of the squared distance. */
  ghost predicate EuclideanLength(segLen: (Point, Point) -> real) {
    forall p, q :: segLen(p, q) >= 0.0 && segLen(p, q) * segLen(p, q) == SqDist(p, q) as real
  }

  /** A non-negative real whose square is `n * n` is `n`. */
  lemma RootOfSquare(s: real, n: nat)
    requires s >= 0.0 && s * s == (n * n) as real
    ensures s == n as real
  {
    var nr := n as real;
    assert (n * n) as real == nr * nr;
    assert (s - nr) * (s + nr) == 0.0;
    if s + nr == 0.0 {
      assert s == 0.0 && nr == 0.0;
    } else {
      assert s - nr == ((s - nr) * (s + nr)) / (s + nr);
    }
  }

  /** Eight points around a 100-pixel square, ending 40 pixels below the
      start, form a circle at the default threshold; traced clockwise on
      screen, the loop is labelled counterclockwise. */
  lemma SquareLoopExample(len: (Point, Point) -> real)
    requires EuclideanLength(len)
    ensures var h := [Point(0, 0), Point(50, 0), Point(100, 0), Point(100, 50),
                      Point(100, 100), Point(50, 100), Point(0, 100), Point(0, 40)];
            CircleMotion(h, DefaultCircleThreshold, len) && Orientation(h) == Counterclockwise
  {
    var p0, p1, p2, p3 := Point(0, 0), Point(50, 0), Point(100, 0), Point(100, 50);
    var p4, p5, p6, p7 := Point(100, 100), Point(50, 100), Point(0, 100), Point(0, 40);
    assert [p0, p1][..1] == [p0];
    assert [p0, p1, p2][..2] == [p0, p1];
    assert [p0, p1, p2, p3][..3] == [p0, p1, p2];
    assert [p0, p1, p2, p3, p4][..4] == [p0, p1, p2, p3];
    assert [p0, p1, p2, p3, p4, p5][..5] == [p0, p1, p2, p3, p4];
    assert [p0, p1, p2, p3, p4, p5, p6][..6] == [p0, p1, p2, p3, p4, p5];
    assert [p0, p1, p2, p3, p4, p5, p6, p7][..7] == [p0, p1, p2, p3, p4, p5, p6];
    RootOfSquare(len(p0, p1), 50);
    RootOfSquare(len(p1, p2), 50);
    RootOfSquare(len(p2, p3), 50);
    RootOfSquare(len(p3, p4), 50);
    RootOfSquare(len(p4, p5), 50);
    RootOfSquare(len(p5, p6), 50);
    RootOfSquare(len(p6, p7), 60);
    assert PathLength([p0, p1], len) == 50.0;
    assert PathLength([p0, p1, p2], len) == 100.0;
    assert PathLength([p0, p1, p2, p3], len) == 150.0;
    assert PathLength([p0, p1, p2, p3, p4], len) == 200.0;
    assert PathLength([p0, p1, p2, p3, p4, p5], len) == 250.0;
    assert PathLength([p0, p1, p2, p3, p4, p5, p6], len) == 300.0;
    assert PathLength([p0, p1, p2, p3, p4, p5, p6, p7], len) == 360.0;
    assert CrossSum([p0, p1]) == 0;
    assert CrossSum([p0, p1, p2]) == 0;
    assert CrossSum([p0, p1, p2, p3]) == 0;
    assert CrossSum([p0, p1, p2, p3, p4]) == 0;
    assert CrossSum([p0, p1, p2, p3, p4, p5]) == -10000;
    assert CrossSum([p0, p1, p2, p3, p4, p5, p6]) == -20000;
    assert CrossSum([p0, p1, p2, p3, p4, p5, p6, p7]) == -20000;
  }

  /** The orientation loop of `detect_circle`. */
  method SumCross(h: seq<Point>) returns (s: int)
    ensures s == CrossSum(h)
  {
    s := 0;
    var i := 1;
    while i < |h|
      invariant 1 <= i
      invariant |h| >= 1 ==> i <= |h|
      invariant |h| == 0 ==> s == 0
      invariant i <= |h| ==> s == CrossSum(h[..i])
    {
      assert h[..i + 1][..i] == h[..i];
      s := s + CrossTerm(h[i - 1], h[i]);
      i := i + 1;
    }
    assert |h| >= 1 ==> h[..i] == h;
  }

  /** The path-length loop of `detect_circle`. */
  method SumPathLength(h: seq<Point>, segLen: (Point, Point) -> real) returns (total: real)
    requires forall p, q :: segLen(p, q) >= 0.0
    ensures total == PathLength(h, segLen)
  {
    total := 0.0;
    var i := 1;
    while i < |h|
      invariant 1 <= i
      invariant |h| >= 1 ==> i <= |h|
      invariant |h| == 0 ==> total == 0.0
      invariant i <= |h| ==> total == PathLength(h[..i], segLen)
    {
      assert h[..i + 1][..i] == h[..i];
      total := total + segLen(h[i - 1], h[i]);
      i := i + 1;
    }
    assert |h| >= 1 ==> h[..i] == h;
  }

  // ---------------------------------------------------------------------
  // The recogniser

  class Recognizer {
    /** The history's capacity (`history_size`). */
    const capacity: nat
    /** The cooldown a detection arms. */
    const cooldownFrames: int
    /** Buffered positions, oldest first. */
    var history: seq<Point>
    /** Frames left before any detector may fire again. */
    var cooldown: int

    ghost predicate Valid()
      reads this
    {
      |history| <= capacity && cooldownFrames == CooldownFrames && 0 <= cooldown <= cooldownFrames
    }

    constructor (historySize: nat)
      ensures Valid()
      ensures capacity == historySize && history == [] && cooldown == 0
    {
      capacity := historySize;
      cooldownFrames := CooldownFrames;
      history := [];
      cooldown := 0;
    }

    /** One tracked frame: buffer the position if there is one, and let one
        frame of cooldown pass. */
    method Update(position: Option<Point>)
      requires Valid()
      modifies this
      ensures Valid()
      ensures position.Some? ==> history == Pushed(old(history), capacity, position.value)
      ensures position.None? ==> history == old(history)
      ensures cooldown == Tick(old(cooldown))
      ensures cooldown == if old(cooldown) > 0 then old(cooldown) - 1 else 0
    {
      if position.Some? {
        var h := history + [position.value];
        if |h| > capacity {
          h := h[1..];
        }
        history := h;
      }
      if cooldown > 0 {
        cooldown := cooldown - 1;
      }
    }

    /** A swipe in the requested direction (`"any"` or a direction's name). */
    method DetectSwipe(request: string, threshold: int) returns (r: Option<Direction>)
      requires Valid()
      modifies this`cooldown
      ensures Valid() && history == old(history)
      ensures |history| < MinMotionPoints ==> r.None?
      ensures r.Some? <==>
                SwipeMotion(history, threshold) && Wants(request, SwipeDirection(history)) &&
                old(cooldown) == 0
      ensures r.Some? ==> r.value == SwipeDirection(history)
      ensures cooldown == if r.Some? then cooldownFrames else old(cooldown)
    {
      if |history| < MinMotionPoints {
        return None;
      }
      var start, end := history[0], history[|history| - 1];
      var dx := end.x - start.x;
      var dy := end.y - start.y;
      if ShortOf(Square(dx) + Square(dy), threshold) {
        return None;
      }
      var detected := if Abs(dx) > Abs(dy) then (if dx > 0 then Right else Left)
                      else (if dy > 0 then Down else Up);
      if request == "any" || request == DirectionName(detected) {
        if cooldown == 0 {
          cooldown := cooldownFrames;
          return Some(detected);
        }
      }
      return None;
    }

    /** A push: the hand moved down by more than the threshold. */
    method DetectPush(threshold: int) returns (fired: bool)
      requires Valid()
      modifies this`cooldown
      ensures Valid() && history == old(history)
      ensures |history| < MinMotionPoints ==> !fired
      ensures fired <==> PushMotion(history, threshold) && old(cooldown) == 0
      ensures cooldown == if fired then cooldownFrames else old(cooldown)
    {
      if |history| < MinMotionPoints {
        return false;
      }
      var dy := history[|history| - 1].y - history[0].y;
      if dy > threshold && cooldown == 0 {
        cooldown := cooldownFrames;
        return true;
      }
      return false;
    }

    /** A pull: the hand moved up by more than the threshold. */
    method DetectPull(threshold: int) returns (fired: bool)
      requires Valid()
      modifies this`cooldown
      ensures Valid() && history == old(history)
      ensures |history| < MinMotionPoints ==> !fired
      ensures fired <==> PullMotion(history, threshold) && old(cooldown) == 0
      ensures cooldown == if fired then cooldownFrames else old(cooldown)
    {
      if |history| < MinMotionPoints {
        return false;
      }
      var dy := history[|history| - 1].y - history[0].y;
      if dy < -threshold && cooldown == 0 {
        cooldown := cooldownFrames;
        return true;
      }
      return false;
    }

    /** A closed loop and its orientation; `segLen` is the Euclidean length
        of one segment (numpy's `sqrt` of the squared distance). */
    method DetectCircle(threshold: int, segLen: (Point, Point) -> real) returns (r: Option<Rotation>)
      requires Valid()
      requires EuclideanLength(segLen)
      modifies this`cooldown
      ensures Valid() && history == old(history)
      ensures |history| < MinCirclePoints ==> r.None?
      ensures r.Some? <==> CircleMotion(history, threshold, segLen) && old(cooldown) == 0
      ensures r.Some? ==> (r.value == Clockwise <==> CrossSum(history) > 0)
      ensures cooldown == if r.Some? then cooldownFrames else old(cooldown)
    {
      if |history| < MinCirclePoints {
        return None;
      }
      var total := SumPathLength(history, segLen);
      if total < threshold as real {
        return None;
      }
      var start, end := history[0], history[|history| - 1];
      if ShortOf(SqDist(start, end), ClosureRadius) {
        var crossSum := SumCross(history);
        if cooldown == 0 {
          cooldown := cooldownFrames;
          return Some(if crossSum > 0 then Clockwise else Counterclockwise);
        }
      }
      return None;
    }

    /** Forget every position and clear the cooldown. */
    method Reset()
      requires Valid()
      modifies this
      ensures Valid()
      ensures history == [] && cooldown == 0
    {
      history := [];
      cooldown := 0;
    }
  }
}
