/** One window of the virtual desktop: an integer rectangle with a title,
    an active flag and a minimised flag, hit-tested with closed intervals. */
module Windows {

  /** Height of the title bar, measured from the window's top edge. */
  const TitleBarHeight := 30

  class Window {
    var x: int
    var y: int
    var width: int
    var height: int
    const title: string
    var isActive: bool
    var isMinimized: bool

    constructor (x: int, y: int, width: int, height: int, title: string)
      ensures this.x == x && this.y == y && this.width == width && this.height == height
      ensures this.title == title && !isActive && !isMinimized
    {
      this.x := x;
      this.y := y;
      this.width := width;
      this.height := height;
      this.title := title;
      isActive := false;
      isMinimized := false;
    }

    /** The point lies in the closed rectangle of a window that is shown. */
    predicate ContainsPoint(px: int, py: int)
      reads this
    {
      !isMinimized && x <= px <= x + width && y <= py <= y + height
    }

    /** The point lies in the closed title-bar strip of a window that is shown. */
    predicate InTitleBar(px: int, py: int)
      reads this
    {
      !isMinimized && x <= px <= x + width && y <= py <= y + TitleBarHeight
    }

    /** Translate the window by `(dx, dy)`; nothing is clamped here. */
    method Move(dx: int, dy: int)
      modifies this
      ensures x == old(x) + dx && y == old(y) + dy
      ensures width == old(width) && height == old(height)
      ensures isActive == old(isActive) && isMinimized == old(isMinimized)
    {
      x := x + dx;
      y := y + dy;
    }

    method SetPosition(nx: int, ny: int)
      modifies this
      ensures x == nx && y == ny
      ensures width == old(width) && height == old(height)
      ensures isActive == old(isActive) && isMinimized == old(isMinimized)
    {
      x := nx;
      y := ny;
    }

    /** Flip the minimised flag and nothing else. */
    method ToggleMinimize()
      modifies this
      ensures isMinimized == !old(isMinimized)
      ensures x == old(x) && y == old(y) && width == old(width) && height == old(height)
      ensures isActive == old(isActive)
    {
      isMinimized := !isMinimized;
    }
  }

  /** Minimising twice restores the window exactly. */
  method ToggleMinimizeTwice(w: Window)
    modifies w
    ensures w.isMinimized == old(w.isMinimized) && w.isActive == old(w.isActive)
    ensures w.x == old(w.x) && w.y == old(w.y)
    ensures w.width == old(w.width) && w.height == old(w.height)
  {
    w.ToggleMinimize();
    w.ToggleMinimize();
  }

  /** A minimised window is hit nowhere. */
  lemma MinimizedHitsNothing(w: Window, px: int, py: int)
    requires w.isMinimized
    ensures !w.ContainsPoint(px, py) && !w.InTitleBar(px, py)
  {
  }

  /** A shown window of non-negative size contains its four corners. */
  lemma CornersInside(w: Window)
    requires !w.isMinimized && w.width >= 0 && w.height >= 0
    ensures w.ContainsPoint(w.x, w.y) && w.ContainsPoint(w.x + w.width, w.y)
    ensures w.ContainsPoint(w.x, w.y + w.height) && w.ContainsPoint(w.x + w.width, w.y + w.height)
  {
  }

  /** No point one unit beyond any edge of a window is inside it. */
  lemma OneUnitOutside(w: Window, px: int, py: int)
    requires px == w.x - 1 || px == w.x + w.width + 1 || py == w.y - 1 || py == w.y + w.height + 1
    ensures !w.ContainsPoint(px, py)
  {
  }

  /** The title bar is the top strip of the body whenever the window is at
      least as tall as the bar. */
  lemma TitleBarWithinBody(w: Window, px: int, py: int)
    requires w.height >= TitleBarHeight
    ensures w.InTitleBar(px, py) ==> w.ContainsPoint(px, py)
    ensures w.InTitleBar(px, py) <==> w.ContainsPoint(px, py) && py <= w.y + TitleBarHeight
  {
  }
}
