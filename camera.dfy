/** The camera of the presentation layer: maps the normalized world square [-1, 1]² onto
    the largest centred square of the window, in pixels. */
module Render {

  class Camera {
    var windowWidth: nat
    var windowHeight: nat

    constructor (width: nat, height: nat)
      ensures windowWidth == width && windowHeight == height
    {
      windowWidth, windowHeight := width, height;
    }

    /** Pixels per two world units: the smaller window dimension, so the square fits. */
    function Scale(): (s: real)
      reads this
      ensures s <= windowWidth as real && s <= windowHeight as real
      ensures s == windowWidth as real || s == windowHeight as real
    {
      if windowWidth <= windowHeight then windowWidth as real else windowHeight as real
    }

    /** Horizontal and vertical margins that centre the square in the window. */
    function OffsetX(): real
      reads this
    {
      (windowWidth as real - Scale()) * 0.5
    }

    function OffsetY(): real
      reads this
    {
      (windowHeight as real - Scale()) * 0.5
    }

    /** Camera::worldToScreenSize: a world length in pixels. */
    function WorldToScreenSize(size: real): (r: real)
      reads this
      ensures size >= 0.0 ==> r >= 0.0
      ensures r == 0.0 <==> size == 0.0 || Scale() == 0.0
    {
      size * Scale() / 2.0
    }

    /** Camera::worldToScreen: the pixel position of world point (x, y). Its distance from the
        square's top-left corner is the screen size of the point's distance from (-1, -1). */
    function WorldToScreen(x: real, y: real): (p: (real, real))
      reads this
      ensures p.0 == OffsetX() + WorldToScreenSize(x + 1.0)
      ensures p.1 == OffsetY() + WorldToScreenSize(y + 1.0)
    {
      var scale := Scale();
      ((x + 1.0) * 0.5 * scale + OffsetX(), (y + 1.0) * 0.5 * scale + OffsetY())
    }

    /** Camera::setWindowSize: records the new window size and nothing else. */
    method SetWindowSize(width: nat, height: nat)
      modifies this
      ensures windowWidth == width && windowHeight == height
    {
      windowWidth, windowHeight := width, height;
    }
  }

  /** The world's corners land on the corners of the centred square. */
  lemma CornersMapToSquare(cam: Camera)
    ensures cam.WorldToScreen(-1.0, -1.0) == (cam.OffsetX(), cam.OffsetY())
    ensures cam.WorldToScreen(1.0, 1.0) == (cam.OffsetX() + cam.Scale(), cam.OffsetY() + cam.Scale())
  {
  }

  /** The world origin lands on the centre of the window. */
  lemma OriginMapsToCentre(cam: Camera)
    ensures cam.WorldToScreen(0.0, 0.0) == (cam.windowWidth as real / 2.0, cam.windowHeight as real / 2.0)
  {
  }

  /** For a window of positive size the mapping is strictly increasing on each axis. */
  lemma {:induction false} WorldToScreenIncreasing(cam: Camera, x1: real, y1: real, x2: real, y2: real)
    requires cam.windowWidth > 0 && cam.windowHeight > 0
    requires x1 < x2 && y1 < y2
    ensures cam.WorldToScreen(x1, y1).0 < cam.WorldToScreen(x2, y2).0
    ensures cam.WorldToScreen(x1, y1).1 < cam.WorldToScreen(x2, y2).1
  {
    var s := cam.Scale();
    assert s > 0.0;
    assert (x2 - x1) * s > 0.0 && (y2 - y1) * s > 0.0;
    assert cam.WorldToScreenSize(x2 + 1.0) - cam.WorldToScreenSize(x1 + 1.0) == (x2 - x1) * s / 2.0;
    assert cam.WorldToScreenSize(y2 + 1.0) - cam.WorldToScreenSize(y1 + 1.0) == (y2 - y1) * s / 2.0;
  }

  /** Every point of the world square lands inside the window. */
  lemma {:induction false} WorldInsideWindow(cam: Camera, x: real, y: real)
    requires -1.0 <= x <= 1.0 && -1.0 <= y <= 1.0
    ensures 0.0 <= cam.WorldToScreen(x, y).0 <= cam.windowWidth as real
    ensures 0.0 <= cam.WorldToScreen(x, y).1 <= cam.windowHeight as real
  {
    SizeWithinScale(cam, x + 1.0);
    SizeWithinScale(cam, y + 1.0);
  }

  /** A world length between 0 and 2 (the world's side) maps to between 0 and the square's side. */
  lemma SizeWithinScale(cam: Camera, t: real)
    requires 0.0 <= t <= 2.0
    ensures 0.0 <= cam.WorldToScreenSize(t) <= cam.Scale()
  {
    var s := cam.Scale();
    assert t * s >= 0.0;
    assert (2.0 - t) * s >= 0.0;
  }

  /** Screen distances are world distances scaled by worldToScreenSize, axis by axis. */
  lemma {:induction false} DifferenceIsScreenSize(cam: Camera, x1: real, y1: real, x2: real, y2: real)
    ensures cam.WorldToScreen(x2, y2).0 - cam.WorldToScreen(x1, y1).0 == cam.WorldToScreenSize(x2 - x1)
    ensures cam.WorldToScreen(x2, y2).1 - cam.WorldToScreen(x1, y1).1 == cam.WorldToScreenSize(y2 - y1)
  {
    var s := cam.Scale();
    assert (x2 + 1.0) * s - (x1 + 1.0) * s == (x2 - x1) * s;
    assert (y2 + 1.0) * s - (y1 + 1.0) * s == (y2 - y1) * s;
  }
}
