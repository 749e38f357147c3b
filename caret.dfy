/**
 * Where the translation popup appears: the caret position (or the mouse, or
 * the origin) and the placement of the popup above it, kept on screen.
 * Everything the operating system answers is a parameter.
 */
module Caret {
  import opened Wrappers

  /** Rust's `/` on `i32` truncates toward zero; Dafny's `/` is Euclidean. */
  function HalfTowardZero(n: int): (r: int)
    ensures n >= 0 ==> 0 <= r && r + r <= n < r + r + 2
    ensures n < 0 ==> r <= 0 && r + r >= n > r + r - 2
  {
    if n >= 0 then n / 2 else -((-n) / 2)
  }

  function Min(a: int, b: int): int { if a <= b then a else b }
  function Max(a: int, b: int): int { if a >= b then a else b }

  /** A point on the screen, in pixels. */
  datatype Point = Point(x: int, y: int)

  /** The placement before any clamping: centred above the cursor, 10 pixels clear of it. */
  function InitialPlacement(cursor: Point, width: int, height: int): Point {
    Point(cursor.x - HalfTowardZero(width), cursor.y - height - 10)
  }

  /**
   * The popup's top-left corner in closed form: x is pushed right onto the
   * screen and then left so that the popup ends on it; y flips below the
   * cursor (20 pixels down) when the popup would start above the screen, and
   * is then pulled up so that the popup ends on it.
   */
  function PopupPosition(cursor: Point, width: int, height: int, screenWidth: int, screenHeight: int): Point {
    var start := InitialPlacement(cursor, width, height);
    var y := if start.y < 0 then cursor.y + 20 else start.y;
    Point(Min(Max(start.x, 0), screenWidth - width), Min(y, screenHeight - height))
  }

  /** `calculate_popup_position`, with the screen size passed in: four successive clamps. */
  method CalculatePopupPosition(cursorX: int, cursorY: int, popupWidth: int, popupHeight: int,
                                screenWidth: int, screenHeight: int)
    returns (x: int, y: int)
    ensures Point(x, y) == PopupPosition(Point(cursorX, cursorY), popupWidth, popupHeight, screenWidth, screenHeight)
  {
    x := cursorX - HalfTowardZero(popupWidth);
    y := cursorY - popupHeight - 10;
    if x < 0 {
      x := 0;
    }
    if x + popupWidth > screenWidth {
      x := screenWidth - popupWidth;
    }
    if y < 0 {
      y := cursorY + 20;
    }
    if y + popupHeight > screenHeight {
      y := screenHeight - popupHeight;
    }
  }

  /**
   * The popup never runs past the right or bottom edge, and it never starts
   * left of the screen when it fits across it.
   */
  lemma PopupOnScreen(cursor: Point, width: int, height: int, screenWidth: int, screenHeight: int)
    ensures var p := PopupPosition(cursor, width, height, screenWidth, screenHeight);
      && p.x + width <= screenWidth
      && p.y + height <= screenHeight
      && (width <= screenWidth ==> p.x >= 0)
  {
  }

  /** When no clamp fires, the popup sits at its initial placement. */
  lemma PopupUnclamped(cursor: Point, width: int, height: int, screenWidth: int, screenHeight: int)
    requires var s := InitialPlacement(cursor, width, height);
      0 <= s.x && s.x + width <= screenWidth && 0 <= s.y && s.y + height <= screenHeight
    ensures PopupPosition(cursor, width, height, screenWidth, screenHeight) == InitialPlacement(cursor, width, height)
  {
  }

  /**
   * Above the cursor when there is room; otherwise 20 pixels below it unless
   * that would run off the bottom, in which case it rests on the bottom edge.
   */
  lemma PopupVertical(cursor: Point, width: int, height: int, screenWidth: int, screenHeight: int)
    ensures var p := PopupPosition(cursor, width, height, screenWidth, screenHeight);
      var above := cursor.y - height - 10;
      && (above >= 0 && above + height <= screenHeight ==> p.y == above)
      && (above < 0 && cursor.y + 20 + height <= screenHeight ==> p.y == cursor.y + 20)
      && (p.y != above && p.y != cursor.y + 20 ==> p.y == screenHeight - height)
  {
  }

  /** A 380 by 220 popup on a 1920 by 1080 screen. */
  lemma PopupExamples()
    ensures PopupPosition(Point(960, 540), 380, 220, 1920, 1080) == Point(770, 310)
    ensures PopupPosition(Point(960, 5), 380, 220, 1920, 1080).y == 25
    ensures PopupPosition(Point(10, 540), 380, 220, 1920, 1080).x == 0
    ensures PopupPosition(Point(1900, 540), 380, 220, 1920, 1080).x == 1540
  {
  }

  // ---------------------------------------------------------------------
  // Caret position

  /** What `GetGUIThreadInfo` reports about the caret of the foreground thread. */
  datatype GuiThreadInfo = GuiThreadInfo(hasCaretWindow: bool, caretBlinking: bool, caretLeft: int, caretBottom: int)

  /**
   * The operating system's answers on the way to the caret: whether there is
   * a foreground window, its thread id, the thread's GUI information (`None`
   * when the call fails), and the screen origin of the caret window's client
   * area (`None` when `ClientToScreen` fails).
   */
  datatype CaretQuery = CaretQuery(
    hasForegroundWindow: bool,
    threadId: nat,
    guiInfo: Option<GuiThreadInfo>,
    clientOrigin: Option<Point>)

  /** `get_caret_from_gui_thread`: the caret's bottom-left corner in screen coordinates, when there is a caret. */
  function CaretFromGuiThread(q: CaretQuery): (r: Option<Point>)
    ensures r.Some? <==>
      q.hasForegroundWindow && q.threadId != 0 && q.guiInfo.Some? && q.guiInfo.value.hasCaretWindow
      && q.guiInfo.value.caretBlinking && q.clientOrigin.Some?
    ensures r.Some? ==>
      r.value == Point(q.guiInfo.value.caretLeft + q.clientOrigin.value.x,
                       q.guiInfo.value.caretBottom + q.clientOrigin.value.y)
  {
    if !q.hasForegroundWindow then None
    else if q.threadId == 0 then None
    else match q.guiInfo
      case None => None
      case Some(info) =>
        if !info.hasCaretWindow then None
        else if !info.caretBlinking then None
        else match q.clientOrigin
          case None => None
          case Some(origin) => Some(Point(info.caretLeft + origin.x, info.caretBottom + origin.y))
  }

  /** `get_caret_position` on Windows: the caret, else the mouse (`GetCursorPos`), else the origin. */
  function CaretPosition(q: CaretQuery, mouse: Option<Point>): Point {
    match CaretFromGuiThread(q)
    case Some(p) => p
    case None => mouse.GetOr(Point(0, 0))
  }

  /** The caret wins whenever there is one; the mouse only stands in for a missing caret; the origin is the last resort. */
  lemma CaretPositionFallback(q: CaretQuery, mouse: Option<Point>)
    ensures CaretFromGuiThread(q).Some? ==> CaretPosition(q, mouse) == CaretFromGuiThread(q).value
    ensures CaretFromGuiThread(q).None? && mouse.Some? ==> CaretPosition(q, mouse) == mouse.value
    ensures CaretFromGuiThread(q).None? && mouse.None? ==> CaretPosition(q, mouse) == Point(0, 0)
  {
  }

  /** A caret that is not blinking, or has no window, is never used: the mouse decides. */
  lemma HiddenCaretIgnored(q: CaretQuery, mouse: Option<Point>)
    requires q.guiInfo.Some? && (!q.guiInfo.value.hasCaretWindow || !q.guiInfo.value.caretBlinking)
    ensures CaretPosition(q, mouse) == mouse.GetOr(Point(0, 0))
  {
  }
}
