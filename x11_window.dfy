/**
 * The X11 window's damage bookkeeping: rectangle arithmetic on u16
 * coordinates, the queue of exposed rectangles that `expose` coalesces and
 * `paint` drains, and the part of `dispatch_event` that turns X events into
 * window-size changes and mouse events.
 */
module X11Window {
  import opened Wrappers

  type U8 = v: int | 0 <= v < 0x100
  type U16 = v: int | 0 <= v < 0x1_0000
  type I16 = v: int | -0x8000 <= v < 0x8000

  function Min(a: int, b: int): int { if a <= b then a else b }
  function Max(a: int, b: int): int { if a <= b then b else a }

  /** Inclusive at both ends. */
  function ValueInRange(value: U16, min: U16, max: U16): (r: bool)
    ensures r <==> min <= value <= max
  {
    value >= min && value <= max
  }

  datatype Rect = Rect(x: U16, y: U16, width: U16, height: U16) {

    /** Neither `Right()` nor `Bottom()` overflows a u16. */
    predicate Fits()
    {
      x + width < 0x1_0000 && y + height < 0x1_0000
    }

    /** The right edge, a plain u16 addition. */
    function Right(): (r: U16)
      requires x + width < 0x1_0000
      ensures x <= r && r - x == width
    {
      x + width
    }

    /** The bottom edge, a plain u16 addition. */
    function Bottom(): (b: U16)
      requires y + height < 0x1_0000
      ensures y <= b && b - y == height
    {
      y + height
    }

    /** Every point of `inner`, edges included, lies in this rectangle. */
    predicate Encloses(inner: Rect)
    {
      && x <= inner.x && inner.x + inner.width <= x + width
      && y <= inner.y && inner.y + inner.height <= y + height
    }

    /** The smallest rectangle holding both this one and `other`. */
    function EnclosingBoundaryWith(other: Rect): (r: Rect)
      requires Fits() && other.Fits()
      ensures r.Fits()
      ensures r.x == Min(x, other.x) && r.y == Min(y, other.y)
      ensures r.Right() == Max(Right(), other.Right())
      ensures r.Bottom() == Max(Bottom(), other.Bottom())
      ensures r.Encloses(this) && r.Encloses(other)
    {
      var left := Min(x, other.x);
      var right := Max(Right(), other.Right());
      var top := Min(y, other.y);
      var bottom := Max(Bottom(), other.Bottom());
      Rect(left, top, right - left, bottom - top)
    }

    /** The horizontal half of `intersects_with`. */
    predicate XOverlaps(other: Rect)
      requires Fits() && other.Fits()
    {
      ValueInRange(x, other.x, other.Right()) || ValueInRange(other.x, x, Right())
    }

    /** The vertical half of `intersects_with` as written: its second test starts the range at `x`, not `y`. */
    predicate YOverlaps(other: Rect)
      requires Fits() && other.Fits()
    {
      ValueInRange(y, other.y, other.Bottom()) || ValueInRange(other.y, x, Bottom())
    }

    /** The overlap test `expose` uses to decide whether to merge. */
    function IntersectsWith(other: Rect): (b: bool)
      requires Fits() && other.Fits()
      ensures b ==> Max(x, other.x) <= Min(Right(), other.Right())
    {
      XOverlaps(other) && YOverlaps(other)
    }

    /** The overlap test with the vertical half comparing `y` with `y`, as the horizontal half does. */
    function IntersectsWithIntended(other: Rect): (b: bool)
      requires Fits() && other.Fits()
      ensures b <==> (Max(x, other.x) <= Min(Right(), other.Right())
                      && Max(y, other.y) <= Min(Bottom(), other.Bottom()))
    {
      var xOverlaps := ValueInRange(x, other.x, other.Right()) || ValueInRange(other.x, x, Right());
      var yOverlaps := ValueInRange(y, other.y, other.Bottom()) || ValueInRange(other.y, y, Bottom());
      xOverlaps && yOverlaps
    }
  }

  // ---------------------------------------------------------------------
  // Rectangle lemmas
  // ---------------------------------------------------------------------

  lemma EnclosingBoundaryCommutes(a: Rect, b: Rect)
    requires a.Fits() && b.Fits()
    ensures a.EnclosingBoundaryWith(b) == b.EnclosingBoundaryWith(a)
  {
  }

  lemma EnclosingBoundarySelf(r: Rect)
    requires r.Fits()
    ensures r.EnclosingBoundaryWith(r) == r
  {
  }

  /** Any rectangle that holds both inputs holds their enclosing boundary. */
  lemma EnclosingBoundaryIsLeast(a: Rect, b: Rect, c: Rect)
    requires a.Fits() && b.Fits()
    requires c.Encloses(a) && c.Encloses(b)
    ensures c.Encloses(a.EnclosingBoundaryWith(b))
  {
  }

  lemma EnclosesTransitive(a: Rect, b: Rect, c: Rect)
    requires a.Encloses(b) && b.Encloses(c)
    ensures a.Encloses(c)
  {
  }

  lemma IntersectsWithSelf(r: Rect)
    requires r.Fits()
    ensures r.IntersectsWith(r)
  {
  }

  /** Rectangles side by side whose edges touch count as intersecting, both ways round. */
  lemma IntersectsWithTouching(a: Rect, b: Rect)
    requires a.Fits() && b.Fits()
    requires a.Right() == b.x && a.y == b.y
    ensures a.IntersectsWith(b) && b.IntersectsWith(a)
  {
  }

  /** The horizontal test is symmetric and holds exactly when the closed x-ranges meet. */
  lemma XOverlapsIff(a: Rect, b: Rect)
    requires a.Fits() && b.Fits()
    ensures a.XOverlaps(b) <==> Max(a.x, b.x) <= Min(a.Right(), b.Right())
    ensures a.XOverlaps(b) == b.XOverlaps(a)
  {
  }

  /**
   * As written, the test misses an overlap: two rectangles sharing the
   * column 100..110 and the rows 5..10 are reported as disjoint one way
   * round and as intersecting the other way round.
   */
  lemma IntersectsWithMissesOverlap()
    ensures var a, b := Rect(100, 0, 10, 10), Rect(100, 5, 10, 10);
      && a.Encloses(Rect(100, 5, 10, 5)) && b.Encloses(Rect(100, 5, 10, 5))
      && !a.IntersectsWith(b) && b.IntersectsWith(a)
      && a.IntersectsWithIntended(b) && b.IntersectsWithIntended(a)
  {
  }

  /** As written, the test also reports rows 100..110 and rows 5..15 as overlapping. */
  lemma IntersectsWithFalsePositive()
    ensures var a, b := Rect(0, 100, 10, 10), Rect(0, 5, 10, 10);
      && a.Bottom() > 0 && b.Bottom() < a.y
      && a.IntersectsWith(b)
      && !a.IntersectsWithIntended(b)
  {
  }

  lemma IntersectsWithIntendedSymmetric(a: Rect, b: Rect)
    requires a.Fits() && b.Fits()
    ensures a.IntersectsWithIntended(b) == b.IntersectsWithIntended(a)
  {
  }

  // ---------------------------------------------------------------------
  // The expose queue
  // ---------------------------------------------------------------------

  predicate AllFit(queue: seq<Rect>)
  {
    forall i :: 0 <= i < |queue| ==> queue[i].Fits()
  }

  /** Some rectangle of the queue holds `r`: that damage is still scheduled for painting. */
  predicate Covered(queue: seq<Rect>, r: Rect)
  {
    exists i :: 0 <= i < |queue| && queue[i].Encloses(r)
  }

  /** Whether `expose` merges `e` into the back of `queue` rather than appending it. */
  predicate MergesWithBack(queue: seq<Rect>, e: Rect)
    requires AllFit(queue) && e.Fits()
  {
    |queue| > 0 && queue[|queue| - 1].IntersectsWith(e)
  }

  /** The queue after `expose` adds `e`. */
  function Coalesced(queue: seq<Rect>, e: Rect): (q: seq<Rect>)
    requires AllFit(queue) && e.Fits()
    ensures AllFit(q)
    ensures MergesWithBack(queue, e) ==> |q| == |queue| && q[|q| - 1] == queue[|queue| - 1].EnclosingBoundaryWith(e)
    ensures !MergesWithBack(queue, e) ==> |q| == |queue| + 1 && q[|q| - 1] == e
    ensures forall i :: 0 <= i < |q| - 1 ==> q[i] == queue[i]
  {
    if MergesWithBack(queue, e) then
      queue[..|queue| - 1] + [queue[|queue| - 1].EnclosingBoundaryWith(e)]
    else
      queue + [e]
  }

  /** Coalescing never drops damage: what was covered stays covered, and the new rectangle is covered. */
  lemma CoalescedKeepsDamage(queue: seq<Rect>, e: Rect)
    requires AllFit(queue) && e.Fits()
    ensures Covered(Coalesced(queue, e), e)
    ensures forall r :: Covered(queue, r) ==> Covered(Coalesced(queue, e), r)
  {
    var q := Coalesced(queue, e);
    assert q[|q| - 1].Encloses(e);
    forall r | Covered(queue, r) ensures Covered(q, r) {
      var i :| 0 <= i < |queue| && queue[i].Encloses(r);
      if i < |q| - 1 {
        assert q[i].Encloses(r);
      } else {
        EnclosesTransitive(q[|q| - 1], queue[i], r);
      }
    }
  }

  /** A rectangle clipped to the window size, as `paint` does before drawing it. */
  function Clip(r: Rect, width: U16, height: U16): (c: Rect)
    ensures c.x == r.x && c.y == r.y
    ensures c.width <= width && c.width <= r.width && (c.width == width || c.width == r.width)
    ensures c.height <= height && c.height <= r.height && (c.height == height || c.height == r.height)
  {
    Rect(r.x, r.y, Min(r.width, width), Min(r.height, height))
  }

  /** Every rectangle of `queue` clipped, in queue order. */
  function ClipAll(queue: seq<Rect>, width: U16, height: U16): (painted: seq<Rect>)
    ensures |painted| == |queue|
    ensures forall i :: 0 <= i < |queue| ==> painted[i] == Clip(queue[i], width, height)
    decreases |queue|
  {
    if queue == [] then [] else [Clip(queue[0], width, height)] + ClipAll(queue[1..], width, height)
  }

  lemma ClipAllSnoc(queue: seq<Rect>, r: Rect, width: U16, height: U16)
    ensures ClipAll(queue + [r], width, height) == ClipAll(queue, width, height) + [Clip(r, width, height)]
  {
  }

  /** The whole window, which survives clipping unchanged. */
  lemma ClipWindowRect(width: U16, height: U16)
    ensures Clip(Rect(0, 0, width, height), width, height) == Rect(0, 0, width, height)
  {
  }

  /** What `paint` will draw: the whole window when `paint_all` is set, else the queue. */
  function PaintQueue(paintAll: bool, queue: seq<Rect>, width: U16, height: U16): (q: seq<Rect>)
    ensures paintAll ==> q == [Rect(0, 0, width, height)]
    ensures !paintAll ==> q == queue
  {
    if paintAll then [Rect(0, 0, width, height)] else queue
  }

  // ---------------------------------------------------------------------
  // Event classification
  // ---------------------------------------------------------------------

  datatype MousePress = Left | Middle | Right

  datatype MouseEventKind = Move | Press(button: MousePress) | Release(button: MousePress) | VertWheel(delta: int)

  /** A mouse event handed to the window callbacks; modifiers and held buttons are not modelled. */
  datatype MouseEvent = MouseEvent(kind: MouseEventKind, x: U16, y: U16)

  /** The X events the window handles, reduced to the fields the handling reads. */
  datatype Event =
    | ExposeEvent(x: U16, y: U16, width: U16, height: U16)
    | ConfigureNotify(width: U16, height: U16)
    | MotionNotify(eventX: I16, eventY: I16)
    | ButtonEvent(detail: U8, isPress: bool, eventX: I16, eventY: I16)
      /** Key, client-message and destroy-notify events, and unknown event types. */
    | OtherEvent

  /** A call made on the window's `WindowCallbacks`. */
  datatype Callback = Resize(pixelWidth: nat, pixelHeight: nat, dpi: nat) | Mouse(event: MouseEvent)

  /** The X button number of a mouse button. */
  function DetailOf(button: MousePress): (detail: U8)
    ensures 1 <= detail <= 3
  {
    match button
    case Left => 1
    case Middle => 2
    case Right => 3
  }

  /** What a button press or release means, or `None` when the window ignores it. */
  function ButtonKind(detail: U8, isPress: bool): (k: Option<MouseEventKind>)
    ensures k.Some? <==> 1 <= detail <= 3 || (isPress && 4 <= detail <= 5)
    ensures 1 <= detail <= 3 ==> k.value.Press? == isPress && k.value.Release? == !isPress
    ensures isPress && detail == 4 ==> k == Some(VertWheel(1))
    ensures isPress && detail == 5 ==> k == Some(VertWheel(-1))
  {
    if 1 <= detail <= 3 then
      var button := if detail == 1 then Left else if detail == 2 then Middle else Right;
      Some(if isPress then Press(button) else Release(button))
    else if 4 <= detail <= 5 then
      if !isPress then None else Some(VertWheel(if detail == 4 then 1 else -1))
    else
      None
  }

  /** Buttons 1, 2 and 3 are exactly Left, Middle and Right, on press and on release. */
  lemma ButtonKindInverse(detail: U8, isPress: bool, button: MousePress)
    ensures ButtonKind(detail, isPress) == Some(Press(button)) <==> isPress && detail == DetailOf(button)
    ensures ButtonKind(detail, isPress) == Some(Release(button)) <==> !isPress && detail == DetailOf(button)
  {
  }

  /** A pointer coordinate with negatives raised to 0, as `max(0) as u16` does. */
  function ClampCoord(v: I16): (c: U16)
    ensures c < 0x8000
    ensures 0 <= v ==> c == v
    ensures v < 0 ==> c == 0
  {
    if v < 0 then 0 else v
  }

  /** The mouse event a motion or button event produces, or `None` when it is ignored. */
  function MouseEventOf(ev: Event): (m: Option<MouseEvent>)
    requires ev.MotionNotify? || ev.ButtonEvent?
    ensures ev.MotionNotify? ==> m.Some? && m.value.kind == Move
    ensures ev.ButtonEvent? ==> (m.Some? <==> ButtonKind(ev.detail, ev.isPress).Some?)
    ensures ev.ButtonEvent? && m.Some? ==> m.value.kind == ButtonKind(ev.detail, ev.isPress).value
    ensures m.Some? ==> m.value.x == ClampCoord(ev.eventX) && m.value.y == ClampCoord(ev.eventY)
  {
    match ev
    case MotionNotify(ex, ey) => Some(MouseEvent(Move, ClampCoord(ex), ClampCoord(ey)))
    case ButtonEvent(detail, isPress, ex, ey) =>
      match ButtonKind(detail, isPress)
      case Some(kind) => Some(MouseEvent(kind, ClampCoord(ex), ClampCoord(ey)))
      case None => None
  }

  function MouseCallbacks(ev: Event): seq<Callback>
    requires ev.MotionNotify? || ev.ButtonEvent?
  {
    match MouseEventOf(ev)
    case Some(m) => [Mouse(m)]
    case None => []
  }

  // ---------------------------------------------------------------------
  // The window state
  // ---------------------------------------------------------------------

  class WindowInner {
    var width: U16
    var height: U16
    /** Exposed rectangles waiting to be painted, oldest first (a `VecDeque`). */
    var expose: seq<Rect>
    var paintAll: bool
    /** The rectangles handed to the drawing calls so far, in order. */
    ghost var painted: seq<Rect>
    /** The calls made on the window callbacks so far, in order. */
    ghost var callbacks: seq<Callback>

    ghost predicate Valid()
      reads this
    {
      AllFit(expose)
    }

    /** A new window paints everything on its first `paint`. */
    constructor (width: U16, height: U16)
      ensures Valid()
      ensures this.width == width && this.height == height
      ensures expose == [] && paintAll
      ensures painted == [] && callbacks == []
    {
      this.width := width;
      this.height := height;
      expose := [];
      paintAll := true;
      painted := [];
      callbacks := [];
    }

    /** Adds a damaged region, merging it into the last one when the two intersect. */
    method Expose(x: U16, y: U16, width: U16, height: U16)
      requires Valid()
      requires Rect(x, y, width, height).Fits()
      modifies this`expose
      ensures Valid()
      ensures expose == Coalesced(old(expose), Rect(x, y, width, height))
      ensures |old(expose)| > 0 && old(expose)[|old(expose)| - 1].IntersectsWith(Rect(x, y, width, height)) ==>
                |expose| == |old(expose)|
                && expose[..|expose| - 1] == old(expose)[..|old(expose)| - 1]
                && expose[|expose| - 1] == old(expose)[|old(expose)| - 1].EnclosingBoundaryWith(Rect(x, y, width, height))
      ensures !(|old(expose)| > 0 && old(expose)[|old(expose)| - 1].IntersectsWith(Rect(x, y, width, height))) ==>
                expose == old(expose) + [Rect(x, y, width, height)]
    {
      var e := Rect(x, y, width, height);
      if |expose| > 0 {
        var prior := expose[|expose| - 1];
        if prior.IntersectsWith(e) {
          expose := expose[..|expose| - 1] + [prior.EnclosingBoundaryWith(e)];
          return;
        }
      }
      expose := expose + [e];
    }

    /** Paints the pending damage, clipped to the current window size, and empties the queue. */
    method Paint()
      requires Valid()
      modifies this`paintAll, this`expose, this`painted
      ensures Valid()
      ensures !paintAll && expose == []
      ensures painted == old(painted) + ClipAll(PaintQueue(old(paintAll), old(expose), width, height), width, height)
      ensures old(paintAll) ==> painted == old(painted) + [Rect(0, 0, width, height)]
      ensures !old(paintAll) && old(expose) == [] ==> painted == old(painted)
    {
      var windowDimensions := Rect(0, 0, width, height);
      if paintAll {
        paintAll := false;
        expose := [];
        expose := expose + [windowDimensions];
      } else if expose == [] {
        return;
      }
      ghost var queue := expose;
      ghost var before := painted;
      ghost var done := 0;
      while expose != []
        invariant !paintAll
        invariant done + |expose| == |queue|
        invariant expose == queue[done..]
        invariant painted == before + ClipAll(queue[..done], width, height)
        decreases |expose|
      {
        var rect := expose[0];
        expose := expose[1..];
        painted := painted + [Clip(rect, width, height)];
        ClipAllSnoc(queue[..done], rect, width, height);
        assert queue[..done + 1] == queue[..done] + [rect];
        done := done + 1;
      }
      assert queue[..done] == queue;
    }

    /** Handles one X event. */
    method DispatchEvent(ev: Event)
      requires Valid()
      requires ev.ExposeEvent? ==> Rect(ev.x, ev.y, ev.width, ev.height).Fits()
      modifies this`width, this`height, this`expose, this`callbacks
      ensures Valid()
      ensures ev.ExposeEvent? ==>
                && expose == Coalesced(old(expose), Rect(ev.x, ev.y, ev.width, ev.height))
                && width == old(width) && height == old(height) && callbacks == old(callbacks)
      ensures ev.ConfigureNotify? ==>
                && width == ev.width && height == ev.height && expose == old(expose)
                && callbacks == old(callbacks) + [Resize(ev.width, ev.height, 96)]
      ensures (ev.MotionNotify? || ev.ButtonEvent?) ==>
                && width == old(width) && height == old(height) && expose == old(expose)
                && callbacks == old(callbacks) + MouseCallbacks(ev)
      ensures ev.OtherEvent? ==>
                width == old(width) && height == old(height) && expose == old(expose) && callbacks == old(callbacks)
    {
      match ev
      case ExposeEvent(x, y, w, h) =>
        Expose(x, y, w, h);
      case ConfigureNotify(w, h) =>
        width := w;
        height := h;
        callbacks := callbacks + [Resize(width, height, 96)];
      case MotionNotify(ex, ey) =>
        var event := MouseEvent(Move, ClampCoord(ex), ClampCoord(ey));
        callbacks := callbacks + [Mouse(event)];
      case ButtonEvent(detail, isPress, ex, ey) =>
        var kind := ButtonKind(detail, isPress);
        if kind.Some? {
          var event := MouseEvent(kind.value, ClampCoord(ex), ClampCoord(ey));
          callbacks := callbacks + [Mouse(event)];
        }
      case OtherEvent =>
    }
  }
}
