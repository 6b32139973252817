/**
 * The direction resolver: `Joystick.direction` in both copies of the widget.
 * Four tests run in a fixed order (up, down, right, left). Each test reads the
 * handle's edge as the previous test left it, sets its flag, and may pull that
 * edge back onto the outer ring's centre line. An axis lock replaces both
 * tests of the other axis by a fixed placement of the handle and leaves their
 * flags alone.
 */
module Resolver {
  import opened Geometry

  /** The literal offset that the axis locks use (not the sensitivity). */
  const LockOffset: int := 50

  /** The handle rectangle (`inner_rect`) and the four published flags. */
  datatype Handle = Handle(rect: Rect, up: bool, down: bool, right: bool, left: bool)

  /** The `# up` block: under `h_only` the bottom edge is pinned 50 pixels above
      the ring's bottom and `up` is left alone; otherwise `up` is decided by the
      bottom edge as it stands and the edge is pulled down to the centre line if
      it lies above it. */
  function UpStep(h: Handle, outer: Rect, sens: int, hOnly: bool): (r: Handle)
    ensures r.rect.x == h.rect.x && r.rect.w == h.rect.w && r.rect.h == h.rect.h
    ensures r.down == h.down && r.right == h.right && r.left == h.left
    ensures hOnly ==> r.up == h.up && r.rect.Bottom() == outer.Bottom() - LockOffset
    ensures !hOnly ==> (r.up <==> h.rect.Bottom() - sens < outer.CenterY())
    ensures !hOnly && 0 <= sens ==> r.rect.Bottom() == Max(h.rect.Bottom(), outer.CenterY())
  {
    if hOnly then h.(rect := h.rect.WithBottom(outer.Bottom() - LockOffset))
    else if h.rect.Bottom() - sens < outer.CenterY() then
      h.(up := true,
         rect := if h.rect.Bottom() < outer.CenterY() then h.rect.WithBottom(outer.CenterY()) else h.rect)
    else h.(up := false)
  }

  /** The `# down` block: the mirror of the up block on the top edge, pinned 50
      pixels below the ring's top under `h_only`. */
  function DownStep(h: Handle, outer: Rect, sens: int, hOnly: bool): (r: Handle)
    ensures r.rect.x == h.rect.x && r.rect.w == h.rect.w && r.rect.h == h.rect.h
    ensures r.up == h.up && r.right == h.right && r.left == h.left
    ensures hOnly ==> r.down == h.down && r.rect.Top() == outer.Top() + LockOffset
    ensures !hOnly ==> (r.down <==> h.rect.Top() + sens > outer.CenterY())
    ensures !hOnly && 0 <= sens ==> r.rect.Top() == Min(h.rect.Top(), outer.CenterY())
  {
    if hOnly then h.(rect := h.rect.WithTop(outer.Top() + LockOffset))
    else if h.rect.Top() + sens > outer.CenterY() then
      h.(down := true,
         rect := if h.rect.Top() > outer.CenterY() then h.rect.WithTop(outer.CenterY()) else h.rect)
    else h.(down := false)
  }

  /** The `# right` block: on the left edge, pinned 50 pixels inside the ring's
      left under `v_only`. */
  function RightStep(h: Handle, outer: Rect, sens: int, vOnly: bool): (r: Handle)
    ensures r.rect.y == h.rect.y && r.rect.w == h.rect.w && r.rect.h == h.rect.h
    ensures r.up == h.up && r.down == h.down && r.left == h.left
    ensures vOnly ==> r.right == h.right && r.rect.Left() == outer.Left() + LockOffset
    ensures !vOnly ==> (r.right <==> h.rect.Left() + sens > outer.CenterX())
    ensures !vOnly && 0 <= sens ==> r.rect.Left() == Min(h.rect.Left(), outer.CenterX())
  {
    if vOnly then h.(rect := h.rect.WithLeft(outer.Left() + LockOffset))
    else if h.rect.Left() + sens > outer.CenterX() then
      h.(right := true,
         rect := if h.rect.Left() > outer.CenterX() then h.rect.WithLeft(outer.CenterX()) else h.rect)
    else h.(right := false)
  }

  /** The `# left` block: on the right edge, pinned 50 pixels inside the ring's
      right under `v_only`. */
  function LeftStep(h: Handle, outer: Rect, sens: int, vOnly: bool): (r: Handle)
    ensures r.rect.y == h.rect.y && r.rect.w == h.rect.w && r.rect.h == h.rect.h
    ensures r.up == h.up && r.down == h.down && r.right == h.right
    ensures vOnly ==> r.left == h.left && r.rect.Right() == outer.Right() - LockOffset
    ensures !vOnly ==> (r.left <==> h.rect.Right() - sens < outer.CenterX())
    ensures !vOnly && 0 <= sens ==> r.rect.Right() == Max(h.rect.Right(), outer.CenterX())
  {
    if vOnly then h.(rect := h.rect.WithRight(outer.Right() - LockOffset))
    else if h.rect.Right() - sens < outer.CenterX() then
      h.(left := true,
         rect := if h.rect.Right() < outer.CenterX() then h.rect.WithRight(outer.CenterX()) else h.rect)
    else h.(left := false)
  }

  /** The up and down tests: only the vertical position and the vertical flags change. */
  function Vertical(h: Handle, outer: Rect, sens: int, hOnly: bool): (r: Handle)
    ensures r.rect.x == h.rect.x && r.rect.w == h.rect.w && r.rect.h == h.rect.h
    ensures r.right == h.right && r.left == h.left
    ensures hOnly ==> r.up == h.up && r.down == h.down && r.rect.Top() == outer.Top() + LockOffset
    ensures !hOnly ==> (r.up <==> h.rect.Bottom() - sens < outer.CenterY())
    ensures !hOnly && 0 <= sens ==>
      (r.down <==> Max(h.rect.Top(), outer.CenterY() - h.rect.h) + sens > outer.CenterY())
    ensures !hOnly && 0 <= sens ==>
      r.rect.Top() == Clamp(h.rect.Top(), outer.CenterY() - h.rect.h, outer.CenterY())
  {
    DownStep(UpStep(h, outer, sens, hOnly), outer, sens, hOnly)
  }

  /** The right and left tests: only the horizontal position and the horizontal flags change. */
  function Horizontal(h: Handle, outer: Rect, sens: int, vOnly: bool): (r: Handle)
    ensures r.rect.y == h.rect.y && r.rect.w == h.rect.w && r.rect.h == h.rect.h
    ensures r.up == h.up && r.down == h.down
    ensures vOnly ==> r.right == h.right && r.left == h.left && r.rect.Right() == outer.Right() - LockOffset
    ensures !vOnly ==> (r.right <==> h.rect.Left() + sens > outer.CenterX())
    ensures !vOnly && 0 <= sens ==>
      (r.left <==> Min(h.rect.Left(), outer.CenterX()) + h.rect.w - sens < outer.CenterX())
    ensures !vOnly && 0 <= sens ==>
      r.rect.Left() == Clamp(h.rect.Left(), outer.CenterX() - h.rect.w, outer.CenterX())
  {
    LeftStep(RightStep(h, outer, sens, vOnly), outer, sens, vOnly)
  }

  /**
   * One call of `direction()`. Without a lock on an axis, the first flag of
   * that axis is decided by the raw edge, the second by the edge after the
   * first clamp, and the handle ends clamped into a box around the outer
   * centre: it always straddles the centre line. With a lock, the handle is
   * pinned 50 pixels inside the outer ring and the axis's flags keep their
   * previous values.
   */
  function Resolve(h: Handle, outer: Rect, sens: int, hOnly: bool, vOnly: bool): (r: Handle)
    ensures r.rect.w == h.rect.w && r.rect.h == h.rect.h
    ensures hOnly ==> r.up == h.up && r.down == h.down && r.rect.Top() == outer.Top() + LockOffset
    ensures vOnly ==> r.right == h.right && r.left == h.left && r.rect.Right() == outer.Right() - LockOffset
    ensures !hOnly ==> (r.up <==> h.rect.Bottom() - sens < outer.CenterY())
    ensures !vOnly ==> (r.right <==> h.rect.Left() + sens > outer.CenterX())
    ensures !hOnly && 0 <= sens ==>
      (r.down <==> Max(h.rect.Top(), outer.CenterY() - h.rect.h) + sens > outer.CenterY())
    ensures !vOnly && 0 <= sens ==>
      (r.left <==> Min(h.rect.Left(), outer.CenterX()) + h.rect.w - sens < outer.CenterX())
    ensures !hOnly && 0 <= sens ==>
      r.rect.Top() == Clamp(h.rect.Top(), outer.CenterY() - h.rect.h, outer.CenterY())
    ensures !vOnly && 0 <= sens ==>
      r.rect.Left() == Clamp(h.rect.Left(), outer.CenterX() - h.rect.w, outer.CenterX())
    ensures !hOnly && 0 <= sens ==> r.rect.Top() <= outer.CenterY() <= r.rect.Bottom()
    ensures !vOnly && 0 <= sens ==> r.rect.Left() <= outer.CenterX() <= r.rect.Right()
  {
    var v := Vertical(h, outer, sens, hOnly);
    var r := Horizontal(v, outer, sens, vOnly);
    // the horizontal half leaves the vertical outcome alone, and vice versa
    assert r.rect.y == v.rect.y && r.up == v.up && r.down == v.down;
    assert v.rect.x == h.rect.x && v.right == h.right && v.left == h.left;
    r
  }

  /** A move of the owning contact to p: `inner_rect.center = p`, then `direction()`. */
  function Motion(h: Handle, p: Point, outer: Rect, sens: int, hOnly: bool, vOnly: bool): (r: Handle)
    ensures r.rect.w == h.rect.w && r.rect.h == h.rect.h
  {
    Resolve(h.(rect := h.rect.WithCenter(p)), outer, sens, hOnly, vOnly)
  }

  /** The rectangle that the up and down tests leave, and the flags they set, depend on
      the handle's rectangle alone. */
  lemma VerticalCongruent(h1: Handle, h2: Handle, outer: Rect, sens: int, hOnly: bool)
    requires h1.rect == h2.rect
    ensures var v1, v2 := Vertical(h1, outer, sens, hOnly), Vertical(h2, outer, sens, hOnly);
      v1.rect == v2.rect && (!hOnly ==> v1.up == v2.up && v1.down == v2.down)
  {
    var u1, u2 := UpStep(h1, outer, sens, hOnly), UpStep(h2, outer, sens, hOnly);
    assert u1.rect == u2.rect && (!hOnly ==> u1.up == u2.up);
  }

  /** The same for the right and left tests. */
  lemma HorizontalCongruent(h1: Handle, h2: Handle, outer: Rect, sens: int, vOnly: bool)
    requires h1.rect == h2.rect
    ensures var v1, v2 := Horizontal(h1, outer, sens, vOnly), Horizontal(h2, outer, sens, vOnly);
      v1.rect == v2.rect && (!vOnly ==> v1.right == v2.right && v1.left == v2.left)
  {
    var u1, u2 := RightStep(h1, outer, sens, vOnly), RightStep(h2, outer, sens, vOnly);
    assert u1.rect == u2.rect && (!vOnly ==> u1.right == u2.right);
  }

  /** `direction()` reads the flags of an axis only to keep them under a lock:
      its handle, and every flag of an unlocked axis, depend on the handle's rectangle alone. */
  lemma ResolveCongruent(h1: Handle, h2: Handle, outer: Rect, sens: int, hOnly: bool, vOnly: bool)
    requires h1.rect == h2.rect
    ensures var r1, r2 := Resolve(h1, outer, sens, hOnly, vOnly), Resolve(h2, outer, sens, hOnly, vOnly);
      && r1.rect == r2.rect
      && (!hOnly ==> r1.up == r2.up && r1.down == r2.down)
      && (!vOnly ==> r1.right == r2.right && r1.left == r2.left)
  {
    var v1, v2 := Vertical(h1, outer, sens, hOnly), Vertical(h2, outer, sens, hOnly);
    VerticalCongruent(h1, h2, outer, sens, hOnly);
    HorizontalCongruent(v1, v2, outer, sens, vOnly);
  }

  /** Repeating the same move gives the same handle and flags as making it once. */
  lemma MotionIdempotent(h: Handle, p: Point, outer: Rect, sens: int, hOnly: bool, vOnly: bool)
    ensures Motion(Motion(h, p, outer, sens, hOnly, vOnly), p, outer, sens, hOnly, vOnly)
         == Motion(h, p, outer, sens, hOnly, vOnly)
  {
    var once := Motion(h, p, outer, sens, hOnly, vOnly);
    var start1 := h.(rect := h.rect.WithCenter(p));
    var start2 := once.(rect := once.rect.WithCenter(p));
    assert start2.rect == start1.rect;
    ResolveCongruent(start1, start2, outer, sens, hOnly, vOnly);
  }

  /** Without locks a move forgets everything but the handle's size: the outcome
      depends only on the new position, the outer ring and the sensitivity. */
  lemma MotionForgetsPast(h1: Handle, h2: Handle, p: Point, outer: Rect, sens: int)
    requires h1.rect.w == h2.rect.w && h1.rect.h == h2.rect.h
    ensures Motion(h1, p, outer, sens, false, false) == Motion(h2, p, outer, sens, false, false)
  {
    var start1 := h1.(rect := h1.rect.WithCenter(p));
    var start2 := h2.(rect := h2.rect.WithCenter(p));
    assert start1.rect == start2.rect;
    ResolveCongruent(start1, start2, outer, sens, false, false);
  }

  /** A handle resting on the outer centre stays where it is, and a flag fires at
      rest exactly when the sensitivity exceeds the matching half of the handle. */
  lemma RestingFlags(h: Handle, outer: Rect, sens: int)
    requires h.rect.Center() == outer.Center()
    requires 0 <= sens
    ensures var r := Resolve(h, outer, sens, false, false);
      && r.rect == h.rect
      && (r.up <==> h.rect.h - h.rect.h / 2 < sens)
      && (r.down <==> h.rect.h / 2 < sens)
      && (r.right <==> h.rect.w / 2 < sens)
      && (r.left <==> h.rect.w - h.rect.w / 2 < sens)
  {
  }

  /** Opposite flags exclude each other only when the handle is about twice the
      sensitivity in that dimension; a smaller handle can raise both (see RestingFlags). */
  lemma OpposedFlagsExclusive(h: Handle, outer: Rect, sens: int)
    requires 0 <= sens
    ensures var r := Resolve(h, outer, sens, false, false);
      && (2 * sens <= h.rect.h + 1 ==> !(r.up && r.down))
      && (2 * sens <= h.rect.w + 1 ==> !(r.right && r.left))
  {
  }

  /** A worked example: a 100-pixel handle with sensitivity 50, dragged 60 pixels
      straight up from the ring's centre: only `up` fires and the handle stops with
      its centre 50 pixels above the ring's. */
  lemma DragUpScenario(h: Handle, outer: Rect)
    requires h.rect.w == 100 && h.rect.h == 100
    ensures var r := Motion(h, Point(outer.CenterX(), outer.CenterY() - 60), outer, 50, false, false);
      && r.up && !r.down && !r.right && !r.left
      && r.rect.Center() == Point(outer.CenterX(), outer.CenterY() - 50)
  {
  }

  /** Continuing the example: dragged 60 pixels up and 60 to the right, `up` and
      `right` fire together and the handle stops 50 pixels off centre on both axes. */
  lemma DragDiagonalScenario(h: Handle, outer: Rect)
    requires h.rect.w == 100 && h.rect.h == 100
    ensures var r := Motion(h, Point(outer.CenterX() + 60, outer.CenterY() - 60), outer, 50, false, false);
      && r.up && !r.down && r.right && !r.left
      && r.rect.Center() == Point(outer.CenterX() + 50, outer.CenterY() - 50)
  {
  }
}
