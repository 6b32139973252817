/**
 * Integer points and rectangles with the arithmetic of pygame's `Rect`:
 * a rectangle is its top-left corner and its size; the centre is found with
 * integer division; assigning an edge or the centre translates the rectangle
 * without resizing it; `collidepoint` is half-open on both axes.
 */
module Geometry {

  datatype Point = Point(x: int, y: int)

  /** Top-left corner (x, y), width w and height h; sizes are never negative. */
  datatype Rect = Rect(x: int, y: int, w: nat, h: nat) {

    function Left(): int { x }
    function Top(): int { y }
    function Right(): int { x + w }
    function Bottom(): int { y + h }
    function CenterX(): int { x + w / 2 }
    function CenterY(): int { y + h / 2 }
    function Center(): Point { Point(CenterX(), CenterY()) }

    /** `rect.center = p`: the rectangle moves so that its centre is p. */
    function WithCenter(p: Point): (r: Rect)
      ensures r.Center() == p
      ensures r.w == w && r.h == h
    {
      Rect(p.x - w / 2, p.y - h / 2, w, h)
    }

    /** `rect.top = t`: vertical translation only. */
    function WithTop(t: int): (r: Rect)
      ensures r.Top() == t && r.Left() == Left()
      ensures r.w == w && r.h == h
    {
      this.(y := t)
    }

    /** `rect.bottom = b`: vertical translation only. */
    function WithBottom(b: int): (r: Rect)
      ensures r.Bottom() == b && r.Left() == Left()
      ensures r.w == w && r.h == h
    {
      this.(y := b - h)
    }

    /** `rect.left = l`: horizontal translation only. */
    function WithLeft(l: int): (r: Rect)
      ensures r.Left() == l && r.Top() == Top()
      ensures r.w == w && r.h == h
    {
      this.(x := l)
    }

    /** `rect.right = rt`: horizontal translation only. */
    function WithRight(rt: int): (r: Rect)
      ensures r.Right() == rt && r.Top() == Top()
      ensures r.w == w && r.h == h
    {
      this.(x := rt - w)
    }

    /** `rect.collidepoint(p)`: the left and top edges are inside, the right and bottom ones are not. */
    predicate CollidePoint(p: Point)
      ensures CollidePoint(p) ==> w > 0 && h > 0
    {
      Left() <= p.x < Right() && Top() <= p.y < Bottom()
    }
  }

  /** `collidepoint` is half-open: a non-empty rectangle holds its top-left
      corner, and no point on its right or bottom edge line. */
  lemma CollideHalfOpen(r: Rect, p: Point)
    ensures r.w > 0 && r.h > 0 ==> r.CollidePoint(Point(r.Left(), r.Top()))
    ensures !r.CollidePoint(Point(r.Right(), p.y)) && !r.CollidePoint(Point(p.x, r.Bottom()))
  {
  }

  function Min(a: int, b: int): int { if a <= b then a else b }

  function Max(a: int, b: int): int { if a <= b then b else a }

  /** The value v pulled into the closed interval [lo, hi]. */
  function Clamp(v: int, lo: int, hi: int): (r: int)
    requires lo <= hi
    ensures lo <= r <= hi
    ensures lo <= v <= hi ==> r == v
    ensures v < lo ==> r == lo
    ensures hi < v ==> r == hi
  {
    Min(Max(v, lo), hi)
  }
}
