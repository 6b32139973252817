/** The demo sprite that reads a joystick's four flags once per frame and turns
    them into a direction of travel. */
module Consumer {
  import opened Geometry
  import opened Resolver
  import opened Widget

  /** The direction `Square.input` derives from the four flags: `up` wins over
      `down` and `right` wins over `left`. Screen y grows downwards. */
  function Heading(up: bool, down: bool, right: bool, left: bool): (r: (int, int))
    ensures r.1 == -1 <==> up
    ensures r.1 == 1 <==> !up && down
    ensures r.1 == 0 <==> !up && !down
    ensures r.0 == 1 <==> right
    ensures r.0 == -1 <==> !right && left
    ensures r.0 == 0 <==> !right && !left
  {
    var dy := if up then -1 else if down then 1 else 0;
    var dx := if right then 1 else if left then -1 else 0;
    (dx, dy)
  }

  function Indicator(b: bool): (r: int)
    ensures r == 0 || r == 1
    ensures r == 1 <==> b
  {
    if b then 1 else 0
  }

  /** The reading of the flags as a difference of indicators:
      x = right - left, y = down - up. */
  function Difference(up: bool, down: bool, right: bool, left: bool): (r: (int, int))
    ensures -1 <= r.0 <= 1 && -1 <= r.1 <= 1
    ensures r.1 == 0 <==> (up <==> down)
    ensures r.0 == 0 <==> (right <==> left)
  {
    (Indicator(right) - Indicator(left), Indicator(down) - Indicator(up))
  }

  /** The precedence reading and the difference reading agree exactly when no
      opposite pair of flags is raised together. */
  lemma HeadingVersusDifference(up: bool, down: bool, right: bool, left: bool)
    ensures Heading(up, down, right, left) == Difference(up, down, right, left)
      <==> !(up && down) && !(right && left)
  {
    var h := Heading(up, down, right, left);
    var d := Difference(up, down, right, left);
    if up && down {
      assert h.1 == -1 && d.1 == 0;
    } else if right && left {
      assert h.0 == 1 && d.0 == 0;
    } else {
      assert h.1 == d.1;
      assert h.0 == d.0;
    }
  }

  /** With a handle at least about twice the sensitivity in each dimension, the
      direction the sprite takes after a resolved move is the difference reading. */
  lemma HeadingAfterResolve(h: Handle, outer: Rect, sens: int)
    requires 0 <= sens
    requires 2 * sens <= h.rect.h + 1 && 2 * sens <= h.rect.w + 1
    ensures var r := Resolve(h, outer, sens, false, false);
      Heading(r.up, r.down, r.right, r.left) == Difference(r.up, r.down, r.right, r.left)
  {
    var r := Resolve(h, outer, sens, false, false);
    OpposedFlagsExclusive(h, outer, sens);
    HeadingVersusDifference(r.up, r.down, r.right, r.left);
  }

  /** The sprite: only its direction of travel is modelled. */
  class Square {
    var dirX: int
    var dirY: int

    constructor ()
      ensures dirX == 0 && dirY == 0
    {
      dirX := 0;
      dirY := 0;
    }

    /** Reads the joystick's flags into the direction of travel. */
    method Input(j: Joystick)
      modifies this
      ensures (dirX, dirY) == Heading(j.up, j.down, j.right, j.left)
      ensures -1 <= dirX <= 1 && -1 <= dirY <= 1
    {
      if j.up {
        dirY := -1;
      } else if j.down {
        dirY := 1;
      } else {
        dirY := 0;
      }
      if j.right {
        dirX := 1;
      } else if j.left {
        dirX := -1;
      } else {
        dirX := 0;
      }
    }
  }
}
