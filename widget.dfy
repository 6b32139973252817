/**
 * The joystick widget as the object both source files define: one class,
 * whose `variant` says which copy's `placement` and `movement` it follows.
 * Every method changes the fields step by step as the source does and is
 * proved to leave exactly the state that the reference functions of module
 * Arbiter describe, so every property proved there holds of the object.
 */
module Widget {
  import opened Geometry
  import opened Contacts
  import opened Resolver
  import opened Arbiter

  class Joystick {
    const variant: Variant
    const stationary: bool
    const sensitivity: int
    /** The eligibility zone (`restriction_rect`). */
    const restriction: Rect
    var hOnly: bool
    var vOnly: bool
    /** `outer_rect`, the ring, and `inner_rect`, the handle. */
    var outer: Rect
    var inner: Rect
    var up: bool
    var down: bool
    var right: bool
    var left: bool
    /** The owner's finger id; 0 also stands for "no owner". */
    var id: int
    /** `fingers`: finger id to last recorded position, in insertion order. */
    var fingers: seq<Finger>
    /** The keys of `placed`, each mapped to True. */
    var placed: seq<int>

    function Cfg(): Config
      reads this
    {
      Config(variant, stationary, sensitivity, restriction, hOnly, vOnly)
    }

    function HandleState(): Handle
      reads this
    {
      Handle(inner, up, down, right, left)
    }

    function State(): Pad
      reads this
    {
      Pad(outer, HandleState(), fingers, placed, id)
    }

    ghost predicate Valid()
      reads this
    {
      Inv(State())
    }

    /** `Joystick.__init__`, given the zone and the two images' sizes. */
    constructor (variant: Variant, stationary: bool, restriction: Rect,
                 outerW: nat, outerH: nat, innerW: nat, innerH: nat)
      ensures Valid()
      ensures this.variant == variant && this.stationary == stationary && this.restriction == restriction
      ensures sensitivity == 50 && !hOnly && !vOnly
      ensures fingers == [] && placed == [] && id == 0
      ensures outer.w == outerW && outer.h == outerH && inner.w == innerW && inner.h == innerH
      ensures stationary ==> outer.Center() == restriction.Center()
      ensures !stationary ==> outer.Left() == 0 && outer.Top() == 0
      ensures inner.Center() == outer.Center()
    {
      this.variant := variant;
      this.stationary := stationary;
      this.restriction := restriction;
      sensitivity := 50;
      var o := Rect(0, 0, outerW, outerH);
      var i := Rect(0, 0, innerW, innerH).WithCenter(o.Center());
      up, down, right, left := false, false, false, false;
      vOnly, hOnly := false, false;
      id := 0;
      fingers, placed := [], [];
      if stationary {
        o := o.WithCenter(restriction.Center());
        i := Rect(0, 0, innerW, innerH).WithCenter(o.Center());
      }
      outer, inner := o, i;
    }

    /** `direction()`: the four tests in order, each on the handle as the previous one left it. */
    method Direction()
      modifies this
      ensures Cfg() == old(Cfg())
      ensures State() == old(State()).(handle := Resolve(old(HandleState()), outer, sensitivity, hOnly, vOnly))
    {
      ghost var h0 := HandleState();
      TestUp();
      TestDown();
      assert HandleState() == Vertical(h0, outer, sensitivity, hOnly);
      ghost var h2 := HandleState();
      TestRight();
      TestLeft();
      assert HandleState() == Horizontal(h2, outer, sensitivity, vOnly);
    }

    /** The `# up` block of `direction()`. */
    method TestUp()
      modifies this`inner, this`up
      ensures HandleState() == UpStep(old(HandleState()), outer, sensitivity, hOnly)
    {
      if hOnly {
        inner := inner.WithBottom(outer.Bottom() - LockOffset);
      } else if inner.Bottom() - sensitivity < outer.CenterY() {
        up := true;
        if inner.Bottom() < outer.CenterY() {
          inner := inner.WithBottom(outer.CenterY());
        }
      } else {
        up := false;
      }
    }

    /** The `# down` block of `direction()`. */
    method TestDown()
      modifies this`inner, this`down
      ensures HandleState() == DownStep(old(HandleState()), outer, sensitivity, hOnly)
    {
      if hOnly {
        inner := inner.WithTop(outer.Top() + LockOffset);
      } else if inner.Top() + sensitivity > outer.CenterY() {
        down := true;
        if inner.Top() > outer.CenterY() {
          inner := inner.WithTop(outer.CenterY());
        }
      } else {
        down := false;
      }
    }

    /** The `# right` block of `direction()`. */
    method TestRight()
      modifies this`inner, this`right
      ensures HandleState() == RightStep(old(HandleState()), outer, sensitivity, vOnly)
    {
      if vOnly {
        inner := inner.WithLeft(outer.Left() + LockOffset);
      } else if inner.Left() + sensitivity > outer.CenterX() {
        right := true;
        if inner.Left() > outer.CenterX() {
          inner := inner.WithLeft(outer.CenterX());
        }
      } else {
        right := false;
      }
    }

    /** The `# left` block of `direction()`. */
    method TestLeft()
      modifies this`inner, this`left
      ensures HandleState() == LeftStep(old(HandleState()), outer, sensitivity, vOnly)
    {
      if vOnly {
        inner := inner.WithRight(outer.Right() - LockOffset);
      } else if inner.Right() - sensitivity < outer.CenterX() {
        left := true;
        if inner.Right() < outer.CenterX() {
          inner := inner.WithRight(outer.CenterX());
        }
      } else {
        left := false;
      }
    }

    /** `inner_rect.center = p` followed by `direction()`: the move both branches
        of `movement` make. */
    method Follow(p: Point)
      modifies this
      ensures Cfg() == old(Cfg())
      ensures State() == old(State()).(handle := Motion(old(HandleState()), p, outer, sensitivity, hOnly, vOnly))
    {
      inner := inner.WithCenter(p);
      Direction();
    }

    /** `movement(ev)` for a touch event: one test per pair of
        `zip(fingers.items(), placed.items())`. */
    method Movement(ev: Event)
      modifies this
      ensures Cfg() == old(Cfg())
      ensures State() == Arbiter.Movement(old(Cfg()), old(State()), ev)
    {
      ghost var s0 := State();
      ghost var fired := false;
      var n := Min(|fingers|, |placed|);
      var i := 0;
      while i < n
        invariant 0 <= i <= n == Pairs(s0)
        invariant Cfg() == old(Cfg())
        invariant outer == s0.outer && fingers == s0.fingers && placed == s0.placed && id == s0.id
        invariant fired ==> ev.FingerMotion?
        invariant ev.FingerMotion? ==>
          (fired <==> exists j :: 0 <= j < i && TouchFires(Cfg(), s0, placed[j], ev.finger))
        invariant HandleState() ==
          if fired && ev.FingerMotion? then Motion(s0.handle, ev.pos, outer, sensitivity, hOnly, vOnly)
          else s0.handle
      {
        var placedFinger := placed[i];
        var fires := ev.FingerMotion? && match variant
          case MainScript =>
            id > 0 && ev.finger in placed && ev.finger == placedFinger && placedFinger == id && |placed| == 1
          case JoystickModule => ev.finger in placed;
        assert fires <==> ev.FingerMotion? && TouchFires(Cfg(), s0, placed[i], ev.finger);
        if fires {
          Follow(ev.pos);
          MotionIdempotent(s0.handle, ev.pos, outer, sensitivity, hOnly, vOnly);
          fired := true;
        }
        i := i + 1;
      }
      if ev.FingerMotion? {
        TouchDrivesIffSomePairFires(Cfg(), s0, ev.finger);
        assert fired <==> TouchDrives(Cfg(), s0, ev.finger);
      }
    }

    /** `movement()` with no event: the mouse stands in for a finger. */
    method PointerMovement(mouse: Point, buttons: Buttons)
      modifies this
      ensures Cfg() == old(Cfg())
      ensures State() == OnPointer(old(Cfg()), old(State()), mouse, buttons)
    {
      ghost var s0 := State();
      ghost var fired := false;
      var n := Min(|fingers|, |placed|);
      var i := 0;
      while i < n
        invariant 0 <= i <= n == Pairs(s0)
        invariant Cfg() == old(Cfg())
        invariant outer == s0.outer && fingers == s0.fingers && placed == s0.placed && id == s0.id
        invariant fired <==> exists j :: 0 <= j < i && PointerFires(Cfg(), s0, placed[j], buttons)
        invariant HandleState() ==
          if fired then Motion(s0.handle, mouse, outer, sensitivity, hOnly, vOnly) else s0.handle
      {
        var placedFinger := placed[i];
        if match variant
            case MainScript =>
              buttons == Buttons(true, false, false) && id == 0 && id == placedFinger && |placed| == 1
            case JoystickModule => buttons.left && id == placedFinger
        {
          Follow(mouse);
          MotionIdempotent(s0.handle, mouse, outer, sensitivity, hOnly, vOnly);
          fired := true;
        }
        i := i + 1;
      }
      PointerDrivesIffSomePairFires(Cfg(), s0, buttons);
    }

    /** `placement(ev)`: the event loop's entry point for every event. */
    method Placement(ev: Event)
      requires Valid()
      modifies this
      ensures Valid()
      ensures Cfg() == old(Cfg())
      ensures State() == OnEvent(old(Cfg()), old(State()), ev)
    {
      ghost var s0 := State();
      match ev {
        case FingerDown(fid, p) => FingerDownBlock(fid, p);
        case FingerUp(fid) => FingerUpBlock(fid);
        case FingerMotion(_, _) =>
        case OtherEvent =>
      }
      if id != 0 {
        Movement(ev);
      }
      ApplyKeepsInv(Cfg(), s0, Touch(ev));
    }

    /** The FINGERDOWN block of `placement`: record the finger, then scan every
        recorded finger for the first one that may take the widget. */
    method FingerDownBlock(fid: int, p: Point)
      modifies this
      ensures Cfg() == old(Cfg())
      ensures State() == OnFingerDown(old(Cfg()), old(State()), fid, p)
    {
      ghost var c := Cfg();
      ghost var s0 := State();
      fingers := Put(fingers, fid, p);
      ghost var s1 := State();
      assert s1 == s0.(fingers := Put(s0.fingers, fid, p));
      var i := 0;
      while i < |fingers|
        invariant 0 <= i <= |fingers|
        invariant Cfg() == c && fingers == s1.fingers
        invariant State() == Scan(c, s1, fid, fingers[..i])
      {
        ScanFinger(fid, fingers[i]);
        ScanExtend(c, s1, fid, fingers, i);
        i := i + 1;
      }
      assert fingers[..|fingers|] == fingers;
      FingerDownIsScan(c, s0, fid, p, s1);
    }

    /** One pass of the FINGERDOWN block's loop, for the recorded finger f:
        f takes the widget if nobody owns it and f is eligible. */
    method ScanFinger(fid: int, f: Finger)
      modifies this
      ensures Cfg() == old(Cfg())
      ensures State() == ScanStep(old(Cfg()), old(State()), fid, f)
    {
      if variant == MainScript {
        if restriction.CollidePoint(f.pos) && !stationary && |placed| == 0 {
          placed := placed + [f.id];
          id := f.id;
          if fid in placed && fid == id && |placed| == 1 {
            outer := outer.WithCenter(f.pos);
            inner := inner.WithCenter(outer.Center());
          }
        } else if restriction.CollidePoint(f.pos) && inner.CollidePoint(f.pos) && stationary && |placed| == 0 {
          placed := placed + [f.id];
          id := f.id;
          if fid in placed && fid == id && |placed| == 0 {
            // The source recentres the handle here, but `placed` has just
            // received a key, so this branch never runs.
            assert false;
          }
        }
      } else {
        if restriction.CollidePoint(f.pos) && !stationary && |placed| == 0 {
          placed := placed + [f.id];
          id := f.id;
          outer := outer.WithCenter(f.pos);
          inner := inner.WithCenter(outer.Center());
        } else if inner.CollidePoint(f.pos) && stationary && |placed| == 0 {
          placed := placed + [f.id];
          id := f.id;
        }
      }
    }

    /** The FINGERUP block of `placement`: only the lift of the finger equal to `id` acts. */
    method FingerUpBlock(fid: int)
      modifies this
      ensures Cfg() == old(Cfg())
      ensures State() == OnFingerUp(old(Cfg()), old(State()), fid)
    {
      if fid == id {
        ghost var s0 := State();
        ghost var released := Handle(inner.WithCenter(outer.Center()), false, false, false, false);
        assert OnFingerUp(Cfg(), s0, fid) ==
          if variant == MainScript
          then s0.(handle := released, fingers := Remove(fingers, fid), placed := Without(placed, fid), id := 0)
          else s0.(handle := released, fingers := [], placed := [], id := 0);
        up, down, right, left := false, false, false, false;
        if variant == MainScript {
          fingers := Remove(fingers, fid);
          placed := Without(placed, fid);
          inner := inner.WithCenter(outer.Center());
          id := 0;
        } else {
          fingers := [];
          placed := [];
          id := 0;
          inner := inner.WithCenter(outer.Center());
        }
        assert HandleState() == released;
      }
    }

    /** `run()`, without the drawing: poll the mouse while `id` is 0. */
    method Run(mouse: Point, buttons: Buttons)
      requires Valid()
      modifies this
      ensures Valid()
      ensures Cfg() == old(Cfg())
      ensures State() == OnFrame(old(Cfg()), old(State()), mouse, buttons)
    {
      ghost var s0 := State();
      if id == 0 {
        PointerMovement(mouse, buttons);
      }
      ApplyKeepsInv(Cfg(), s0, Frame(mouse, buttons));
    }
  }
}
