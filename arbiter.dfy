/**
 * The contact arbiter as a value-level state machine: which finger owns the
 * joystick, how a finger acquires it and loses it, and which events move the
 * handle. Both copies of the widget are covered; `Variant` says which one.
 * This is the reference the imperative class in module Widget is proved
 * against, and the properties of the widget are proved here, over all inputs.
 */
module Arbiter {
  import opened Wrappers
  import opened Geometry
  import opened Contacts
  import opened Resolver

  /** The copy of the widget: the demo script `main.py` or the module `joystick.py`. */
  datatype Variant = MainScript | JoystickModule

  /** What the widget fixes at construction (the axis locks are public
      attributes, but no event changes them). */
  datatype Config = Config(
    variant: Variant,
    stationary: bool,
    sensitivity: int,
    restriction: Rect,
    hOnly: bool,
    vOnly: bool)

  /**
   * The widget's mutable state: the outer ring, the handle with its four
   * flags, the recorded fingers, the keys of `placed`, and `id`, where 0
   * also means "no owner".
   */
  datatype Pad = Pad(outer: Rect, handle: Handle, fingers: seq<Finger>, placed: seq<int>, id: int)

  /** `pygame.mouse.get_pressed()`: the three button states. */
  datatype Buttons = Buttons(left: bool, middle: bool, right: bool)

  /** Touch events, positions already converted to pixels. */
  datatype Event =
    | FingerDown(finger: int, pos: Point)
    | FingerUp(finger: int)
    | FingerMotion(finger: int, pos: Point)
    | OtherEvent

  /** One thing the application feeds the widget: an event, or a frame's `run()`
      with the mouse position and buttons polled for that frame. */
  datatype Input = Touch(ev: Event) | Frame(mouse: Point, buttons: Buttons)

  /** Released: all four flags off and the handle centred on the ring. */
  predicate Idle(s: Pad) {
    && !s.handle.up && !s.handle.down && !s.handle.right && !s.handle.left
    && s.handle.rect.Center() == s.outer.Center()
  }

  /** The state every event keeps: a dictionary's distinct keys, at most one
      owner, `id` naming the owner (0 when there is none), the owner among
      the recorded fingers, and a released widget whenever nobody owns it. */
  predicate Inv(s: Pad) {
    && DistinctIds(s.fingers)
    && |s.placed| <= 1
    && (s.placed == [] ==> s.id == 0 && Idle(s))
    && (s.placed != [] ==> s.id == s.placed[0] && s.id in Ids(s.fingers))
  }

  // ---------------------------------------------------------------- FINGERDOWN

  /** May a finger recorded at p take the widget? Floating: inside the
      restriction zone. Stationary: on the handle, and in the script's copy
      also inside the zone. */
  predicate Eligible(c: Config, handle: Rect, p: Point)
    ensures Eligible(c, handle, p) && (!c.stationary || c.variant == MainScript) ==> c.restriction.CollidePoint(p)
    ensures Eligible(c, handle, p) && c.stationary ==> handle.CollidePoint(p)
    ensures !c.stationary && c.restriction.CollidePoint(p) ==> Eligible(c, handle, p)
    ensures c.stationary && handle.CollidePoint(p) && (c.variant == JoystickModule || c.restriction.CollidePoint(p))
      ==> Eligible(c, handle, p)
  {
    if !c.stationary then c.restriction.CollidePoint(p)
    else if c.variant == MainScript then c.restriction.CollidePoint(p) && handle.CollidePoint(p)
    else handle.CollidePoint(p)
  }

  /** The first recorded finger, in insertion order, that is eligible. */
  function FirstEligible(c: Config, handle: Rect, fs: seq<Finger>): (r: Option<nat>)
    ensures r.Some? ==> r.value < |fs| && Eligible(c, handle, fs[r.value].pos)
    ensures r.Some? ==> forall j :: 0 <= j < r.value ==> !Eligible(c, handle, fs[j].pos)
    ensures r.None? ==> forall j :: 0 <= j < |fs| ==> !Eligible(c, handle, fs[j].pos)
  {
    if fs == [] then None
    else if Eligible(c, handle, fs[0].pos) then Some(0)
    else match FirstEligible(c, handle, fs[1..])
      case None => None
      case Some(k) => Some(k + 1)
  }

  /** Scanning one more finger: the first eligible finger of a longer prefix is
      the one already found, else the new finger if it is eligible. */
  lemma FirstEligibleExtend(c: Config, handle: Rect, fs: seq<Finger>, i: nat)
    requires i < |fs|
    ensures FirstEligible(c, handle, fs[..i + 1])
         == match FirstEligible(c, handle, fs[..i])
            case Some(k) => Some(k)
            case None => if Eligible(c, handle, fs[i].pos) then Some(i) else None
  {
    var a, b := FirstEligible(c, handle, fs[..i]), FirstEligible(c, handle, fs[..i + 1]);
    assert forall j :: 0 <= j < i ==> fs[..i][j] == fs[j] == fs[..i + 1][j];
    assert fs[..i + 1][i] == fs[i];
    if a.Some? {
      if b.None? || b.value < a.value {
        assert false;
      }
    } else if b.Some? && b.value < i {
      assert false;
    }
  }

  /** The finger `owner` takes the widget during the FINGERDOWN of `fid`. The
      ring jumps to the owner only when floating, and in the script's copy only
      when the owner is the finger that just went down. */
  function Acquire(c: Config, s: Pad, fid: int, owner: Finger): (r: Pad)
    ensures r.placed == s.placed + [owner.id] && r.id == owner.id && r.fingers == s.fingers
    ensures r.handle.up == s.handle.up && r.handle.down == s.handle.down
    ensures r.handle.right == s.handle.right && r.handle.left == s.handle.left
    ensures r.outer.w == s.outer.w && r.outer.h == s.outer.h
    ensures r.handle.rect.w == s.handle.rect.w && r.handle.rect.h == s.handle.rect.h
    ensures c.stationary || (c.variant == MainScript && owner.id != fid) ==>
      r.outer == s.outer && r.handle.rect == s.handle.rect
    ensures !c.stationary && (c.variant == JoystickModule || owner.id == fid) ==>
      r.outer.Center() == owner.pos && r.handle.rect.Center() == r.outer.Center()
  {
    var recentre := !c.stationary && (c.variant == JoystickModule || owner.id == fid);
    var outer := if recentre then s.outer.WithCenter(owner.pos) else s.outer;
    var rect := if recentre then s.handle.rect.WithCenter(outer.Center()) else s.handle.rect;
    s.(outer := outer, handle := s.handle.(rect := rect), placed := s.placed + [owner.id], id := owner.id)
  }

  /** One pass of the FINGERDOWN scan for the recorded finger f: f takes the
      widget when nobody owns it yet and f is eligible. */
  function ScanStep(c: Config, s: Pad, fid: int, f: Finger): (r: Pad)
    ensures s.placed != [] ==> r == s
    ensures s.placed == [] && !Eligible(c, s.handle.rect, f.pos) ==> r == s
    ensures s.placed == [] && Eligible(c, s.handle.rect, f.pos) ==>
      && r.placed == [f.id] && r.id == f.id && r.fingers == s.fingers
      && r.handle.up == s.handle.up && r.handle.down == s.handle.down
      && r.handle.right == s.handle.right && r.handle.left == s.handle.left
      && r.handle.rect.w == s.handle.rect.w && r.handle.rect.h == s.handle.rect.h
      && (c.stationary || (c.variant == MainScript && f.id != fid) ==>
            r.outer == s.outer && r.handle.rect == s.handle.rect)
      && (!c.stationary && (c.variant == JoystickModule || f.id == fid) ==>
            r.outer.Center() == f.pos && r.handle.rect.Center() == r.outer.Center())
  {
    if s.placed == [] && Eligible(c, s.handle.rect, f.pos) then Acquire(c, s, fid, f) else s
  }

  /** The scan over `fingers.items()`, one finger after another in insertion order. */
  function Scan(c: Config, s: Pad, fid: int, fs: seq<Finger>): (r: Pad)
    ensures s.placed != [] ==> r == s
    ensures r.fingers == s.fingers
    ensures r.handle.up == s.handle.up && r.handle.down == s.handle.down
    ensures r.handle.right == s.handle.right && r.handle.left == s.handle.left
    ensures r.placed == s.placed || (s.placed == [] && r.placed == [r.id] && r.id in Ids(fs))
    decreases |fs|
  {
    if fs == [] then s else ScanStep(c, Scan(c, s, fid, fs[..|fs| - 1]), fid, fs[|fs| - 1])
  }

  /** Scanning one more recorded finger is one more step of the scan. */
  lemma ScanExtend(c: Config, s: Pad, fid: int, fs: seq<Finger>, i: nat)
    requires i < |fs|
    ensures Scan(c, s, fid, fs[..i + 1]) == ScanStep(c, Scan(c, s, fid, fs[..i]), fid, fs[i])
  {
    assert fs[..i + 1][..i] == fs[..i];
  }

  /** The scan hands the widget to the first eligible finger, if nobody owned it. */
  lemma {:induction false} ScanTakesFirstEligible(c: Config, s: Pad, fid: int, fs: seq<Finger>)
    ensures Scan(c, s, fid, fs) ==
      if s.placed != [] then s
      else match FirstEligible(c, s.handle.rect, fs)
        case None => s
        case Some(k) => Acquire(c, s, fid, fs[k])
    decreases |fs|
  {
    if fs != [] {
      var n := |fs| - 1;
      var pre := fs[..n];
      ScanTakesFirstEligible(c, s, fid, pre);
      FirstEligibleExtend(c, s.handle.rect, fs, n);
      assert fs[..n + 1] == fs;
      if s.placed == [] {
        match FirstEligible(c, s.handle.rect, pre)
        case None =>
        case Some(k) =>
          assert pre[k] == fs[k];
      }
    }
  }

  /** FINGERDOWN of `fid` at p. */
  function OnFingerDown(c: Config, s: Pad, fid: int, p: Point): (r: Pad)
    ensures r.fingers == Put(s.fingers, fid, p)
    ensures Lookup(r.fingers, fid) == Some(p)
    ensures r.handle.up == s.handle.up && r.handle.down == s.handle.down
    ensures r.handle.right == s.handle.right && r.handle.left == s.handle.left
    ensures s.placed != [] ==> r == s.(fingers := r.fingers)
    ensures s.placed == [] ==>
      match FirstEligible(c, s.handle.rect, r.fingers)
      case None => r == s.(fingers := r.fingers)
      case Some(k) =>
        && r.placed == [r.fingers[k].id] && r.id == r.fingers[k].id
        && (c.stationary ==> r.outer == s.outer && r.handle == s.handle)
        && (!c.stationary && (c.variant == JoystickModule || r.fingers[k].id == fid) ==>
              r.outer.Center() == r.fingers[k].pos && r.handle.rect.Center() == r.outer.Center())
        && (c.variant == MainScript && r.fingers[k].id != fid ==>
              r.outer == s.outer && r.handle == s.handle)
    ensures r.outer.w == s.outer.w && r.outer.h == s.outer.h
    ensures r.handle.rect.w == s.handle.rect.w && r.handle.rect.h == s.handle.rect.h
  {
    var fs := Put(s.fingers, fid, p);
    var s1 := s.(fingers := fs);
    if s.placed != [] then s1
    else match FirstEligible(c, s.handle.rect, fs)
      case None => s1
      case Some(k) => Acquire(c, s1, fid, fs[k])
  }

  /** The FINGERDOWN block is a scan over every recorded finger, the new one included. */
  lemma FingerDownIsScan(c: Config, s: Pad, fid: int, p: Point, recorded: Pad)
    requires recorded == s.(fingers := Put(s.fingers, fid, p))
    ensures OnFingerDown(c, s, fid, p) == Scan(c, recorded, fid, recorded.fingers)
  {
    ScanTakesFirstEligible(c, recorded, fid, recorded.fingers);
  }

  // ------------------------------------------------------------------ FINGERUP

  /** FINGERUP of `fid`: only the owner's lift (or finger 0's while nobody owns
      the widget, since `id` is then 0) does anything. */
  function OnFingerUp(c: Config, s: Pad, fid: int): (r: Pad)
    ensures fid != s.id ==> r == s
    ensures fid == s.id ==> Idle(r) && r.id == 0 && r.outer == s.outer
    ensures fid == s.id && c.variant == MainScript ==>
      r.fingers == Remove(s.fingers, fid) && r.placed == Without(s.placed, fid)
    ensures fid == s.id && c.variant == JoystickModule ==> r.fingers == [] && r.placed == []
    ensures r.handle.rect.w == s.handle.rect.w && r.handle.rect.h == s.handle.rect.h
  {
    if fid != s.id then s
    else
      var released := Handle(s.handle.rect.WithCenter(s.outer.Center()), false, false, false, false);
      match c.variant
      case MainScript =>
        s.(handle := released, fingers := Remove(s.fingers, fid), placed := Without(s.placed, fid), id := 0)
      case JoystickModule =>
        s.(handle := released, fingers := [], placed := [], id := 0)
  }

  // ---------------------------------------------------------------- movement()

  /** How many pairs `zip(fingers.items(), placed.items())` yields. */
  function Pairs(s: Pad): nat {
    Min(|s.fingers|, |s.placed|)
  }

  /** The test made for one zip pair (placed key q) on a FINGERMOTION of `fid`. */
  predicate TouchFires(c: Config, s: Pad, q: int, fid: int) {
    match c.variant
    case MainScript => s.id > 0 && fid in s.placed && fid == q && q == s.id && |s.placed| == 1
    case JoystickModule => fid in s.placed
  }

  /** The test made for one zip pair (placed key q) when `run()` polls the mouse. */
  predicate PointerFires(c: Config, s: Pad, q: int, buttons: Buttons) {
    match c.variant
    case MainScript => buttons == Buttons(true, false, false) && s.id == 0 && s.id == q && |s.placed| == 1
    case JoystickModule => buttons.left && s.id == q
  }

  /** When a FINGERMOTION of `fid` moves the handle, said without the loop. */
  predicate TouchDrives(c: Config, s: Pad, fid: int) {
    match c.variant
    case MainScript => s.id > 0 && s.placed == [s.id] && fid == s.id && s.fingers != []
    case JoystickModule => fid in s.placed && s.fingers != []
  }

  /** When the polled mouse moves the handle, said without the loop. */
  predicate PointerDrives(c: Config, s: Pad, buttons: Buttons) {
    match c.variant
    case MainScript => buttons == Buttons(true, false, false) && s.id == 0 && s.placed == [0] && s.fingers != []
    case JoystickModule => buttons.left && s.id in s.placed[..Pairs(s)]
  }

  /** The loop's condition holds for some zip pair exactly when TouchDrives says so. */
  lemma TouchDrivesIffSomePairFires(c: Config, s: Pad, fid: int)
    ensures TouchDrives(c, s, fid) <==> exists j :: 0 <= j < Pairs(s) && TouchFires(c, s, s.placed[j], fid)
  {
    if TouchDrives(c, s, fid) {
      assert TouchFires(c, s, s.placed[0], fid);
    }
  }

  /** The loop's condition holds for some zip pair exactly when PointerDrives says so. */
  lemma PointerDrivesIffSomePairFires(c: Config, s: Pad, buttons: Buttons)
    ensures PointerDrives(c, s, buttons) <==> exists j :: 0 <= j < Pairs(s) && PointerFires(c, s, s.placed[j], buttons)
  {
    if PointerDrives(c, s, buttons) {
      if c.variant == MainScript {
        assert PointerFires(c, s, s.placed[0], buttons);
      } else {
        var j :| 0 <= j < Pairs(s) && s.placed[..Pairs(s)][j] == s.id;
        assert PointerFires(c, s, s.placed[j], buttons);
      }
    }
    if exists j :: 0 <= j < Pairs(s) && PointerFires(c, s, s.placed[j], buttons) {
      var j :| 0 <= j < Pairs(s) && PointerFires(c, s, s.placed[j], buttons);
      assert s.placed[..Pairs(s)][j] == s.placed[j];
    }
  }

  /** `movement(ev)` for a FINGERMOTION: the handle follows the finger when it
      drives; the motion itself is never recorded in `fingers`. */
  function OnTouchMotion(c: Config, s: Pad, fid: int, p: Point): (r: Pad)
    ensures r.outer == s.outer && r.fingers == s.fingers && r.placed == s.placed && r.id == s.id
    ensures !TouchDrives(c, s, fid) ==> r == s
    ensures TouchDrives(c, s, fid) ==> fid in s.placed && s.fingers != []
  {
    if TouchDrives(c, s, fid) then s.(handle := Motion(s.handle, p, s.outer, c.sensitivity, c.hOnly, c.vOnly))
    else s
  }

  /** `movement()` without an event: the polled mouse drives the handle. */
  function OnPointer(c: Config, s: Pad, mouse: Point, buttons: Buttons): (r: Pad)
    ensures r.outer == s.outer && r.fingers == s.fingers && r.placed == s.placed && r.id == s.id
    ensures PointerDrives(c, s, buttons) ==> s.id in s.placed
    ensures !PointerDrives(c, s, buttons) ==> r == s
  {
    if PointerDrives(c, s, buttons) then s.(handle := Motion(s.handle, mouse, s.outer, c.sensitivity, c.hOnly, c.vOnly))
    else s
  }

  /** `movement(ev)`: only a FINGERMOTION can do anything. */
  function Movement(c: Config, s: Pad, ev: Event): Pad {
    match ev
    case FingerMotion(fid, p) => OnTouchMotion(c, s, fid, p)
    case _ => s
  }

  // ------------------------------------------------------- placement() and run()

  /** `placement(ev)`: the event's own handling, then `movement(ev)` while `id != 0`. */
  function OnEvent(c: Config, s: Pad, ev: Event): (r: Pad)
    ensures ev.FingerUp? && ev.finger != s.id ==> r == s
    ensures ev.OtherEvent? ==> r == s
    ensures ev.FingerMotion? && (s.id == 0 || !TouchDrives(c, s, ev.finger)) ==> r == s
  {
    var s1 := match ev
      case FingerDown(fid, p) => OnFingerDown(c, s, fid, p)
      case FingerUp(fid) => OnFingerUp(c, s, fid)
      case _ => s;
    if s1.id != 0 then Movement(c, s1, ev) else s1
  }

  /** `run()`: the mouse is polled only while `id` is 0. */
  function OnFrame(c: Config, s: Pad, mouse: Point, buttons: Buttons): (r: Pad)
    ensures s.id != 0 ==> r == s
  {
    if s.id == 0 then OnPointer(c, s, mouse, buttons) else s
  }

  function Apply(c: Config, s: Pad, input: Input): Pad {
    match input
    case Touch(ev) => OnEvent(c, s, ev)
    case Frame(mouse, buttons) => OnFrame(c, s, mouse, buttons)
  }

  /** The state after a whole session of inputs, in arrival order. */
  function Replay(c: Config, s: Pad, inputs: seq<Input>): Pad
    decreases |inputs|
  {
    if inputs == [] then s else Replay(c, Apply(c, s, inputs[0]), inputs[1..])
  }

  // ------------------------------------------------------------------ properties

  /** A FINGERDOWN keeps the invariant: the new key cannot clash, and a new
      owner is one of the recorded fingers. */
  lemma FingerDownKeepsInv(c: Config, s: Pad, fid: int, p: Point)
    requires Inv(s)
    ensures Inv(OnFingerDown(c, s, fid, p))
  {
    var r := OnFingerDown(c, s, fid, p);
    if s.placed == [] {
      match FirstEligible(c, s.handle.rect, r.fingers)
      case None =>
      case Some(k) =>
        assert r.fingers[k].id in Ids(r.fingers);
    } else {
      assert Lookup(r.fingers, s.id) == Lookup(s.fingers, s.id) || s.id == fid;
    }
  }

  /** A FINGERUP keeps the invariant: the owner's lift empties `placed` and
      releases the widget, any other lift leaves the owner recorded. */
  lemma FingerUpKeepsInv(c: Config, s: Pad, fid: int)
    requires Inv(s)
    ensures Inv(OnFingerUp(c, s, fid))
  {
    if fid == s.id && c.variant == MainScript {
      assert s.placed == [] || s.placed == [fid];
    }
  }

  /** Every event and every frame keeps the invariant: at most one owner, `id`
      names it, and nobody owning the widget means it is released. */
  lemma ApplyKeepsInv(c: Config, s: Pad, input: Input)
    requires Inv(s)
    ensures Inv(Apply(c, s, input))
  {
    match input
    case Touch(FingerDown(fid, p)) => FingerDownKeepsInv(c, s, fid, p);
    case Touch(FingerUp(fid)) => FingerUpKeepsInv(c, s, fid);
    case Touch(FingerMotion(fid, p)) =>
    case Touch(OtherEvent) =>
    case Frame(mouse, buttons) =>
  }

  /** Single ownership over a whole session: from any state that satisfies the
      invariant (the constructed widget does), every sequence of inputs keeps it. */
  lemma {:induction false} ReplayKeepsInv(c: Config, s: Pad, inputs: seq<Input>)
    requires Inv(s)
    ensures Inv(Replay(c, s, inputs))
    decreases |inputs|
  {
    if inputs != [] {
      ApplyKeepsInv(c, s, inputs[0]);
      ReplayKeepsInv(c, Apply(c, s, inputs[0]), inputs[1..]);
    }
  }

  /** In stationary mode the outer ring never moves, whatever the session. */
  lemma {:induction false} StationaryRingNeverMoves(c: Config, s: Pad, inputs: seq<Input>)
    requires c.stationary
    ensures Replay(c, s, inputs).outer == s.outer
    decreases |inputs|
  {
    if inputs != [] {
      StationaryRingNeverMoves(c, Apply(c, s, inputs[0]), inputs[1..]);
    }
  }

  /** Neither rectangle is ever resized: every update translates it. */
  lemma {:induction false} ReplayKeepsSizes(c: Config, s: Pad, inputs: seq<Input>)
    ensures var r := Replay(c, s, inputs);
      && r.outer.w == s.outer.w && r.outer.h == s.outer.h
      && r.handle.rect.w == s.handle.rect.w && r.handle.rect.h == s.handle.rect.h
    decreases |inputs|
  {
    if inputs != [] {
      ReplayKeepsSizes(c, Apply(c, s, inputs[0]), inputs[1..]);
    }
  }

  /** Once a finger owns the widget, only that finger's lift changes the owner:
      a second finger going down is recorded but cannot take over. */
  lemma OwnershipSticks(c: Config, s: Pad, input: Input)
    requires Inv(s) && s.placed != []
    requires input != Touch(FingerUp(s.id))
    ensures Apply(c, s, input).placed == s.placed && Apply(c, s, input).id == s.id
  {
  }

  /** The owner's lift releases the widget: flags off, handle back on the ring's
      centre, no owner. The script's copy forgets only that finger; the module's
      copy forgets every finger. */
  lemma OwnerLiftReleases(c: Config, s: Pad)
    requires Inv(s) && s.placed != []
    ensures var r := OnEvent(c, s, FingerUp(s.id));
      && Idle(r) && r.id == 0 && r.placed == [] && r.outer == s.outer
      && (c.variant == MainScript ==> r.fingers == Remove(s.fingers, s.id))
      && (c.variant == JoystickModule ==> r.fingers == [])
  {
    assert Without(s.placed, s.id) == [];
  }

  /** A motion moves the handle only when the widget has a non-zero `id`, both
      dictionaries are non-empty and the moving finger is the owner. */
  lemma MotionNeedsOwner(c: Config, s: Pad, fid: int, p: Point)
    requires Inv(s)
    requires OnEvent(c, s, FingerMotion(fid, p)) != s
    ensures s.id != 0 && fid == s.id && s.placed == [fid] && s.fingers != []
    ensures c.variant == MainScript ==> s.id > 0
  {
  }

  /** Finger id 0 cannot steer: when it owns the widget, `id` is 0, so its
      motions are ignored; in the script's copy it is the left mouse button
      alone that then drives the handle. */
  lemma FingerZeroOwnerCannotSteer(c: Config, s: Pad, p: Point, mouse: Point, buttons: Buttons)
    requires Inv(s) && s.placed == [0]
    ensures OnEvent(c, s, FingerMotion(0, p)) == s
    ensures c.variant == MainScript ==>
      OnFrame(c, s, mouse, Buttons(true, false, false)).handle
        == Motion(s.handle, mouse, s.outer, c.sensitivity, c.hOnly, c.vOnly)
    ensures c.variant == JoystickModule && buttons.left ==>
      OnFrame(c, s, mouse, buttons).handle
        == Motion(s.handle, mouse, s.outer, c.sensitivity, c.hOnly, c.vOnly)
  {
    assert s.fingers != [];
    assert s.placed[..Pairs(s)] == [0];
  }

  /** Feeding the same motion twice leaves the widget as feeding it once. */
  lemma RepeatedMotion(c: Config, s: Pad, fid: int, p: Point)
    ensures OnEvent(c, OnEvent(c, s, FingerMotion(fid, p)), FingerMotion(fid, p))
         == OnEvent(c, s, FingerMotion(fid, p))
  {
    MotionIdempotent(s.handle, p, s.outer, c.sensitivity, c.hOnly, c.vOnly);
  }

  /** A finger that goes down outside the restriction zone never takes a
      floating widget itself, whatever the state (the same event may still hand
      the widget to an earlier finger recorded inside the zone). */
  lemma OutsideZoneNeverAcquires(c: Config, s: Pad, fid: int, p: Point)
    requires Inv(s) && !c.stationary
    requires !c.restriction.CollidePoint(p)
    ensures fid in OnEvent(c, s, FingerDown(fid, p)).placed ==> fid in s.placed
  {
    var fs := Put(s.fingers, fid, p);
    assert OnEvent(c, s, FingerDown(fid, p)).placed == OnFingerDown(c, s, fid, p).placed;
    if s.placed == [] {
      match FirstEligible(c, s.handle.rect, fs)
      case None =>
      case Some(k) =>
        assert Lookup(fs, fid) == Some(p) && Finger(fs[k].id, fs[k].pos) in fs;
    }
  }
}
