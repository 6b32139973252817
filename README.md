# Touch joystick widget: ownership and direction, in Dafny

This project models the on-screen touch joystick of a small pygame program.
The repository holds two copies of the `Joystick` class:
- `main.py`, the demo script, whose guards are stricter;
- `joystick.py`, the importable module, which forgets every finger when the owner lifts.

Both copies are modelled. They differ in behaviour, and a `Variant` value (`MainScript` or `JoystickModule`) selects one.

The widget is modelled in three layers:

- **Geometry** and **Contacts** supply the values the widget works on:
  - an integer `Rect` with pygame's arithmetic. Centres use integer halves, edge and centre setters translate without resizing, and `collidepoint` is half-open;
  - the finger dictionaries, kept as insertion-ordered sequences.
- **Resolver** and **Arbiter** are the reference definitions, as functions on values:
  - `direction()`, the four edge tests with their clamps and axis locks;
  - the ownership state machine of `placement()`, `movement()` and `run()`, over a `Pad` value: the ring, the handle, the four flags, `fingers`, `placed` and `id`.

  The properties are proved here over all inputs and over whole sessions of events (`Replay`).
- **Widget** is the object itself: a class `Joystick` with the source's fields, whose methods update them step by step as the source does:
  - the scan over `fingers.items()`;
  - the loop over the zip of both dictionaries;
  - the four `direction()` blocks.

  Each method is proved to leave exactly the state the matching Arbiter function gives, so every Arbiter property holds of the object.
- **Consumer** is the demo sprite's `Square.input`, which turns the four flags into a −1/0/+1 direction.

Quirks of the source that the model keeps:
- Finger id 0 cannot be told apart from "no owner". While finger 0 owns the widget, its motions are ignored. Only the polled mouse then drives the handle: in `main.py` a pure left click, in `joystick.py` any press that includes the left button.
- `FINGERMOTION` never updates `fingers`. The eligibility scan can therefore hand the widget to a finger whose recorded position is stale.
- The axis locks pin the handle with the literal 50, not with the sensitivity. They leave the flags of the locked axis unchanged.
- The recentring at `main.py:136` needs `len(placed) == 0` straight after an insertion, so it never runs. In `Widget.Joystick.ScanFinger` it is kept as a dead branch.
  - The evidently intended test, `== 1`, would change nothing either. Without an owner the invariant already keeps the handle on the ring's centre.

Behaviour of the code worth knowing:
- The envelope is a box clamp. Each unlocked axis ends with the handle rectangle straddling the ring's centre line, so the handle's offset from the centre is bounded by half the handle's size on that axis, whatever the sensitivity.
- Opposite flags are exclusive only when the handle is at least about twice the sensitivity in that dimension (`OpposedFlagsExclusive`). At rest a flag fires exactly when the sensitivity exceeds half the handle (`RestingFlags`).
- `Square.input` gives `up` precedence over `down` and `right` over `left`. It agrees with the difference reading `down − up` exactly when no opposite pair is raised (`HeadingVersusDifference`).
- The mouse fallback in `main.py` drives the handle only while `placed == {0: True}`, that is, while finger 0 owns the widget; an ownerless widget ignores the mouse.

## Model

| member | source | states |
|---|---|---|
| `Geometry.Rect.WithCenter` | main.py:128-129 | setting `center` puts the centre exactly on the point and keeps the size |
| `Geometry.Rect.WithTop` | main.py:184-189 | setting `top` fixes the top edge, keeps the horizontal position and the size |
| `Geometry.Rect.WithBottom` | main.py:174-179 | setting `bottom` fixes the bottom edge, keeps the horizontal position and the size |
| `Geometry.Rect.WithLeft` | main.py:194-199 | setting `left` fixes the left edge, keeps the vertical position and the size |
| `Geometry.Rect.WithRight` | main.py:204-209 | setting `right` fixes the right edge, keeps the vertical position and the size |
| `Geometry.Rect.CollidePoint` | main.py:122 | `collidepoint`: the point lies in the half-open box [left, right) × [top, bottom), so an empty rectangle contains nothing |
| `Geometry.CollideHalfOpen` | main.py:131 | a non-empty rectangle contains its top-left corner and never a point on its right or bottom edge |
| `Geometry.Clamp` | main.py:176-189 | the result lies in [lo, hi], equals v inside the interval and the nearer bound outside it |
| `Contacts.Ids` | main.py:121 | the keys in iteration order, one per entry |
| `Contacts.Lookup` | main.py:157 | a key is found exactly when it is among the keys, and then with its recorded position |
| `Contacts.Put` | main.py:119 | afterwards the key maps to the new position and every other key is unchanged; an existing key keeps its place, a new key goes last; keys stay distinct |
| `Contacts.Remove` | main.py:145 | afterwards the key is absent and every other entry is kept, nothing else added; an absent key leaves the dictionary as it was; distinct keys stay distinct |
| `Contacts.RemoveKeepsOrder` | main.py:145 | popping a key found at index i and nowhere else leaves exactly the entries before i followed by those after it, in their order |
| `Contacts.Without` | main.py:146-147 | popping a key from `placed` leaves exactly the other keys and never grows it |
| `Resolver.UpStep` | main.py:173-181 | the `# up` test: x, size and the other flags kept; under `h_only` the flag is kept and the bottom pinned at the ring's bottom − 50; else `up` iff bottom − sensitivity < centre y, and the bottom is raised to at least the centre y |
| `Resolver.DownStep` | main.py:183-191 | the `# down` test: the mirror image, `down` iff top + sensitivity > centre y, the top lowered to at most the centre y, the top pinned at the ring's top + 50 under `h_only` |
| `Resolver.RightStep` | main.py:193-201 | the `# right` test: y, size and the other flags kept; under `v_only` the left edge pinned at the ring's left + 50; else `right` iff left + sensitivity > centre x, the left edge lowered to at most the centre x |
| `Resolver.LeftStep` | main.py:203-211 | the `# left` test: `left` iff right − sensitivity < centre x, the right edge raised to at least the centre x; under `v_only` the right edge pinned at the ring's right − 50 |
| `Resolver.Vertical` | main.py:173-191 | up and down tests: x, size and horizontal flags unchanged; under `h_only` the flags are kept and the top is the ring's top + 50; else `up` iff bottom − sensitivity < centre y, `down` decided on the edge the up clamp left, top clamped into [cy − h, cy] |
| `Resolver.Horizontal` | main.py:193-211 | right and left tests: the mirror statement, with `v_only` pinning the right edge at the ring's right − 50 |
| `Resolver.Resolve` | main.py:172-211 | `direction()`: sizes kept; lock behaviour on each axis; without a lock, the first flag is decided by the raw edge, the second by the edge after the first clamp, the handle is box-clamped and straddles the ring's centre on that axis |
| `Resolver.Motion` | main.py:162-163 | a move (recentre on the point, then `direction()`) never resizes the handle |
| `Resolver.VerticalCongruent` | main.py:173-191 | the up and down tests' rectangle, and their flags when unlocked, depend on the handle's rectangle alone |
| `Resolver.HorizontalCongruent` | main.py:193-211 | the same for the right and left tests |
| `Resolver.ResolveCongruent` | main.py:172-211 | `direction()` reads old flags only to keep them under a lock |
| `Resolver.MotionIdempotent` | joystick.py:130-134 | repeating the same move gives the same handle and flags |
| `Resolver.MotionForgetsPast` | joystick.py:141-180 | without locks the outcome of a move depends only on the point, the ring, the sensitivity and the handle's size |
| `Resolver.RestingFlags` | main.py:176-211 | a handle centred on the ring stays put, and each flag fires iff the sensitivity exceeds the matching half of the handle |
| `Resolver.OpposedFlagsExclusive` | main.py:176-211 | up and down (right and left) cannot both fire when 2 × sensitivity ≤ handle height + 1 (width + 1) |
| `Resolver.DragUpScenario` | main.py:172-191 | a 100-pixel handle, sensitivity 50, dragged 60 px up: only `up` fires and the handle's centre stops 50 px above the ring's |
| `Resolver.DragDiagonalScenario` | main.py:172-211 | the same handle dragged 60 px up and right: `up` and `right` fire and both offsets stop at 50 |
| `Arbiter.FirstEligible` | main.py:121-134 | the index of the first recorded finger, in insertion order, that may take the widget; none before it may, and none at all when absent |
| `Arbiter.FirstEligibleExtend` | main.py:121-137 | scanning one more finger keeps an owner already found, else takes the new finger if eligible |
| `Arbiter.Eligible` | main.py:122-131 | a floating widget may be taken exactly inside the restriction zone; a stationary one exactly on the handle, in the script also inside the zone (joystick.py:103-108) |
| `Arbiter.Acquire` | main.py:124-129 | the finger becomes the sole key of `placed` and `id`; fingers, flags and sizes kept; a floating ring and the handle recentre on the finger (in the script only when it is the finger going down), otherwise nothing moves (joystick.py:104-107) |
| `Arbiter.ScanStep` | main.py:122-134 | one pass of the scan: an owned widget is unchanged and an ineligible finger changes nothing; otherwise the finger becomes the sole key of `placed` and `id`, fingers, flags and sizes are kept, and ring and handle recentre on it exactly as `Acquire` states for the variant and mode |
| `Arbiter.Scan` | main.py:121-137 | the loop over `fingers.items()`: an owned widget is unchanged; fingers and flags are kept; `placed` stays as it was or becomes the single key of a recorded finger, which `id` names |
| `Arbiter.ScanExtend` | main.py:121 | scanning one more recorded finger is one more `ScanStep` |
| `Arbiter.ScanTakesFirstEligible` | main.py:121-137 | scanning the recorded fingers one after another hands an unowned widget to the first eligible finger and leaves an owned one alone |
| `Arbiter.FingerDownIsScan` | main.py:119-137 | the FINGERDOWN block equals the scan over every recorded finger, the new one included, starting from the state with the finger recorded |
| `Arbiter.OnFingerDown` | main.py:112-137 | the finger is recorded; an owned widget is otherwise unchanged; else the first eligible finger becomes the only key of `placed` and `id`; stationary never moves ring or handle; a floating ring recentres on the owner (in the script only when the owner is the finger going down); flags and sizes kept (also joystick.py:96-110) |
| `Arbiter.OnFingerUp` | main.py:139-149 | a non-owner's lift changes nothing; the owner's lift clears the flags, recentres the handle, sets `id` to 0 and keeps the ring; the script removes only that finger, the module empties both dictionaries (joystick.py:112-120) |
| `Arbiter.TouchDrivesIffSomePairFires` | main.py:155-157 | the zip loop's motion test holds for some pair exactly when the closed form holds: script, `id > 0`, `placed == {id}`, the moving finger is the owner and `fingers` is non-empty; module, the finger is in `placed` and `fingers` is non-empty (joystick.py:126-127) |
| `Arbiter.PointerDrivesIffSomePairFires` | main.py:165-166 | the mouse test holds for some pair exactly when the closed form holds: script, buttons exactly (1,0,0) and `placed == {0}`; module, left button and `id` among the zipped keys (joystick.py:136) |
| `Arbiter.OnTouchMotion` | main.py:154-163 | a motion changes only the handle, and only when it drives; then the finger is in `placed` and `fingers` is non-empty |
| `Arbiter.OnPointer` | main.py:165-170 | the polled mouse changes only the handle, and only when it drives; then `id` is a key of `placed` |
| `Arbiter.OnEvent` | main.py:111-152 | `placement(ev)`: a non-owner's lift, an unrelated event and a non-driving motion change nothing |
| `Arbiter.OnFrame` | main.py:226-228 | `run()` changes nothing while `id` is non-zero |
| `Arbiter.FingerDownKeepsInv` | main.py:112-137 | a FINGERDOWN keeps the invariant: keys stay distinct and a new owner is a recorded finger (joystick.py:96-110) |
| `Arbiter.FingerUpKeepsInv` | main.py:139-149 | a FINGERUP keeps the invariant: the owner's lift empties `placed` and releases the widget (joystick.py:112-120) |
| `Arbiter.ApplyKeepsInv` | main.py:111-170 | every event and frame keeps the invariant: distinct keys, at most one key in `placed`, `id` equal to it and recorded in `fingers`, and no owner means flags off and handle centred |
| `Arbiter.ReplayKeepsInv` | main.py:121-149 | the invariant holds after any session of events and frames |
| `Arbiter.StationaryRingNeverMoves` | main.py:107-109 | in stationary mode the outer ring never moves after construction, in any session |
| `Arbiter.ReplayKeepsSizes` | main.py:128-209 | no session ever resizes the ring or the handle |
| `Arbiter.OwnershipSticks` | main.py:121-137 | while a finger owns the widget, nothing but that finger's lift changes `placed` or `id` |
| `Arbiter.OwnerLiftReleases` | joystick.py:112-120 | the owner's lift leaves the widget released, ownerless and with the ring in place; the module forgets every finger, the script only the owner |
| `Arbiter.MotionNeedsOwner` | joystick.py:122-134 | a motion that changes anything comes from the owner while `id` is non-zero, `placed` holds just that finger and `fingers` is non-empty |
| `Arbiter.FingerZeroOwnerCannotSteer` | main.py:151-166 | while finger 0 owns the widget its motions are ignored; in the script a pure left click, in the module any press with the left button, moves the handle to the mouse (joystick.py:136-139) |
| `Arbiter.RepeatedMotion` | joystick.py:127-134 | feeding the same motion event twice leaves the same state as feeding it once |
| `Arbiter.OutsideZoneNeverAcquires` | main.py:121-129 | a finger that goes down outside the restriction zone is afterwards in `placed` only if it already was, whatever its id (finger 0 included) |
| `Widget.Joystick.constructor` | main.py:69-109 | flags off, no fingers, `id` 0, sensitivity 50, no locks, the given sizes; a stationary ring centred on the zone, a floating one at the origin; the handle centred on the ring; the invariant holds |
| `Widget.Joystick.Direction` | main.py:172-211 | the four tests in place leave the handle and flags `Resolve` gives and nothing else changes |
| `Widget.Joystick.TestUp` | main.py:173-181 | the `# up` block in place |
| `Widget.Joystick.TestDown` | main.py:183-191 | the `# down` block in place |
| `Widget.Joystick.TestRight` | main.py:193-201 | the `# right` block in place |
| `Widget.Joystick.TestLeft` | main.py:203-211 | the `# left` block in place |
| `Widget.Joystick.Follow` | main.py:162-163 | recentring the handle on the point and running `direction()` leaves the handle `Motion` gives, and nothing else changes |
| `Widget.Joystick.Movement` | main.py:154-163 | the zip loop over both dictionaries leaves the state `OnTouchMotion` gives (joystick.py:125-134) |
| `Widget.Joystick.PointerMovement` | main.py:165-170 | the zip loop with no event leaves the state `OnPointer` gives (joystick.py:136-139) |
| `Widget.Joystick.Placement` | main.py:111-152 | `placement(ev)` leaves the state `OnEvent` gives and keeps the invariant |
| `Widget.Joystick.FingerDownBlock` | main.py:112-137 | recording the finger and the loop over `fingers.items()` leave the state `OnFingerDown` gives, through `Scan` |
| `Widget.Joystick.ScanFinger` | main.py:122-137 | the loop body of the scan, with both variants' guards, leaves the state `ScanStep` gives (joystick.py:103-110) |
| `Widget.Joystick.FingerUpBlock` | main.py:139-149 | the lift block leaves the state `OnFingerUp` gives (joystick.py:112-120) |
| `Widget.Joystick.Run` | main.py:226-229 | `run()` without drawing leaves the state `OnFrame` gives and keeps the invariant |
| `Consumer.Heading` | main.py:37-50 | y is −1 iff `up`, +1 iff `down` without `up`, else 0; x is +1 iff `right`, −1 iff `left` without `right`, else 0 |
| `Consumer.Difference` | main.py:37-50 | the difference reading (right − left, down − up) lies in −1..1 and is 0 on an axis iff its two flags agree |
| `Consumer.HeadingVersusDifference` | main.py:37-50 | the precedence reading equals the difference reading iff no opposite pair of flags is raised together |
| `Consumer.HeadingAfterResolve` | joystick.py:24-36 | after an unlocked `direction()` with a handle about twice the sensitivity, the two readings agree |
| `Consumer.Square.constructor` | main.py:34 | the direction of travel starts at (0, 0) |
| `Consumer.Square.Input` | joystick.py:24-36 | the sprite's direction becomes `Heading` of the joystick's four flags, each component in −1..1 |

## Left out

- Drawing: `blit`, the debug overlay, image loading, fonts and display creation are pygame calls with no logic. The sizes of the ring and handle images, and the restriction rectangle, are constructor parameters. The zone that `pygame.draw.rect` returns (main.py:105, joystick.py:89) is taken as given.
- `test_run`, the frame clock and process exit are the event loop's I/O. `Replay` stands in for a session of events and frames.
- Event coordinates arrive already converted to integer pixels. The float conversion `int(ev.x * width)` is not modelled.
- `Square.move`, `Square.draw` and `Square.update` are not modelled. They are float vector normalisation and drawing. Only `Square.input`'s direction is kept.
- The mouse is not polled. `run()` and `movement()` with no event take the mouse position and the button triple as parameters.
- The unused values `frozen_b` (main.py:117) and `dx`/`dy` (joystick.py:128-129) are not modelled.
- The axis locks are public attributes that no method changes. In `Replay` they stay fixed for the whole session.
- The sensitivity is 50, as in the constructor. The resolver's lemmas hold for any non-negative sensitivity.
- Rectangle sizes are non-negative, as image sizes are. pygame's truncation of coordinates to C integers is not modelled.
- Ownership is modelled for a single widget. Sharing one event queue between two widgets is not modelled.
