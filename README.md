# pixi-tanks: the fixed-step simulation core

pixi-tanks is a browser game in which a tank drives among barriers and
fires shells. Its core is a fixed-timestep 2D rigid-body simulation. The
parts are:

- **Entities.** Each `GameObject` has a position, a heading, a speed, a
  weight and an `alive` flag. It also holds its components in insertion
  order, plus an index from component type to that type's components.
- **The collider registry.** This is a process-wide, append-only list of
  every collider ever constructed. A collider registers itself in its
  constructor.
- **The physics step.** It first moves every live, moving owner along its
  heading. It then visits every pair of colliders `i < j`. For each pair it
  computes a penetration vector for circle/circle, circle/rectangle or
  rectangle/rectangle, and splits that push between the two owners in
  proportion to their weights.
- **The entity factory.** It builds players, barriers and shots.
- **The per-step control function `tick`.** It applies throttle, friction,
  the speed clamp and turning. It also fires shots and dashes, each under
  its own cooldown, and then runs the physics step.
- **The engine's frame callback.** It turns wall-clock time into a whole
  number of 20 ms steps, carrying the remainder over. It copies the entity
  positions to their sprites and eases the camera towards the tank.

The Dafny project has seven modules, one per file:

| file | module | models |
|---|---|---|
| `vector.dfy` | `Vectors` | the `Vector` class, and a value type `Vec` for the results of the collision routines |
| `collision.dfy` | `Collision` | `pRectRect`, `pCircleRect`, `pCirclePoint`, `pCircleCircle` and the `intersect` dispatch |
| `entities.dfy` | `Entities` | `GameObject`, the colliders and the registry |
| `physics.dfy` | `Physics` | `update`: a pure reference step, plus the imperative loops proved against it |
| `factory.dfy` | `Factory` | `createPlayer`, `createBarrier`, `createShot` |
| `control.dfy` | `Control` | `tick` of game.ts |
| `engine.dfy` | `Engine` | the frame callback and the engine's registration functions |

**Reference definitions.** The physics step is specified by pure functions
over a map from owner object to position:

- `Physics.Step` integrates the owners, then resolves the pairs.
- `Physics.Fold` is an independent reference definition. It applies the
  gated pair step along the list of pairs `PairsFrom` that the nested loops
  visit.

The position map is keyed by the owner itself, so an owner with two
colliders moves twice, exactly as the source's aliasing makes it move.
`Physics.Update` is the imperative method over the registry's objects. Its
contract states that the new positions are `Step` of the old ones.

**How the tick is specified.** The control part of `tick` is the pure
transition `Control.Control` over speed, heading and the two ability
timers. `Control.Tick` performs that transition in place, hands a new shot to the
engine, and then calls the physics step. Its contract ties the inputs of
that step to the state before the tick.

## Model

| member | source | states |
|---|---|---|
| Vectors.Difference | src/game/physics.ts:226-228 | the difference vector, characterised by `r + b == a` componentwise |
| Vectors.NormalizeUnit | src/game/physics.ts:221-224 | normalising a non-zero vector under a sound `sqrt` gives a unit vector that is parallel to the input and points the same way |
| Vectors.NormalizeNaN | src/game/physics.ts:221-224 | normalising gives NaN exactly when the vector is zero (division by a zero magnitude) |
| Vectors.Vector.constructor | src/game/physics.ts:198-202 | `new Vector()` is the zero vector with cached squared length 0 |
| Vectors.Vector.FromXY | src/game/physics.ts:194-197 | `new Vector(x, y)` holds `(x, y)`, and its cached squared length is consistent |
| Vectors.Vector.Copy | src/game/physics.ts:190-193 | the copy constructor copies both coordinates and the cached squared length |
| Vectors.Vector.Scale | src/game/physics.ts:213-219 | scales in place, returns `this`, and keeps the squared-length cache consistent; NaN stays NaN |
| Vectors.Vector.Normalize | src/game/physics.ts:221-224 | the result is NaN exactly when the vector was NaN or its cached magnitude is 0; otherwise the vector is scaled in place by `1 / sqrt(ms)`; when the cache was consistent, this is the value-level `Normalize` |
| Vectors.Vector.Subtract | src/game/physics.ts:226-228 | a fresh vector holding the `Difference` of the inputs; NaN exactly when an input is NaN |
| Vectors.Vector.Scaled | src/game/physics.ts:230-233 | a fresh vector holding the scaled input; the input is not modified |
| Vectors.Vector.Normalized | src/game/physics.ts:235-238 | a fresh normalised copy, NaN exactly when the input is NaN or its cached magnitude is 0; the input is not modified |
| Collision.Candidates | src/game/physics.ts:100-105 | the four face candidates `pen` in the source's order (left, right, top, bottom), each with its push and its `abs` |
| Collision.FirstLeast | src/game/physics.ts:106 | `pen.sort(...)[0]`: the index of a candidate of least `abs` that comes before every other of that `abs`, which the stable sort puts first |
| Collision.LeastPush | src/game/physics.ts:100-108 | the push of the `FirstLeast` candidate; `LeastPushFacts` proves it is a least push with exactly one non-zero component, whose move ends the overlap |
| Collision.PRectRect | src/game/physics.ts:93-112 | zero unless the four face tests all hold; otherwise the least push among the four face candidates (first minimum wins), with exactly one non-zero component |
| Collision.RectRectZeroIff | src/game/physics.ts:99-111 | the result is zero exactly when the boxes do not overlap, and it has positive squared length exactly when they do |
| Collision.RectRectExample | src/game/physics.ts:93-112 | two unit squares overlapping by 0.3 on x and 0.6 on y are pushed along x, giving `(-0.3, 0)` |
| Collision.RectRectSeparates | src/game/physics.ts:93-112 | moving the boxes apart by any two moves that add up to the push ends the overlap, so a second call returns zero |
| Collision.RectRectAntiSymmetric | src/game/physics.ts:93-112 | swapping the boxes negates the push when the least penetration is unique |
| Collision.LeastPushSwap | src/game/physics.ts:100-108 | the least push over the mirrored faces is the negated least push, when the least is unique |
| Collision.RectRectTieNotAntiSymmetric | src/game/physics.ts:100-108 | two identical coincident unit squares both push `(-1, 0)`, so anti-symmetry fails on ties |
| Collision.PCircleRect | src/game/physics.ts:114-156 | `pCircleRect`; `RegionsExclusive`, `CircleRectSide`, `CircleRectApart` and `CircleRectDefined` prove its branches exclusive, the side branch the least push of the grown box, no push without overlap, and never NaN |
| Collision.RegionOf | src/game/physics.ts:134-142 | which branch of `pCircleRect` the centre selects, the four corner tests tried in the source's order |
| Collision.CornerOf | src/game/physics.ts:134-141 | the corner point each corner branch resolves against |
| Collision.RegionsExclusive | src/game/physics.ts:134-142 | for a rectangle of non-negative size, the four corner tests exclude one another, and the side branch is taken exactly when the centre lies within one of the two bands |
| Collision.PCirclePoint | src/game/physics.ts:169-179 | `pCirclePoint`; `CirclePointPush` proves it is zero exactly when the point is not strictly inside, and otherwise a push towards the centre of length the radius minus the distance |
| Collision.CirclePointPush | src/game/physics.ts:169-179 | the push is zero unless the point lies strictly inside the circle; then it lies along the line from the point to the centre, points towards the centre, and has length the radius minus the distance |
| Collision.CornerAwayFromCentre | src/game/physics.ts:134-141 | in a corner branch the corner is never the circle's centre |
| Collision.CircleRectDefined | src/game/physics.ts:114-156 | under a sound `sqrt`, circle against rectangle never yields NaN |
| Collision.CircleRectSide | src/game/physics.ts:142-152 | in the side branch the push is the least push of the box grown by the radius, and zero without overlap |
| Collision.CircleRectSideSeparates | src/game/physics.ts:142-152 | in the side branch, moves that add up to the push end the overlap |
| Collision.CircleRectApart | src/game/physics.ts:133-155 | no overlap of the grown box means no push |
| Collision.PCircleCircle | src/game/physics.ts:158-167 | `pCircleCircle`; the `CircleCircle*` lemmas prove it anti-symmetric, NaN exactly for coincident centres, a push exactly when the circles overlap, along the centre line and away from the other circle, and separating |
| Collision.CircleCircleAntiSymmetric | src/game/physics.ts:158-167 | swapping the circles negates the push |
| Collision.CircleCircleNaN | src/game/physics.ts:158-167 | the push is NaN exactly when the centres coincide |
| Collision.CircleCirclePushes | src/game/physics.ts:158-167 | for distinct centres and positive radii, the circles push exactly when the squared distance is below the squared sum of the radii |
| Collision.CircleCircleDirection | src/game/physics.ts:158-167 | a push lies along the centre line, points away from the other centre, and has length `r1 + r2` minus the distance of the centres |
| Collision.CircleCircleSeparates | src/game/physics.ts:158-167 | after moves that add up to the push, the centres are exactly `r1 + r2` apart and a second call returns zero |
| Collision.CircleCircleApart | src/game/physics.ts:160-166 | circles at least `r1 + r2` apart do not push |
| Collision.Intersect | src/game/physics.ts:59-89 | the `intersect` dispatch on both collider kinds, a rectangle against a circle negating the circle's push; `IntersectAntiSymmetric` proves it anti-symmetric for every pair with a circle and for rectangles with a unique least |
| Collision.IntersectAntiSymmetric | src/game/physics.ts:59-89 | `intersect` is anti-symmetric for every pair involving a circle (the rectangle side negates the circle's result), and for two rectangles whose least penetration is unique |
| Entities.Registry.constructor | src/game/physics.ts:4 | the registry starts as the empty list of colliders |
| Entities.Collider.constructor | src/game/physics.ts:41-44 | a new collider has its shape and no parent, and is appended to the registry |
| Entities.GameObject.constructor | src/game/GameObject.ts:18-25 | the position, weight and sprite as given; heading and speed 0; alive; no components; an empty and consistent index |
| Entities.GameObject.SetX | src/game/GameObject.ts:27-33 | the getter then returns the stored value |
| Entities.GameObject.SetY | src/game/GameObject.ts:35-41 | the getter then returns the stored value |
| Entities.GameObject.AddComponent | src/game/GameObject.ts:43-50 | sets the parent, appends the component, and appends it to its kind's index list (creating the list if absent); the index stays consistent |
| Entities.GameObject.GetComponent | src/game/GameObject.ts:52-59 | null exactly when no component has that kind; otherwise the first one added of that kind |
| Entities.GameObject.GetComponents | src/game/GameObject.ts:61-63 | none exactly when no component has that kind; otherwise every component of that kind, in insertion order |
| Entities.GameObject.ColliderShape | src/game/physics.ts:23-24 | the first rectangle collider's shape if there is one, or else the first circle's |
| Entities.GameObject.Update | src/game/GameObject.ts:65-71 | when alive, every component is updated in insertion order; when dead, none is |
| Entities.OfKindFacts | src/game/GameObject.ts:46-49 | a kind's list holds exactly the components of that kind; it is empty exactly when there are none, and otherwise starts with the first one |
| Entities.Registered | src/game/physics.ts:41-44 | appending a new collider whose owner is consistent keeps the registry valid, and appends the owner to the registry's owner list |
| Entities.OwnerSetListed | src/game/physics.ts:4 | the registry's owner set holds exactly the owners of the listed colliders |
| Entities.OwnerSetIs | src/game/physics.ts:4 | the registry's owner set is the set of the entries of its owner list |
| Entities.OwnersAppended | src/game/physics.ts:41-44 | the owners of a longer registry list are those of the old list together with the new ones |
| Physics.Moved | src/game/physics.ts:11-12 | one integration move along the heading by `speed * dt`; `MovedExample` and `IntegrateKeeps` are about it |
| Physics.IntegrateFrom | src/game/physics.ts:8-14 | the first loop from registry index `i` on, as a reference: each collider's owner moves when alive with non-zero speed; its `Keys` are unchanged |
| Physics.Share | src/game/physics.ts:29-32 | the two position updates of a resolved pair on the position map, the second seeing the first when the owners coincide; `ShareMovesByPush` and `SplitMovesByPush` prove the offset grows by the push |
| Physics.ResolvePair | src/game/physics.ts:21-34 | the inner body as a reference: a pair that does not engage or does not push changes nothing, and no owner but the two moves (`PairKeeps`) |
| Physics.ResolveRow | src/game/physics.ts:20-35 | the inner loop from column `j` on, as a reference; `RowKeeps` and `RowIsFold` are about it |
| Physics.ResolveFrom | src/game/physics.ts:17-37 | the outer loop from row `i` on, skipping dead rows; `ResolveKeeps` and `ResolveIsFold` are about it |
| Physics.Step | src/game/physics.ts:6-38 | the whole `update` as a reference: integrate, then resolve; `StepKeeps` proves it moves no dead owner and no still weight-0 owner, and `Physics.Update` is proved against it |
| Physics.Shares | src/game/physics.ts:27-28 | the mass shares are each weight's part of the total; they add up to 1, and an owner of weight 0 gets share 0 |
| Physics.SplitMovesByPush | src/game/physics.ts:26-33 | for two distinct owners the offset between them grows by exactly the push; an owner of weight 0 paired with a heavier one stays put while the other takes the whole push |
| Physics.IntegrateKeeps | src/game/physics.ts:8-14 | integration leaves still owners in place, and moves an owner listed once by exactly one step along its heading |
| Physics.PairKeeps | src/game/physics.ts:20-34 | a pair step moves no owner of weight 0, no owner other than the pair, and no dead owner other than the row's owner |
| Physics.RowKeeps | src/game/physics.ts:20-35 | a row moves no owner of weight 0, and when its owner is alive, no dead owner |
| Physics.ResolveKeeps | src/game/physics.ts:17-37 | resolution moves no owner of weight 0 and no dead owner |
| Physics.StepKeeps | src/game/physics.ts:6-38 | a step moves no dead owner, and no owner of weight 0 and speed 0 |
| Physics.CircleCircleExample | src/game/physics.ts:158-167 | two circles of radius 0.5 whose centres are 0.6 apart: the first is pushed back by 0.4 |
| Physics.CirclesPairExample | src/game/physics.ts:20-34 | two such circles of weight 1 each take half of the push and end up touching, exactly 1.0 apart |
| Physics.MovedExample | src/game/physics.ts:9-13 | heading 0 at speed 10 moves 0.2 along x in a 0.02 s step |
| Physics.PairsFromComplete | src/game/physics.ts:17-20 | the nested loops visit every pair `i < j` |
| Physics.PairsFromOrdered | src/game/physics.ts:17-20 | the nested loops visit the pairs in strictly increasing lexicographic order, so each at most once |
| Physics.ResolveIsFold | src/game/physics.ts:17-37 | the loop recursion equals the reference fold of the gated pair step over the visited pairs |
| Physics.Update | src/game/physics.ts:6-38 | the owners' new positions are `Step` of their old positions, properties and registry order; the registry stays valid with the same owners in the same order, and their properties are unchanged |
| Physics.Move | src/game/physics.ts:6-38 | the two loops of `update` take the owners' positions to `Step` of the old ones |
| Physics.SamePositions | src/game/physics.ts:6-38 | positions recorded for a set of owners are still their positions when none has moved |
| Physics.PositionsAdded | src/game/factory.ts:37-48 | the positions of a set with one more owner are the old ones plus the new owner's |
| Physics.StepRecorded | src/game/physics.ts:6-38 | `update` over owners described by given properties moves them exactly by `Step` |
| Physics.RegistryUnchanged | src/game/physics.ts:6-38 | a step that changes only positions leaves the registry, its owners and its validity as they were |
| Physics.PropsUnchanged | src/game/physics.ts:6-38 | a step that changes only positions also leaves every owner's properties as they were |
| Physics.RegistryUntouched | src/engine.ts:120-138 | a change that touches neither the registry nor its owners keeps its validity, owners, properties and positions |
| Physics.IntegrateAll | src/game/physics.ts:8-14 | the first loop takes the positions to `IntegrateFrom` of the old ones |
| Physics.IntegrateAt | src/game/physics.ts:8-14 | one iteration of the first loop takes the positions one `IntegrateOne` step further, so the rest of the loop is unchanged |
| Physics.Integrate | src/game/physics.ts:9-13 | the first loop's body: a moving owner's position becomes `Moved` of the old one, and nothing else moves |
| Physics.ResolveAll | src/game/physics.ts:17-37 | the second loop takes the positions to `ResolveFrom` of the old ones |
| Physics.ResolveRowOf | src/game/physics.ts:18-36 | one iteration of the outer loop: a live row's owner gets `ResolveRow`, a dead one changes nothing |
| Physics.ResolveRowLoop | src/game/physics.ts:20-35 | the inner loop of row `i` takes the positions to `ResolveRow` of the old ones |
| Physics.ResolveColumn | src/game/physics.ts:21-34 | one iteration of the inner loop takes the positions to `ResolvePair` for column `j`, so the rest of the row is unchanged |
| Physics.ResolvePairOf | src/game/physics.ts:21-34 | the inner body for two owners applies `ResolvePair` |
| Physics.ShapeOf | src/game/physics.ts:23-24 | the `getComponent(Rect) or getComponent(Circle)` lookup returns the shape recorded for the owner |
| Physics.ResolveColliders | src/game/physics.ts:25-33 | for an engaging pair, `intersect`, the `p.ms > 0` test and the weighted moves take the positions to `ResolvePair` |
| Physics.ApplyPush | src/game/physics.ts:29-32 | the first owner moves by `p * r1`, then the second by `-p * r2`; the second update sees the first when the owners are the same object |
| Factory.Centre | src/game/factory.ts:25-26 | the centre of a span is half its length past its start |
| Factory.Attach | src/game/factory.ts:18-19 | the new collider is the object's only component, is registered last, and adds its owner to the registry's owners |
| Factory.Spawn | src/game/factory.ts:13-48 | a fresh object with the given position, weight and sprite, and exactly one registered collider of the given shape |
| Factory.CreatePlayer | src/game/factory.ts:13-22 | at `(x, y)`, weight 1, a tank sprite, one circle collider of radius 0.5, registered |
| Factory.CreateBarrier | src/game/factory.ts:24-35 | centred on the rectangle, weight 0, a barrier sprite, one rectangle collider of that size, registered |
| Factory.Shot | src/game/factory.ts:37-48 | a fresh object at the given position and heading, speed 25, weight 0, a shell sprite, one registered circle collider of radius 0.1; the registry stays valid and gains it as its last owner |
| Factory.CreateShot | src/game/factory.ts:37-48 | at the source's position and heading, speed 25, weight 0, a shell sprite, one circle collider of radius 0.1, registered; the registry gains it as its one new owner, at the source's position, and no other owner moves |
| Factory.WeightlessPairSkipped | src/game/physics.ts:22 | two owners of weight 0, such as a shot and a barrier, are never resolved against each other |
| Control.Throttle | src/game.ts:128-137 | the movement branch; `ThrottleKeys` and `Friction` state what each key does and that friction stops at 0 |
| Control.Clamp | src/game.ts:139-141 | the speed limit outside the dash window; `ClampFacts` states when it applies and what it yields |
| Control.Turn | src/game.ts:143-148 | the turning branch; `TurnKeys` states that left wins and the turn is bounded |
| Control.Cooldown | src/game.ts:150-157 | the fire cooldown after one tick; `CooldownIdle`, `DecayedIs` and `DecayedZero` state how it runs down |
| Control.DashTimer | src/game.ts:159-165 | the dash timer after one tick; `DashExemption` states for how long it suspends the clamp |
| Control.Control | src/game.ts:128-165 | the control part of `tick` on speed, heading and the two timers; `ControlFacts` bounds the timers and states what a shot and a dash reset, and `Control.Tick` is proved against it |
| Control.ThrottleKeys | src/game.ts:129-132 | `ArrowUp` accelerates and wins over `ArrowDown`, `ArrowDown` alone decelerates, and no other key matters |
| Control.Friction | src/game.ts:133-137 | with neither throttle key pressed, the speed moves towards 0 by `FRICTION * dt` without crossing it |
| Control.ClampFacts | src/game.ts:139-141 | the clamp applies exactly when the speed is over the limit and no dash began within the last `DASH_TIME`; it then keeps the sign and sets the magnitude to `MAX_SPEED` |
| Control.TurnKeys | src/game.ts:144-148 | `ArrowLeft` turns left and wins over `ArrowRight`; the heading moves by at most `TURN_RATE * dt` |
| Control.ControlFacts | src/game.ts:127-165 | a step keeps both timers within range; a shot resets the cooldown to 1; a dash sets the timer to `DASH_COOLDOWN` and the speed to `DASH_SPEED`; otherwise neither timer grows |
| Control.DecayedIs | src/game.ts:155-157 | a timer that is not restarted for `n` steps stands at `max(t - n * dt, 0)` |
| Control.DecayedZero | src/game.ts:151-157 | the timer is back at 0, and the ability is free again, exactly when `n * dt >= t` |
| Control.DashExemption | src/game.ts:139 | the speed clamp stays off after a dash exactly while `n * dt <= DASH_TIME` |
| Control.CooldownIdle | src/game.ts:151-157 | without `Space`, the cooldown only decays |
| Control.Abilities.constructor | src/game.ts:44-47 | both timers start at 0 |
| Control.Drive | src/game.ts:129-148 | the player's speed is the clamped throttle result, and its heading is the turn result |
| Control.Fire | src/game.ts:151-157 | a shot is fired exactly when `Space` is pressed and the cooldown is 0, and the cooldown follows `Cooldown`; the shot starts at the player's pose, and it is the only addition to the registry, which stays valid |
| Control.Track | src/game.ts:154 | `engine.addObject(shot)`: the engine now tracks the shot with a sprite of its own, appended to the drawing order, and keeps every earlier sprite; without a shot nothing changes |
| Control.Dash | src/game.ts:160-165 | a dash sets the speed to `DASH_SPEED` exactly when `ShiftLeft` is pressed and the timer is 0; the timer follows `DashTimer` |
| Control.Steer | src/game.ts:129-165 | the player and timers follow `Control`, the shot follows `Fire`, and the registry stays valid and grows by at most the shot |
| Control.Controls | src/game.ts:129-165 | as `Steer`; besides, the registry's owner set gains the shot, if any, at the player's old position, and no other owner moves |
| Control.Handle | src/game.ts:129-148 | movement, turning and the dash branch together follow `Control` |
| Control.Simulate | src/game.ts:167 | the step's inputs are the registry's owners, order, properties and positions beforehand; the update took them to `Step` of them, and the registry stays valid with the same owners and properties |
| Control.Advance | src/game.ts:167 | as `Simulate`; besides, the player, the timers, the registry list and the shot's heading, speed and components are left as they were |
| Control.Finish | src/game.ts:154-167 | `engine.addObject(shot)` takes effect as in `Track`, then the physics step runs as in `Simulate` on the registry as it was |
| Control.Tick | src/game.ts:127-170 | the player and timers follow `Control`; a shot is fired exactly as `Fires` says, joins the registry and is tracked by the engine; the physics step then takes the registry's owners, in the order afterwards, from their old positions plus the shot's at the player's old position to `Step` of them |
| Engine.StepSizes | src/engine.ts:6-7 | a step in milliseconds is 1000 times a step in seconds |
| Control.StepTimers | src/game.ts:151-165 | at the engine's step, the fire cooldown is 0 after 50 decrements but not after 49, and the dash timer is still at least `DASH_COOLDOWN - DASH_TIME` after 12 decrements but not after 13; since `tick` tests the timers before its own decrement, the first tick able to fire again is the 51st after the shot, and the clamp is off on the 13 ticks after the dash tick |
| Engine.StepCount | src/engine.ts:76-81 | a total split into `n` whole steps and a remainder in `[0, STEP_SIZE)` has `n == floor(total / STEP_SIZE)` |
| Engine.Eased | src/engine.ts:101-106 | each frame the remaining offset to the target shrinks to 49/50 of itself |
| Engine.EasedForIs | src/engine.ts:95-108 | after `n` frames the remaining offset is `(49/50)^n` of the first |
| Engine.EasedForApproaches | src/engine.ts:95-108 | the camera never overshoots: the offset keeps its sign, never grows and never reaches 0 |
| Engine.Engine.constructor | src/engine.ts:69-73 | zero accumulator, no callback, nothing tracked, no actor |
| Engine.Engine.RegisterMain | src/engine.ts:114-116 | the step callback is registered |
| Engine.Engine.BindActor | src/engine.ts:117-119 | the actor is the given object |
| Engine.Engine.AddObject | src/engine.ts:120-138 | shells get a fresh tracked sprite and other sprites are ignored; the existing sprites are kept |
| Engine.Engine.CallMain | src/engine.ts:71 | the registered callback receives the step size; the default callback does nothing |
| Engine.Engine.Accumulate | src/engine.ts:76-81 | the old remainder plus the frame time equals `n` steps plus the new remainder, which is below one step; for a non-negative total, `n` is its floor division; the callback runs `n` times |
| Engine.Engine.CopyTracked | src/engine.ts:83-87 | every tracked sprite shows its object's position, scaled to pixels, and its heading |
| Engine.Engine.CopyActor | src/engine.ts:89-93 | the tank sprite shows the actor, if there is one |
| Engine.Engine.EaseCamera | src/engine.ts:95-108 | the view moves a fiftieth of the way towards centring the tank |
| Engine.Engine.Frame | src/engine.ts:75-111 | one frame: the step split, every sprite copied and the camera eased |
| Engine.Engine.AddBlock | src/engine.ts:146-153 | water goes on the background grid and every other texture on the foreground blocks, drawn at the rectangle scaled to pixels |
| Engine.LayerOf | src/engine.ts:147 | `'water'` goes on the background grid and every other texture on the foreground blocks |
| Engine.BarrierBlock | src/game.ts:111-113 | the block drawn for a barrier made by `createBarrier(left, top, width, height)` is that rectangle scaled to pixels, and a world point lies in the barrier's collider box exactly when its pixel lies in the block |

## Left out

- Floating point: numbers are Dafny `real`s. So there is no rounding, and no `Infinity`. The NaN of normalising a zero vector is the `Vec.NaN` variant, and the `nan` flag of a `Vector`.
- `Math.sqrt`, `Math.cos` and `Math.sin` are a `Math` parameter with three functions. The lemmas that need them assume `Sound()`: `sqrt` is a non-negative square root, `cos 0 = 1` and `sin 0 = 0`.
- Collision.PRectRect: anti-symmetry is proved only when the least penetration is unique. `intersect` is meant to be anti-symmetric for every pair, but the code takes the first minimum in both argument orders, so on ties it is not. `RectRectTieNotAntiSymmetric` exhibits such a tie. The model follows the code.
- The `TypeError` branches of `intersect` (physics.ts:65, 87) cannot be reached: a shape is either a circle or a rectangle.
- The debug call inside `pCirclePoint` writes only to the on-screen text, so it is omitted.
- `GameComponent` is folded into `Collider`: colliders are the only components the core uses, and a collider's `update` does nothing. Component types are the two kinds `CircleKind` and `RectKind`.
- `SpriteType` is an enum of the three sprites the core uses.
- Entities.GameObject.constructor: the source's `options.weight` and `options.sprite` are optional, and a field whose option is omitted is `undefined`; the fields are also mutable. Every call in the core passes both and nothing writes them later, so the model takes both as required values and declares `weight` and `sprite` `const`.
- Control.Steer: the dash branch runs before the fire branch. The branches touch disjoint state (speed and dash timer versus cooldown and registry), so the result is the same as in the source's order.
- Control.Tick: `engine.addObject(shot)` runs after the dash branch rather than inside the fire branch. The dash branch touches nothing the engine holds, so the engine ends in the same state.
- Vectors.Vector.Normalize, Vectors.Vector.Normalized: a zero cached magnitude over non-zero components (a stale cache) gives infinite components in the source; the model marks that vector NaN as well, since `real` holds neither.
- The keyboard listeners (game.ts:37-43) are not modelled. The pressed keys are a `set<Key>` input to `tick`.
- The level layout (game.ts:49-117) is not modelled; it is data, built by calling the factories and `addBlock`.
- The link between the engine's step callback and `tick` is kept abstract. `Engine.Engine.CallMain` records the step sizes received, rather than calling `Control.Tick` inside `Frame`.
- PIXI rendering is replaced by the transform each sprite shows: textures, sprite scale, viewport and stage. The viewport's position is the two fields `viewX` and `viewY`. A drawn rectangle is a `Fill` appended to a layer.
- `addTile` and `debug` in engine.ts are not modelled: they only draw or write on-screen text.
- app.ts is not part of this model. It only creates the engine and starts the game.
- The frame time `app.ticker.deltaMS` is a parameter of `Frame`.
