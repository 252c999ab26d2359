/**
 * The frame callback of engine.ts around the game: a fixed-timestep
 * accumulator that calls the registered `main` a whole number of times per
 * frame, the copy of world coordinates onto sprites, the camera easing
 * toward the tank, and the layer routing of `addBlock`.
 *
 * PIXI display objects are modelled by the part of their state these
 * lines write: a sprite's position and rotation, the viewport's position,
 * and the list of rectangles filled on each graphics layer.
 */
module Engine {
  import opened Entities
  import Factory

  /** Milliseconds per step. */
  const STEP_SIZE: real := 1000.0 / 50.0
  /** Seconds per step, the argument of every `main` call. */
  const STEP_SIZE_S: real := 1.0 / 50.0
  /** Pixels per world unit. */
  const GRID_SIZE: real := 32.0
  /** The camera covers 1/EASING of its remaining distance each frame. */
  const EASING: real := 50.0
  /** The screen point the camera keeps the tank at. */
  const CENTRE_X: real := 600.0
  const CENTRE_Y: real := 400.0

  /** The two step sizes describe the same step, in milliseconds and in seconds. */
  lemma StepSizes()
    ensures STEP_SIZE == 1000.0 * STEP_SIZE_S
  {
  }

  /** `n` main calls with the step size in seconds. */
  function Repeat(step: real, n: nat): (r: seq<real>)
    ensures |r| == n && forall i :: 0 <= i < n ==> r[i] == step
    decreases n
  {
    if n == 0 then [] else Repeat(step, n - 1) + [step]
  }

  /**
   * A total of `total` milliseconds split into `n` whole steps and a
   * remainder in `[0, STEP_SIZE)` is exactly the floor of `total / STEP_SIZE`.
   */
  lemma StepCount(total: real, n: nat, rest: real)
    requires total == (n as real) * STEP_SIZE + rest && 0.0 <= rest < STEP_SIZE
    ensures n == (total / STEP_SIZE).Floor
  {
    assert total / STEP_SIZE == (n as real) + rest / STEP_SIZE;
    assert 0.0 <= rest / STEP_SIZE < 1.0;
  }

  /** One frame of camera easing: 1/50 of the way from `current` to `target`. */
  function Eased(current: real, target: real): (r: real)
    ensures target - r == (target - current) * (49.0 / 50.0)
  {
    current + (target - current) / EASING
  }

  /** The camera position after `n` frames toward a fixed target. */
  function EasedFor(current: real, target: real, n: nat): (r: real)
    decreases n
  {
    if n == 0 then current else EasedFor(Eased(current, target), target, n - 1)
  }

  function Power(b: real, n: nat): (r: real)
    decreases n
  {
    if n == 0 then 1.0 else b * Power(b, n - 1)
  }

  /** After `n` frames toward a fixed target, the remaining offset is the first one times (49/50)^n. */
  lemma {:induction false} EasedForIs(current: real, target: real, n: nat)
    ensures target - EasedFor(current, target, n) == (target - current) * Power(49.0 / 50.0, n)
    decreases n
  {
    if n > 0 {
      var next := Eased(current, target);
      EasedForIs(next, target, n - 1);
      var b, d := 49.0 / 50.0, target - current;
      calc {
        target - EasedFor(current, target, n);
        target - EasedFor(next, target, n - 1);
        (d * b) * Power(b, n - 1);
        d * (b * Power(b, n - 1));
      }
    }
  }

  /** The camera never overshoots: the remaining offset keeps its sign and never grows. */
  lemma {:induction false} EasedForApproaches(current: real, target: real, n: nat)
    ensures var d, r := target - current, target - EasedFor(current, target, n);
      && (d >= 0.0 ==> 0.0 <= r <= d)
      && (d <= 0.0 ==> d <= r <= 0.0)
      && (d != 0.0 ==> r != 0.0)
    decreases n
  {
    if n > 0 {
      EasedForApproaches(Eased(current, target), target, n - 1);
    }
  }

  /** A sprite's transform, as the frame writes it. */
  class Sprite {
    var x: real
    var y: real
    var rotation: real

    constructor ()
      ensures x == 0.0 && y == 0.0 && rotation == 0.0
    {
      x, y, rotation := 0.0, 0.0, 0.0;
    }
  }

  /** `sp` shows `o`: its world position in pixels and its heading. */
  ghost predicate Shows(sp: Sprite, o: GameObject)
    reads sp, o`x, o`y, o`direction
  {
    sp.x == o.x * GRID_SIZE && sp.y == o.y * GRID_SIZE && sp.rotation == o.direction
  }

  /** The graphics layer a block is drawn on. */
  datatype Layer = Background | Foreground

  /** A rectangle filled with a texture, in pixels. */
  datatype Fill = Fill(texture: string, left: real, top: real, width: real, height: real)

  /** The engine's state between frames. */
  class Engine {
    /** Milliseconds not yet consumed by a step. */
    var delta: real
    /** Whether `registerMain` has replaced the initial no-op `main`. */
    var registered: bool
    /** The step sizes the registered `main` has been called with, in order. */
    var received: seq<real>
    /** `trackedObjects`: a sprite per shell, and the map's iteration order. */
    var tracked: map<GameObject, Sprite>
    var order: seq<GameObject>
    /** The bound actor and the tank sprite that shows it. */
    var actor: GameObject?
    const tank: Sprite
    /** The viewport's position. */
    var viewX: real
    var viewY: real
    /** The rectangles filled on the background `grid` and the foreground `blocks`. */
    var grid: seq<Fill>
    var blocks: seq<Fill>

    /**
     * The iteration order lists every tracked object once, and every
     * tracked object has a sprite of its own, which is not the tank's.
     */
    ghost predicate Tracks()
      reads this
    {
      && tracked.Keys == (set o | o in order)
      && (forall i, j :: 0 <= i < j < |order| ==> order[i] != order[j])
      && (forall i, j :: 0 <= i < j < |order| ==> tracked[order[i]] != tracked[order[j]])
      && tank !in tracked.Values
    }

    /** `Tracks`, and the accumulator holds less than one step. */
    ghost predicate Valid()
      reads this
    {
      Tracks() && 0.0 <= delta < STEP_SIZE
    }

    /** The state `init` sets up: nothing accumulated, tracked, bound or drawn, and a no-op `main`. */
    constructor ()
      ensures delta == 0.0 && !registered && received == []
      ensures tracked == map[] && order == [] && actor == null
      ensures viewX == 0.0 && viewY == 0.0 && grid == [] && blocks == []
      ensures Valid()
    {
      delta, registered, received := 0.0, false, [];
      tracked, order, actor := map[], [], null;
      tank := new Sprite();
      viewX, viewY := 0.0, 0.0;
      grid, blocks := [], [];
    }

    /** `registerMain(callback)`: from now on `main` reaches the game. */
    method RegisterMain()
      modifies this`registered
      ensures registered
    {
      registered := true;
    }

    /** `bindActor(ref)`. */
    method BindActor(ref: GameObject)
      modifies this`actor
      ensures actor == ref
    {
      actor := ref;
    }

    /**
     * `addObject(ref)`: a shell gets a new sprite of its own; a key already
     * tracked keeps its place in the iteration order. Other objects are
     * not tracked.
     */
    method AddObject(ref: GameObject)
      requires Tracks()
      modifies this`tracked, this`order
      ensures ref.sprite == Shell ==> ref in tracked && fresh(tracked[ref])
      ensures ref.sprite == Shell ==> forall o :: o in old(tracked) && o != ref ==> o in tracked && tracked[o] == old(tracked[o])
      ensures ref.sprite == Shell ==> order == if ref in old(tracked) then old(order) else old(order) + [ref]
      ensures ref.sprite != Shell ==> tracked == old(tracked) && order == old(order)
      ensures Tracks()
    {
      if ref.sprite == Shell {
        var sp := new Sprite();
        if ref !in tracked {
          order := order + [ref];
        }
        tracked := tracked[ref := sp];
      }
    }

    /** `main(stepSize)`: the initial no-op, or the registered callback. */
    method CallMain(stepSize: real)
      modifies this`received
      ensures received == old(received) + (if registered then [stepSize] else [])
    {
      if registered {
        received := received + [stepSize];
      }
    }

    /**
     * The accumulator: add the frame's milliseconds, then take whole steps
     * while at least one is left, calling `main` once per step. On a
     * non-negative total the number of steps is its floor division by
     * `STEP_SIZE`, and less than one step is left over.
     */
    method Accumulate(deltaMS: real) returns (n: nat)
      modifies this`delta, this`received
      ensures old(delta) + deltaMS == (n as real) * STEP_SIZE + delta
      ensures delta < STEP_SIZE
      ensures old(delta) + deltaMS >= 0.0 ==> 0.0 <= delta && n == ((old(delta) + deltaMS) / STEP_SIZE).Floor
      ensures received == old(received) + (if registered then Repeat(STEP_SIZE_S, n) else [])
    {
      delta := delta + deltaMS;
      n := 0;
      while delta >= STEP_SIZE
        invariant old(delta) + deltaMS == (n as real) * STEP_SIZE + delta
        invariant n > 0 ==> delta >= 0.0
        invariant received == old(received) + (if registered then Repeat(STEP_SIZE_S, n) else [])
        decreases (delta / STEP_SIZE).Floor
      {
        delta := delta - STEP_SIZE;
        CallMain(STEP_SIZE_S);
        n := n + 1;
      }
      if old(delta) + deltaMS >= 0.0 {
        StepCount(old(delta) + deltaMS, n, delta);
      }
    }

    /** Every tracked sprite takes its object's position in pixels and its heading, in iteration order. */
    method CopyTracked()
      requires Tracks()
      modifies tracked.Values
      ensures forall o :: o in tracked ==> Shows(tracked[o], o)
    {
      var i := 0;
      while i < |order|
        invariant 0 <= i <= |order|
        invariant forall j :: 0 <= j < i ==> Shows(tracked[order[j]], order[j])
      {
        var ref := order[i];
        var entry := tracked[ref];
        entry.x, entry.y, entry.rotation := ref.x * GRID_SIZE, ref.y * GRID_SIZE, ref.direction;
        i := i + 1;
      }
    }

    /** The tank sprite takes the bound actor's position in pixels and its heading. */
    method CopyActor()
      modifies tank
      ensures actor != null ==> Shows(tank, actor)
      ensures actor == null ==> unchanged(tank)
    {
      if actor != null {
        tank.x, tank.y, tank.rotation := actor.x * GRID_SIZE, actor.y * GRID_SIZE, actor.direction;
      }
    }

    /** The viewport moves 1/50 of the way toward the point that puts the tank at the screen centre. */
    method EaseCamera()
      modifies this`viewX, this`viewY
      ensures viewX == Eased(old(viewX), CENTRE_X - tank.x)
      ensures viewY == Eased(old(viewY), CENTRE_Y - tank.y)
    {
      var targetX, targetY := CENTRE_X - tank.x, CENTRE_Y - tank.y;
      var offsetX, offsetY := targetX - viewX, targetY - viewY;
      viewX, viewY := viewX + offsetX / EASING, viewY + offsetY / EASING;
    }

    /**
     * The ticker callback: the steps, then the sprites, the tank and the
     * camera. It returns the number of steps taken.
     */
    method Frame(deltaMS: real) returns (n: nat)
      requires Valid()
      modifies this`delta, this`received, tracked.Values, tank, this`viewX, this`viewY
      ensures old(delta) + deltaMS == (n as real) * STEP_SIZE + delta
      ensures deltaMS >= 0.0 ==> Valid() && n == ((old(delta) + deltaMS) / STEP_SIZE).Floor
      ensures received == old(received) + (if registered then Repeat(STEP_SIZE_S, n) else [])
      ensures forall o :: o in tracked ==> Shows(tracked[o], o)
      ensures actor != null ==> Shows(tank, actor)
      ensures viewX == Eased(old(viewX), CENTRE_X - tank.x)
      ensures viewY == Eased(old(viewY), CENTRE_Y - tank.y)
    {
      n := Accumulate(deltaMS);
      CopyTracked();
      CopyActor();
      EaseCamera();
    }

    /**
     * `addBlock(type, left, top, width, height)`: water is drawn on the
     * background grid, every other type on the foreground blocks, with the
     * rectangle scaled to pixels.
     */
    method AddBlock(texture: string, left: real, top: real, width: real, height: real)
      modifies this`grid, this`blocks
      ensures var f := Fill(texture, left * GRID_SIZE, top * GRID_SIZE, width * GRID_SIZE, height * GRID_SIZE);
        if LayerOf(texture) == Background then grid == old(grid) + [f] && blocks == old(blocks)
        else blocks == old(blocks) + [f] && grid == old(grid)
    {
      var f := Fill(texture, left * GRID_SIZE, top * GRID_SIZE, width * GRID_SIZE, height * GRID_SIZE);
      if texture == "water" {
        grid := grid + [f];
      } else {
        blocks := blocks + [f];
      }
    }
  }

  /** `'water'` goes on the background grid and everything else on the foreground blocks. */
  function LayerOf(texture: string): (layer: Layer) {
    if texture == "water" then Background else Foreground
  }

  /**
   * The level draws each barrier's block at its position less half its
   * rectangle collider's size, with the collider's size. For a barrier made
   * by `createBarrier(left, top, width, height)` that is the rectangle it was
   * made from, scaled to pixels, and a world point lies in the barrier's
   * collider box exactly when its pixel lies in the drawn block.
   */
  lemma BarrierBlock(texture: string, left: real, top: real, width: real, height: real, px: real, py: real)
    ensures var x, y := Factory.Centre(left, width), Factory.Centre(top, height);
      var f := Fill(texture, (x - width / 2.0) * GRID_SIZE, (y - height / 2.0) * GRID_SIZE, width * GRID_SIZE, height * GRID_SIZE);
      && f == Fill(texture, left * GRID_SIZE, top * GRID_SIZE, width * GRID_SIZE, height * GRID_SIZE)
      && ((x - width / 2.0 <= px <= x + width / 2.0 && y - height / 2.0 <= py <= y + height / 2.0)
          <==> (f.left <= px * GRID_SIZE <= f.left + f.width && f.top <= py * GRID_SIZE <= f.top + f.height))
  {
  }
}
