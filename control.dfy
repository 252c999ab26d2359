/**
 * The player control step `tick` of game.ts: each fixed step it updates
 * the player's speed and heading from the pressed keys, fires a shot and
 * dashes subject to two cooldowns, and then runs the physics update once.
 *
 * The transition over speed, heading and the two ability timers is the
 * pure function `Control`; `Tick` performs it in place on the player and
 * the ability record, creating the shot and calling the physics step.
 */
module Control {
  import opened Vectors
  import opened Entities
  import Factory
  import Physics
  import Engine

  /** The key codes `tick` reads from the controls record. */
  datatype Key = ArrowUp | ArrowDown | ArrowLeft | ArrowRight | Space | ShiftLeft

  const ACCELERATION: real := 20.0
  const MAX_SPEED: real := 10.0
  const TURN_RATE: real := 3.0
  const FRICTION: real := 40.0
  const DASH_SPEED: real := 20.0
  const DASH_TIME: real := 0.25
  const DASH_COOLDOWN: real := 5.0

  function Max(a: real, b: real): (r: real) {
    if a >= b then a else b
  }

  function Min(a: real, b: real): (r: real) {
    if a <= b then a else b
  }

  function Abs(v: real): (r: real) {
    if v < 0.0 then -v else v
  }

  /** `Math.sign`. */
  function Sign(v: real): (r: real) {
    if v > 0.0 then 1.0 else if v < 0.0 then -1.0 else 0.0
  }

  /** Movement: accelerate, reverse, or coast under friction down to 0. */
  function Throttle(keys: set<Key>, speed: real, dt: real): (r: real) {
    if ArrowUp in keys then speed + ACCELERATION * dt
    else if ArrowDown in keys then speed - ACCELERATION * dt
    else if speed > 0.0 then Max(speed - FRICTION * dt, 0.0)
    else if speed < 0.0 then Min(speed + FRICTION * dt, 0.0)
    else speed
  }

  /** The speed limit, suspended for the first `DASH_TIME` of a dash. */
  function Clamp(speed: real, dash: real): (r: real) {
    if Abs(speed) > MAX_SPEED && dash < DASH_COOLDOWN - DASH_TIME then MAX_SPEED * Sign(speed) else speed
  }

  /** Turning: left wins over right. */
  function Turn(keys: set<Key>, direction: real, dt: real): (r: real) {
    if ArrowLeft in keys then direction - TURN_RATE * dt
    else if ArrowRight in keys then direction + TURN_RATE * dt
    else direction
  }

  /** A running timer counts down by `dt` and stops at 0. */
  function Decay(t: real, dt: real): (r: real) {
    if t > 0.0 then Max(t - dt, 0.0) else t
  }

  /** A shot is fired when `Space` is held and the fire cooldown has run out. */
  predicate Fires(keys: set<Key>, cooldown: real) {
    Space in keys && cooldown == 0.0
  }

  /** The fire cooldown after one step: 1 on firing, otherwise counting down. */
  function Cooldown(keys: set<Key>, cooldown: real, dt: real): (r: real) {
    if Fires(keys, cooldown) then 1.0 else Decay(cooldown, dt)
  }

  /** A dash starts when `ShiftLeft` is held and the dash timer has run out. */
  predicate Dashes(keys: set<Key>, dash: real) {
    ShiftLeft in keys && dash == 0.0
  }

  /** The dash timer after one step: `DASH_COOLDOWN` on dashing, otherwise counting down. */
  function DashTimer(keys: set<Key>, dash: real, dt: real): (r: real) {
    if Dashes(keys, dash) then DASH_COOLDOWN else Decay(dash, dt)
  }

  /** The state `tick` changes, apart from the shot it may create. */
  datatype Pilot = Pilot(speed: real, direction: real, cooldown: real, dash: real)

  /**
   * One control step, in the order of `tick`: throttle, clamp (against the
   * dash timer as it was), turn, fire, dash. A dash overrides the speed.
   */
  function Control(keys: set<Key>, p: Pilot, dt: real): (r: Pilot) {
    var moving := Clamp(Throttle(keys, p.speed, dt), p.dash);
    Pilot(
      if Dashes(keys, p.dash) then DASH_SPEED else moving,
      Turn(keys, p.direction, dt),
      Cooldown(keys, p.cooldown, dt),
      DashTimer(keys, p.dash, dt))
  }

  /** `ArrowUp` accelerates and wins over `ArrowDown`; `ArrowDown` alone decelerates by the same amount. */
  lemma ThrottleKeys(keys: set<Key>, speed: real, dt: real)
    ensures ArrowUp in keys ==> Throttle(keys, speed, dt) == speed + ACCELERATION * dt
    ensures ArrowUp in keys ==> Throttle(keys, speed, dt) == Throttle(keys - {ArrowDown}, speed, dt)
    ensures ArrowUp !in keys && ArrowDown in keys ==> Throttle(keys, speed, dt) == speed - ACCELERATION * dt
    ensures Throttle(keys, speed, dt) == Throttle(keys * {ArrowUp, ArrowDown}, speed, dt)
  {
  }

  /**
   * With neither throttle key, friction takes `FRICTION * dt` off the
   * magnitude of the speed, or all of it, and never flips its sign.
   */
  lemma Friction(keys: set<Key>, speed: real, dt: real)
    requires ArrowUp !in keys && ArrowDown !in keys && dt >= 0.0
    ensures var r := Throttle(keys, speed, dt);
      && (speed >= 0.0 ==> 0.0 <= r <= speed)
      && (speed <= 0.0 ==> speed <= r <= 0.0)
      && Abs(r) == Max(Abs(speed) - FRICTION * dt, 0.0)
  {
  }

  /**
   * The clamp changes the speed exactly when it is over the limit and no
   * dash began within the last `DASH_TIME`; it then keeps the sign and sets
   * the magnitude to `MAX_SPEED`.
   */
  lemma ClampFacts(speed: real, dash: real)
    ensures var r := Clamp(speed, dash);
      && (r != speed <==> Abs(speed) > MAX_SPEED && dash < 4.75)
      && (dash < 4.75 ==> Abs(r) <= MAX_SPEED)
      && (r != speed ==> Abs(r) == MAX_SPEED && r * speed > 0.0)
  {
  }

  /** `ArrowLeft` turns left and wins over `ArrowRight`; the heading moves by at most `TURN_RATE * dt`. */
  lemma TurnKeys(keys: set<Key>, direction: real, dt: real)
    requires dt >= 0.0
    ensures ArrowLeft in keys ==> Turn(keys, direction, dt) == direction - TURN_RATE * dt
    ensures ArrowLeft !in keys && ArrowRight in keys ==> Turn(keys, direction, dt) == direction + TURN_RATE * dt
    ensures Abs(Turn(keys, direction, dt) - direction) <= TURN_RATE * dt
    ensures ArrowLeft !in keys && ArrowRight !in keys ==> Turn(keys, direction, dt) == direction
  {
  }

  /** The ability timers stay within their ranges: `0 <= cooldown <= 1` and `0 <= dash <= DASH_COOLDOWN`. */
  ghost predicate Bounded(p: Pilot) {
    0.0 <= p.cooldown <= 1.0 && 0.0 <= p.dash <= DASH_COOLDOWN
  }

  /**
   * A control step keeps the timers in range; a shot resets the cooldown
   * to 1 and a dash sets the timer to `DASH_COOLDOWN` and the speed to
   * `DASH_SPEED`; otherwise neither timer grows.
   */
  lemma ControlFacts(keys: set<Key>, p: Pilot, dt: real)
    requires dt >= 0.0
    ensures var r := Control(keys, p, dt);
      && (Bounded(p) ==> Bounded(r))
      && (Fires(keys, p.cooldown) ==> r.cooldown == 1.0)
      && (!Fires(keys, p.cooldown) && p.cooldown >= 0.0 ==> 0.0 <= r.cooldown <= p.cooldown)
      && (Dashes(keys, p.dash) ==> r.dash == DASH_COOLDOWN && r.speed == DASH_SPEED)
      && (!Dashes(keys, p.dash) && p.dash >= 0.0 ==> 0.0 <= r.dash <= p.dash)
  {
  }

  /** A timer after `n` steps in which it is not restarted. */
  function Decayed(t: real, dt: real, n: nat): (r: real)
    decreases n
  {
    if n == 0 then t else Decayed(Decay(t, dt), dt, n - 1)
  }

  /** `n` steps take `n * dt` off a timer, down to 0. */
  lemma {:induction false} DecayedIs(t: real, dt: real, n: nat)
    requires t >= 0.0 && dt >= 0.0
    ensures Decayed(t, dt, n) == Max(t - (n as real) * dt, 0.0)
    decreases n
  {
    if n > 0 {
      var t' := Decay(t, dt);
      assert t' >= 0.0;
      DecayedIs(t', dt, n - 1);
      assert t' == Max(t - dt, 0.0);
      if t - dt < 0.0 {
        assert t - (n as real) * dt <= t - dt;
      }
    }
  }

  /** A running timer reaches 0 after `n` steps of `dt` exactly when `n * dt` covers it. */
  lemma DecayedZero(t: real, dt: real, n: nat)
    requires t >= 0.0 && dt > 0.0
    ensures Decayed(t, dt, n) == 0.0 <==> (n as real) * dt >= t
  {
    DecayedIs(t, dt, n);
  }

  /**
   * After a dash, the speed limit stays suspended for the steps in which
   * at most `DASH_TIME` has elapsed.
   */
  lemma DashExemption(dt: real, n: nat)
    requires dt > 0.0
    ensures Decayed(DASH_COOLDOWN, dt, n) >= DASH_COOLDOWN - DASH_TIME <==> (n as real) * dt <= DASH_TIME
  {
    DecayedIs(DASH_COOLDOWN, dt, n);
  }

  /**
   * At the engine's step, counted in decrements of the timers: the fire
   * cooldown is back at 0 after 50 decrements (not 49), and the dash timer
   * is still at least `DASH_COOLDOWN - DASH_TIME` after 12 decrements (not
   * after 13). `tick` tests both timers before the step's own decrement, so
   * the first tick that can fire again is the 51st after the shot, and the
   * clamp stays off on the 13 ticks after the dash tick.
   */
  lemma StepTimers()
    ensures Decayed(1.0, Engine.STEP_SIZE_S, 50) == 0.0 && Decayed(1.0, Engine.STEP_SIZE_S, 49) > 0.0
    ensures Decayed(DASH_COOLDOWN, Engine.STEP_SIZE_S, 12) >= DASH_COOLDOWN - DASH_TIME
    ensures Decayed(DASH_COOLDOWN, Engine.STEP_SIZE_S, 13) < DASH_COOLDOWN - DASH_TIME
  {
    DecayedIs(1.0, Engine.STEP_SIZE_S, 50);
    DecayedIs(1.0, Engine.STEP_SIZE_S, 49);
    DashExemption(Engine.STEP_SIZE_S, 12);
    DashExemption(Engine.STEP_SIZE_S, 13);
  }

  /** Without `Space`, the fire cooldown decays like a plain timer. */
  lemma CooldownIdle(keys: set<Key>, cooldown: real, dt: real)
    requires Space !in keys
    ensures Cooldown(keys, cooldown, dt) == Decay(cooldown, dt)
  {
  }

  /** The ability state `{ cooldown, dash }` of `start`. */
  class Abilities {
    var cooldown: real
    var dash: real

    constructor ()
      ensures cooldown == 0.0 && dash == 0.0
    {
      cooldown, dash := 0.0, 0.0;
    }
  }

  /** The player's and abilities' fields as a `Pilot`. */
  function PilotOf(player: GameObject, abilities: Abilities): (p': Pilot)
    reads player`speed, player`direction, abilities
  {
    Pilot(player.speed, player.direction, abilities.cooldown, abilities.dash)
  }

  /** Movement and turning, against the dash timer as it stands. */
  method Drive(player: GameObject, dash: real, keys: set<Key>, dt: real)
    modifies player`speed, player`direction
    ensures player.speed == Clamp(Throttle(keys, old(player.speed), dt), dash)
    ensures player.direction == Turn(keys, old(player.direction), dt)
  {
    if ArrowUp in keys {
      player.speed := player.speed + ACCELERATION * dt;
    } else if ArrowDown in keys {
      player.speed := player.speed - ACCELERATION * dt;
    } else if player.speed > 0.0 {
      player.speed := Max(player.speed - FRICTION * dt, 0.0);
    } else if player.speed < 0.0 {
      player.speed := Min(player.speed + FRICTION * dt, 0.0);
    }
    if Abs(player.speed) > MAX_SPEED && dash < DASH_COOLDOWN - DASH_TIME {
      player.speed := MAX_SPEED * Sign(player.speed);
    }
    if ArrowLeft in keys {
      player.direction := player.direction - TURN_RATE * dt;
    } else if ArrowRight in keys {
      player.direction := player.direction + TURN_RATE * dt;
    }
  }

  /** Shooting: on firing, the cooldown becomes 1 and `createShot(player)` runs. */
  method Fire(reg: Registry, player: GameObject, abilities: Abilities, keys: set<Key>, dt: real)
    returns (shot: GameObject?)
    requires reg.Valid()
    modifies abilities`cooldown, reg`colliders
    ensures abilities.cooldown == Cooldown(keys, old(abilities.cooldown), dt)
    ensures shot != null <==> Fires(keys, old(abilities.cooldown))
    ensures shot != null ==> fresh(shot) && shot.x == player.x && shot.y == player.y && shot.direction == player.direction
    ensures shot != null ==> shot.speed == 25.0 && shot.weight == 0.0 && shot.sprite == Shell && shot.alive
    ensures shot != null ==> |shot.components| == 1 && shot.components[0].shape == Collision.Circle(0.1)
    ensures reg.Valid()
    ensures reg.colliders == old(reg.colliders) + (if shot != null then shot.components else [])
    ensures reg.Owners() == old(reg.Owners()) + (if shot != null then [shot] else [])
  {
    shot := null;
    if Space in keys && abilities.cooldown == 0.0 {
      abilities.cooldown := 1.0;
      shot := Factory.CreateShot(reg, player);
    } else if abilities.cooldown > 0.0 {
      abilities.cooldown := Max(abilities.cooldown - dt, 0.0);
    }
  }

  /** `engine.addObject(shot)` for the shot `tick` fired, if any: the engine starts tracking it. */
  method Track(engine: Engine.Engine, shot: GameObject?)
    requires engine.Tracks() && (shot != null ==> shot.sprite == Shell && shot !in engine.tracked)
    modifies engine`tracked, engine`order
    ensures Tracked(engine, old(engine.tracked), old(engine.order), shot)
  {
    if shot != null {
      engine.AddObject(shot);
    }
  }

  /**
   * The engine tracks `shot`, when there is one, with a new sprite of its
   * own, after the objects of `tracked` in `order`; every object tracked
   * before keeps its sprite.
   */
  ghost predicate Tracked(engine: Engine.Engine, tracked: map<GameObject, Engine.Sprite>, order: seq<GameObject>, shot: GameObject?)
    reads engine
  {
    && engine.Tracks()
    && (forall o :: o in tracked ==> o in engine.tracked && engine.tracked[o] == tracked[o])
    && (shot != null ==> shot in engine.tracked && engine.tracked[shot] !in tracked.Values && engine.order == order + [shot])
    && (shot == null ==> engine.tracked == tracked && engine.order == order)
  }

  /** Dashing: on dashing, the timer becomes `DASH_COOLDOWN` and the speed `DASH_SPEED`. */
  method Dash(player: GameObject, abilities: Abilities, keys: set<Key>, dt: real)
    modifies player`speed, abilities`dash
    ensures abilities.dash == DashTimer(keys, old(abilities.dash), dt)
    ensures player.speed == if Dashes(keys, old(abilities.dash)) then DASH_SPEED else old(player.speed)
  {
    if ShiftLeft in keys && abilities.dash == 0.0 {
      abilities.dash := DASH_COOLDOWN;
      player.speed := DASH_SPEED;
    } else if abilities.dash > 0.0 {
      abilities.dash := Max(abilities.dash - dt, 0.0);
    }
  }

  /**
   * The control updates of `tick`: movement and turning, dashing, shooting.
   * Dashing and shooting touch disjoint state (the dash timer and speed;
   * the fire cooldown, the registry and a new shot that copies
   * position and heading), so running the dash branch first gives the same
   * result.
   */
  method Steer(reg: Registry, player: GameObject, abilities: Abilities, keys: set<Key>, dt: real)
    returns (shot: GameObject?)
    requires reg.Valid()
    modifies player`speed, player`direction, abilities, reg`colliders
    ensures PilotOf(player, abilities) == Control(keys, old(PilotOf(player, abilities)), dt)
    ensures shot != null <==> Fires(keys, old(abilities.cooldown))
    ensures shot != null ==> fresh(shot) && shot.x == player.x && shot.y == player.y && shot.direction == player.direction
    ensures shot != null ==> shot.speed == 25.0 && shot.weight == 0.0 && shot.sprite == Shell && shot.alive
    ensures reg.Valid()
    ensures reg.colliders == old(reg.colliders) + (if shot != null then shot.components else [])
    ensures reg.Owners() == old(reg.Owners()) + (if shot != null then [shot] else [])
  {
    Handle(player, abilities, keys, dt);
    shot := Fire(reg, player, abilities, keys, dt);
  }

  /** The movement, turning and dash branches of `tick`, as one update of the player and its dash timer. */
  method Handle(player: GameObject, abilities: Abilities, keys: set<Key>, dt: real)
    modifies player`speed, player`direction, abilities`dash
    ensures var p := Control(keys, old(PilotOf(player, abilities)), dt);
      player.speed == p.speed && player.direction == p.direction && abilities.dash == p.dash
  {
    Drive(player, abilities.dash, keys, dt);
    Dash(player, abilities, keys, dt);
  }

  /**
   * The physics step took the owners `s`, in registry order `owners`, with
   * properties `props` at positions `before`, to their current positions.
   */
  ghost predicate Stepped(s: set<GameObject>, owners: seq<GameObject>, props: map<GameObject, Physics.Props>, before: map<GameObject, Physics.Pos>, m: Math, dt: real)
    reads s`x, s`y
  {
    Physics.Fits(owners, props, before) && Physics.PositionsIn(s) == Physics.Step(owners, props, before, m, dt)
  }

  /**
   * `updatePhysics(dt)`, returning the inputs of the step it took: the
   * registry's owners, their registry order, their properties and their
   * positions before the step. None of them but the positions changes.
   */
  method Simulate(reg: Registry, ghost s0: set<GameObject>, dt: real, m: Math)
    returns (ghost s: set<GameObject>, ghost owners: seq<GameObject>,
             ghost props: map<GameObject, Physics.Props>, ghost before: map<GameObject, Physics.Pos>)
    requires reg.Valid() && s0 == reg.OwnerSet()
    modifies s0`x, s0`y
    ensures s == s0 && owners == old(reg.Owners())
    ensures props == old(Physics.PropsOf(reg)) && before == old(Physics.PositionsOf(reg))
    ensures reg.Valid() && reg.OwnerSet() == s && reg.Owners() == owners && Physics.PropsOf(reg) == props
    ensures Stepped(s, owners, props, before, m, dt)
  {
    s, owners, props, before := reg.OwnerSet(), reg.Owners(), Physics.PropsOf(reg), Physics.PositionsOf(reg);
    Physics.Update(reg, dt, m);
  }

  /**
   * `tick(dt)`: the control updates, `engine.addObject` for the new shot,
   * then one physics update on the registry as they left it. The engine
   * call runs after the dash branch here rather than before it; the dash
   * branch touches nothing the engine holds. The ghost results name the
   * inputs of the physics step: the owners and registry order, which are
   * those of the registry afterwards; their properties, which the step
   * leaves as they are; and their positions before it, which are the old
   * positions plus the new shot's at the player's old position.
   */
  method Tick(reg: Registry, engine: Engine.Engine, player: GameObject, abilities: Abilities, keys: set<Key>, dt: real, m: Math)
    returns (shot: GameObject?, ghost s: set<GameObject>, ghost owners: seq<GameObject>,
             ghost props: map<GameObject, Physics.Props>, ghost before: map<GameObject, Physics.Pos>)
    requires reg.Valid() && engine.Tracks()
    modifies player`speed, player`direction, abilities, reg`colliders, reg.OwnerSet()`x, reg.OwnerSet()`y
    modifies engine`tracked, engine`order
    ensures PilotOf(player, abilities) == Control(keys, old(PilotOf(player, abilities)), dt)
    ensures shot != null <==> Fires(keys, old(abilities.cooldown))
    ensures shot != null ==> fresh(shot) && shot.direction == player.direction && shot.speed == 25.0
    ensures shot != null ==> shot.weight == 0.0 && shot.sprite == Shell && shot.alive
    ensures reg.colliders == old(reg.colliders) + (if shot != null then shot.components else [])
    ensures Tracked(engine, old(engine.tracked), old(engine.order), shot)
    ensures reg.Valid() && s == reg.OwnerSet() && owners == reg.Owners() && props == Physics.PropsOf(reg)
    ensures owners == old(reg.Owners()) + (if shot != null then [shot] else [])
    ensures before == if shot != null then old(Physics.PositionsOf(reg))[shot := Physics.Pos(old(player.x), old(player.y))] else old(Physics.PositionsOf(reg))
    ensures Stepped(s, owners, props, before, m, dt)
  {
    shot := Controls(reg, player, abilities, keys, dt);
    s, owners, props, before := Finish(reg, engine, player, abilities, shot, dt, m);
  }

  /**
   * The rest of `tick` once the controls have run: `engine.addObject(shot)`,
   * then `updatePhysics(dt)`.
   */
  method Finish(reg: Registry, engine: Engine.Engine, player: GameObject, abilities: Abilities, shot: GameObject?, dt: real, m: Math)
    returns (ghost s: set<GameObject>, ghost owners: seq<GameObject>,
             ghost props: map<GameObject, Physics.Props>, ghost before: map<GameObject, Physics.Pos>)
    requires reg.Valid() && engine.Tracks() && (shot != null ==> shot.sprite == Shell && shot !in engine.tracked)
    modifies reg.OwnerSet()`x, reg.OwnerSet()`y, engine`tracked, engine`order
    ensures Tracked(engine, old(engine.tracked), old(engine.order), shot)
    ensures s == old(reg.OwnerSet()) && owners == old(reg.Owners())
    ensures props == old(Physics.PropsOf(reg)) && before == old(Physics.PositionsOf(reg))
    ensures reg.Valid() && reg.OwnerSet() == s && reg.Owners() == owners && Physics.PropsOf(reg) == props
    ensures Stepped(s, owners, props, before, m, dt)
    ensures reg.colliders == old(reg.colliders) && PilotOf(player, abilities) == old(PilotOf(player, abilities))
    ensures shot != null ==> shot.direction == old(shot.direction) && shot.speed == old(shot.speed) && shot.alive == old(shot.alive) && shot.components == old(shot.components)
  {
    ghost var s0 := reg.OwnerSet();
    label Start:
    Track(engine, shot);
    Physics.RegistryUntouched@Start(reg, s0);
    s, owners, props, before := Advance(reg, player, abilities, shot, dt, m);
  }

  /**
   * `Steer` as `tick` sees it: the registry gains the shot, if any, as an
   * owner at the player's old position, and nobody else moves.
   */
  method Controls(reg: Registry, player: GameObject, abilities: Abilities, keys: set<Key>, dt: real)
    returns (shot: GameObject?)
    requires reg.Valid()
    modifies player`speed, player`direction, abilities, reg`colliders
    ensures PilotOf(player, abilities) == Control(keys, old(PilotOf(player, abilities)), dt)
    ensures shot != null <==> Fires(keys, old(abilities.cooldown))
    ensures shot != null ==> fresh(shot) && shot.direction == player.direction && shot.speed == 25.0
    ensures shot != null ==> shot.weight == 0.0 && shot.sprite == Shell && shot.alive
    ensures reg.Valid()
    ensures reg.colliders == old(reg.colliders) + (if shot != null then shot.components else [])
    ensures reg.Owners() == old(reg.Owners()) + (if shot != null then [shot] else [])
    ensures reg.OwnerSet() == old(reg.OwnerSet()) + (if shot != null then {shot} else {})
    ensures Physics.PositionsOf(reg) == if shot != null then old(Physics.PositionsOf(reg))[shot := Physics.Pos(old(player.x), old(player.y))] else old(Physics.PositionsOf(reg))
  {
    ghost var s0, os0, p0 := reg.OwnerSet(), reg.Owners(), Physics.PositionsOf(reg);
    OwnerSetIs(reg);
    shot := Steer(reg, player, abilities, keys, dt);
    OwnerSetIs(reg);
    OwnersAppended(os0, if shot != null then [shot] else []);
    Physics.SamePositions(s0, p0);
    if shot != null {
      Physics.PositionsAdded(s0, shot);
    }
  }

  /**
   * `updatePhysics(dt)` as `tick` sees it: besides the positions it
   * changes nothing the control updates just set.
   */
  method Advance(reg: Registry, player: GameObject, abilities: Abilities, shot: GameObject?, dt: real, m: Math)
    returns (ghost s: set<GameObject>, ghost owners: seq<GameObject>,
             ghost props: map<GameObject, Physics.Props>, ghost before: map<GameObject, Physics.Pos>)
    requires reg.Valid()
    modifies reg.OwnerSet()`x, reg.OwnerSet()`y
    ensures s == old(reg.OwnerSet()) && owners == old(reg.Owners())
    ensures props == old(Physics.PropsOf(reg)) && before == old(Physics.PositionsOf(reg))
    ensures reg.Valid() && reg.OwnerSet() == s && reg.Owners() == owners && Physics.PropsOf(reg) == props
    ensures Stepped(s, owners, props, before, m, dt)
    ensures reg.colliders == old(reg.colliders) && PilotOf(player, abilities) == old(PilotOf(player, abilities))
    ensures shot != null ==> shot.direction == old(shot.direction) && shot.speed == old(shot.speed) && shot.alive == old(shot.alive) && shot.components == old(shot.components)
  {
    s, owners, props, before := Simulate(reg, reg.OwnerSet(), dt, m);
  }
}
