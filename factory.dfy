/**
 * The entity factory of factory.ts: each function builds a `GameObject`
 * with fixed weight, sprite and (for shots) motion, constructs its one
 * collider, which registers itself, and adds the collider to the object.
 */
module Factory {
  import opened Collision
  import opened Entities
  import Physics

  /** The centre coordinate of a span that starts at `low` and has length `size`. */
  function Centre(low: real, size: real): (c: real)
    ensures c - size / 2.0 == low
  {
    low + size / 2.0
  }

  /**
   * Constructs collider `shape` for the new object `o` and adds it: the
   * registry grows by exactly that collider, owned by `o`, and stays valid.
   */
  method Attach(reg: Registry, o: GameObject, shape: Shape) returns (c: Collider)
    requires reg.Valid() && o.Valid() && o.components == [] && o.weight >= 0.0
    modifies reg`colliders, o`components, o`index
    ensures fresh(c) && c.shape == shape && c.parent == o
    ensures o.components == [c] && o.Valid()
    ensures reg.colliders == old(reg.colliders) + [c]
    ensures reg.Owners() == old(reg.Owners()) + [o]
    ensures reg.Valid()
  {
    c := new Collider(shape, reg);
    o.AddComponent(c);
    Registered(reg, o, c);
  }

  /**
   * The common shape of the three factories: `new GameObject(x, y, { weight,
   * sprite })`, then `addComponent` of a new collider of `shape`.
   */
  method Spawn(reg: Registry, x: real, y: real, weight: real, sprite: SpriteType, shape: Shape) returns (o: GameObject)
    requires reg.Valid() && weight >= 0.0
    modifies reg`colliders
    ensures fresh(o) && o.x == x && o.y == y && o.direction == 0.0 && o.speed == 0.0 && o.alive
    ensures o.weight == weight && o.sprite == sprite
    ensures |o.components| == 1 && o.components[0].shape == shape && o.components[0].parent == o
    ensures reg.colliders == old(reg.colliders) + o.components
    ensures reg.Owners() == old(reg.Owners()) + [o]
    ensures o.Valid() && reg.Valid()
  {
    o := new GameObject(x, y, weight, sprite);
    var c := Attach(reg, o, shape);
  }

  /** `createPlayer(x, y)`: weight 1, a tank sprite and one circle collider of radius 0.5. */
  method CreatePlayer(reg: Registry, x: real, y: real) returns (o: GameObject)
    requires reg.Valid()
    modifies reg`colliders
    ensures fresh(o) && o.x == x && o.y == y && o.direction == 0.0 && o.speed == 0.0 && o.alive
    ensures o.weight == 1.0 && o.sprite == Tank
    ensures |o.components| == 1 && o.components[0].shape == Circle(0.5) && o.components[0].parent == o
    ensures reg.colliders == old(reg.colliders) + o.components
    ensures reg.Owners() == old(reg.Owners()) + [o]
    ensures o.Valid() && reg.Valid()
  {
    o := Spawn(reg, x, y, 1.0, Tank, Circle(0.5));
  }

  /**
   * `createBarrier(left, top, width, height)`: centred on the rectangle,
   * weight 0, a barrier sprite and one rectangle collider of that size.
   */
  method CreateBarrier(reg: Registry, left: real, top: real, width: real, height: real) returns (o: GameObject)
    requires reg.Valid()
    modifies reg`colliders
    ensures fresh(o) && o.x - width / 2.0 == left && o.y - height / 2.0 == top
    ensures o.direction == 0.0 && o.speed == 0.0 && o.alive
    ensures o.weight == 0.0 && o.sprite == Barrier
    ensures |o.components| == 1 && o.components[0].shape == Rect(width, height) && o.components[0].parent == o
    ensures reg.colliders == old(reg.colliders) + o.components
    ensures reg.Owners() == old(reg.Owners()) + [o]
    ensures o.Valid() && reg.Valid()
  {
    var x := Centre(left, width);
    var y := Centre(top, height);
    o := Spawn(reg, x, y, 0.0, Barrier, Rect(width, height));
  }

  /**
   * `createShot(source)`: at the source's position and heading, speed 25,
   * weight 0, a shell sprite and one circle collider of radius 0.1; the
   * source itself is left alone.
   */
  method CreateShot(reg: Registry, source: GameObject) returns (o: GameObject)
    requires reg.Valid()
    modifies reg`colliders
    ensures fresh(o) && o.x == source.x && o.y == source.y && o.direction == source.direction
    ensures o.speed == 25.0 && o.alive && o.weight == 0.0 && o.sprite == Shell
    ensures |o.components| == 1 && o.components[0].shape == Circle(0.1) && o.components[0].parent == o
    ensures reg.colliders == old(reg.colliders) + o.components
    ensures reg.Owners() == old(reg.Owners()) + [o]
    ensures reg.OwnerSet() == old(reg.OwnerSet()) + {o}
    ensures Physics.PositionsOf(reg) == old(Physics.PositionsOf(reg))[o := Physics.Pos(source.x, source.y)]
    ensures o.Valid() && reg.Valid()
  {
    ghost var s0, os0, p0 := reg.OwnerSet(), reg.Owners(), Physics.PositionsOf(reg);
    OwnerSetIs(reg);
    o := Shot(reg, source.x, source.y, source.direction);
    OwnerSetIs(reg);
    OwnersAppended(os0, [o]);
    Physics.SamePositions(s0, p0);
    Physics.PositionsAdded(s0, o);
  }

  /** `createShot` on the source's position and heading, read before anything is allocated. */
  method Shot(reg: Registry, x: real, y: real, direction: real) returns (o: GameObject)
    requires reg.Valid()
    modifies reg`colliders
    ensures fresh(o) && o.x == x && o.y == y && o.direction == direction
    ensures o.speed == 25.0 && o.alive && o.weight == 0.0 && o.sprite == Shell
    ensures |o.components| == 1 && o.components[0].shape == Circle(0.1) && o.components[0].parent == o
    ensures reg.colliders == old(reg.colliders) + o.components
    ensures reg.Owners() == old(reg.Owners()) + [o]
    ensures o.Valid() && reg.Valid()
  {
    o := Spawn(reg, x, y, 0.0, Shell, Circle(0.1));
    o.direction, o.speed := direction, 25.0;
  }

  /** Two weight-0 owners, such as a shot and a barrier, are never resolved against each other. */
  lemma WeightlessPairSkipped(qa: Physics.Props, qb: Physics.Props)
    requires qa.weight == 0.0 && qb.weight == 0.0
    ensures !Physics.Engages(qa, qb) && !Physics.Engages(qb, qa)
  {
  }
}
