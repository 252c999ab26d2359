/**
 * Game objects, their components and the collider registry
 * (GameObject.ts, and the `Collider` classes and module-level `colliders`
 * array of physics.ts).
 *
 * The only components the core attaches are colliders, so a component is a
 * `Collider` and its kind is the kind of its shape. The registry, a
 * module-level array in the source, is an explicit `Registry` object.
 */
module Entities {
  import opened Collision

  /** The component classes of the core, used as keys of the component index. */
  datatype Kind = CircleKind | RectKind

  function KindOf(s: Shape): (kind: Kind) {
    if s.Circle? then CircleKind else RectKind
  }

  /** The sprite types the core assigns; the asset list itself is not part of this model. */
  datatype SpriteType = Tank | Barrier | Shell

  /**
   * A `CircleCollider` or `RectCollider`. Its constructor appends it to the
   * registry; `parent` is set when it is added to an object. Its own
   * `update` does nothing.
   */
  class Collider {
    const shape: Shape
    var parent: GameObject?

    constructor (shape: Shape, reg: Registry)
      modifies reg`colliders
      ensures this.shape == shape && parent == null
      ensures reg.colliders == old(reg.colliders) + [this]
    {
      this.shape := shape;
      parent := null;
      new;
      reg.colliders := reg.colliders + [this];
    }
  }

  /** The components of kind `k` among `cs`, in insertion order. */
  function OfKind(cs: seq<Collider>, k: Kind): (cs': seq<Collider>) {
    if cs == [] then []
    else
      var last := cs[|cs| - 1];
      OfKind(cs[..|cs| - 1], k) + (if KindOf(last.shape) == k then [last] else [])
  }

  /** Appending a component extends exactly its own kind's list. */
  lemma OfKindSnoc(cs: seq<Collider>, c: Collider, k: Kind)
    ensures OfKind(cs + [c], k) == OfKind(cs, k) + (if KindOf(c.shape) == k then [c] else [])
  {
    assert (cs + [c])[..|cs|] == cs;
  }

  /** `cs[i]` is the first component of kind `k`. */
  ghost predicate FirstOfKind(cs: seq<Collider>, k: Kind, i: int) {
    && 0 <= i < |cs|
    && KindOf(cs[i].shape) == k
    && forall j :: 0 <= j < i ==> KindOf(cs[j].shape) != k
  }

  /**
   * `OfKind` holds every component of kind `k` and nothing else; it is
   * empty exactly when no component has kind `k`, and otherwise it starts
   * with the first one.
   */
  lemma {:induction false} OfKindFacts(cs: seq<Collider>, k: Kind)
    ensures forall c :: c in OfKind(cs, k) <==> c in cs && KindOf(c.shape) == k
    ensures OfKind(cs, k) == [] <==> forall i :: 0 <= i < |cs| ==> KindOf(cs[i].shape) != k
    ensures OfKind(cs, k) != [] ==> exists i :: FirstOfKind(cs, k, i) && cs[i] == OfKind(cs, k)[0]
  {
    if cs != [] {
      var init, last := cs[..|cs| - 1], cs[|cs| - 1];
      assert cs == init + [last];
      OfKindFacts(init, k);
      if OfKind(init, k) != [] {
        var i :| FirstOfKind(init, k, i) && init[i] == OfKind(init, k)[0];
        assert FirstOfKind(cs, k, i);
      } else if KindOf(last.shape) == k {
        assert FirstOfKind(cs, k, |cs| - 1);
      }
    }
  }

  /** The index entry of kind `k` is present exactly when `cs` has components of kind `k`, and lists them. */
  ghost predicate IndexedAs(cs: seq<Collider>, index: map<Kind, seq<Collider>>, k: Kind) {
    && (k in index <==> OfKind(cs, k) != [])
    && (k in index ==> index[k] == OfKind(cs, k))
  }

  /** `index` is the component index of `cs`, for both kinds. */
  ghost predicate Consistent(cs: seq<Collider>, index: map<Kind, seq<Collider>>) {
    IndexedAs(cs, index, CircleKind) && IndexedAs(cs, index, RectKind)
  }

  /** A non-empty list of colliders holds a rectangle or a circle. */
  lemma SomeKind(cs: seq<Collider>)
    requires cs != []
    ensures OfKind(cs, RectKind) != [] || OfKind(cs, CircleKind) != []
  {
    OfKindFacts(cs, RectKind);
    OfKindFacts(cs, CircleKind);
    assert KindOf(cs[0].shape) == RectKind || KindOf(cs[0].shape) == CircleKind;
  }

  /**
   * A `GameObject`: position (behind the `x`/`y` accessors), heading, speed,
   * weight, sprite, the `alive` flag, the components in insertion order and
   * the index from kind to that kind's components.
   */
  class GameObject {
    var x: real
    var y: real
    var direction: real
    var speed: real
    const weight: real
    const sprite: SpriteType
    var alive: bool
    var components: seq<Collider>
    var index: map<Kind, seq<Collider>>

    /** The index holds, for each kind that has components, exactly those in order. */
    ghost predicate Valid()
      reads this`components, this`index
    {
      Consistent(components, index)
    }

    /** `new GameObject(x, y, { weight, sprite })`. */
    constructor (x0: real, y0: real, weight: real, sprite: SpriteType)
      ensures x == x0 && y == y0 && direction == 0.0 && speed == 0.0
      ensures this.weight == weight && this.sprite == sprite && alive
      ensures components == [] && index == map[] && Valid()
    {
      x, y := x0, y0;
      direction, speed := 0.0, 0.0;
      this.weight, this.sprite := weight, sprite;
      alive := true;
      components, index := [], map[];
    }

    /** The `x` getter. */
    function X(): (r: real)
      reads this`x
    {
      x
    }

    /** The `y` getter. */
    function Y(): (r: real)
      reads this`y
    {
      y
    }

    /** The `x` setter: the getter returns the stored value; nothing else changes. */
    method SetX(value: real)
      modifies this`x
      ensures X() == value
    {
      x := value;
    }

    /** The `y` setter: the getter returns the stored value; nothing else changes. */
    method SetY(value: real)
      modifies this`y
      ensures Y() == value
    {
      y := value;
    }

    /**
     * `addComponent`: sets the component's parent, appends it to the
     * components and to the end of its kind's list, creating that list if
     * absent; the other kinds' lists are unchanged.
     */
    method AddComponent(c: Collider)
      requires Valid()
      modifies this`components, this`index, c`parent
      ensures c.parent == this
      ensures components == old(components) + [c]
      ensures var k := KindOf(c.shape);
        index == old(index)[k := (if k in old(index) then old(index)[k] else []) + [c]]
      ensures Valid()
    {
      OfKindSnoc(components, c, CircleKind);
      OfKindSnoc(components, c, RectKind);
      c.parent := this;
      components := components + [c];
      var k := KindOf(c.shape);
      if k !in index {
        index := index[k := []];
      }
      index := index[k := index[k] + [c]];
    }

    /** `getComponent(k)`: the first component of kind `k` that was added, or null. */
    function GetComponent(k: Kind): (r: Collider?)
      reads this`components, this`index
      requires Valid()
      ensures r == null <==> forall i :: 0 <= i < |components| ==> KindOf(components[i].shape) != k
      ensures r != null ==> exists i :: FirstOfKind(components, k, i) && r == components[i]
    {
      OfKindFacts(components, k);
      assert IndexedAs(components, index, k) by { if k.CircleKind? { assert k == CircleKind; } else { assert k == RectKind; } }
      if k in index then index[k][0] else null
    }

    /** `getComponents(k)`: every component of kind `k` in insertion order, or none (`undefined`). */
    function GetComponents(k: Kind): (r: Option<seq<Collider>>)
      reads this`components, this`index
      requires Valid()
      ensures r.None? <==> forall i :: 0 <= i < |components| ==> KindOf(components[i].shape) != k
      ensures r.Some? ==> r.value == OfKind(components, k)
      ensures r.Some? ==> forall j :: 0 <= j < |r.value| ==> r.value[j] in components && KindOf(r.value[j].shape) == k
      ensures r.Some? ==> forall i :: 0 <= i < |components| && KindOf(components[i].shape) == k ==> components[i] in r.value
    {
      OfKindFacts(components, k);
      assert IndexedAs(components, index, k) by { if k.CircleKind? { assert k == CircleKind; } else { assert k == RectKind; } }
      if k in index then Some(index[k]) else None
    }

    /**
     * The shape physics uses for this object: its first rectangle collider,
     * or else its first circle collider (the `||` of two `getComponent`
     * calls).
     */
    function ColliderShape(): (s: Shape)
      reads this`components, this`index
      requires Valid() && components != []
      ensures OfKind(components, RectKind) != [] ==> s == OfKind(components, RectKind)[0].shape
      ensures OfKind(components, RectKind) == [] ==> s == OfKind(components, CircleKind)[0].shape
    {
      SomeKind(components);
      var r := GetComponent(RectKind);
      if r != null then r.shape
      else
        var c := GetComponent(CircleKind);
        c.shape
    }

    /**
     * `update`: when alive, calls `update` on every component in insertion
     * order (a collider's `update` does nothing); returns the components
     * called, in order.
     */
    method Update() returns (called: seq<Collider>)
      ensures called == if alive then components else []
    {
      called := [];
      if alive {
        var i := 0;
        while i < |components|
          invariant 0 <= i <= |components|
          invariant called == components[..i]
        {
          called := called + [components[i]];
          i := i + 1;
        }
      }
    }
  }

  datatype Option<T> = None | Some(value: T)

  /** The colliders that own `c` have a parent. */
  ghost predicate Linked(cs: seq<Collider>)
    reads cs
  {
    forall i :: 0 <= i < |cs| ==> cs[i].parent != null
  }

  /** The owners of `cs`, position by position (an owner with two colliders appears twice). */
  ghost function ParentsOf(cs: seq<Collider>): (os: seq<GameObject>)
    reads cs
    requires Linked(cs)
    ensures |os| == |cs| && forall i :: 0 <= i < |cs| ==> os[i] == cs[i].parent
  {
    if cs == [] then [] else ParentsOf(cs[..|cs| - 1]) + [cs[|cs| - 1].parent]
  }

  /**
   * Registering one more collider `c`, added to a new owner `o` whose
   * index is consistent, keeps the registry valid and appends `o` to its
   * owners, provided the earlier colliders and their owners are untouched.
   */
  twostate lemma Registered(reg: Registry, new o: GameObject, new c: Collider)
    requires old(reg.Valid())
    requires reg.colliders == old(reg.colliders) + [c]
    requires c.parent == o && c in o.components && o.Valid() && o.weight >= 0.0
    requires forall i :: 0 <= i < |old(reg.colliders)| ==> old(reg.colliders)[i].parent == old(reg.colliders[i].parent)
    requires forall p :: p in old(reg.OwnerSet()) ==> p.components == old(p.components) && p.index == old(p.index)
    ensures reg.Valid()
    ensures reg.Owners() == old(reg.Owners()) + [o]
  {
    ghost var cs := old(reg.colliders);
    assert reg.colliders[..|cs|] == cs;
    assert Linked(reg.colliders);
    forall i | 0 <= i < |reg.colliders|
      ensures var p := reg.colliders[i].parent;
        reg.colliders[i] in p.components && p.Valid() && p.weight >= 0.0
    {
      if i < |cs| {
        var p := cs[i].parent;
        assert p == old(cs[i].parent) && p in old(reg.OwnerSet());
      }
    }
    ghost var after, before := reg.Owners(), old(reg.Owners());
    assert forall i :: 0 <= i < |before| ==> after[i] == before[i];
  }

  /** The owner set holds exactly the owners listed. */
  lemma OwnerSetListed(reg: Registry)
    requires Linked(reg.colliders)
    ensures forall o :: o in reg.OwnerSet() <==> o in reg.Owners()
  {
    var os := reg.Owners();
    forall o | o in reg.Owners()
      ensures o in reg.OwnerSet()
    {
      var i :| 0 <= i < |os| && os[i] == o;
      assert reg.colliders[i].parent == o;
    }
  }

  /** The owner set is the set of the owners listed. */
  lemma OwnerSetIs(reg: Registry)
    requires Linked(reg.colliders)
    ensures reg.OwnerSet() == set o | o in reg.Owners()
  {
    OwnerSetListed(reg);
  }

  /** The set of the owners of a concatenation is the union of the two sets. */
  lemma OwnersAppended(os: seq<GameObject>, extra: seq<GameObject>)
    ensures (set o | o in os + extra) == (set o | o in os) + (set o | o in extra)
  {
  }

  /** The module-level `colliders` array: every collider ever constructed, in order. */
  class Registry {
    var colliders: seq<Collider>

    constructor ()
      ensures colliders == []
    {
      colliders := [];
    }

    /** The owners of the registered colliders, in registry order. */
    ghost function Owners(): (os: seq<GameObject>)
      reads this, colliders
      requires Linked(colliders)
    {
      ParentsOf(colliders)
    }

    ghost function OwnerSet(): (os: set<GameObject>)
      reads this, colliders
    {
      set i | 0 <= i < |colliders| && colliders[i].parent != null :: colliders[i].parent
    }

    /**
     * Every registered collider has been added to its owner, whose index is
     * consistent and whose weight is non-negative.
     */
    ghost predicate Valid()
      reads this, colliders, OwnerSet()`components, OwnerSet()`index
    {
      && Linked(colliders)
      && forall i :: 0 <= i < |colliders| ==>
           var o := colliders[i].parent;
           colliders[i] in o.components && o.Valid() && o.weight >= 0.0
    }
  }
}
