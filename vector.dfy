/**
 * The 2D vector of the physics module, and the three host Math functions
 * the physics code calls.
 *
 * Numbers are modelled as `real`. The collision routines build a fresh
 * vector for every result and never share it, so their results are the
 * value type `Vec`; the mutable `Vector` class models the vector API itself
 * (in-place `scale` that returns the receiver, the cached squared magnitude).
 */
module Vectors {

  /**
   * JavaScript's `Math.sqrt`, `Math.cos` and `Math.sin`. They are host code,
   * so the model receives them as a value; `Sound()` lists the facts about
   * them that the proofs rely on.
   */
  datatype Math = Math(sqrt: real -> real, cos: real -> real, sin: real -> real) {
    ghost predicate Sound() {
      && (forall v: real :: 0.0 <= v ==> 0.0 <= sqrt(v) && sqrt(v) * sqrt(v) == v)
      && sqrt(0.0) == 0.0
      && cos(0.0) == 1.0
      && sin(0.0) == 0.0
    }
  }

  /**
   * A vector value. `NaN` stands for a vector whose components are NaN, which
   * is what normalizing the zero vector yields in JavaScript (0 * Infinity).
   */
  datatype Vec = Vec(x: real, y: real) | NaN {

    /** The squared magnitude `ms`. */
    function Ms(): (r: real)
      requires Vec?
    {
      x * x + y * y
    }

    /** The test `p.ms > 0`; every comparison with NaN is false. */
    predicate Pushes() {
      Vec? && Ms() > 0.0
    }

    /** `scale`: both components multiplied by `s`; NaN stays NaN. */
    function Scale(s: real): (v: Vec) {
      if NaN? then NaN else Vec(x * s, y * s)
    }

    /** `normalize`: `scale(1 / sqrt(ms))`; a zero magnitude gives NaN. */
    function Normalize(m: Math): (v: Vec) {
      if NaN? then NaN
      else
        var magnitude := m.sqrt(Ms());
        if magnitude == 0.0 then NaN else Scale(1.0 / magnitude)
    }

    /** `scale(-1)`, as `RectCollider.intersect` applies it. */
    function Neg(): (v: Vec) {
      Scale(-1.0)
    }
  }

  /** The vector `new Vector()` builds. */
  const Zero: Vec := Vec(0.0, 0.0)

  /** The value `Vector.subtract(a, b)` computes. */
  function Difference(a: Vec, b: Vec): (r: Vec)
    requires a.Vec? && b.Vec?
    ensures r.Vec? && r.x + b.x == a.x && r.y + b.y == a.y
  {
    Vec(a.x - b.x, a.y - b.y)
  }

  /** The facts about `sqrt` that the proofs use, for one argument. */
  lemma SqrtFacts(m: Math, v: real)
    requires m.Sound() && 0.0 <= v
    ensures 0.0 <= m.sqrt(v) && m.sqrt(v) * m.sqrt(v) == v
    ensures v == 0.0 <==> m.sqrt(v) == 0.0
  {
    var s := m.sqrt(v);
    assert 0.0 <= s && s * s == v;
    if s == 0.0 {
      assert s * s == 0.0;
    }
  }

  /**
   * The sign of a product, for named factors. The solver's nonlinear
   * reasoning about a square bound to a name is weak; instantiating this
   * lemma with equal factors supplies the fact directly.
   */
  lemma ProductSign(a: real, b: real, p: real)
    requires p == a * b
    ensures (a >= 0.0 && b >= 0.0) || (a <= 0.0 && b <= 0.0) ==> p >= 0.0
    ensures (a > 0.0 && b > 0.0) || (a < 0.0 && b < 0.0) ==> p > 0.0
    ensures (a > 0.0 && b < 0.0) || (a < 0.0 && b > 0.0) ==> p < 0.0
  {
  }

  /** The squared magnitude is never negative, and is zero only for the zero vector. */
  lemma MsSign(v: Vec)
    requires v.Vec?
    ensures v.Ms() >= 0.0
    ensures v.Ms() == 0.0 <==> v == Zero
  {
    ProductSign(v.x, v.x, v.x * v.x);
    ProductSign(v.y, v.y, v.y * v.y);
  }

  lemma NegNeg(v: Vec)
    ensures v.Neg().Neg() == v
  {
  }

  /** Under a sound `sqrt`, normalizing a non-zero vector gives a unit vector along it. */
  lemma NormalizeUnit(v: Vec, m: Math)
    requires m.Sound() && v.Vec? && v.Ms() > 0.0
    ensures v.Normalize(m).Vec?
    ensures v.Normalize(m).Ms() == 1.0
    ensures v.Normalize(m).x * v.y == v.Normalize(m).y * v.x
    ensures v.Normalize(m).x * v.x + v.Normalize(m).y * v.y > 0.0
  {
    var mag := m.sqrt(v.Ms());
    assert mag * mag == v.Ms();
    assert mag > 0.0;
    var k := 1.0 / mag;
    assert k * mag == 1.0;
    var n := v.Normalize(m);
    assert n == Vec(v.x * k, v.y * k);
    calc {
      n.Ms();
      k * k * (v.x * v.x + v.y * v.y);
      k * k * (mag * mag);
      (k * mag) * (k * mag);
      1.0;
    }
    assert n.x * v.x + n.y * v.y == k * v.Ms();
  }

  /** Under a sound `sqrt`, normalizing gives NaN exactly for the zero vector. */
  lemma NormalizeNaN(v: Vec, m: Math)
    requires m.Sound() && v.Vec?
    ensures v.Normalize(m).NaN? <==> v == Zero
  {
    MsSign(v);
    SqrtFacts(m, v.Ms());
  }

  /**
   * The `Vector` class: public `x` and `y`, and the private cache `_ms` of
   * the squared magnitude, which only the numeric constructor and `scale`
   * recompute. `nan` marks a vector whose components are not finite numbers
   * (what `normalize` leaves behind on a zero magnitude); `real` cannot hold
   * those, so `x`, `y` and `ms` mean nothing while it is set.
   */
  class Vector {
    var x: real
    var y: real
    var ms: real
    var nan: bool

    /** The cache agrees with the components. */
    ghost predicate Cached()
      reads this
    {
      nan || ms == x * x + y * y
    }

    function Value(): (v: Vec)
      reads this
    {
      if nan then NaN else Vec(x, y)
    }

    /** `new Vector()`. */
    constructor ()
      ensures Value() == Zero && ms == 0.0 && Cached()
    {
      x, y, ms := 0.0, 0.0, 0.0;
      nan := false;
    }

    /** `new Vector(x, y)`: the components, and the cache computed from them. */
    constructor FromXY(x0: real, y0: real)
      ensures Value() == Vec(x0, y0) && Cached()
    {
      x, y := x0, y0;
      ms := x0 * x0 + y0 * y0;
      nan := false;
    }

    /** `new Vector(other)`: a copy of the components and of the cache as it is. */
    constructor Copy(other: Vector)
      ensures x == other.x && y == other.y && ms == other.ms && nan == other.nan
      ensures Value() == other.Value()
      ensures other.Cached() ==> Cached()
    {
      x, y, ms := other.x, other.y, other.ms;
      nan := other.nan;
    }

    /** `scale`: in place, returning the receiver, with the cache recomputed; NaN components stay NaN. */
    method Scale(s: real) returns (r: Vector)
      modifies this
      ensures r == this
      ensures Value() == old(Value()).Scale(s) && Cached()
    {
      if !nan {
        x := x * s;
        y := y * s;
        ms := x * x + y * y;
      }
      r := this;
    }

    /**
     * `normalize`: `scale(1 / Math.sqrt(ms))` on the cached `ms`. A zero
     * magnitude makes the factor Infinity, and the components NaN.
     */
    method Normalize(m: Math) returns (r: Vector)
      modifies this
      ensures r == this && Cached()
      ensures Value().NaN? <==> old(Value()).NaN? || m.sqrt(old(ms)) == 0.0
      ensures Value().Vec? ==> Value() == old(Value()).Scale(1.0 / m.sqrt(old(ms)))
      ensures old(Cached()) ==> Value() == old(Value()).Normalize(m)
    {
      if nan {
        r := this;
      } else {
        var magnitude := m.sqrt(ms);
        ghost var before := Value();
        assert Cached() ==> before.Ms() == ms;
        if magnitude == 0.0 {
          nan := true;
          r := this;
        } else {
          r := Scale(1.0 / magnitude);
        }
      }
    }

    /** `Vector.subtract(a, b)`: a fresh vector; `a` and `b` are left alone. */
    static method Subtract(a: Vector, b: Vector) returns (r: Vector)
      ensures fresh(r) && r.Cached()
      ensures r.Value().NaN? <==> a.Value().NaN? || b.Value().NaN?
      ensures r.Value().Vec? ==> r.Value() == Difference(a.Value(), b.Value())
    {
      r := new Vector.FromXY(a.x - b.x, a.y - b.y);
      if a.nan || b.nan {
        r.nan := true;
      }
    }

    /** `Vector.scaled(v, s)`: a scaled copy; `v` is left alone. */
    static method Scaled(v: Vector, s: real) returns (r: Vector)
      ensures fresh(r) && r.Cached()
      ensures r.Value() == v.Value().Scale(s)
    {
      r := new Vector.Copy(v);
      r := r.Scale(s);
    }

    /** `Vector.normalized(v)`: a normalized copy; `v` is left alone. */
    static method Normalized(v: Vector, m: Math) returns (r: Vector)
      ensures fresh(r) && r.Cached()
      ensures r.Value().NaN? <==> v.Value().NaN? || m.sqrt(v.ms) == 0.0
      ensures r.Value().Vec? ==> r.Value() == v.Value().Scale(1.0 / m.sqrt(v.ms))
      ensures v.Cached() ==> r.Value() == v.Value().Normalize(m)
    {
      r := new Vector.Copy(v);
      r := r.Normalize(m);
    }
  }
}
