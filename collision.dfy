/**
 * Minimum translation vectors between colliders (physics.ts): rectangle
 * against rectangle, circle against rectangle (with the corner case, circle
 * against a point) and circle against circle, and the dispatch on the two
 * collider kinds. Every routine returns the displacement to add to the
 * FIRST collider's owner to resolve the overlap, or the zero vector.
 */
module Collision {
  import opened Vectors

  /** A collider's shape: a `CircleCollider` or a `RectCollider`. */
  datatype Shape = Circle(radius: real) | Rect(width: real, height: real)

  /** A collider's shape at its owner's position (`parent.x`, `parent.y`). */
  datatype Placed = Placed(x: real, y: real, shape: Shape)

  /** The signed face offsets `l`, `r`, `t`, `b` of an axis-aligned overlap test. */
  datatype Faces = Faces(l: real, r: real, t: real, b: real)

  /** The strict overlap test `l < 0 && r > 0 && t < 0 && b > 0`. */
  predicate Overlaps(f: Faces) {
    f.l < 0.0 && f.r > 0.0 && f.t < 0.0 && f.b > 0.0
  }

  /** One entry of the `pen` list: a push along one axis and its size `abs`. */
  datatype Candidate = Candidate(x: real, y: real, abs: real)

  /** The `pen` list, in its order: to left, to right, to top, to bottom. */
  function Candidates(f: Faces): (cs: seq<Candidate>)
    ensures |cs| == 4
  {
    [ Candidate(f.l, 0.0, -f.l), Candidate(f.r, 0.0, f.r),
      Candidate(0.0, f.t, -f.t), Candidate(0.0, f.b, f.b) ]
  }

  /** `k` is a least entry of `cs` and no earlier entry is as small. */
  ghost predicate FirstLeastAt(cs: seq<Candidate>, k: int) {
    && 0 <= k < |cs|
    && (forall j :: 0 <= j < |cs| ==> cs[k].abs <= cs[j].abs)
    && (forall j :: 0 <= j < k ==> cs[k].abs < cs[j].abs)
  }

  /**
   * The element `pen.sort((a, b) => a.abs - b.abs)[0]` picks: the sort is
   * stable, so it is the first entry of least `abs`.
   */
  function FirstLeast(cs: seq<Candidate>): (k: nat)
    requires |cs| > 0
    ensures FirstLeastAt(cs, k)
  {
    if |cs| == 1 then 0
    else
      var k := FirstLeast(cs[1..]);
      if cs[0].abs <= cs[k + 1].abs then 0 else k + 1
  }

  /** A first-least position is unique. */
  lemma FirstLeastUnique(cs: seq<Candidate>, k: int, k': int)
    requires FirstLeastAt(cs, k) && FirstLeastAt(cs, k')
    ensures k == k'
  {
    assert cs[k].abs == cs[k'].abs;
  }

  /** The push the least-penetration selection returns, as a new vector. */
  function LeastPush(f: Faces): (v: Vec) {
    var cs := Candidates(f);
    var c := cs[FirstLeast(cs)];
    Vec(c.x, c.y)
  }

  /** `v` is the push of the first candidate of least size. */
  ghost predicate IsLeastPush(f: Faces, v: Vec) {
    exists k :: FirstLeastAt(Candidates(f), k) && v == Vec(Candidates(f)[k].x, Candidates(f)[k].y)
  }

  /**
   * Under the overlap test the selected push is the least one, and exactly
   * one of its components is non-zero; moving the first box by it makes the
   * chosen face offset exactly zero, so the boxes no longer overlap.
   */
  lemma LeastPushFacts(f: Faces)
    requires Overlaps(f)
    ensures IsLeastPush(f, LeastPush(f))
    ensures (LeastPush(f).x != 0.0) != (LeastPush(f).y != 0.0)
    ensures !Overlaps(Faces(f.l - LeastPush(f).x, f.r - LeastPush(f).x,
                            f.t - LeastPush(f).y, f.b - LeastPush(f).y))
  {
    var cs := Candidates(f);
    var k := FirstLeast(cs);
    assert FirstLeastAt(cs, k);
    assert k == 0 || k == 1 || k == 2 || k == 3;
  }

  /** The faces of `pRectRect(r1, r2)`: r2's edges against r1's opposite edges. */
  function RectFaces(a: Placed, b: Placed): (f: Faces)
    requires a.shape.Rect? && b.shape.Rect?
  {
    Faces((b.x - b.shape.width / 2.0) - (a.x + a.shape.width / 2.0),
          (b.x + b.shape.width / 2.0) - (a.x - a.shape.width / 2.0),
          (b.y - b.shape.height / 2.0) - (a.y + a.shape.height / 2.0),
          (b.y + b.shape.height / 2.0) - (a.y - a.shape.height / 2.0))
  }

  /** `pRectRect`: the least-penetration push, or zero when the boxes do not strictly overlap. */
  function PRectRect(a: Placed, b: Placed): (v: Vec)
    requires a.shape.Rect? && b.shape.Rect?
    ensures v.Vec?
    ensures !Overlaps(RectFaces(a, b)) ==> v == Zero
    ensures Overlaps(RectFaces(a, b)) ==> IsLeastPush(RectFaces(a, b), v) && (v.x != 0.0) != (v.y != 0.0)
  {
    var f := RectFaces(a, b);
    if Overlaps(f) then
      LeastPushFacts(f);
      LeastPush(f)
    else
      Zero
  }

  /** Two boxes collide exactly when they strictly overlap: touching edges give zero. */
  lemma RectRectZeroIff(a: Placed, b: Placed)
    requires a.shape.Rect? && b.shape.Rect?
    ensures PRectRect(a, b) == Zero <==> !Overlaps(RectFaces(a, b))
    ensures PRectRect(a, b).Pushes() <==> Overlaps(RectFaces(a, b))
  {
    var v := PRectRect(a, b);
    if Overlaps(RectFaces(a, b)) {
      if v.x != 0.0 {
        ProductSign(v.x, v.x, v.x * v.x);
        ProductSign(v.y, v.y, v.y * v.y);
      } else {
        ProductSign(v.y, v.y, v.y * v.y);
      }
    }
  }

  /** Unit squares centred at (0, 0) and (0.7, 0.4) overlap least along x: the push is (-0.3, 0). */
  lemma RectRectExample()
    ensures PRectRect(Placed(0.0, 0.0, Rect(1.0, 1.0)), Placed(0.7, 0.4, Rect(1.0, 1.0))) == Vec(-0.3, 0.0)
  {
    var f := RectFaces(Placed(0.0, 0.0, Rect(1.0, 1.0)), Placed(0.7, 0.4, Rect(1.0, 1.0)));
    assert f == Faces(-0.3, 1.7, -0.6, 1.4);
    var cs := Candidates(f);
    assert FirstLeastAt(cs, 0);
    FirstLeastUnique(cs, 0, FirstLeast(cs));
  }

  /**
   * Separation: when the first box moves by `(dx1, dy1)` and the second by
   * `-(dx2, dy2)`, and the two moves add up to the push (as the
   * mass-weighted split `p * r1`, `p * r2` with `r1 + r2 == 1` does, see
   * `Split`), the boxes no longer overlap.
   */
  lemma RectRectSeparates(a: Placed, b: Placed, dx1: real, dy1: real, dx2: real, dy2: real)
    requires a.shape.Rect? && b.shape.Rect?
    requires dx1 + dx2 == PRectRect(a, b).x && dy1 + dy2 == PRectRect(a, b).y
    ensures PRectRect(a.(x := a.x + dx1, y := a.y + dy1), b.(x := b.x - dx2, y := b.y - dy2)) == Zero
  {
    var f := RectFaces(a, b);
    RectFacesShift(a, b, dx1, dy1, dx2, dy2);
    if Overlaps(f) {
      LeastPushFacts(f);
    }
  }

  /** The mass-weighted split: shares `r1`, `r2` with `r1 + r2 == 1` add up to the whole push. */
  lemma Split(p: real, r1: real, r2: real)
    requires r1 + r2 == 1.0
    ensures p * r1 + p * r2 == p
  {
    assert p * r1 + p * r2 == p * (r1 + r2);
  }

  /** Moving the first box by (dx1, dy1) and the second by -(dx2, dy2) shifts every face by the sum. */
  lemma RectFacesShift(a: Placed, b: Placed, dx1: real, dy1: real, dx2: real, dy2: real)
    requires a.shape.Rect? && b.shape.Rect?
    ensures var f := RectFaces(a, b);
      RectFaces(a.(x := a.x + dx1, y := a.y + dy1), b.(x := b.x - dx2, y := b.y - dy2))
        == Faces(f.l - (dx1 + dx2), f.r - (dx1 + dx2), f.t - (dy1 + dy2), f.b - (dy1 + dy2))
  {
  }

  /** `cs[k]` is strictly smaller than every other entry. */
  ghost predicate StrictLeastAt(cs: seq<Candidate>, k: int) {
    0 <= k < |cs| && forall j :: 0 <= j < |cs| && j != k ==> cs[k].abs < cs[j].abs
  }

  /** The least size is attained at one position only. */
  ghost predicate UniqueLeast(cs: seq<Candidate>) {
    exists k :: StrictLeastAt(cs, k)
  }

  /** A strictly least entry is the one selected. */
  lemma StrictLeastSelected(cs: seq<Candidate>, k: int)
    requires StrictLeastAt(cs, k)
    ensures FirstLeast(cs) == k
  {
    assert FirstLeastAt(cs, k);
    FirstLeastUnique(cs, k, FirstLeast(cs));
  }

  /** Swapping the boxes negates and permutes the faces: l, r, t, b become -r, -l, -b, -t. */
  lemma RectFacesSwap(a: Placed, b: Placed)
    requires a.shape.Rect? && b.shape.Rect?
    ensures var f := RectFaces(a, b);
      RectFaces(b, a) == Faces(-f.r, -f.l, -f.b, -f.t)
  {
  }

  /**
   * Anti-symmetry of `pRectRect` when the least penetration is unique:
   * swapping the boxes negates the push.
   */
  lemma RectRectAntiSymmetric(a: Placed, b: Placed)
    requires a.shape.Rect? && b.shape.Rect?
    requires UniqueLeast(Candidates(RectFaces(a, b)))
    ensures PRectRect(b, a) == PRectRect(a, b).Neg()
  {
    var f := RectFaces(a, b);
    RectFacesSwap(a, b);
    if Overlaps(f) {
      LeastPushSwap(f);
    }
  }

  /** The swapped faces select the negated push when the least entry is unique. */
  lemma LeastPushSwap(f: Faces)
    requires UniqueLeast(Candidates(f))
    ensures LeastPush(Faces(-f.r, -f.l, -f.b, -f.t)) == LeastPush(f).Neg()
  {
    var cs := Candidates(f);
    var ds := Candidates(Faces(-f.r, -f.l, -f.b, -f.t));
    var k :| StrictLeastAt(cs, k);
    StrictLeastSelected(cs, k);
    // ds lists the entries of cs negated, in the order 1, 0, 3, 2
    var k' := if k == 0 then 1 else if k == 1 then 0 else if k == 2 then 3 else 2;
    assert ds[0].abs == cs[1].abs && ds[1].abs == cs[0].abs;
    assert ds[2].abs == cs[3].abs && ds[3].abs == cs[2].abs;
    assert forall j :: 0 <= j < 4 && j != k ==> cs[k].abs < cs[j].abs;
    assert StrictLeastAt(ds, k');
    StrictLeastSelected(ds, k');
  }

  /**
   * Without uniqueness it fails: two identical unit squares at the same
   * centre tie on all four faces, and both orders push to the left.
   */
  lemma RectRectTieNotAntiSymmetric()
    ensures var a := Placed(0.0, 0.0, Rect(1.0, 1.0));
      PRectRect(a, a) == Vec(-1.0, 0.0) && PRectRect(a, a) != PRectRect(a, a).Neg()
  {
    var a := Placed(0.0, 0.0, Rect(1.0, 1.0));
    var cs := Candidates(RectFaces(a, a));
    assert FirstLeastAt(cs, 0);
    FirstLeastUnique(cs, 0, FirstLeast(cs));
  }

  /** The grown-box faces of `pCircleRect`: the circle's bounding box against the rectangle. */
  function CircleFaces(c: Placed, r: Placed): (f: Faces)
    requires c.shape.Circle? && r.shape.Rect?
  {
    var rl := r.x - r.shape.width / 2.0;
    var rr := r.x + r.shape.width / 2.0;
    var rt := r.y - r.shape.height / 2.0;
    var rb := r.y + r.shape.height / 2.0;
    Faces(rl - (c.x + c.shape.radius), rr - (c.x - c.shape.radius),
          rt - (c.y + c.shape.radius), rb - (c.y - c.shape.radius))
  }

  /** Where the circle's centre lies against the rectangle, in the order the branches test it. */
  datatype Region = TopLeft | TopRight | BottomLeft | BottomRight | Side

  function RegionOf(c: Placed, r: Placed): (region: Region)
    requires r.shape.Rect?
  {
    var rl := r.x - r.shape.width / 2.0;
    var rr := r.x + r.shape.width / 2.0;
    var rt := r.y - r.shape.height / 2.0;
    var rb := r.y + r.shape.height / 2.0;
    if c.x < rl && c.y < rt then TopLeft
    else if c.x > rr && c.y < rt then TopRight
    else if c.x < rl && c.y > rb then BottomLeft
    else if c.x > rr && c.y > rb then BottomRight
    else Side
  }

  /**
   * For a rectangle of non-negative size the four corner tests exclude each
   * other, so each corner region holds exactly when its own test does.
   */
  lemma RegionsExclusive(c: Placed, r: Placed)
    requires r.shape.Rect? && r.shape.width >= 0.0 && r.shape.height >= 0.0
    ensures var rl, rr := r.x - r.shape.width / 2.0, r.x + r.shape.width / 2.0;
      var rt, rb := r.y - r.shape.height / 2.0, r.y + r.shape.height / 2.0;
      && (RegionOf(c, r) == TopLeft <==> c.x < rl && c.y < rt)
      && (RegionOf(c, r) == TopRight <==> c.x > rr && c.y < rt)
      && (RegionOf(c, r) == BottomLeft <==> c.x < rl && c.y > rb)
      && (RegionOf(c, r) == BottomRight <==> c.x > rr && c.y > rb)
      && (RegionOf(c, r) == Side <==> rl <= c.x <= rr || rt <= c.y <= rb)
  {
  }

  /** `pCirclePoint`: push the circle out of the point, or zero when the point is not strictly inside. */
  function PCirclePoint(cx: real, cy: real, radius: real, px: real, py: real, m: Math): (v: Vec) {
    PointPush(Vec(cx - px, cy - py), radius, m)
  }

  /** The push of `pCirclePoint` for the offset `dist` of the centre from the point. */
  function PointPush(dist: Vec, radius: real, m: Math): (v: Vec)
    requires dist.Vec?
  {
    if dist.Ms() - radius * radius < 0.0 then
      dist.Normalize(m).Scale(radius - m.sqrt(dist.Ms()))
    else
      Zero
  }

  /** The corner a corner region resolves against. */
  function CornerOf(r: Placed, region: Region): (corner: (real, real))
    requires r.shape.Rect? && region != Side
  {
    var rl := r.x - r.shape.width / 2.0;
    var rr := r.x + r.shape.width / 2.0;
    var rt := r.y - r.shape.height / 2.0;
    var rb := r.y + r.shape.height / 2.0;
    match region
    case TopLeft => (rl, rt)
    case TopRight => (rr, rt)
    case BottomLeft => (rl, rb)
    case BottomRight => (rr, rb)
  }

  /** `pCircleRect`: the corner cases resolve against the corner point, the rest by least penetration. */
  function PCircleRect(c: Placed, r: Placed, m: Math): (v: Vec)
    requires c.shape.Circle? && r.shape.Rect?
  {
    var f := CircleFaces(c, r);
    if Overlaps(f) then
      var region := RegionOf(c, r);
      if region == Side then LeastPush(f)
      else
        var corner := CornerOf(r, region);
        PCirclePoint(c.x, c.y, c.shape.radius, corner.0, corner.1, m)
    else
      Zero
  }

  /**
   * A push of size `p` along the unit vector of a non-zero `d`: it is
   * parallel to `d`, its dot product with `d` is `p * |d|`, and its squared
   * length is `p * p`.
   */
  lemma ScaledUnit(d: Vec, m: Math, p: real)
    requires m.Sound() && d.Vec? && d != Zero
    ensures var u := d.Normalize(m).Scale(p);
      && u.Vec?
      && u.x * d.y == u.y * d.x
      && u.x * d.x + u.y * d.y == p * m.sqrt(d.Ms())
      && u.Ms() == p * p
  {
    NormalizeScaleForm(d, m, p);
    var mag := m.sqrt(d.Ms());
    var k := 1.0 / mag;
    ScaledAlong(d.x, d.y, k * p, mag);
    Cancel(k, mag, p, k * p);
  }

  /** Normalizing and scaling by `p` multiplies both components by `p / |d|`. */
  lemma NormalizeScaleForm(d: Vec, m: Math, p: real)
    requires m.Sound() && d.Vec? && d != Zero
    ensures var mag := m.sqrt(d.Ms());
      && mag > 0.0 && mag * mag == d.Ms() && (1.0 / mag) * mag == 1.0
      && d.Normalize(m).Scale(p) == Vec(d.x * ((1.0 / mag) * p), d.y * ((1.0 / mag) * p))
  {
    MsSign(d);
    SqrtFacts(m, d.Ms());
    var mag := m.sqrt(d.Ms());
    Reassociate(d.x, 1.0 / mag, p);
    Reassociate(d.y, 1.0 / mag, p);
  }

  lemma Reassociate(a: real, k: real, p: real)
    ensures a * k * p == a * (k * p)
  {
  }

  /**
   * For `(a, b)` of length `mag`, the vector `(a * q, b * q)` is parallel to
   * it, has dot product `q * mag * mag` with it and squared length
   * `q * q * mag * mag`.
   */
  lemma ScaledAlong(a: real, b: real, q: real, mag: real)
    requires a * a + b * b == mag * mag
    ensures (a * q) * b == (b * q) * a
    ensures (a * q) * a + (b * q) * b == q * (mag * mag)
    ensures (a * q) * (a * q) + (b * q) * (b * q) == (q * q) * (mag * mag)
  {
    assert (a * q) * a + (b * q) * b == q * (a * a + b * b);
    assert (a * q) * (a * q) + (b * q) * (b * q) == (q * q) * (a * a + b * b);
  }

  /** With `k * mag == 1` and `q == k * p`: `q * mag * mag == p * mag` and `q^2 * mag^2 == p^2`. */
  lemma Cancel(k: real, mag: real, p: real, q: real)
    requires k * mag == 1.0 && q == k * p
    ensures q * (mag * mag) == p * mag
    ensures (q * q) * (mag * mag) == p * p
  {
    assert q * mag == p * (k * mag);
    assert q * (mag * mag) == (q * mag) * mag;
  }

  /**
   * The corner case: for a centre away from the point, the push is zero
   * unless the point is strictly inside the circle; then it points from the
   * point towards the centre and its length is `radius - |dist|`.
   */
  lemma CirclePointPush(cx: real, cy: real, radius: real, px: real, py: real, m: Math)
    requires m.Sound() && radius >= 0.0 && (cx, cy) != (px, py)
    ensures var v := PCirclePoint(cx, cy, radius, px, py, m);
      var dist := Vec(cx - px, cy - py);
      var mag := m.sqrt(dist.Ms());
      && v.Vec?
      && (v == Zero <==> dist.Ms() >= radius * radius)
      && (dist.Ms() < radius * radius ==>
            && v.x * dist.y == v.y * dist.x
            && v.x * dist.x + v.y * dist.y > 0.0
            && v.Ms() == (radius - mag) * (radius - mag))
  {
    PointPushFacts(Vec(cx - px, cy - py), radius, m);
  }

  /** `CirclePointPush` for the offset `dist` of the centre from the point. */
  lemma PointPushFacts(dist: Vec, radius: real, m: Math)
    requires m.Sound() && radius >= 0.0 && dist.Vec? && dist != Zero
    ensures var v := PointPush(dist, radius, m);
      var mag := m.sqrt(dist.Ms());
      && v.Vec?
      && (v == Zero <==> dist.Ms() >= radius * radius)
      && (dist.Ms() < radius * radius ==>
            && v.x * dist.y == v.y * dist.x
            && v.x * dist.x + v.y * dist.y > 0.0
            && v.Ms() == (radius - mag) * (radius - mag))
  {
    MsSign(dist);
    SqrtFacts(m, dist.Ms());
    var mag := m.sqrt(dist.Ms());
    if dist.Ms() < radius * radius {
      RootBelow(mag, dist.Ms(), radius);
      var p := radius - mag;
      ScaledUnit(dist, m, p);
      ProductSign(p, mag, p * mag);
      ProductSign(p, p, p * p);
    }
  }

  /** In every corner branch the centre differs from the corner, so `normalize` is defined. */
  lemma CornerAwayFromCentre(c: Placed, r: Placed)
    requires c.shape.Circle? && r.shape.Rect? && RegionOf(c, r) != Side
    ensures CornerOf(r, RegionOf(c, r)) != (c.x, c.y)
  {
  }

  /** Under a sound `sqrt`, circle against rectangle never yields NaN. */
  lemma CircleRectDefined(c: Placed, r: Placed, m: Math)
    requires m.Sound() && c.shape.Circle? && c.shape.radius >= 0.0 && r.shape.Rect?
    ensures PCircleRect(c, r, m).Vec?
  {
    var f := CircleFaces(c, r);
    if Overlaps(f) && RegionOf(c, r) != Side {
      var corner := CornerOf(r, RegionOf(c, r));
      CornerAwayFromCentre(c, r);
      CirclePointPush(c.x, c.y, c.shape.radius, corner.0, corner.1, m);
    }
  }

  /** In the side branch the push is the least push of the grown box. */
  lemma CircleRectSide(c: Placed, r: Placed, m: Math)
    requires c.shape.Circle? && r.shape.Rect? && RegionOf(c, r) == Side
    ensures Overlaps(CircleFaces(c, r)) ==> IsLeastPush(CircleFaces(c, r), PCircleRect(c, r, m))
    ensures !Overlaps(CircleFaces(c, r)) ==> PCircleRect(c, r, m) == Zero
  {
    if Overlaps(CircleFaces(c, r)) {
      LeastPushFacts(CircleFaces(c, r));
    }
  }

  /**
   * The side branch resolves like two boxes: moving the circle by
   * `(dx1, dy1)` and the rectangle by `-(dx2, dy2)`, adding up to the push,
   * ends the overlap, so a second call returns zero.
   */
  lemma CircleRectSideSeparates(c: Placed, r: Placed, m: Math, dx1: real, dy1: real, dx2: real, dy2: real)
    requires c.shape.Circle? && r.shape.Rect? && RegionOf(c, r) == Side
    requires dx1 + dx2 == PCircleRect(c, r, m).x && dy1 + dy2 == PCircleRect(c, r, m).y
    ensures PCircleRect(c.(x := c.x + dx1, y := c.y + dy1), r.(x := r.x - dx2, y := r.y - dy2), m) == Zero
  {
    var f := CircleFaces(c, r);
    CircleFacesShift(c, r, dx1, dy1, dx2, dy2);
    if Overlaps(f) {
      LeastPushFacts(f);
    }
    CircleRectApart(c.(x := c.x + dx1, y := c.y + dy1), r.(x := r.x - dx2, y := r.y - dy2), m);
  }

  /** Without overlap of the grown box there is no push. */
  lemma CircleRectApart(c: Placed, r: Placed, m: Math)
    requires c.shape.Circle? && r.shape.Rect? && !Overlaps(CircleFaces(c, r))
    ensures PCircleRect(c, r, m) == Zero
  {
  }

  /** Moving the circle by (dx1, dy1) and the rectangle by -(dx2, dy2) shifts every face by the sum. */
  lemma CircleFacesShift(c: Placed, r: Placed, dx1: real, dy1: real, dx2: real, dy2: real)
    requires c.shape.Circle? && r.shape.Rect?
    ensures var f := CircleFaces(c, r);
      CircleFaces(c.(x := c.x + dx1, y := c.y + dy1), r.(x := r.x - dx2, y := r.y - dy2))
        == Faces(f.l - (dx1 + dx2), f.r - (dx1 + dx2), f.t - (dy1 + dy2), f.b - (dy1 + dy2))
  {
  }

  /** The centre line between two placed colliders, from the first to the second. */
  function CentreLine(a: Placed, b: Placed): (d: Vec) {
    Vec(b.x - a.x, b.y - a.y)
  }

  /** `pCircleCircle`: push the first circle away from the second along the centre line. */
  function PCircleCircle(a: Placed, b: Placed, m: Math): (v: Vec)
    requires a.shape.Circle? && b.shape.Circle?
  {
    OverlapPush(CentreLine(a, b), a.shape.radius + b.shape.radius, m)
  }

  /** The push of `pCircleCircle` for centre line `dist` and summed radii `reach`. */
  function OverlapPush(dist: Vec, reach: real, m: Math): (v: Vec)
    requires dist.Vec?
  {
    if dist.Ms() - reach * reach < 0.0 then
      dist.Normalize(m).Scale(m.sqrt(dist.Ms()) - reach)
    else
      Zero
  }

  /** Swapping the circles negates the push (NaN stays NaN). */
  lemma CircleCircleAntiSymmetric(a: Placed, b: Placed, m: Math)
    requires a.shape.Circle? && b.shape.Circle?
    ensures PCircleCircle(b, a, m) == PCircleCircle(a, b, m).Neg()
  {
    var d := CentreLine(a, b);
    var e := CentreLine(b, a);
    assert e == Vec(-d.x, -d.y);
    assert e.Ms() == d.Ms();
  }

  /**
   * Coincident centres give NaN (the zero vector normalized), which the
   * `p.ms > 0` test of resolution skips; otherwise the result is a vector.
   */
  lemma CircleCircleNaN(a: Placed, b: Placed, m: Math)
    requires m.Sound() && a.shape.Circle? && b.shape.Circle?
    requires a.shape.radius > 0.0 && b.shape.radius > 0.0
    ensures PCircleCircle(a, b, m).NaN? <==> CentreLine(a, b) == Zero
  {
    var d := CentreLine(a, b);
    var reach := a.shape.radius + b.shape.radius;
    ProductSign(reach, reach, reach * reach);
    NormalizeNaN(d, m);
  }

  /**
   * For positive radii and distinct centres, two circles push exactly when
   * the squared distance is below the squared sum of radii.
   */
  lemma CircleCirclePushes(a: Placed, b: Placed, m: Math)
    requires m.Sound() && a.shape.Circle? && b.shape.Circle?
    requires a.shape.radius > 0.0 && b.shape.radius > 0.0
    requires CentreLine(a, b) != Zero
    ensures var d := CentreLine(a, b);
      var reach := a.shape.radius + b.shape.radius;
      && PCircleCircle(a, b, m).Vec?
      && (PCircleCircle(a, b, m).Pushes() <==> d.Ms() < reach * reach)
  {
    var d := CentreLine(a, b);
    var reach := a.shape.radius + b.shape.radius;
    assert PCircleCircle(a, b, m) == OverlapPush(d, reach, m);
    OverlapPushes(d, reach, m);
  }

  /** The circle-circle push in terms of the centre line `d` and the reach `r1 + r2`. */
  lemma OverlapPushes(d: Vec, reach: real, m: Math)
    requires m.Sound() && d.Vec? && d != Zero && reach > 0.0
    ensures OverlapPush(d, reach, m).Vec?
    ensures OverlapPush(d, reach, m).Pushes() <==> d.Ms() < reach * reach
  {
    MsSign(d);
    SqrtFacts(m, d.Ms());
    var mag := m.sqrt(d.Ms());
    if d.Ms() < reach * reach {
      RootBelow(mag, d.Ms(), reach);
      ScaledUnit(d, m, mag - reach);
      ProductSign(mag - reach, mag - reach, (mag - reach) * (mag - reach));
    }
  }

  /**
   * A push between two circles points away from the other centre and its
   * length is `(r1 + r2) - |d|`.
   */
  lemma CircleCircleDirection(a: Placed, b: Placed, m: Math)
    requires m.Sound() && a.shape.Circle? && b.shape.Circle?
    requires a.shape.radius > 0.0 && b.shape.radius > 0.0
    requires PCircleCircle(a, b, m).Pushes()
    ensures var v := PCircleCircle(a, b, m);
      var d := CentreLine(a, b);
      var gap := a.shape.radius + b.shape.radius - m.sqrt(d.Ms());
      && v.x * d.y == v.y * d.x
      && v.x * d.x + v.y * d.y < 0.0
      && v.Ms() == gap * gap
  {
    var d := CentreLine(a, b);
    var reach := a.shape.radius + b.shape.radius;
    CircleCircleNaN(a, b, m);
    assert PCircleCircle(a, b, m) == OverlapPush(d, reach, m);
    OverlapDirection(d, reach, m);
  }

  lemma OverlapDirection(d: Vec, reach: real, m: Math)
    requires m.Sound() && d.Vec? && d != Zero && reach > 0.0
    requires OverlapPush(d, reach, m).Pushes()
    ensures var v := OverlapPush(d, reach, m);
      var gap := reach - m.sqrt(d.Ms());
      && v.x * d.y == v.y * d.x
      && v.x * d.x + v.y * d.y < 0.0
      && v.Ms() == gap * gap
  {
    MsSign(d);
    SqrtFacts(m, d.Ms());
    var mag := m.sqrt(d.Ms());
    var p := mag - reach;
    assert OverlapPush(d, reach, m) == d.Normalize(m).Scale(p);
    RootBelow(mag, d.Ms(), reach);
    ScaledUnit(d, m, p);
    ProductSign(p, mag, p * mag);
    NegSquare(p, reach - mag);
  }

  /** A non-negative root of a square below `reach^2` is below `reach`. */
  lemma RootBelow(mag: real, ms: real, reach: real)
    requires mag >= 0.0 && reach >= 0.0 && mag * mag == ms && ms < reach * reach
    ensures mag < reach
  {
    if mag >= reach {
      ProductSign(mag - reach, mag + reach, mag * mag - reach * reach);
    }
  }

  lemma NegSquare(p: real, q: real)
    requires p == -q
    ensures p * p == q * q
  {
  }

  /**
   * Separation: after the first circle moves by `(dx1, dy1)` and the second
   * by `-(dx2, dy2)`, adding up to the push, their centres are exactly
   * `r1 + r2` apart, so a second call returns zero.
   */
  lemma CircleCircleSeparates(a: Placed, b: Placed, m: Math, dx1: real, dy1: real, dx2: real, dy2: real)
    requires m.Sound() && a.shape.Circle? && b.shape.Circle?
    requires a.shape.radius > 0.0 && b.shape.radius > 0.0
    requires PCircleCircle(a, b, m).Pushes()
    requires dx1 + dx2 == PCircleCircle(a, b, m).x && dy1 + dy2 == PCircleCircle(a, b, m).y
    ensures var a', b' := a.(x := a.x + dx1, y := a.y + dy1), b.(x := b.x - dx2, y := b.y - dy2);
      && CentreLine(a', b').Ms() == (a.shape.radius + b.shape.radius) * (a.shape.radius + b.shape.radius)
      && PCircleCircle(a', b', m) == Zero
  {
    var d := CentreLine(a, b);
    var reach := a.shape.radius + b.shape.radius;
    var p := PCircleCircle(a, b, m);
    CircleCircleNaN(a, b, m);
    OverlapSeparates(d, reach, m);
    var a', b' := a.(x := a.x + dx1, y := a.y + dy1), b.(x := b.x - dx2, y := b.y - dy2);
    assert CentreLine(a', b') == Vec(d.x - p.x, d.y - p.y);
    CircleCircleApart(a', b', m);
  }

  /** Taking the push away from the centre line leaves a line of length `reach`. */
  lemma OverlapSeparates(d: Vec, reach: real, m: Math)
    requires m.Sound() && d.Vec? && d != Zero && reach > 0.0
    requires OverlapPush(d, reach, m).Pushes()
    ensures var p := OverlapPush(d, reach, m);
      Vec(d.x - p.x, d.y - p.y).Ms() == reach * reach
  {
    var mag := m.sqrt(d.Ms());
    NormalizeScaleForm(d, m, mag - reach);
    PushedToReach(d, mag, reach, OverlapPush(d, reach, m));
  }

  /** Circles at least `r1 + r2` apart do not push. */
  lemma CircleCircleApart(a: Placed, b: Placed, m: Math)
    requires a.shape.Circle? && b.shape.Circle?
    requires CentreLine(a, b).Ms() >= (a.shape.radius + b.shape.radius) * (a.shape.radius + b.shape.radius)
    ensures PCircleCircle(a, b, m) == Zero
  {
  }

  /**
   * The arithmetic of circle separation: taking away `(mag - reach) / mag`
   * of a vector of length `mag` leaves a vector of length `reach`.
   */
  lemma PushedToReach(d: Vec, mag: real, reach: real, p: Vec)
    requires d.Vec? && mag != 0.0 && (1.0 / mag) * mag == 1.0 && d.Ms() == mag * mag
    requires p == Vec(d.x * ((1.0 / mag) * (mag - reach)), d.y * ((1.0 / mag) * (mag - reach)))
    ensures Vec(d.x - p.x, d.y - p.y).Ms() == reach * reach
  {
    var k := 1.0 / mag;
    var q := k * (mag - reach);
    var t := reach * k;
    assert 1.0 - q == t by {
      assert k * (mag - reach) == k * mag - reach * k;
    }
    assert d.x - p.x == d.x * t;
    assert d.y - p.y == d.y * t;
    Congruent(d.x - p.x, d.x * t, d.x - p.x, d.x * t);
    Congruent(d.y - p.y, d.y * t, d.y - p.y, d.y * t);
    ScaledAlong(d.x, d.y, t, mag);
    Cancel(k, mag, reach, t);
  }

  lemma Congruent(a: real, b: real, c: real, d: real)
    requires a == b && c == d
    ensures a * c == b * d
  {
  }

  /**
   * `intersect` on the two collider kinds: a circle resolves against a
   * circle or a rectangle directly; a rectangle resolves against a
   * rectangle directly and against a circle by negating the circle's push.
   */
  function Intersect(a: Placed, b: Placed, m: Math): (v: Vec) {
    match (a.shape, b.shape)
    case (Circle(_), Circle(_)) => PCircleCircle(a, b, m)
    case (Circle(_), Rect(_, _)) => PCircleRect(a, b, m)
    case (Rect(_, _), Rect(_, _)) => PRectRect(a, b)
    case (Rect(_, _), Circle(_)) => PCircleRect(b, a, m).Neg()
  }

  /**
   * Anti-symmetry of `intersect`: swapping the colliders negates the push,
   * for every pair that involves a circle, and for two rectangles whose
   * least penetration is unique.
   */
  lemma IntersectAntiSymmetric(a: Placed, b: Placed, m: Math)
    requires a.shape.Rect? && b.shape.Rect? ==> UniqueLeast(Candidates(RectFaces(a, b)))
    ensures Intersect(b, a, m) == Intersect(a, b, m).Neg()
  {
    match (a.shape, b.shape)
    case (Circle(_), Circle(_)) =>
      CircleCircleAntiSymmetric(a, b, m);
    case (Circle(_), Rect(_, _)) =>
      NegNeg(PCircleRect(a, b, m));
    case (Rect(_, _), Rect(_, _)) =>
      RectRectAntiSymmetric(a, b);
    case (Rect(_, _), Circle(_)) =>
  }
}
