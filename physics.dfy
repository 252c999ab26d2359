/**
 * The physics step `update(dt)` of physics.ts: integrate the owners of all
 * registered colliders, then resolve every pair of colliders `i < j` with a
 * mass-weighted split of the push.
 *
 * The step is specified by pure functions over a map from owner to
 * position, keyed by the owner object itself so that an owner with two
 * colliders is moved twice, exactly as the source's aliasing does. The
 * method `Update` is proved against them.
 */
module Physics {
  import opened Vectors
  import opened Collision
  import opened Entities

  /** An owner's position. */
  datatype Pos = Pos(x: real, y: real)

  /** What the step reads of an owner and never changes. */
  datatype Props = Props(direction: real, speed: real, weight: real, alive: bool, shape: Shape)

  /** Every owner has a position and properties, with a non-negative weight. */
  ghost predicate Fits(owners: seq<GameObject>, props: map<GameObject, Props>, pos: map<GameObject, Pos>) {
    forall i :: 0 <= i < |owners| ==> owners[i] in pos && owners[i] in props && props[owners[i]].weight >= 0.0
  }

  /** One integration step of one owner: `x += cos(direction) * speed * dt`, likewise `y` with `sin`. */
  function Moved(p: Pos, q: Props, m: Math, dt: real): (p': Pos) {
    Pos(p.x + m.cos(q.direction) * q.speed * dt, p.y + m.sin(q.direction) * q.speed * dt)
  }

  /** Whether integration moves an owner. */
  predicate Moving(q: Props) {
    q.alive && q.speed != 0.0
  }

  /**
   * The integration loop from registry index `i` on. Only owners that are
   * alive with non-zero speed move, and only owners that still come up.
   */
  function IntegrateFrom(owners: seq<GameObject>, props: map<GameObject, Props>, pos: map<GameObject, Pos>, m: Math, dt: real, i: nat): (r: map<GameObject, Pos>)
    requires i <= |owners| && Fits(owners, props, pos)
    ensures r.Keys == pos.Keys
    decreases |owners| - i
  {
    if i == |owners| then pos
    else
      IntegrateFrom(owners, props, IntegrateOne(owners, props, pos, m, dt, i), m, dt, i + 1)
  }

  /** The first loop's step for collider `i`: its owner moves when it is `Moving`. */
  function IntegrateOne(owners: seq<GameObject>, props: map<GameObject, Props>, pos: map<GameObject, Pos>, m: Math, dt: real, i: nat): (r: map<GameObject, Pos>)
    requires i < |owners| && Fits(owners, props, pos)
    ensures r.Keys == pos.Keys && Fits(owners, props, r)
  {
    var o := owners[i];
    if Moving(props[o]) then pos[o := Moved(pos[o], props[o], m, dt)] else pos
  }

  /** A collider's shape placed at its owner's position. */
  function Place(p: Pos, q: Props): (pl: Placed) {
    Placed(p.x, p.y, q.shape)
  }

  /** The push the pair `(a, b)` produces, for `a`, `b` at their positions. */
  function PushOf(props: map<GameObject, Props>, pos: map<GameObject, Pos>, a: GameObject, b: GameObject, m: Math): (v: Vec)
    requires a in pos && b in pos && a in props && b in props
  {
    Intersect(Place(pos[a], props[a]), Place(pos[b], props[b]), m)
  }

  /** Whether the pair loop resolves `b` against `a` (the `current.alive` test is the row's). */
  predicate Engages(pa: Props, pb: Props) {
    pb.alive && (pa.weight != 0.0 || pb.weight != 0.0)
  }

  /**
   * The mass shares `r1 = wa / (wa + wb)` and `r2 = wb / (wa + wb)`: they
   * are what each weight is of the total, they add up to 1, and a weight-0
   * owner gets share 0.
   */
  function Shares(wa: real, wb: real): (s: (real, real))
    requires wa >= 0.0 && wb >= 0.0 && (wa != 0.0 || wb != 0.0)
    ensures s.0 * (wa + wb) == wa && s.1 * (wa + wb) == wb
    ensures s.0 + s.1 == 1.0
    ensures (wa == 0.0 ==> s.0 == 0.0) && (wb == 0.0 ==> s.1 == 0.0)
  {
    (wa / (wa + wb), wb / (wa + wb))
  }

  /**
   * The body of the inner loop for the pair `(a, b)`: when `b` is alive and
   * not both weights are zero, and the push has positive squared length,
   * `a` moves by `p * r1` and then `b` by `-p * r2`. A weight-0 owner never
   * moves; a skipped pair changes nothing; no owner but `a` and `b` moves.
   */
  function ResolvePair(props: map<GameObject, Props>, pos: map<GameObject, Pos>, a: GameObject, b: GameObject, m: Math): (r: map<GameObject, Pos>)
    requires a in pos && b in pos && a in props && b in props
    requires props[a].weight >= 0.0 && props[b].weight >= 0.0
    ensures r.Keys == pos.Keys
    ensures !Engages(props[a], props[b]) || !PushOf(props, pos, a, b, m).Pushes() ==> r == pos
  {
    var pa, pb := props[a], props[b];
    if Engages(pa, pb) then
      var p := PushOf(props, pos, a, b, m);
      if p.Pushes() then Share(pos, a, b, p, Shares(pa.weight, pb.weight)) else pos
    else
      pos
  }

  /** `a` moves by `p * s.0`, then `b` by `-p * s.1`; the second update sees the first when `a == b`. */
  function Share(pos: map<GameObject, Pos>, a: GameObject, b: GameObject, p: Vec, s: (real, real)): (r: map<GameObject, Pos>)
    requires a in pos && b in pos && p.Vec?
    ensures r.Keys == pos.Keys
  {
    var moved := pos[a := Pos(pos[a].x + p.x * s.0, pos[a].y + p.y * s.0)];
    moved[b := Pos(moved[b].x - p.x * s.1, moved[b].y - p.y * s.1)]
  }

  /** `ResolvePair` in terms of the push and the shares the loop body computes. */
  lemma ResolvePairIs(props: map<GameObject, Props>, pos: map<GameObject, Pos>, a: GameObject, b: GameObject, m: Math, p: Vec, s: (real, real))
    requires a in pos && b in pos && a in props && b in props
    requires props[a].weight >= 0.0 && props[b].weight >= 0.0 && Engages(props[a], props[b])
    requires p == Intersect(Placed(pos[a].x, pos[a].y, props[a].shape), Placed(pos[b].x, pos[b].y, props[b].shape), m)
    requires s == Shares(props[a].weight, props[b].weight)
    ensures ResolvePair(props, pos, a, b, m) == if p.Pushes() then Share(pos, a, b, p, s) else pos
  {
  }

  /** For distinct owners and shares adding up to 1, the offset `a - b` grows by exactly `p`. */
  lemma ShareMovesByPush(pos: map<GameObject, Pos>, a: GameObject, b: GameObject, p: Vec, s: (real, real))
    requires a in pos && b in pos && p.Vec? && a != b && s.0 + s.1 == 1.0
    ensures var r := Share(pos, a, b, p, s);
      && r[a].x - r[b].x == pos[a].x - pos[b].x + p.x
      && r[a].y - r[b].y == pos[a].y - pos[b].y + p.y
      && (s.0 == 0.0 ==> r[a] == pos[a] && r[b] == Pos(pos[b].x - p.x, pos[b].y - p.y))
  {
    var r := Share(pos, a, b, p, s);
    assert r[a] == Pos(pos[a].x + p.x * s.0, pos[a].y + p.y * s.0);
    assert r[b] == Pos(pos[b].x - p.x * s.1, pos[b].y - p.y * s.1);
    Split(p.x, s.0, s.1);
    Split(p.y, s.0, s.1);
  }

  /**
   * The mass-weighted split: for two distinct owners, weights not both
   * zero, the offset `a - b` grows by exactly the push; a weight-0 owner
   * paired with a positive one stays put while the other takes the whole
   * push.
   */
  lemma SplitMovesByPush(props: map<GameObject, Props>, pos: map<GameObject, Pos>, a: GameObject, b: GameObject, m: Math)
    requires a in pos && b in pos && a in props && b in props && a != b
    requires props[a].weight >= 0.0 && props[b].weight >= 0.0
    requires Engages(props[a], props[b]) && PushOf(props, pos, a, b, m).Pushes()
    ensures var r, p := ResolvePair(props, pos, a, b, m), PushOf(props, pos, a, b, m);
      && r[a].x - r[b].x == pos[a].x - pos[b].x + p.x
      && r[a].y - r[b].y == pos[a].y - pos[b].y + p.y
      && (props[a].weight == 0.0 ==> r[a] == pos[a] && r[b] == Pos(pos[b].x - p.x, pos[b].y - p.y))
  {
    var s := Shares(props[a].weight, props[b].weight);
    ShareMovesByPush(pos, a, b, PushOf(props, pos, a, b, m), s);
  }

  /** The inner loop of row `i`, from column `j` on. */
  function ResolveRow(owners: seq<GameObject>, props: map<GameObject, Props>, pos: map<GameObject, Pos>, m: Math, i: nat, j: nat): (r: map<GameObject, Pos>)
    requires i < j <= |owners| && Fits(owners, props, pos)
    ensures r.Keys == pos.Keys
    decreases |owners| - j
  {
    if j == |owners| then pos
    else ResolveRow(owners, props, ResolvePair(props, pos, owners[i], owners[j], m), m, i, j + 1)
  }

  /**
   * The outer loop from row `i` on (`i < colliders.length - 1`); a row
   * whose owner is dead is skipped. Weight-0 and dead owners never move.
   */
  function ResolveFrom(owners: seq<GameObject>, props: map<GameObject, Props>, pos: map<GameObject, Pos>, m: Math, i: nat): (r: map<GameObject, Pos>)
    requires i <= |owners| && Fits(owners, props, pos)
    ensures r.Keys == pos.Keys
    decreases |owners| - i
  {
    if i + 1 >= |owners| then pos
    else
      var next := if props[owners[i]].alive then ResolveRow(owners, props, pos, m, i, i + 1) else pos;
      ResolveFrom(owners, props, next, m, i + 1)
  }

  /** The whole step: integrate, then resolve. */
  function Step(owners: seq<GameObject>, props: map<GameObject, Props>, pos: map<GameObject, Pos>, m: Math, dt: real): (r: map<GameObject, Pos>)
    requires Fits(owners, props, pos)
    ensures r.Keys == pos.Keys
  {
    ResolveFrom(owners, props, IntegrateFrom(owners, props, pos, m, dt, 0), m, 0)
  }

  /**
   * Integration from index `i` on moves no owner that is dead or has speed
   * 0, and no owner whose colliders all come before `i`; an owner with one
   * collider still to come moves by exactly one `Moved` step.
   */
  lemma {:induction false} IntegrateKeeps(owners: seq<GameObject>, props: map<GameObject, Props>, pos: map<GameObject, Pos>, m: Math, dt: real, i: nat)
    requires i <= |owners| && Fits(owners, props, pos)
    ensures forall o :: o in pos && o in props && !Moving(props[o]) ==> IntegrateFrom(owners, props, pos, m, dt, i)[o] == pos[o]
    ensures forall o :: o in pos && o !in owners[i..] ==> IntegrateFrom(owners, props, pos, m, dt, i)[o] == pos[o]
    ensures forall o :: o in pos && o in props && multiset(owners[i..])[o] == 1 ==>
      IntegrateFrom(owners, props, pos, m, dt, i)[o] == if Moving(props[o]) then Moved(pos[o], props[o], m, dt) else pos[o]
    decreases |owners| - i
  {
    if i < |owners| {
      var next := IntegrateOne(owners, props, pos, m, dt, i);
      var r := IntegrateFrom(owners, props, pos, m, dt, i);
      assert r == IntegrateFrom(owners, props, next, m, dt, i + 1);
      assert owners[i..] == [owners[i]] + owners[i + 1..];
      IntegrateKeeps(owners, props, next, m, dt, i + 1);
      forall o | o in pos && o in props && multiset(owners[i..])[o] == 1
        ensures r[o] == if Moving(props[o]) then Moved(pos[o], props[o], m, dt) else pos[o]
      {
        if o == owners[i] {
          assert multiset(owners[i + 1..])[o] == 0;
          assert o !in owners[i + 1..];
        } else {
          assert multiset(owners[i + 1..])[o] == 1;
        }
      }
    }
  }

  /**
   * The pair step moves no owner of weight 0, no owner but `a` and `b`,
   * and no dead owner other than `a`.
   */
  lemma PairKeeps(props: map<GameObject, Props>, pos: map<GameObject, Pos>, a: GameObject, b: GameObject, m: Math)
    requires a in pos && b in pos && a in props && b in props
    requires props[a].weight >= 0.0 && props[b].weight >= 0.0
    ensures forall o :: o in pos && o in props && props[o].weight == 0.0 ==> ResolvePair(props, pos, a, b, m)[o] == pos[o]
    ensures forall o :: o in pos && o != a && o != b ==> ResolvePair(props, pos, a, b, m)[o] == pos[o]
    ensures forall o :: o in pos && o in props && !props[o].alive && o != a ==> ResolvePair(props, pos, a, b, m)[o] == pos[o]
  {
    var pa, pb := props[a], props[b];
    if Engages(pa, pb) {
      var p := PushOf(props, pos, a, b, m);
      if p.Pushes() {
        var sh := Shares(pa.weight, pb.weight);
        var r := Share(pos, a, b, p, sh);
        assert ResolvePair(props, pos, a, b, m) == r;
        forall o | o in pos && o in props && props[o].weight == 0.0
          ensures r[o] == pos[o]
        {
          if o == b {
            assert sh.1 == 0.0;
          } else if o == a {
            assert sh.0 == 0.0;
          }
        }
      }
    }
  }

  /** A row moves no owner of weight 0, and when its owner is alive, no dead owner. */
  lemma {:induction false} RowKeeps(owners: seq<GameObject>, props: map<GameObject, Props>, pos: map<GameObject, Pos>, m: Math, i: nat, j: nat)
    requires i < j <= |owners| && Fits(owners, props, pos)
    ensures forall o :: o in pos && o in props && props[o].weight == 0.0 ==> ResolveRow(owners, props, pos, m, i, j)[o] == pos[o]
    ensures props[owners[i]].alive ==>
      forall o :: o in pos && o in props && !props[o].alive ==> ResolveRow(owners, props, pos, m, i, j)[o] == pos[o]
    decreases |owners| - j
  {
    if j < |owners| {
      var next := ResolvePair(props, pos, owners[i], owners[j], m);
      PairKeeps(props, pos, owners[i], owners[j], m);
      RowKeeps(owners, props, next, m, i, j + 1);
    }
  }

  /** Resolution from row `i` on moves no owner of weight 0 and no dead owner. */
  lemma {:induction false} ResolveKeeps(owners: seq<GameObject>, props: map<GameObject, Props>, pos: map<GameObject, Pos>, m: Math, i: nat)
    requires i <= |owners| && Fits(owners, props, pos)
    ensures forall o :: o in pos && o in props && props[o].weight == 0.0 ==> ResolveFrom(owners, props, pos, m, i)[o] == pos[o]
    ensures forall o :: o in pos && o in props && !props[o].alive ==> ResolveFrom(owners, props, pos, m, i)[o] == pos[o]
    decreases |owners| - i
  {
    if i + 1 < |owners| {
      var next := if props[owners[i]].alive then ResolveRow(owners, props, pos, m, i, i + 1) else pos;
      if props[owners[i]].alive {
        RowKeeps(owners, props, pos, m, i, i + 1);
      }
      ResolveKeeps(owners, props, next, m, i + 1);
    }
  }

  /** A step moves no dead owner, and no owner of weight 0 and speed 0. */
  lemma StepKeeps(owners: seq<GameObject>, props: map<GameObject, Props>, pos: map<GameObject, Pos>, m: Math, dt: real)
    requires Fits(owners, props, pos)
    ensures forall o :: o in pos && o in props && !props[o].alive ==> Step(owners, props, pos, m, dt)[o] == pos[o]
    ensures forall o :: o in pos && o in props && props[o].weight == 0.0 && props[o].speed == 0.0 ==> Step(owners, props, pos, m, dt)[o] == pos[o]
  {
    IntegrateKeeps(owners, props, pos, m, dt, 0);
    ResolveKeeps(owners, props, IntegrateFrom(owners, props, pos, m, dt, 0), m, 0);
  }

  /** Two circles of radius 0.5 whose centres are 0.6 apart along x: the first is pushed 0.4 back. */
  lemma CircleCircleExample(m: Math)
    requires m.Sound()
    ensures PCircleCircle(Placed(0.0, 0.0, Circle(0.5)), Placed(0.6, 0.0, Circle(0.5)), m) == Vec(-0.4, 0.0)
  {
    var root := m.sqrt(0.36);
    SqrtFacts(m, 0.36);
    assert (root - 0.6) * (root + 0.6) == root * root - 0.36;
    ProductSign(root - 0.6, root + 0.6, 0.0);
    var d := Vec(0.6, 0.0);
    assert d.Ms() == 0.36;
    assert d.Normalize(m) == Vec(1.0, 0.0);
  }

  /**
   * Two alive circles of radius 0.5 and weight 1 whose centres are 0.6
   * apart each take half of the push and end exactly 1.0 apart, touching.
   */
  lemma CirclesPairExample(a: GameObject, b: GameObject, m: Math)
    requires m.Sound() && a != b
    ensures var q := Props(0.0, 0.0, 1.0, true, Circle(0.5));
      var r := ResolvePair(map[a := q, b := q], map[a := Pos(0.0, 0.0), b := Pos(0.6, 0.0)], a, b, m);
      r[a] == Pos(-0.2, 0.0) && r[b] == Pos(0.8, 0.0) && r[b].x - r[a].x == 1.0
  {
    var q := Props(0.0, 0.0, 1.0, true, Circle(0.5));
    var props, pos := map[a := q, b := q], map[a := Pos(0.0, 0.0), b := Pos(0.6, 0.0)];
    CircleCircleExample(m);
    var p := Vec(-0.4, 0.0);
    assert Shares(1.0, 1.0) == (0.5, 0.5);
    ResolvePairIs(props, pos, a, b, m, p, (0.5, 0.5));
    var r := Share(pos, a, b, p, (0.5, 0.5));
    assert r[a] == Pos(-0.2, 0.0) && r[b] == Pos(0.8, 0.0);
  }

  /** With `cos(0) = 1` and `sin(0) = 0`, an owner heading 0 at speed 10 moves 0.2 along x in a 0.02 s step. */
  lemma MovedExample(m: Math)
    requires m.Sound()
    ensures Moved(Pos(1.5, 2.0), Props(0.0, 10.0, 1.0, true, Circle(0.5)), m, 0.02) == Pos(1.7, 2.0)
  {
  }

  /** The pairs `(i, j)` of row `i` from column `j` to `n - 1`, in order. */
  function RowPairs(i: nat, j: nat, n: nat): (ps: seq<(nat, nat)>)
    ensures |ps| == if j >= n then 0 else n - j
    ensures forall k :: 0 <= k < |ps| ==> ps[k] == (i, j + k)
    decreases n - j
  {
    if j >= n then []
    else
      var rest := RowPairs(i, j + 1, n);
      assert forall k :: 1 <= k < |rest| + 1 ==> ([(i, j)] + rest)[k] == rest[k - 1];
      [(i, j)] + rest
  }

  /** The pairs the nested loops visit from row `i` on, in visiting order; all lie in the triangle `i <= i' < j' < n`. */
  function PairsFrom(i: nat, n: nat): (ps: seq<(nat, nat)>)
    ensures forall k :: 0 <= k < |ps| ==> i <= ps[k].0 < ps[k].1 < n
    decreases n - i
  {
    if i + 1 >= n then []
    else
      var row, rest := RowPairs(i, i + 1, n), PairsFrom(i + 1, n);
      assert forall k :: |row| <= k < |row| + |rest| ==> (row + rest)[k] == rest[k - |row|];
      row + rest
  }

  /** `p` comes strictly before `q` in lexicographic order. */
  predicate Before(p: (nat, nat), q: (nat, nat)) {
    p.0 < q.0 || (p.0 == q.0 && p.1 < q.1)
  }

  /** The nested loops visit every pair `i0 <= i < j < n`. */
  lemma {:induction false} PairsFromComplete(i0: nat, n: nat, i: nat, j: nat)
    requires i0 <= i < j < n
    ensures (i, j) in PairsFrom(i0, n)
    decreases n - i0
  {
    var row, rest := RowPairs(i0, i0 + 1, n), PairsFrom(i0 + 1, n);
    assert PairsFrom(i0, n) == row + rest;
    if i == i0 {
      assert row[j - i0 - 1] == (i, j);
    } else {
      PairsFromComplete(i0 + 1, n, i, j);
    }
  }

  /** The nested loops visit the pairs in strictly increasing lexicographic order, so each at most once. */
  lemma {:induction false} PairsFromOrdered(i0: nat, n: nat)
    ensures forall k, l :: 0 <= k < l < |PairsFrom(i0, n)| ==> Before(PairsFrom(i0, n)[k], PairsFrom(i0, n)[l])
    decreases n - i0
  {
    if i0 + 1 < n {
      var row, rest := RowPairs(i0, i0 + 1, n), PairsFrom(i0 + 1, n);
      var ps := PairsFrom(i0, n);
      assert ps == row + rest;
      PairsFromOrdered(i0 + 1, n);
      forall k, l | 0 <= k < l < |ps|
        ensures Before(ps[k], ps[l])
      {
        if l < |row| {
          assert ps[k] == row[k] && ps[l] == row[l];
        } else if k < |row| {
          assert ps[k] == row[k] && ps[l] == rest[l - |row|];
        } else {
          assert ps[k] == rest[k - |row|] && ps[l] == rest[l - |row|];
        }
      }
    }
  }

  /** The gated pair step of the reference order: a pair counts only when its row owner is alive. */
  function PairStep(owners: seq<GameObject>, props: map<GameObject, Props>, pos: map<GameObject, Pos>, m: Math, ij: (nat, nat)): (r: map<GameObject, Pos>)
    requires ij.0 < |owners| && ij.1 < |owners| && Fits(owners, props, pos)
    ensures r.Keys == pos.Keys
  {
    if props[owners[ij.0]].alive then ResolvePair(props, pos, owners[ij.0], owners[ij.1], m) else pos
  }

  /** The reference definition: apply the gated pair step along a list of pairs. */
  function Fold(owners: seq<GameObject>, props: map<GameObject, Props>, pos: map<GameObject, Pos>, m: Math, ps: seq<(nat, nat)>): (r: map<GameObject, Pos>)
    requires forall k :: 0 <= k < |ps| ==> ps[k].0 < |owners| && ps[k].1 < |owners|
    requires Fits(owners, props, pos)
    ensures r.Keys == pos.Keys
    decreases |ps|
  {
    if ps == [] then pos else Fold(owners, props, PairStep(owners, props, pos, m, ps[0]), m, ps[1..])
  }

  lemma {:induction false} FoldAppend(owners: seq<GameObject>, props: map<GameObject, Props>, pos: map<GameObject, Pos>, m: Math, xs: seq<(nat, nat)>, ys: seq<(nat, nat)>)
    requires forall k :: 0 <= k < |xs| ==> xs[k].0 < |owners| && xs[k].1 < |owners|
    requires forall k :: 0 <= k < |ys| ==> ys[k].0 < |owners| && ys[k].1 < |owners|
    requires Fits(owners, props, pos)
    ensures Fold(owners, props, pos, m, xs + ys) == Fold(owners, props, Fold(owners, props, pos, m, xs), m, ys)
    decreases |xs|
  {
    if xs != [] {
      var next := PairStep(owners, props, pos, m, xs[0]);
      assert (xs + ys)[0] == xs[0];
      assert (xs + ys)[1..] == xs[1..] + ys;
      assert Fold(owners, props, pos, m, xs + ys) == Fold(owners, props, next, m, xs[1..] + ys);
      assert Fold(owners, props, pos, m, xs) == Fold(owners, props, next, m, xs[1..]);
      FoldAppend(owners, props, next, m, xs[1..], ys);
    } else {
      assert xs + ys == ys;
    }
  }

  /** Row `i` is the fold of its pairs: all of them when its owner is alive, none otherwise. */
  lemma {:induction false} RowIsFold(owners: seq<GameObject>, props: map<GameObject, Props>, pos: map<GameObject, Pos>, m: Math, i: nat, j: nat)
    requires i < j <= |owners| && Fits(owners, props, pos)
    ensures Fold(owners, props, pos, m, RowPairs(i, j, |owners|))
         == if props[owners[i]].alive then ResolveRow(owners, props, pos, m, i, j) else pos
    decreases |owners| - j
  {
    if j < |owners| {
      RowIsFold(owners, props, PairStep(owners, props, pos, m, (i, j)), m, i, j + 1);
    }
  }

  /**
   * The nested loops of the source resolve exactly the pairs `i < j` in
   * lexicographic order, skipping the rows of dead owners.
   */
  lemma {:induction false} ResolveIsFold(owners: seq<GameObject>, props: map<GameObject, Props>, pos: map<GameObject, Pos>, m: Math, i: nat)
    requires i <= |owners| && Fits(owners, props, pos)
    ensures ResolveFrom(owners, props, pos, m, i) == Fold(owners, props, pos, m, PairsFrom(i, |owners|))
    decreases |owners| - i
  {
    var n := |owners|;
    if i + 1 < n {
      var row, rest := RowPairs(i, i + 1, n), PairsFrom(i + 1, n);
      var next := if props[owners[i]].alive then ResolveRow(owners, props, pos, m, i, i + 1) else pos;
      assert Fold(owners, props, pos, m, PairsFrom(i, n)) == Fold(owners, props, next, m, rest) by {
        assert PairsFrom(i, n) == row + rest;
        FoldAppend(owners, props, pos, m, row, rest);
        RowIsFold(owners, props, pos, m, i, i + 1);
      }
      ResolveIsFold(owners, props, next, m, i + 1);
    }
  }

  /** What the step reads of one owner. */
  ghost function OwnerProps(o: GameObject): (q: Props)
    reads o`direction, o`speed, o`alive, o`components, o`index
    requires o.Valid() && o.components != []
  {
    Props(o.direction, o.speed, o.weight, o.alive, o.ColliderShape())
  }

  /** `q` records the fields of `o` the step reads. */
  ghost predicate Agrees(o: GameObject, q: Props)
    reads o`direction, o`speed, o`alive
  {
    q.direction == o.direction && q.speed == o.speed && q.weight == o.weight && q.alive == o.alive
  }

  /** `sh` is the shape physics uses for an object with components `cs` and component index `index`. */
  ghost predicate ShapeIs(cs: seq<Collider>, index: map<Kind, seq<Collider>>, sh: Shape) {
    && Consistent(cs, index) && cs != []
    && (OfKind(cs, RectKind) != [] ==> sh == OfKind(cs, RectKind)[0].shape)
    && (OfKind(cs, RectKind) == [] ==> OfKind(cs, CircleKind) != [] && sh == OfKind(cs, CircleKind)[0].shape)
  }

  /** Collider `k` is owned by `owners[k]`, which is in `s` and described by `props`. */
  ghost predicate RecordedAt(reg: Registry, s: set<GameObject>, owners: seq<GameObject>, props: map<GameObject, Props>, k: nat)
    reads reg, reg.colliders, s`direction, s`speed, s`alive, s`components, s`index
    requires k < |owners| == |reg.colliders|
  {
    && reg.colliders[k].parent == owners[k] && owners[k] in s && owners[k] in props
    && Agrees(owners[k], props[owners[k]]) && ShapeIs(owners[k].components, owners[k].index, props[owners[k]].shape)
  }

  /** `RecordedAt` holds for every collider from `k` on. */
  ghost predicate RecordedFrom(reg: Registry, s: set<GameObject>, owners: seq<GameObject>, props: map<GameObject, Props>, k: nat)
    reads reg, reg.colliders, s`direction, s`speed, s`alive, s`components, s`index
    requires |owners| == |reg.colliders|
    decreases |owners| - k
  {
    k >= |owners| || (RecordedAt(reg, s, owners, props, k) && RecordedFrom(reg, s, owners, props, k + 1))
  }

  /**
   * The registry's colliders are owned, position by position, by `owners`,
   * all of them in `s` and described by `props`.
   */
  ghost predicate Recorded(reg: Registry, s: set<GameObject>, owners: seq<GameObject>, props: map<GameObject, Props>)
    reads reg, reg.colliders, s`direction, s`speed, s`alive, s`components, s`index
  {
    |reg.colliders| == |owners| && RecordedFrom(reg, s, owners, props, 0)
  }

  /** A recorded registry records each of its colliders. */
  lemma RecordedIndex(reg: Registry, s: set<GameObject>, owners: seq<GameObject>, props: map<GameObject, Props>, i: nat)
    requires Recorded(reg, s, owners, props) && i < |owners|
    ensures RecordedAt(reg, s, owners, props, i)
  {
    RecordedFromIndex(reg, s, owners, props, 0, i);
  }

  lemma {:induction false} RecordedFromIndex(reg: Registry, s: set<GameObject>, owners: seq<GameObject>, props: map<GameObject, Props>, k: nat, i: nat)
    requires |owners| == |reg.colliders| && RecordedFrom(reg, s, owners, props, k) && k <= i < |owners|
    ensures RecordedAt(reg, s, owners, props, i)
    decreases i - k
  {
    if k < i {
      RecordedFromIndex(reg, s, owners, props, k + 1, i);
    }
  }

  /** An owner of a registered collider is consistent, has a collider and has a non-negative weight. */
  lemma OwnerFacts(reg: Registry, o: GameObject)
    requires reg.Valid() && o in reg.OwnerSet()
    ensures o.Valid() && o.components != [] && o.weight >= 0.0
    ensures OfKind(o.components, RectKind) != [] || OfKind(o.components, CircleKind) != []
  {
    var i :| 0 <= i < |reg.colliders| && reg.colliders[i].parent == o;
    assert reg.colliders[i] in o.components;
    SomeKind(o.components);
  }

  /** `OwnerFacts` for every registered owner. */
  lemma OwnersFacts(reg: Registry)
    requires reg.Valid()
    ensures forall o :: o in reg.OwnerSet() ==> o.Valid() && o.components != [] && o.weight >= 0.0
  {
    forall o | o in reg.OwnerSet()
      ensures o.Valid() && o.components != [] && o.weight >= 0.0
    {
      OwnerFacts(reg, o);
    }
  }

  /** The properties of every registered owner, as the step reads them. */
  ghost function PropsOf(reg: Registry): (props: map<GameObject, Props>)
    reads reg, reg.colliders, reg.OwnerSet()`direction, reg.OwnerSet()`speed, reg.OwnerSet()`alive
    reads reg.OwnerSet()`components, reg.OwnerSet()`index
    requires reg.Valid()
    ensures props.Keys == reg.OwnerSet()
    ensures forall o :: o in reg.OwnerSet() ==> Agrees(o, props[o]) && ShapeIs(o.components, o.index, props[o].shape) && props[o].weight >= 0.0
  {
    OwnersFacts(reg);
    map o | o in reg.OwnerSet() :: OwnerProps(o)
  }

  /** The positions of the owners in `s`. */
  ghost function PositionsIn(s: set<GameObject>): (pos: map<GameObject, Pos>)
    reads s`x, s`y
    ensures pos.Keys == s
    ensures forall o :: o in s ==> pos[o] == Pos(o.x, o.y)
  {
    map o | o in s :: Pos(o.x, o.y)
  }

  /** The positions of every registered owner. */
  ghost function PositionsOf(reg: Registry): (pos: map<GameObject, Pos>)
    reads reg, reg.colliders, reg.OwnerSet()`x, reg.OwnerSet()`y
  {
    PositionsIn(reg.OwnerSet())
  }

  /** Positions recorded earlier are still the positions of `s` when nobody in `s` has moved. */
  lemma SamePositions(s: set<GameObject>, p: map<GameObject, Pos>)
    requires p.Keys == s && forall o :: o in s ==> p[o] == Pos(o.x, o.y)
    ensures PositionsIn(s) == p
  {
  }

  /** The positions of `s` and one more owner `o`: those of `s` plus the new one's. */
  lemma PositionsAdded(s: set<GameObject>, o: GameObject)
    ensures PositionsIn(s + {o}) == PositionsIn(s)[o := Pos(o.x, o.y)]
  {
  }

  /**
   * `update(dt)`: moves each registered collider's owner by its velocity,
   * then resolves every pair of colliders. The new positions are exactly
   * `Step` of the old ones; nothing but the owners' positions changes.
   */
  method Update(reg: Registry, dt: real, m: Math)
    requires reg.Valid()
    modifies reg.OwnerSet()`x, reg.OwnerSet()`y
    ensures PositionsIn(old(reg.OwnerSet())) == Step(old(reg.Owners()), old(PropsOf(reg)), old(PositionsOf(reg)), m, dt)
    ensures reg.Valid() && reg.OwnerSet() == old(reg.OwnerSet()) && reg.Owners() == old(reg.Owners())
    ensures PropsOf(reg) == old(PropsOf(reg))
  {
    ghost var s := reg.OwnerSet();
    Move(reg, dt, m);
    PropsUnchanged(reg, s);
  }

  /** The two loops of `update`: the new positions are `Step` of the old ones. */
  method Move(reg: Registry, dt: real, m: Math)
    requires reg.Valid()
    modifies reg.OwnerSet()`x, reg.OwnerSet()`y
    ensures PositionsIn(old(reg.OwnerSet())) == Step(old(reg.Owners()), old(PropsOf(reg)), old(PositionsOf(reg)), m, dt)
  {
    ghost var s, owners, props := reg.OwnerSet(), reg.Owners(), PropsOf(reg);
    RegistryRecorded(reg);
    StepRecorded(reg, s, owners, props, m, dt);
  }

  /** `Update` on a registry whose owners `s`, in registry order `owners`, are described by `props`. */
  method StepRecorded(reg: Registry, ghost s: set<GameObject>, ghost owners: seq<GameObject>, ghost props: map<GameObject, Props>, m: Math, dt: real)
    requires Recorded(reg, s, owners, props) && Fits(owners, props, PositionsIn(s))
    modifies s`x, s`y
    ensures PositionsIn(s) == Step(owners, props, old(PositionsIn(s)), m, dt)
  {
    IntegrateAll(reg, s, owners, props, m, dt);
    ResolveAll(reg, s, owners, props, m);
  }

  /** A valid registry is recorded by its owners and their properties, and its owners fit them. */
  lemma RegistryRecorded(reg: Registry)
    requires reg.Valid()
    ensures Recorded(reg, reg.OwnerSet(), reg.Owners(), PropsOf(reg))
    ensures Fits(reg.Owners(), PropsOf(reg), PositionsIn(reg.OwnerSet()))
  {
    RegistryRecordedFrom(reg, 0);
  }

  lemma {:induction false} RegistryRecordedFrom(reg: Registry, k: nat)
    requires reg.Valid()
    ensures RecordedFrom(reg, reg.OwnerSet(), reg.Owners(), PropsOf(reg), k)
    decreases |reg.colliders| - k
  {
    if k < |reg.colliders| {
      RegistryRecordedFrom(reg, k + 1);
    }
  }

  /** A step that changes only positions leaves the registry, its owners and their validity as they were. */
  twostate lemma RegistryUnchanged(reg: Registry, new s: set<GameObject>)
    requires old(reg.Valid()) && s == old(reg.OwnerSet())
    requires unchanged(reg) && unchanged(reg.colliders) && unchanged(s`components, s`index)
    ensures reg.OwnerSet() == s && reg.Valid() && reg.Owners() == old(reg.Owners())
  {
  }

  /** Changing nothing of the registry and its owners leaves their validity, properties and positions as they were. */
  twostate lemma RegistryUntouched(reg: Registry, new s: set<GameObject>)
    requires old(reg.Valid()) && s == old(reg.OwnerSet())
    requires unchanged(reg) && unchanged(reg.colliders) && unchanged(s)
    ensures reg.Valid() && reg.OwnerSet() == s && reg.Owners() == old(reg.Owners())
    ensures PropsOf(reg) == old(PropsOf(reg)) && PositionsIn(s) == old(PositionsIn(s))
  {
    PropsUnchanged(reg, s);
  }

  /** A step that changes only positions leaves the registry valid and every owner's properties as they were. */
  twostate lemma PropsUnchanged(reg: Registry, new s: set<GameObject>)
    requires old(reg.Valid()) && s == old(reg.OwnerSet())
    requires unchanged(reg) && unchanged(reg.colliders)
    requires unchanged(s`direction, s`speed, s`alive, s`components, s`index)
    ensures reg.Valid() && reg.OwnerSet() == s && reg.Owners() == old(reg.Owners())
    ensures PropsOf(reg) == old(PropsOf(reg))
  {
    RegistryUnchanged(reg, s);
    OwnersFacts(reg);
    forall o | o in s
      ensures OwnerProps(o) == old(OwnerProps(o))
    {
    }
  }

  /** The first loop: every collider's owner moves by its velocity, in registry order. */
  method IntegrateAll(reg: Registry, ghost s: set<GameObject>, ghost owners: seq<GameObject>, ghost props: map<GameObject, Props>, m: Math, dt: real)
    requires Recorded(reg, s, owners, props) && Fits(owners, props, PositionsIn(s))
    modifies s`x, s`y
    ensures PositionsIn(s) == IntegrateFrom(owners, props, old(PositionsIn(s)), m, dt, 0)
  {
    ghost var moved := IntegrateFrom(owners, props, PositionsIn(s), m, dt, 0);
    var i := 0;
    while i < |reg.colliders|
      invariant 0 <= i <= |owners| && Fits(owners, props, PositionsIn(s))
      invariant IntegrateFrom(owners, props, PositionsIn(s), m, dt, i) == moved
    {
      IntegrateAt(reg, s, owners, props, i, m, dt);
      i := i + 1;
    }
  }

  /** One iteration of the first loop: the owner of collider `i`. */
  method IntegrateAt(reg: Registry, ghost s: set<GameObject>, ghost owners: seq<GameObject>, ghost props: map<GameObject, Props>, i: nat, m: Math, dt: real)
    requires Recorded(reg, s, owners, props) && Fits(owners, props, PositionsIn(s)) && i < |owners|
    modifies s`x, s`y
    ensures PositionsIn(s) == IntegrateOne(owners, props, old(PositionsIn(s)), m, dt, i)
    ensures Fits(owners, props, PositionsIn(s))
    ensures IntegrateFrom(owners, props, PositionsIn(s), m, dt, i + 1) == IntegrateFrom(owners, props, old(PositionsIn(s)), m, dt, i)
  {
    RecordedIndex(reg, s, owners, props, i);
    var obj := reg.colliders[i].parent;
    Integrate(s, props, obj, m, dt);
  }

  /** The second loop: row `i` for every collider but the last, in registry order. */
  method ResolveAll(reg: Registry, ghost s: set<GameObject>, ghost owners: seq<GameObject>, ghost props: map<GameObject, Props>, m: Math)
    requires Recorded(reg, s, owners, props) && Fits(owners, props, PositionsIn(s))
    modifies s`x, s`y
    ensures PositionsIn(s) == ResolveFrom(owners, props, old(PositionsIn(s)), m, 0)
  {
    ghost var target := ResolveFrom(owners, props, PositionsIn(s), m, 0);
    var i := 0;
    while i + 1 < |reg.colliders|
      invariant 0 <= i && (|owners| > 0 ==> i <= |owners| - 1) && (|owners| == 0 ==> i == 0)
      invariant Fits(owners, props, PositionsIn(s))
      invariant ResolveFrom(owners, props, PositionsIn(s), m, i) == target
    {
      ResolveRowOf(reg, s, owners, props, i, m);
      i := i + 1;
    }
  }

  /** One iteration of the second loop: when the owner of collider `i` is alive, the inner loop for row `i`. */
  method ResolveRowOf(reg: Registry, ghost s: set<GameObject>, ghost owners: seq<GameObject>, ghost props: map<GameObject, Props>, i: nat, m: Math)
    requires Recorded(reg, s, owners, props) && Fits(owners, props, PositionsIn(s)) && i + 1 < |owners|
    modifies s`x, s`y
    ensures PositionsIn(s) == if props[owners[i]].alive then ResolveRow(owners, props, old(PositionsIn(s)), m, i, i + 1) else old(PositionsIn(s))
    ensures Fits(owners, props, PositionsIn(s))
    ensures ResolveFrom(owners, props, PositionsIn(s), m, i + 1) == ResolveFrom(owners, props, old(PositionsIn(s)), m, i)
  {
    RecordedIndex(reg, s, owners, props, i);
    var current := reg.colliders[i].parent;
    if current.alive {
      ResolveRowLoop(reg, s, owners, props, current, i, m);
    }
  }

  /** Row `i` from column `j`: the pair `(i, j)`, then the row from `j + 1`. */
  lemma RowStep(owners: seq<GameObject>, props: map<GameObject, Props>, pos: map<GameObject, Pos>, m: Math, i: nat, j: nat)
    requires i < j < |owners| && Fits(owners, props, pos)
    ensures ResolveRow(owners, props, pos, m, i, j) == ResolveRow(owners, props, ResolvePair(props, pos, owners[i], owners[j], m), m, i, j + 1)
  {
  }

  /** The inner loop for row `i`, whose owner is `current`: the new positions are `ResolveRow` of the old ones. */
  method ResolveRowLoop(reg: Registry, ghost s: set<GameObject>, ghost owners: seq<GameObject>, ghost props: map<GameObject, Props>, current: GameObject, i: nat, m: Math)
    requires Recorded(reg, s, owners, props) && Fits(owners, props, PositionsIn(s)) && i + 1 < |owners| && current == owners[i]
    modifies s`x, s`y
    ensures PositionsIn(s) == ResolveRow(owners, props, old(PositionsIn(s)), m, i, i + 1)
  {
    ghost var row := ResolveRow(owners, props, PositionsIn(s), m, i, i + 1);
    var j := i + 1;
    while j < |reg.colliders|
      invariant RowLeft(owners, props, PositionsIn(s), m, i, j, row)
    {
      ResolveColumn(reg, s, owners, props, current, i, j, m);
      j := j + 1;
    }
  }

  /** Resolving row `i` from column `j` on positions `pos` gives `row`. */
  ghost predicate RowLeft(owners: seq<GameObject>, props: map<GameObject, Props>, pos: map<GameObject, Pos>, m: Math, i: nat, j: nat, row: map<GameObject, Pos>) {
    i < j <= |owners| && Fits(owners, props, pos) && ResolveRow(owners, props, pos, m, i, j) == row
  }

  /** One iteration of the inner loop: column `j` of row `i`. */
  method ResolveColumn(reg: Registry, ghost s: set<GameObject>, ghost owners: seq<GameObject>, ghost props: map<GameObject, Props>, current: GameObject, ghost i: nat, j: nat, m: Math)
    requires Recorded(reg, s, owners, props) && Fits(owners, props, PositionsIn(s)) && i < j < |owners| && current == owners[i]
    modifies s`x, s`y
    ensures PositionsIn(s) == ResolvePair(props, old(PositionsIn(s)), owners[i], owners[j], m)
    ensures Fits(owners, props, PositionsIn(s))
    ensures ResolveRow(owners, props, PositionsIn(s), m, i, j + 1) == ResolveRow(owners, props, old(PositionsIn(s)), m, i, j)
  {
    RecordedIndex(reg, s, owners, props, i);
    RecordedIndex(reg, s, owners, props, j);
    var other := reg.colliders[j].parent;
    RowStep(owners, props, PositionsIn(s), m, i, j);
    ResolvePairOf(s, props, current, other, m);
  }

  /** The inner loop's body for the owners `current` and `other` of two colliders: the new positions are `ResolvePair` of the old ones. */
  method ResolvePairOf(ghost s: set<GameObject>, ghost props: map<GameObject, Props>, current: GameObject, other: GameObject, m: Math)
    requires current in s && current in props && Agrees(current, props[current]) && ShapeIs(current.components, current.index, props[current].shape)
    requires other in s && other in props && Agrees(other, props[other]) && ShapeIs(other.components, other.index, props[other].shape)
    requires current.weight >= 0.0 && other.weight >= 0.0
    modifies current`x, current`y, other`x, other`y
    ensures PositionsIn(s) == ResolvePair(props, old(PositionsIn(s)), current, other, m)
  {
    if other.alive && (current.weight != 0.0 || other.weight != 0.0) {
      var c1 := ShapeOf(current, props[current].shape);
      var c2 := ShapeOf(other, props[other].shape);
      ResolveColliders(s, props, current, other, c1, c2, m);
    }
  }

  /** The shape physics uses for `o`: `getComponent(Rect) || getComponent(Circle)`. */
  method ShapeOf(o: GameObject, ghost sh: Shape) returns (r: Shape)
    requires ShapeIs(o.components, o.index, sh)
    ensures r == sh
  {
    r := o.ColliderShape();
  }

  /** The integration loop's body for one owner: its new position is `Moved` of the old one when it is `Moving`. */
  method Integrate(ghost s: set<GameObject>, ghost props: map<GameObject, Props>, obj: GameObject, m: Math, dt: real)
    requires obj in s && obj in props && Agrees(obj, props[obj])
    modifies obj`x, obj`y
    ensures PositionsIn(s) == if Moving(props[obj]) then old(PositionsIn(s))[obj := Moved(old(PositionsIn(s))[obj], props[obj], m, dt)] else old(PositionsIn(s))
  {
    if obj.alive && obj.speed != 0.0 {
      ghost var want := old(PositionsIn(s))[obj := Moved(old(PositionsIn(s))[obj], props[obj], m, dt)];
      obj.x := obj.x + m.cos(obj.direction) * obj.speed * dt;
      obj.y := obj.y + m.sin(obj.direction) * obj.speed * dt;
      assert forall o :: o in s ==> PositionsIn(s)[o] == want[o];
    }
  }

  /**
   * The inner loop's body for the owners `current` and `other` of two
   * colliders that engage, with the shapes `c1` and `c2` physics uses for
   * them: the new positions are `ResolvePair` of the old ones.
   */
  method ResolveColliders(ghost s: set<GameObject>, ghost props: map<GameObject, Props>, current: GameObject, other: GameObject, c1: Shape, c2: Shape, m: Math)
    requires current in s && current in props && other in s && other in props
    requires props[current].weight == current.weight >= 0.0 && props[other].weight == other.weight >= 0.0
    requires Engages(props[current], props[other])
    requires props[current].shape == c1 && props[other].shape == c2
    modifies current`x, current`y, other`x, other`y
    ensures PositionsIn(s) == ResolvePair(props, old(PositionsIn(s)), current, other, m)
  {
    ghost var before := PositionsIn(s);
    var p := Intersect(Placed(current.x, current.y, c1), Placed(other.x, other.y, c2), m);
    ghost var shares := Shares(current.weight, other.weight);
    ResolvePairIs(props, before, current, other, m, p, shares);
    if p.Pushes() {
      var r1 := current.weight / (current.weight + other.weight);
      var r2 := other.weight / (current.weight + other.weight);
      assert (r1, r2) == shares;
      ApplyPush(s, current, other, p, r1, r2);
    }
  }

  /** The two position updates of a resolved pair: `current` moves by `p * r1`, then `other` by `-p * r2`. */
  method ApplyPush(ghost s: set<GameObject>, current: GameObject, other: GameObject, p: Vec, r1: real, r2: real)
    requires current in s && other in s && p.Vec?
    modifies current`x, current`y, other`x, other`y
    ensures PositionsIn(s) == Share(old(PositionsIn(s)), current, other, p, (r1, r2))
  {
    ghost var want := Share(PositionsIn(s), current, other, p, (r1, r2));
    current.x := current.x + p.x * r1;
    current.y := current.y + p.y * r1;
    other.x := other.x - p.x * r2;
    other.y := other.y - p.y * r2;
    assert Pos(current.x, current.y) == want[current] && Pos(other.x, other.y) == want[other];
    assert forall o :: o in s ==> PositionsIn(s)[o] == want[o];
  }
}
