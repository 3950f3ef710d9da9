/** The bouncing-balls demo of DeepSeek/deepseekCode2.py: balls whose
    position and velocity are numpy arrays of two components, advanced by a
    time step under gravity, reflected at the walls, and colliding
    elastically along the line of centres.

    `np.linalg.norm` of the centre difference is a caller-supplied `d` with
    `d > 0` and `d * d == dx * dx + dy * dy`; centres that coincide would make
    the normal `nan` and are excluded. */
module DeepSeekBalls {
  import Numerics
  import ElasticCollision

  const RADIUS: real := 0.1
  const WIDTH: real := 10.0
  const HEIGHT: real := 10.0
  const GRAVITY: real := 9.81
  /** The time step of one frame. */
  const DT: real := 0.01

  /** The state of one ball, as a value. */
  datatype BallState = BallState(px: real, py: real, vx: real, vy: real, mass: real)

  /** Masses are drawn from `np.random.uniform(0.5, 1.5)`, so they are
      positive. */
  predicate WellFormed(b: BallState)
  {
    b.mass > 0.0
  }

  // ---------------------------------------------------------------------------
  // Motion and walls

  /** `update_position` on a value: the position advances by the velocity
      before gravity, then gravity lowers the vertical velocity. */
  function Advanced(b: BallState): (r: BallState)
    ensures r.vx == b.vx && r.mass == b.mass
  {
    b.(px := b.px + b.vx * DT, py := b.py + b.vy * DT, vy := b.vy - GRAVITY * DT)
  }

  /** `n` calls of `update_position`. */
  function AdvancedTimes(b: BallState, n: nat): BallState
  {
    if n == 0 then b else Advanced(AdvancedTimes(b, n - 1))
  }

  /** After `n` steps the horizontal motion is uniform and the vertical one
      uniformly accelerated: `vy` has lost `n * GRAVITY * DT` and `py` has
      moved by the sum of the `n` vertical velocities used. */
  lemma AdvancedTimesClosedForm(b: BallState, n: nat)
    ensures var r := AdvancedTimes(b, n);
      && r.vx == b.vx && r.mass == b.mass
      && r.px == b.px + (n as real) * b.vx * DT
      && r.vy == b.vy - (n as real) * GRAVITY * DT
      && r.py == b.py + (n as real) * b.vy * DT - ((n * (n - 1) / 2) as real) * GRAVITY * DT * DT
  {
    AdvancedTimesHorizontal(b, n);
    AdvancedTimesVertical(b, n);
  }

  /** The horizontal part of the closed form. */
  lemma {:induction false} AdvancedTimesHorizontal(b: BallState, n: nat)
    ensures var r := AdvancedTimes(b, n);
      r.vx == b.vx && r.mass == b.mass && r.px == b.px + (n as real) * b.vx * DT
  {
    if n > 0 {
      var k := n - 1;
      AdvancedTimesHorizontal(b, k);
      assert (k as real) * b.vx * DT + b.vx * DT == (n as real) * b.vx * DT;
    }
  }

  /** The vertical velocity of the closed form. */
  lemma {:induction false} AdvancedTimesFall(b: BallState, n: nat)
    ensures AdvancedTimes(b, n).vy == b.vy - (n as real) * GRAVITY * DT
  {
    if n > 0 {
      AdvancedTimesFall(b, n - 1);
    }
  }

  /** The vertical part of the closed form. */
  lemma {:induction false} AdvancedTimesVertical(b: BallState, n: nat)
    ensures var r := AdvancedTimes(b, n);
      && r.vy == b.vy - (n as real) * GRAVITY * DT
      && r.py == b.py + (n as real) * b.vy * DT - ((n * (n - 1) / 2) as real) * GRAVITY * DT * DT
  {
    AdvancedTimesFall(b, n);
    if n > 0 {
      var k := n - 1;
      AdvancedTimesVertical(b, k);
      TriangleStep(n);
      FallStep(b.py, b.vy, k as real, (k * (k - 1) / 2) as real, n as real, (n * (n - 1) / 2) as real);
    }
  }

  /** `n * (n - 1) / 2`, the number of pairs among `n`, grows by `n - 1`. */
  lemma TriangleStep(n: nat)
    requires n > 0
    ensures (n - 1) * (n - 2) / 2 + (n - 1) == n * (n - 1) / 2
  {
    assert n * (n - 1) == (n - 1) * (n - 2) + 2 * (n - 1);
  }

  /** One step of the vertical closed form, as an identity of reals. */
  lemma FallStep(py: real, vy: real, k: real, tk: real, n: real, tn: real)
    requires n == k + 1.0 && tn == tk + k
    ensures (py + k * vy * DT - tk * GRAVITY * DT * DT) + (vy - k * GRAVITY * DT) * DT
         == py + n * vy * DT - tn * GRAVITY * DT * DT
  {
    assert k * vy * DT + vy * DT == n * vy * DT;
    assert (vy - k * GRAVITY * DT) * DT == vy * DT - k * GRAVITY * DT * DT;
    assert tk * GRAVITY * DT * DT + k * GRAVITY * DT * DT == tn * GRAVITY * DT * DT;
  }

  /** The wall test of `check_wall_collision` on the horizontal axis. */
  predicate AtSide(b: BallState)
  {
    b.px <= RADIUS || b.px >= WIDTH - RADIUS
  }

  /** The wall test on the vertical axis. */
  predicate AtFloorOrCeiling(b: BallState)
  {
    b.py <= RADIUS || b.py >= HEIGHT - RADIUS
  }

  /** `check_wall_collision` on a value: a velocity component is negated
      exactly when the ball touches a wall across that axis; the position is
      not changed. */
  function Bounced(b: BallState): (r: BallState)
    ensures r.px == b.px && r.py == b.py && r.mass == b.mass
    ensures r.vx == (if AtSide(b) then -b.vx else b.vx)
    ensures r.vy == (if AtFloorOrCeiling(b) then -b.vy else b.vy)
  {
    var vx := if b.px <= RADIUS || b.px >= WIDTH - RADIUS then b.vx * -1.0 else b.vx;
    var vy := if b.py <= RADIUS || b.py >= HEIGHT - RADIUS then b.vy * -1.0 else b.vy;
    b.(vx := vx, vy := vy)
  }

  /** Since the position is kept, a second wall check undoes the first: a
      ball that stays at a wall flips its velocity on every frame. */
  lemma BouncedTwice(b: BallState)
    ensures Bounced(Bounced(b)) == b
  {
  }

  /** A wall check keeps the speed. */
  lemma BouncedKeepsSpeed(b: BallState)
    ensures var r := Bounced(b); r.vx * r.vx + r.vy * r.vy == b.vx * b.vx + b.vy * b.vy
  {
  }

  // ---------------------------------------------------------------------------
  // Collisions

  /** The two balls of a collision. */
  datatype Pair = Pair(a: BallState, b: BallState)

  /** What `check_ball_collision` needs of the supplied distance: it is the
      length of the centre difference, and it is not 0. */
  predicate DistanceOk(b1: BallState, b2: BallState, d: real)
  {
    var dx := b2.px - b1.px;
    var dy := b2.py - b1.py;
    d > 0.0 && d * d == dx * dx + dy * dy
  }

  /** `normal = (other.position - self.position) / distance`. */
  function Normal(b1: BallState, b2: BallState, d: real): (real, real)
    requires d != 0.0
  {
    ((b2.px - b1.px) / d, (b2.py - b1.py) / d)
  }

  /** The normal is a unit vector. */
  lemma NormalIsUnit(b1: BallState, b2: BallState, d: real)
    requires DistanceOk(b1, b2, d)
    ensures var n := Normal(b1, b2, d); Numerics.Unit(n.0, n.1)
  {
    Numerics.UnitNormal(b2.px - b1.px, b2.py - b1.py, d);
  }

  /** `np.dot(v, normal)` for `normal = (c, s)`. */
  function Along(vx: real, vy: real, c: real, s: real): real
  {
    vx * c + vy * s
  }

  /** `np.dot(v, tangent)` for `tangent = (-s, c)`. */
  function Across(vx: real, vy: real, c: real, s: real): real
  {
    vx * -s + vy * c
  }

  /** `a * normal + b * tangent`. */
  function Combine(a: real, b: real, c: real, s: real): (real, real)
  {
    (a * c + b * -s, a * s + b * c)
  }

  /** Over a unit normal, combining components and taking them apart again
      are inverse operations. */
  lemma CombineComponents(a: real, b: real, c: real, s: real)
    requires Numerics.Unit(c, s)
    ensures var v := Combine(a, b, c, s); Along(v.0, v.1, c, s) == a && Across(v.0, v.1, c, s) == b
  {
    assert (a * c + b * -s) * c + (a * s + b * c) * s == a * (c * c + s * s);
    assert (a * c + b * -s) * -s + (a * s + b * c) * c == b * (c * c + s * s);
  }

  /** Over a unit normal, a velocity is the combination of its components. */
  lemma Recombine(vx: real, vy: real, c: real, s: real)
    requires Numerics.Unit(c, s)
    ensures Combine(Along(vx, vy, c, s), Across(vx, vy, c, s), c, s) == (vx, vy)
  {
    var a, b := Along(vx, vy, c, s), Across(vx, vy, c, s);
    assert a * c + b * -s == vx * (c * c + s * s);
    assert a * s + b * c == vy * (c * c + s * s);
    assert vx * (c * c + s * s) == vx && vy * (c * c + s * s) == vy;
    assert Combine(a, b, c, s).0 == vx;
    assert Combine(a, b, c, s).1 == vy;
  }

  /** Over a unit normal, the squared length of a combination is the sum of
      the squared components. */
  lemma CombineLength(a: real, b: real, c: real, s: real)
    requires Numerics.Unit(c, s)
    ensures var v := Combine(a, b, c, s);
      Numerics.Sq(v.0) + Numerics.Sq(v.1) == Numerics.Sq(a) + Numerics.Sq(b)
  {
    assert (a * c + b * -s) * (a * c + b * -s) + (a * s + b * c) * (a * s + b * c)
        == (a * a + b * b) * (c * c + s * s);
  }

  /** Combining is linear: the weighted sum of two combinations combines the
      weighted sums of their components. */
  lemma CombineLinear(m1: real, m2: real, a1: real, b1: real, a2: real, b2: real, c: real, s: real)
    ensures var v1, v2 := Combine(a1, b1, c, s), Combine(a2, b2, c, s);
      var a, b := Numerics.Mul(m1, a1) + Numerics.Mul(m2, a2), Numerics.Mul(m1, b1) + Numerics.Mul(m2, b2);
      Numerics.Mul(m1, v1.0) + Numerics.Mul(m2, v2.0) == Combine(a, b, c, s).0 &&
      Numerics.Mul(m1, v1.1) + Numerics.Mul(m2, v2.1) == Combine(a, b, c, s).1
  {
    assert m1 * (a1 * c + b1 * -s) + m2 * (a2 * c + b2 * -s) == (m1 * a1 + m2 * a2) * c + (m1 * b1 + m2 * b2) * -s;
    assert m1 * (a1 * s + b1 * c) + m2 * (a2 * s + b2 * c) == (m1 * a1 + m2 * a2) * s + (m1 * b1 + m2 * b2) * c;
  }

  /** The new velocities of `check_ball_collision`: the normal components
      after the elastic collision, the tangential ones kept. */
  function Collide(b1: BallState, b2: BallState, d: real): (r: Pair)
    requires WellFormed(b1) && WellFormed(b2) && DistanceOk(b1, b2, d)
    ensures d > 2.0 * RADIUS ==> r == Pair(b1, b2)
    ensures r.a.px == b1.px && r.a.py == b1.py && r.a.mass == b1.mass
    ensures r.b.px == b2.px && r.b.py == b2.py && r.b.mass == b2.mass
  {
    if d <= 2.0 * RADIUS then
      var n := Normal(b1, b2, d);
      var v1n, v1t := Along(b1.vx, b1.vy, n.0, n.1), Across(b1.vx, b1.vy, n.0, n.1);
      var v2n, v2t := Along(b2.vx, b2.vy, n.0, n.1), Across(b2.vx, b2.vy, n.0, n.1);
      var e := ElasticCollision.Elastic(b1.mass, b2.mass, v1n, v2n);
      var v1, v2 := Combine(e.0, v1t, n.0, n.1), Combine(e.1, v2t, n.0, n.1);
      Pair(b1.(vx := v1.0, vy := v1.1), b2.(vx := v2.0, vy := v2.1))
    else Pair(b1, b2)
  }

  /** The velocity components of a ball along and across the normal. */
  function NormalPart(b: BallState, n: (real, real)): real { Along(b.vx, b.vy, n.0, n.1) }
  function TangentPart(b: BallState, n: (real, real)): real { Across(b.vx, b.vy, n.0, n.1) }

  /** Along the normal the balls collide elastically; across it their
      velocities are kept. */
  lemma CollideComponents(b1: BallState, b2: BallState, d: real)
    requires WellFormed(b1) && WellFormed(b2) && DistanceOk(b1, b2, d)
    requires d <= 2.0 * RADIUS
    ensures var r := Collide(b1, b2, d); var n := Normal(b1, b2, d);
      var e := ElasticCollision.Elastic(b1.mass, b2.mass, NormalPart(b1, n), NormalPart(b2, n));
      NormalPart(r.a, n) == e.0 && NormalPart(r.b, n) == e.1 &&
      TangentPart(r.a, n) == TangentPart(b1, n) && TangentPart(r.b, n) == TangentPart(b2, n)
  {
    var n := Normal(b1, b2, d);
    NormalIsUnit(b1, b2, d);
    var e := ElasticCollision.Elastic(b1.mass, b2.mass, NormalPart(b1, n), NormalPart(b2, n));
    CombineComponents(e.0, TangentPart(b1, n), n.0, n.1);
    CombineComponents(e.1, TangentPart(b2, n), n.0, n.1);
  }

  /** With equal masses the balls exchange their normal components. */
  lemma CollideEqualMasses(b1: BallState, b2: BallState, d: real)
    requires WellFormed(b1) && WellFormed(b2) && DistanceOk(b1, b2, d)
    requires d <= 2.0 * RADIUS && b1.mass == b2.mass
    ensures var r := Collide(b1, b2, d); var n := Normal(b1, b2, d);
      NormalPart(r.a, n) == NormalPart(b2, n) && NormalPart(r.b, n) == NormalPart(b1, n)
  {
    CollideComponents(b1, b2, d);
  }

  /** The components of a ball's momentum, and twice its kinetic energy. */
  function MomentumX(b: BallState): real { Numerics.Mul(b.mass, b.vx) }
  function MomentumY(b: BallState): real { Numerics.Mul(b.mass, b.vy) }
  function Energy(b: BallState): real { Numerics.Mul(b.mass, Numerics.Sq(b.vx) + Numerics.Sq(b.vy)) }

  /** A collision keeps both components of the total momentum. */
  lemma CollideMomentum(b1: BallState, b2: BallState, d: real)
    requires WellFormed(b1) && WellFormed(b2) && DistanceOk(b1, b2, d)
    ensures var r := Collide(b1, b2, d);
      MomentumX(r.a) + MomentumX(r.b) == MomentumX(b1) + MomentumX(b2) &&
      MomentumY(r.a) + MomentumY(r.b) == MomentumY(b1) + MomentumY(b2)
  {
    if d <= 2.0 * RADIUS {
      var n := Normal(b1, b2, d);
      NormalIsUnit(b1, b2, d);
      var m1, m2 := b1.mass, b2.mass;
      var u1, u2 := NormalPart(b1, n), NormalPart(b2, n);
      var t1, t2 := TangentPart(b1, n), TangentPart(b2, n);
      var e := ElasticCollision.Elastic(m1, m2, u1, u2);
      ElasticCollision.ElasticBalance(m1, m2, u1, u2);
      assert Numerics.Mul(m1, e.0) + Numerics.Mul(m2, e.1) == Numerics.Mul(m1, u1) + Numerics.Mul(m2, u2);
      CombineLinear(m1, m2, e.0, t1, e.1, t2, n.0, n.1);
      CombineLinear(m1, m2, u1, t1, u2, t2, n.0, n.1);
      Recombine(b1.vx, b1.vy, n.0, n.1);
      Recombine(b2.vx, b2.vy, n.0, n.1);
    }
  }

  /** A collision keeps the total kinetic energy. */
  lemma CollideEnergy(b1: BallState, b2: BallState, d: real)
    requires WellFormed(b1) && WellFormed(b2) && DistanceOk(b1, b2, d)
    ensures var r := Collide(b1, b2, d); Energy(r.a) + Energy(r.b) == Energy(b1) + Energy(b2)
  {
    if d <= 2.0 * RADIUS {
      var n := Normal(b1, b2, d);
      NormalIsUnit(b1, b2, d);
      var m1, m2 := b1.mass, b2.mass;
      var u1, u2 := NormalPart(b1, n), NormalPart(b2, n);
      var t1, t2 := TangentPart(b1, n), TangentPart(b2, n);
      var e := ElasticCollision.Elastic(m1, m2, u1, u2);
      ElasticCollision.ElasticEnergy(m1, m2, u1, u2);
      CombineLength(e.0, t1, n.0, n.1);
      CombineLength(e.1, t2, n.0, n.1);
      CombineLength(u1, t1, n.0, n.1);
      CombineLength(u2, t2, n.0, n.1);
      Recombine(b1.vx, b1.vy, n.0, n.1);
      Recombine(b2.vx, b2.vy, n.0, n.1);
      Numerics.Distribute(Numerics.Sq(e.0), Numerics.Sq(t1), m1);
      Numerics.Distribute(Numerics.Sq(e.1), Numerics.Sq(t2), m2);
      Numerics.Distribute(Numerics.Sq(u1), Numerics.Sq(t1), m1);
      Numerics.Distribute(Numerics.Sq(u2), Numerics.Sq(t2), m2);
    }
  }

  // ---------------------------------------------------------------------------
  // The objects

  /** A ball; `position` and `velocity` are arrays of two components. */
  class Ball {
    var position: array<real>
    var velocity: array<real>
    var mass: real

    predicate Valid()
      reads this
    {
      position.Length == 2 && velocity.Length == 2 && position != velocity
    }

    function Snap(): BallState
      reads this, position, velocity
      requires Valid()
    {
      BallState(position[0], position[1], velocity[0], velocity[1], mass)
    }

    /** `np.array(...)` copies its arguments into fresh arrays. */
    constructor (px: real, py: real, vx: real, vy: real, mass: real)
      ensures Valid() && fresh(position) && fresh(velocity)
      ensures Snap() == BallState(px, py, vx, vy, mass)
    {
      var p := new real[2];
      p[0], p[1] := px, py;
      var v := new real[2];
      v[0], v[1] := vx, vy;
      position, velocity, this.mass := p, v, mass;
    }

    method UpdatePosition()
      requires Valid()
      modifies position, velocity
      ensures Valid() && Snap() == Advanced(old(Snap()))
    {
      position[0] := position[0] + velocity[0] * DT;
      position[1] := position[1] + velocity[1] * DT;
      velocity[1] := velocity[1] - GRAVITY * DT;
    }

    method CheckWallCollision()
      requires Valid()
      modifies velocity
      ensures Valid() && Snap() == Bounced(old(Snap()))
    {
      if position[0] <= RADIUS || position[0] >= WIDTH - RADIUS {
        velocity[0] := velocity[0] * -1.0;
      }
      if position[1] <= RADIUS || position[1] >= HEIGHT - RADIUS {
        velocity[1] := velocity[1] * -1.0;
      }
    }

    /** `check_ball_collision(other)`: when the balls touch, both get fresh
        velocity arrays. */
    method CheckBallCollision(other: Ball, distance: real)
      requires this != other && Valid() && other.Valid()
      requires WellFormed(Snap()) && WellFormed(other.Snap())
      requires DistanceOk(Snap(), other.Snap(), distance)
      modifies this, other
      ensures Valid() && other.Valid()
      ensures position == old(position) && other.position == old(other.position)
      ensures Pair(Snap(), other.Snap()) == Collide(old(Snap()), old(other.Snap()), distance)
    {
      ghost var b1, b2 := Snap(), other.Snap();
      if distance <= 2.0 * RADIUS {
        var normal := ((other.position[0] - position[0]) / distance, (other.position[1] - position[1]) / distance);
        var v1n := Along(velocity[0], velocity[1], normal.0, normal.1);
        var v1t := Across(velocity[0], velocity[1], normal.0, normal.1);
        var v2n := Along(other.velocity[0], other.velocity[1], normal.0, normal.1);
        var v2t := Across(other.velocity[0], other.velocity[1], normal.0, normal.1);
        var e := ElasticCollision.Elastic(mass, other.mass, v1n, v2n);
        var v1, v2 := Combine(e.0, v1t, normal.0, normal.1), Combine(e.1, v2t, normal.0, normal.1);
        var a := new real[2];
        a[0], a[1] := v1.0, v1.1;
        var b := new real[2];
        b[0], b[1] := v2.0, v2.1;
        velocity := a;
        other.velocity := b;
        assert Snap() == Collide(b1, b2, distance).a;
      }
    }
  }
}
