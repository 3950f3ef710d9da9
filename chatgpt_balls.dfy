/** The bouncing-balls demo of ChatGPT/chatgptCode2.py: balls under gravity
    and friction that are clamped back into the window with their velocity
    reflected, and an elastic collision along the line of centres that also
    pushes overlapping balls apart.

    `math.sqrt` of the squared centre distance is a caller-supplied `d` with
    `d >= 0` and `d * d == dx * dx + dy * dy`.  `math.cos` and `math.sin` of
    `math.atan2(dy, dx)` are computed exactly as `(dx / d, dy / d)`, and as
    `(1, 0)` when `d == 0`, where `atan2(0, 0) == 0`.  Every `random.*` draw
    is a caller-supplied value inside its range. */
module ChatGptBalls {
  import Numerics
  import ElasticCollision

  const WIDTH := 800
  const HEIGHT := 600
  const GRAVITY: real := 0.2
  /** The factor both velocity components keep on every move. */
  const FRICTION: real := 0.99

  datatype Rgb = Rgb(r: int, g: int, b: int)

  /** The state of one ball, as a value. */
  datatype BallState = BallState(x: real, y: real, radius: int, mass: real, vx: real, vy: real)

  /** Masses are drawn from `random.uniform(1, 3)`, so they are positive. */
  predicate WellFormed(b: BallState)
  {
    b.mass > 0.0
  }

  // ---------------------------------------------------------------------------
  // Walls

  /** Python's `max(lo, min(hi, v))`. */
  function Clamp(lo: real, hi: real, v: real): (r: real)
    ensures lo <= hi ==> lo <= r <= hi
    ensures lo <= v <= hi ==> r == v
    ensures r == v || r == lo || r == hi
  {
    var m := if hi < v then hi else v;
    if lo > m then lo else m
  }

  /** The horizontal wall test of `move`, on the moved position. */
  predicate OutX(b: BallState)
  {
    var x := b.x + b.vx;
    x - b.radius as real < 0.0 || x + b.radius as real > WIDTH as real
  }

  /** The vertical wall test of `move`, on the moved position after gravity. */
  predicate OutY(b: BallState)
  {
    var y := b.y + b.vy + GRAVITY;
    y - b.radius as real < 0.0 || y + b.radius as real > HEIGHT as real
  }

  /** A ball whose disc lies inside the window. */
  predicate InBox(b: BallState)
  {
    && b.radius as real <= b.x <= (WIDTH - b.radius) as real
    && b.radius as real <= b.y <= (HEIGHT - b.radius) as real
  }

  /** `Ball.move` on a value: gravity, motion with the old horizontal and the
      new vertical velocity, friction, then per axis a reflection and a clamp
      into the window when the ball sticks out. */
  function Moved(b: BallState): (r: BallState)
    ensures r.radius == b.radius && r.mass == b.mass
    ensures 2 * b.radius <= WIDTH ==> b.radius as real <= r.x <= (WIDTH - b.radius) as real
    ensures 2 * b.radius <= HEIGHT ==> b.radius as real <= r.y <= (HEIGHT - b.radius) as real
    ensures OutX(b) ==> r.vx == -(FRICTION * b.vx)
    ensures !OutX(b) ==> r.vx == FRICTION * b.vx && r.x == b.x + b.vx
    ensures OutY(b) ==> r.vy == -(FRICTION * (b.vy + GRAVITY))
    ensures !OutY(b) ==> r.vy == FRICTION * (b.vy + GRAVITY) && r.y == b.y + b.vy + GRAVITY
  {
    var vy := b.vy + GRAVITY;
    var x := b.x + b.vx;
    var y := b.y + vy;
    var vx' := b.vx * FRICTION;
    var vy' := vy * FRICTION;
    var rad := b.radius as real;
    var (x', vx'') :=
      if x - rad < 0.0 || x + rad > WIDTH as real then (Clamp(rad, WIDTH as real - rad, x), vx' * -1.0)
      else (x, vx');
    var (y', vy'') :=
      if y - rad < 0.0 || y + rad > HEIGHT as real then (Clamp(rad, HEIGHT as real - rad, y), vy' * -1.0)
      else (y, vy');
    b.(x := x', y := y', vx := vx'', vy := vy'')
  }

  /** A reflection turns the velocity back into the window: a ball that
      started inside and stuck out on the left or top now moves right or
      down, one that stuck out on the right or bottom moves left or up. */
  lemma WallTurnsInward(b: BallState)
    requires InBox(b)
    ensures var x := b.x + b.vx; var r := Moved(b);
      (x - b.radius as real < 0.0 ==> r.vx > 0.0) &&
      (x + b.radius as real > WIDTH as real ==> r.vx < 0.0)
    ensures var y := b.y + b.vy + GRAVITY; var r := Moved(b);
      (y - b.radius as real < 0.0 ==> r.vy > 0.0) &&
      (y + b.radius as real > HEIGHT as real ==> r.vy < 0.0)
  {
  }

  // ---------------------------------------------------------------------------
  // Collisions

  /** The two balls of a collision. */
  datatype Pair = Pair(a: BallState, b: BallState)

  /** What `resolve_collision` needs of the supplied distance: it is the
      square root of the squared centre distance. */
  predicate DistanceOk(b1: BallState, b2: BallState, d: real)
  {
    var dx := b2.x - b1.x;
    var dy := b2.y - b1.y;
    d >= 0.0 && d * d == dx * dx + dy * dy
  }

  /** `(math.cos(angle), math.sin(angle))` for `angle = math.atan2(dy, dx)`. */
  function Direction(b1: BallState, b2: BallState, d: real): (real, real)
  {
    if d == 0.0 then (1.0, 0.0) else ((b2.x - b1.x) / d, (b2.y - b1.y) / d)
  }

  /** The direction is a unit vector that scaled by `d` gives the centre
      difference, also when the centres coincide. */
  lemma DirectionIsUnit(b1: BallState, b2: BallState, d: real)
    requires DistanceOk(b1, b2, d)
    ensures var c := Direction(b1, b2, d);
      Numerics.Unit(c.0, c.1) &&
      Numerics.Mul(c.0, d) == b2.x - b1.x && Numerics.Mul(c.1, d) == b2.y - b1.y
  {
    var dx, dy := b2.x - b1.x, b2.y - b1.y;
    if d == 0.0 {
      Numerics.SumOfSquaresZero(dx, dy);
    } else {
      Numerics.UnitNormal(dx, dy, d);
      Numerics.DivMul(dx, d);
      Numerics.DivMul(dy, d);
    }
  }

  /** A ball's velocity along `(c, s)`. */
  function Along(b: BallState, c: real, s: real): real
  {
    b.vx * c + b.vy * s
  }

  /** A ball's velocity along the tangent `(-s, c)`. */
  function Across(b: BallState, c: real, s: real): real
  {
    -s * b.vx + c * b.vy
  }

  /** The components of a ball's momentum. */
  function MomentumX(b: BallState): real { b.mass * b.vx }
  function MomentumY(b: BallState): real { b.mass * b.vy }

  /** Twice a ball's kinetic energy. */
  function Energy(b: BallState): real
  {
    b.mass * (b.vx * b.vx + b.vy * b.vy)
  }

  /** Velocity changes `j1`, `j2` applied along `(c, s)`. */
  function Nudge(b1: BallState, b2: BallState, c: real, s: real, j1: real, j2: real): (r: Pair)
    ensures r.a.x == b1.x && r.a.y == b1.y && r.a.radius == b1.radius && r.a.mass == b1.mass
    ensures r.b.x == b2.x && r.b.y == b2.y && r.b.radius == b2.radius && r.b.mass == b2.mass
  {
    Pair(b1.(vx := b1.vx + j1 * c, vy := b1.vy + j1 * s),
         b2.(vx := b2.vx + j2 * c, vy := b2.vy + j2 * s))
  }

  /** The velocity updates of `resolve_collision`: each ball's velocity
      changes by its change of normal velocity along `(c, s)`. */
  function Kick(b1: BallState, b2: BallState, c: real, s: real): (r: Pair)
    requires WellFormed(b1) && WellFormed(b2)
    ensures r.a.x == b1.x && r.a.y == b1.y && r.a.radius == b1.radius && r.a.mass == b1.mass
    ensures r.b.x == b2.x && r.b.y == b2.y && r.b.radius == b2.radius && r.b.mass == b2.mass
  {
    var u1, u2 := Along(b1, c, s), Along(b2, c, s);
    var v := ElasticCollision.Elastic(b1.mass, b2.mass, u1, u2);
    Nudge(b1, b2, c, s, v.0 - u1, v.1 - u2)
  }

  /** Along a unit `(c, s)` the changes add to the normal velocities and
      leave the tangential ones alone. */
  lemma NudgeComponents(b1: BallState, b2: BallState, c: real, s: real, j1: real, j2: real)
    requires Numerics.Unit(c, s)
    ensures var r := Nudge(b1, b2, c, s, j1, j2);
      Along(r.a, c, s) == Along(b1, c, s) + j1 && Along(r.b, c, s) == Along(b2, c, s) + j2
    ensures var r := Nudge(b1, b2, c, s, j1, j2);
      Across(r.a, c, s) == Across(b1, c, s) && Across(r.b, c, s) == Across(b2, c, s)
  {
    assert (b1.vx + j1 * c) * c + (b1.vy + j1 * s) * s == Along(b1, c, s) + j1 * (c * c + s * s);
    assert (b2.vx + j2 * c) * c + (b2.vy + j2 * s) * s == Along(b2, c, s) + j2 * (c * c + s * s);
    assert -s * (b1.vx + j1 * c) + c * (b1.vy + j1 * s) == -s * b1.vx + c * b1.vy;
    assert -s * (b2.vx + j2 * c) + c * (b2.vy + j2 * s) == -s * b2.vx + c * b2.vy;
  }

  /** Along a unit `(c, s)` the kicked velocities are the elastic ones, and
      the tangential velocities are kept. */
  lemma KickComponents(b1: BallState, b2: BallState, c: real, s: real)
    requires WellFormed(b1) && WellFormed(b2)
    requires Numerics.Unit(c, s)
    ensures var r := Kick(b1, b2, c, s);
      var v := ElasticCollision.Elastic(b1.mass, b2.mass, Along(b1, c, s), Along(b2, c, s));
      Along(r.a, c, s) == v.0 && Along(r.b, c, s) == v.1
    ensures var r := Kick(b1, b2, c, s);
      Across(r.a, c, s) == Across(b1, c, s) && Across(r.b, c, s) == Across(b2, c, s)
  {
    var u1, u2 := Along(b1, c, s), Along(b2, c, s);
    var v := ElasticCollision.Elastic(b1.mass, b2.mass, u1, u2);
    NudgeComponents(b1, b2, c, s, v.0 - u1, v.1 - u2);
  }

  /** Changes `j1`, `j2` of equal and opposite momentum, applied along a
      common component `e`, keep the total momentum along that axis. */
  lemma Balance(m1: real, m2: real, p1: real, p2: real, j1: real, j2: real, e: real)
    requires Numerics.Mul(m1, j1) + Numerics.Mul(m2, j2) == 0.0
    ensures Numerics.Mul(m1, p1 + j1 * e) + Numerics.Mul(m2, p2 + j2 * e)
         == Numerics.Mul(m1, p1) + Numerics.Mul(m2, p2)
  {
    assert m1 * (p1 + j1 * e) + m2 * (p2 + j2 * e) == m1 * p1 + m2 * p2 + (m1 * j1 + m2 * j2) * e;
  }

  /** Changes of equal and opposite momentum keep both components of the
      total momentum, for any direction. */
  lemma NudgeMomentum(b1: BallState, b2: BallState, c: real, s: real, j1: real, j2: real)
    requires Numerics.Mul(b1.mass, j1) + Numerics.Mul(b2.mass, j2) == 0.0
    ensures var r := Nudge(b1, b2, c, s, j1, j2);
      MomentumX(r.a) + MomentumX(r.b) == MomentumX(b1) + MomentumX(b2) &&
      MomentumY(r.a) + MomentumY(r.b) == MomentumY(b1) + MomentumY(b2)
  {
    Balance(b1.mass, b2.mass, b1.vx, b2.vx, j1, j2, c);
    Balance(b1.mass, b2.mass, b1.vy, b2.vy, j1, j2, s);
  }

  /** The kick keeps both components of the total momentum, for any
      direction. */
  lemma KickMomentum(b1: BallState, b2: BallState, c: real, s: real)
    requires WellFormed(b1) && WellFormed(b2)
    ensures var r := Kick(b1, b2, c, s);
      MomentumX(r.a) + MomentumX(r.b) == MomentumX(b1) + MomentumX(b2) &&
      MomentumY(r.a) + MomentumY(r.b) == MomentumY(b1) + MomentumY(b2)
  {
    var m1, m2, u1, u2 := b1.mass, b2.mass, Along(b1, c, s), Along(b2, c, s);
    var v := ElasticCollision.Elastic(m1, m2, u1, u2);
    ElasticCollision.ElasticBalance(m1, m2, u1, u2);
    NudgeMomentum(b1, b2, c, s, v.0 - u1, v.1 - u2);
  }

  /** Along a unit vector, a velocity's squared length is the sum of the
      squares of its normal and tangential components. */
  lemma Decompose(b: BallState, c: real, s: real)
    requires Numerics.Unit(c, s)
    ensures Energy(b)
         == Numerics.Mul(b.mass, Numerics.Sq(Along(b, c, s))) + Numerics.Mul(b.mass, Numerics.Sq(Across(b, c, s)))
  {
    var p, q := Along(b, c, s), Across(b, c, s);
    assert p * p + q * q == (b.vx * b.vx + b.vy * b.vy) * (c * c + s * s);
    assert b.mass * (p * p + q * q) == b.mass * (p * p) + b.mass * (q * q);
  }

  /** Along a unit vector, the kick keeps the total kinetic energy. */
  lemma KickEnergy(b1: BallState, b2: BallState, c: real, s: real)
    requires WellFormed(b1) && WellFormed(b2)
    requires Numerics.Unit(c, s)
    ensures var r := Kick(b1, b2, c, s);
      Energy(r.a) + Energy(r.b) == Energy(b1) + Energy(b2)
  {
    var r := Kick(b1, b2, c, s);
    KickComponents(b1, b2, c, s);
    ElasticCollision.ElasticEnergy(b1.mass, b2.mass, Along(b1, c, s), Along(b2, c, s));
    Decompose(b1, c, s);
    Decompose(b2, c, s);
    Decompose(r.a, c, s);
    Decompose(r.b, c, s);
  }

  /** The separation of `resolve_collision`: each ball moves half the
      overlap `r1 + r2 - d` away from the other along `(c, s)`. */
  function Separate(b1: BallState, b2: BallState, c: real, s: real, d: real): (r: Pair)
    ensures r.a.vx == b1.vx && r.a.vy == b1.vy && r.a.radius == b1.radius && r.a.mass == b1.mass
    ensures r.b.vx == b2.vx && r.b.vy == b2.vy && r.b.radius == b2.radius && r.b.mass == b2.mass
  {
    var overlap := (b1.radius + b2.radius) as real - d;
    Pair(b1.(x := b1.x - c * overlap / 2.0, y := b1.y - s * overlap / 2.0),
         b2.(x := b2.x + c * overlap / 2.0, y := b2.y + s * overlap / 2.0))
  }

  /** After the separation the balls touch: their centres are `r1 + r2`
      apart.  The midpoint of the centres does not move. */
  lemma SeparateTouches(b1: BallState, b2: BallState, d: real)
    requires DistanceOk(b1, b2, d)
    ensures var c := Direction(b1, b2, d); var r := Separate(b1, b2, c.0, c.1, d);
      Numerics.Sq(r.b.x - r.a.x) + Numerics.Sq(r.b.y - r.a.y) == Numerics.Sq((b1.radius + b2.radius) as real)
    ensures var c := Direction(b1, b2, d); var r := Separate(b1, b2, c.0, c.1, d);
      r.a.x + r.b.x == b1.x + b2.x && r.a.y + r.b.y == b1.y + b2.y
  {
    var c := Direction(b1, b2, d);
    DirectionIsUnit(b1, b2, d);
    var r := Separate(b1, b2, c.0, c.1, d);
    var sum := (b1.radius + b2.radius) as real;
    SeparatedDifference(b1.x, b2.x, c.0, d, sum);
    SeparatedDifference(b1.y, b2.y, c.1, d, sum);
    Numerics.UnitScale(c.0, c.1, sum);
  }

  /** One coordinate of the separation: the difference of the centres
      becomes `c * sum` when it was `c * d`. */
  lemma SeparatedDifference(p1: real, p2: real, c: real, d: real, sum: real)
    requires Numerics.Mul(c, d) == p2 - p1
    ensures (p2 + c * (sum - d) / 2.0) - (p1 - c * (sum - d) / 2.0) == Numerics.Mul(c, sum)
  {
    assert c * (sum - d) == c * sum - c * d;
  }

  /** The separation moves the balls only: momentum, kinetic energy and
      the velocity components along and across `(c, s)` are kept. */
  lemma SeparateKeepsMotion(p: Pair, c: real, s: real, d: real)
    ensures var r := Separate(p.a, p.b, c, s, d);
      && MomentumX(r.a) == MomentumX(p.a) && MomentumX(r.b) == MomentumX(p.b)
      && MomentumY(r.a) == MomentumY(p.a) && MomentumY(r.b) == MomentumY(p.b)
      && Energy(r.a) == Energy(p.a) && Energy(r.b) == Energy(p.b)
      && Along(r.a, c, s) == Along(p.a, c, s) && Along(r.b, c, s) == Along(p.b, c, s)
      && Across(r.a, c, s) == Across(p.a, c, s) && Across(r.b, c, s) == Across(p.b, c, s)
  {
  }

  /** The separation depends on the positions and radii only. */
  lemma SeparateIgnoresMotion(p: Pair, q: Pair, c: real, s: real, d: real)
    requires p.a.x == q.a.x && p.a.y == q.a.y && p.a.radius == q.a.radius
    requires p.b.x == q.b.x && p.b.y == q.b.y && p.b.radius == q.b.radius
    ensures var r, t := Separate(p.a, p.b, c, s, d), Separate(q.a, q.b, c, s, d);
      r.a.x == t.a.x && r.a.y == t.a.y && r.b.x == t.b.x && r.b.y == t.b.y
  {
  }

  /** `resolve_collision(ball1, ball2)` on values. */
  function Collide(b1: BallState, b2: BallState, d: real): (r: Pair)
    requires WellFormed(b1) && WellFormed(b2)
    ensures d >= (b1.radius + b2.radius) as real ==> r == Pair(b1, b2)
    ensures r.a.radius == b1.radius && r.a.mass == b1.mass
    ensures r.b.radius == b2.radius && r.b.mass == b2.mass
  {
    if d < (b1.radius + b2.radius) as real then
      var c := Direction(b1, b2, d);
      var k := Kick(b1, b2, c.0, c.1);
      Separate(k.a, k.b, c.0, c.1, d)
    else Pair(b1, b2)
  }

  /** A collision keeps both components of the total momentum and the total
      kinetic energy. */
  lemma CollideConserves(b1: BallState, b2: BallState, d: real)
    requires WellFormed(b1) && WellFormed(b2) && DistanceOk(b1, b2, d)
    ensures var r := Collide(b1, b2, d);
      MomentumX(r.a) + MomentumX(r.b) == MomentumX(b1) + MomentumX(b2) &&
      MomentumY(r.a) + MomentumY(r.b) == MomentumY(b1) + MomentumY(b2)
    ensures var r := Collide(b1, b2, d);
      Energy(r.a) + Energy(r.b) == Energy(b1) + Energy(b2)
  {
    if d < (b1.radius + b2.radius) as real {
      var c := Direction(b1, b2, d);
      DirectionIsUnit(b1, b2, d);
      var k := Kick(b1, b2, c.0, c.1);
      KickMomentum(b1, b2, c.0, c.1);
      KickEnergy(b1, b2, c.0, c.1);
      SeparateKeepsMotion(k, c.0, c.1, d);
    }
  }

  /** Balls of equal mass exchange their velocities along the line of
      centres and keep their tangential velocities. */
  lemma CollideEqualMasses(b1: BallState, b2: BallState, d: real)
    requires WellFormed(b1) && WellFormed(b2) && DistanceOk(b1, b2, d)
    requires b1.mass == b2.mass && d < (b1.radius + b2.radius) as real
    ensures var r := Collide(b1, b2, d); var c := Direction(b1, b2, d);
      Along(r.a, c.0, c.1) == Along(b2, c.0, c.1) && Along(r.b, c.0, c.1) == Along(b1, c.0, c.1) &&
      Across(r.a, c.0, c.1) == Across(b1, c.0, c.1) && Across(r.b, c.0, c.1) == Across(b2, c.0, c.1)
  {
    var c := Direction(b1, b2, d);
    DirectionIsUnit(b1, b2, d);
    var k := Kick(b1, b2, c.0, c.1);
    KickComponents(b1, b2, c.0, c.1);
    SeparateKeepsMotion(k, c.0, c.1, d);
  }

  /** After a collision of overlapping balls they touch. */
  lemma CollideTouches(b1: BallState, b2: BallState, d: real)
    requires WellFormed(b1) && WellFormed(b2) && DistanceOk(b1, b2, d)
    requires d < (b1.radius + b2.radius) as real
    ensures var r := Collide(b1, b2, d);
      Numerics.Sq(r.b.x - r.a.x) + Numerics.Sq(r.b.y - r.a.y) == Numerics.Sq((b1.radius + b2.radius) as real)
  {
    var c := Direction(b1, b2, d);
    var k := Kick(b1, b2, c.0, c.1);
    SeparateTouches(b1, b2, d);
    SeparateIgnoresMotion(k, Pair(b1, b2), c.0, c.1, d);
  }

  // ---------------------------------------------------------------------------
  // The objects

  class Ball {
    var x: real
    var y: real
    var radius: int
    var color: Rgb
    var mass: real
    var vx: real
    var vy: real

    function Snap(): BallState
      reads this
    {
      BallState(x, y, radius, mass, vx, vy)
    }

    /** `mass` is the draw of `random.uniform(1, 3)`, `vx` and `vy` those of
        `random.uniform(-2, 2)`. */
    constructor (x: real, y: real, radius: int, color: Rgb, mass: real, vx: real, vy: real)
      requires 1.0 <= mass <= 3.0 && -2.0 <= vx <= 2.0 && -2.0 <= vy <= 2.0
      ensures WellFormed(Snap())
      ensures Snap() == BallState(x, y, radius, mass, vx, vy) && this.color == color
    {
      this.x, this.y, this.radius := x, y, radius;
      this.color, this.mass := color, mass;
      this.vx, this.vy := vx, vy;
    }

    method Move()
      modifies this
      ensures Snap() == Moved(old(Snap())) && color == old(color)
    {
      ghost var target := Moved(Snap());
      vy := vy + GRAVITY;
      x := x + vx;
      y := y + vy;
      vx := vx * FRICTION;
      vy := vy * FRICTION;
      if x - radius as real < 0.0 || x + radius as real > WIDTH as real {
        vx := vx * -1.0;
        x := Clamp(radius as real, WIDTH as real - radius as real, x);
      }
      assert x == target.x && vx == target.vx;
      if y - radius as real < 0.0 || y + radius as real > HEIGHT as real {
        vy := vy * -1.0;
        y := Clamp(radius as real, HEIGHT as real - radius as real, y);
      }
      assert y == target.y && vy == target.vy;
    }
  }

  /** `resolve_collision(ball1, ball2)` on two distinct balls. */
  method ResolveCollision(ball1: Ball, ball2: Ball, distance: real)
    requires ball1 != ball2
    requires WellFormed(ball1.Snap()) && WellFormed(ball2.Snap())
    modifies ball1, ball2
    ensures Pair(ball1.Snap(), ball2.Snap()) == Collide(old(ball1.Snap()), old(ball2.Snap()), distance)
    ensures ball1.color == old(ball1.color) && ball2.color == old(ball2.color)
  {
    ghost var b1, b2 := ball1.Snap(), ball2.Snap();
    if distance < (ball1.radius + ball2.radius) as real {
      var c := Direction(ball1.Snap(), ball2.Snap(), distance);
      var k := Kick(ball1.Snap(), ball2.Snap(), c.0, c.1);
      ghost var want := Separate(k.a, k.b, c.0, c.1, distance);
      ball1.vx, ball1.vy := k.a.vx, k.a.vy;
      ball2.vx, ball2.vy := k.b.vx, k.b.vy;
      var overlap := (ball1.radius + ball2.radius) as real - distance;
      assert overlap == (k.a.radius + k.b.radius) as real - distance;
      ball1.x := ball1.x - c.0 * overlap / 2.0;
      ball1.y := ball1.y - c.1 * overlap / 2.0;
      assert ball1.Snap() == want.a;
      ball2.x := ball2.x + c.0 * overlap / 2.0;
      ball2.y := ball2.y + c.1 * overlap / 2.0;
      assert ball2.Snap() == want.b;
    }
  }
}
