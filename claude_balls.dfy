/** The bouncing-balls demo of Claude/claudeCode2.py: balls under gravity that
    are clamped back into the window and reflected with elasticity 0.95, and a
    pairwise collision response along the line of centres.

    `math.sqrt` of the squared centre distance is a caller-supplied `d` with
    `d >= 0` and `d * d == dx * dx + dy * dy`; every `random.*` draw is a
    caller-supplied value inside its range.  The impulse of
    `check_collision` is modelled twice: as written (mis-scaled by a factor
    2, see `CollideAsWritten`) and corrected (`Collide`), which the balls'
    methods use. */
module ClaudeBalls {
  import Seqs
  import Numerics

  const WIDTH := 800
  const HEIGHT := 600
  const GRAVITY: real := 0.5
  /** The fraction of a velocity component kept by a bounce. */
  const ELASTICITY: real := 0.95

  datatype Rgb = Rgb(r: int, g: int, b: int)

  const COLORS: seq<Rgb> := [Rgb(255, 0, 0), Rgb(0, 255, 0), Rgb(0, 0, 255),
                             Rgb(255, 255, 0), Rgb(255, 0, 255)]

  /** The state of one ball, as a value. */
  datatype BallState = BallState(x: real, y: real, radius: int, dx: real, dy: real, mass: int)

  /** The mass is the squared radius, fixed at construction. */
  predicate WellFormed(b: BallState)
  {
    b.mass == b.radius * b.radius
  }

  // ---------------------------------------------------------------------------
  // Walls

  /** The horizontal wall test of `move`: the moved ball sticks out on the
      left or on the right. */
  predicate ClampedX(b: BallState)
  {
    var x := b.x + b.dx;
    x - b.radius as real < 0.0 || x + b.radius as real > WIDTH as real
  }

  /** The vertical wall test of `move`, after gravity. */
  predicate ClampedY(b: BallState)
  {
    var y := b.y + b.dy + GRAVITY;
    y - b.radius as real < 0.0 || y + b.radius as real > HEIGHT as real
  }

  /** A ball whose disc lies inside the window. */
  predicate InBox(b: BallState)
  {
    && b.radius as real <= b.x <= (WIDTH - b.radius) as real
    && b.radius as real <= b.y <= (HEIGHT - b.radius) as real
  }

  /** `Ball.move` on a value: gravity, motion, then clamping each axis back
      into the window and reflecting that axis's velocity. */
  function Moved(b: BallState): (r: BallState)
    ensures r.radius == b.radius && r.mass == b.mass
    ensures 2 * b.radius <= WIDTH ==> b.radius as real <= r.x <= (WIDTH - b.radius) as real
    ensures 2 * b.radius <= HEIGHT ==> b.radius as real <= r.y <= (HEIGHT - b.radius) as real
    ensures ClampedX(b) ==> r.dx == -ELASTICITY * b.dx
    ensures !ClampedX(b) ==> r.dx == b.dx && r.x == b.x + b.dx
    ensures ClampedY(b) ==> r.dy == -ELASTICITY * (b.dy + GRAVITY)
    ensures !ClampedY(b) ==> r.dy == b.dy + GRAVITY && r.y == b.y + r.dy
  {
    var dy := b.dy + GRAVITY;
    var x := b.x + b.dx;
    var y := b.y + dy;
    var rad := b.radius as real;
    var (x', dx') :=
      if x - rad < 0.0 then (rad, b.dx * -ELASTICITY)
      else if x + rad > WIDTH as real then (WIDTH as real - rad, b.dx * -ELASTICITY)
      else (x, b.dx);
    var (y', dy') :=
      if y - rad < 0.0 then (rad, dy * -ELASTICITY)
      else if y + rad > HEIGHT as real then (HEIGHT as real - rad, dy * -ELASTICITY)
      else (y, dy);
    b.(x := x', y := y', dx := dx', dy := dy')
  }

  /** A bounce turns the velocity back into the window: a ball that started
      inside and was clamped on the left or top now moves right or down, one
      clamped on the right or bottom moves left or up. */
  lemma BounceTurnsInward(b: BallState)
    requires InBox(b)
    ensures var x := b.x + b.dx; var r := Moved(b);
      (x - b.radius as real < 0.0 ==> r.dx > 0.0) &&
      (x - b.radius as real >= 0.0 && x + b.radius as real > WIDTH as real ==> r.dx < 0.0)
    ensures var y := b.y + b.dy + GRAVITY; var r := Moved(b);
      (y - b.radius as real < 0.0 ==> r.dy > 0.0) &&
      (y - b.radius as real >= 0.0 && y + b.radius as real > HEIGHT as real ==> r.dy < 0.0)
  {
  }

  // ---------------------------------------------------------------------------
  // Collisions

  /** The two balls of a collision. */
  datatype Pair = Pair(a: BallState, b: BallState)

  /** The divisions of `check_collision` are defined: when the discs
      overlap, the distance is not 0 and the masses do not sum to 0. */
  predicate Defined(b1: BallState, b2: BallState, d: real)
  {
    d < (b1.radius + b2.radius) as real ==> d != 0.0 && b1.mass + b2.mass > 0
  }

  /** What `check_collision` needs of the supplied distance: it is the
      square root of the squared centre distance, and Python's divisions by
      it and by the total mass are defined. */
  predicate DistanceOk(b1: BallState, b2: BallState, d: real)
  {
    var dx := b2.x - b1.x;
    var dy := b2.y - b1.y;
    d >= 0.0 && d * d == dx * dx + dy * dy && Defined(b1, b2, d)
  }

  /** The relative velocity of `b2` with respect to `b1` along `(nx, ny)`. */
  function NormalVelocity(b1: BallState, b2: BallState, nx: real, ny: real): real
  {
    (b2.dx - b1.dx) * nx + (b2.dy - b1.dy) * ny
  }

  /** The components of a ball's momentum. */
  function MomentumX(b: BallState): real { b.mass as real * b.dx }
  function MomentumY(b: BallState): real { b.mass as real * b.dy }

  /** A ball's velocity along the tangent `(-ny, nx)` of the normal `(nx, ny)`. */
  function Tangential(b: BallState, nx: real, ny: real): real
  {
    -ny * b.dx + nx * b.dy
  }

  /** Twice a ball's kinetic energy. */
  function Energy(b: BallState): real
  {
    b.mass as real * (b.dx * b.dx + b.dy * b.dy)
  }

  /** The velocity updates of `check_collision`: `b1` is pushed back by
      `imp1` along the normal and `b2` forward by `imp2`. */
  function Push(b1: BallState, b2: BallState, nx: real, ny: real, imp1: real, imp2: real): (r: Pair)
    ensures r.a.x == b1.x && r.a.y == b1.y && r.a.radius == b1.radius && r.a.mass == b1.mass
    ensures r.b.x == b2.x && r.b.y == b2.y && r.b.radius == b2.radius && r.b.mass == b2.mass
  {
    Pair(b1.(dx := b1.dx - imp1 * nx, dy := b1.dy - imp1 * ny),
         b2.(dx := b2.dx + imp2 * nx, dy := b2.dy + imp2 * ny))
  }

  /** Equal and opposite impulses (`m1 * imp1 == m2 * imp2`) preserve both
      components of the total momentum. */
  lemma PushMomentum(b1: BallState, b2: BallState, nx: real, ny: real, imp1: real, imp2: real)
    requires b1.mass as real * imp1 == b2.mass as real * imp2
    ensures var r := Push(b1, b2, nx, ny, imp1, imp2);
      MomentumX(r.a) + MomentumX(r.b) == MomentumX(b1) + MomentumX(b2) &&
      MomentumY(r.a) + MomentumY(r.b) == MomentumY(b1) + MomentumY(b2)
  {
    var m1, m2 := b1.mass as real, b2.mass as real;
    assert m1 * (b1.dx - imp1 * nx) == m1 * b1.dx - (m1 * imp1) * nx;
    assert m2 * (b2.dx + imp2 * nx) == m2 * b2.dx + (m2 * imp2) * nx;
    assert m1 * (b1.dy - imp1 * ny) == m1 * b1.dy - (m1 * imp1) * ny;
    assert m2 * (b2.dy + imp2 * ny) == m2 * b2.dy + (m2 * imp2) * ny;
  }

  /** A push changes each velocity only along the normal: the components
      along the tangent `(-ny, nx)` are kept. */
  lemma PushKeepsTangent(b1: BallState, b2: BallState, nx: real, ny: real, imp1: real, imp2: real)
    ensures var r := Push(b1, b2, nx, ny, imp1, imp2);
      Tangential(r.a, nx, ny) == Tangential(b1, nx, ny) &&
      Tangential(r.b, nx, ny) == Tangential(b2, nx, ny)
  {
    assert -ny * (b1.dx - imp1 * nx) + nx * (b1.dy - imp1 * ny) == -ny * b1.dx + nx * b1.dy;
    assert -ny * (b2.dx + imp2 * nx) + nx * (b2.dy + imp2 * ny) == -ny * b2.dx + nx * b2.dy;
  }

  /** Along a unit normal, a push adds `imp1 + imp2` to the relative normal
      velocity. */
  lemma PushNormalVelocity(b1: BallState, b2: BallState, nx: real, ny: real, imp1: real, imp2: real)
    requires nx * nx + ny * ny == 1.0
    ensures var r := Push(b1, b2, nx, ny, imp1, imp2);
      NormalVelocity(r.a, r.b, nx, ny) == NormalVelocity(b1, b2, nx, ny) + imp1 + imp2
  {
    var r := Push(b1, b2, nx, ny, imp1, imp2);
    var s, ex, ey := imp1 + imp2, b2.dx - b1.dx, b2.dy - b1.dy;
    assert r.b.dx - r.a.dx == ex + s * nx && r.b.dy - r.a.dy == ey + s * ny;
    assert (ex + s * nx) * nx + (ey + s * ny) * ny == ex * nx + ey * ny + s * (nx * nx + ny * ny);
  }

  /** Moving a velocity `(vx, vy)` by `-c` along a unit normal. */
  lemma SquareMinus(vx: real, vy: real, c: real, nx: real, ny: real)
    requires nx * nx + ny * ny == 1.0
    ensures (vx - c * nx) * (vx - c * nx) + (vy - c * ny) * (vy - c * ny)
         == vx * vx + vy * vy - 2.0 * c * (vx * nx + vy * ny) + c * c
  {
    assert (vx - c * nx) * (vx - c * nx) == vx * vx - 2.0 * c * (vx * nx) + c * c * (nx * nx);
    assert (vy - c * ny) * (vy - c * ny) == vy * vy - 2.0 * c * (vy * ny) + c * c * (ny * ny);
  }

  /** Moving a velocity `(vx, vy)` by `c` along a unit normal. */
  lemma SquarePlus(vx: real, vy: real, c: real, nx: real, ny: real)
    requires nx * nx + ny * ny == 1.0
    ensures (vx + c * nx) * (vx + c * nx) + (vy + c * ny) * (vy + c * ny)
         == vx * vx + vy * vy + 2.0 * c * (vx * nx + vy * ny) + c * c
  {
    assert (vx + c * nx) * (vx + c * nx) == vx * vx + 2.0 * c * (vx * nx) + c * c * (nx * nx);
    assert (vy + c * ny) * (vy + c * ny) == vy * vy + 2.0 * c * (vy * ny) + c * c * (ny * ny);
  }

  /** Twice the kinetic energy of a ball pushed back by `c` along a unit
      normal, with `j == m * c`. */
  lemma EnergyMinus(b: BallState, nx: real, ny: real, c: real, j: real)
    requires nx * nx + ny * ny == 1.0 && b.mass as real * c == j
    ensures Energy(b.(dx := b.dx - c * nx, dy := b.dy - c * ny))
         == Energy(b) - Numerics.Mul(2.0 * (b.dx * nx + b.dy * ny) - c, j)
  {
    var m, u := b.mass as real, b.dx * nx + b.dy * ny;
    SquareMinus(b.dx, b.dy, c, nx, ny);
    assert m * (b.dx * b.dx + b.dy * b.dy - 2.0 * c * u + c * c)
        == Energy(b) - (2.0 * u - c) * (m * c);
  }

  /** Twice the kinetic energy of a ball pushed forward by `c` along a unit
      normal, with `j == m * c`. */
  lemma EnergyPlus(b: BallState, nx: real, ny: real, c: real, j: real)
    requires nx * nx + ny * ny == 1.0 && b.mass as real * c == j
    ensures Energy(b.(dx := b.dx + c * nx, dy := b.dy + c * ny))
         == Energy(b) + Numerics.Mul(2.0 * (b.dx * nx + b.dy * ny) + c, j)
  {
    var m, u := b.mass as real, b.dx * nx + b.dy * ny;
    SquarePlus(b.dx, b.dy, c, nx, ny);
    assert m * (b.dx * b.dx + b.dy * b.dy + 2.0 * c * u + c * c)
        == Energy(b) + (2.0 * u + c) * (m * c);
  }

  /** Along a unit normal, equal and opposite impulses `j == m1 * imp1 ==
      m2 * imp2` change twice the total kinetic energy by
      `(2 * nv + imp1 + imp2) * j`, where `nv` is the relative normal
      velocity before. */
  lemma PushEnergy(b1: BallState, b2: BallState, nx: real, ny: real, imp1: real, imp2: real, j: real)
    requires nx * nx + ny * ny == 1.0
    requires b1.mass as real * imp1 == j && b2.mass as real * imp2 == j
    ensures var r := Push(b1, b2, nx, ny, imp1, imp2);
      Energy(r.a) + Energy(r.b) - Energy(b1) - Energy(b2)
        == Numerics.Mul(2.0 * NormalVelocity(b1, b2, nx, ny) + imp1 + imp2, j)
  {
    var u1 := b1.dx * nx + b1.dy * ny;
    var u2 := b2.dx * nx + b2.dy * ny;
    EnergyMinus(b1, nx, ny, imp1, j);
    EnergyPlus(b2, nx, ny, imp2, j);
    assert NormalVelocity(b1, b2, nx, ny) == u2 - u1;
    assert Numerics.Mul(2.0 * u2 + imp2, j) - Numerics.Mul(2.0 * u1 - imp1, j)
        == Numerics.Mul(2.0 * (u2 - u1) + imp1 + imp2, j);
  }

  /** The impulses of `check_collision` as written: `imp1 = 2 * m2 * imp /
      total` and `imp2 = 2 * m1 * imp / total` with
      `imp = -(1 + ELASTICITY) * nv`. */
  function ImpulsesAsWritten(m1: int, m2: int, nv: real): (r: (real, real))
    requires m1 + m2 > 0
    ensures m1 as real * r.0 == m2 as real * r.1
    ensures r.0 + r.1 == -2.0 * (1.0 + ELASTICITY) * nv
  {
    var imp := -(1.0 + ELASTICITY) * nv;
    var total := (m1 + m2) as real;
    var r := ((2.0 * m2 as real * imp) / total, (2.0 * m1 as real * imp) / total);
    assert r.0 * total == 2.0 * m2 as real * imp && r.1 * total == 2.0 * m1 as real * imp;
    assert (m1 as real * r.0 - m2 as real * r.1) * total == 0.0;
    assert (r.0 + r.1) * total == 2.0 * imp * total;
    r
  }

  /** The impulses a restitution of `ELASTICITY` calls for: the same
      formula without the factor 2.  Both are non-negative for approaching
      balls. */
  function Impulses(m1: int, m2: int, nv: real): (r: (real, real))
    requires m1 + m2 > 0
    ensures m1 as real * r.0 == m2 as real * r.1
    ensures r.0 + r.1 == -(1.0 + ELASTICITY) * nv
    ensures m1 >= 0 && m2 >= 0 && nv < 0.0 ==> r.0 >= 0.0 && r.1 >= 0.0
  {
    var imp := -(1.0 + ELASTICITY) * nv;
    var total := (m1 + m2) as real;
    var r := ((m2 as real * imp) / total, (m1 as real * imp) / total);
    assert r.0 * total == m2 as real * imp && r.1 * total == m1 as real * imp;
    assert (m1 as real * r.0 - m2 as real * r.1) * total == 0.0;
    assert (r.0 + r.1) * total == imp * total;
    r
  }

  /** The vector `(dx / distance, dy / distance)` from `b1` to `b2`. */
  function Normal(b1: BallState, b2: BallState, d: real): (real, real)
    requires d != 0.0
  {
    ((b2.x - b1.x) / d, (b2.y - b1.y) / d)
  }

  /** With a true positive distance, `Normal` is a unit vector. */
  lemma NormalIsUnit(b1: BallState, b2: BallState, d: real)
    requires DistanceOk(b1, b2, d) && d != 0.0
    ensures var n := Normal(b1, b2, d); n.0 * n.0 + n.1 * n.1 == 1.0
  {
    Numerics.UnitNormal(b2.x - b1.x, b2.y - b1.y, d);
  }

  /** Whether the impulse of `check_collision` applies: the discs overlap
      and the balls approach each other along the normal. */
  predicate Approaching(b1: BallState, b2: BallState, d: real)
  {
    && d < (b1.radius + b2.radius) as real && d != 0.0
    && var n := Normal(b1, b2, d); NormalVelocity(b1, b2, n.0, n.1) < 0.0
  }

  /** `check_collision` exactly as written. */
  function CollideAsWritten(b1: BallState, b2: BallState, d: real): (r: Pair)
    requires Defined(b1, b2, d)
    ensures !Approaching(b1, b2, d) ==> r == Pair(b1, b2)
    ensures r.a.x == b1.x && r.a.y == b1.y && r.a.radius == b1.radius && r.a.mass == b1.mass
    ensures r.b.x == b2.x && r.b.y == b2.y && r.b.radius == b2.radius && r.b.mass == b2.mass
  {
    if d < (b1.radius + b2.radius) as real then
      var n := Normal(b1, b2, d);
      var nv := NormalVelocity(b1, b2, n.0, n.1);
      if nv < 0.0 then
        var imp := ImpulsesAsWritten(b1.mass, b2.mass, nv);
        Push(b1, b2, n.0, n.1, imp.0, imp.1)
      else Pair(b1, b2)
    else Pair(b1, b2)
  }

  /** `check_collision` with the corrected impulse. */
  function Collide(b1: BallState, b2: BallState, d: real): (r: Pair)
    requires Defined(b1, b2, d)
    ensures !Approaching(b1, b2, d) ==> r == Pair(b1, b2)
    ensures r.a.x == b1.x && r.a.y == b1.y && r.a.radius == b1.radius && r.a.mass == b1.mass
    ensures r.b.x == b2.x && r.b.y == b2.y && r.b.radius == b2.radius && r.b.mass == b2.mass
  {
    if d < (b1.radius + b2.radius) as real then
      var n := Normal(b1, b2, d);
      var nv := NormalVelocity(b1, b2, n.0, n.1);
      if nv < 0.0 then
        var imp := Impulses(b1.mass, b2.mass, nv);
        Push(b1, b2, n.0, n.1, imp.0, imp.1)
      else Pair(b1, b2)
    else Pair(b1, b2)
  }

  /** A collision preserves both components of the total momentum. */
  lemma CollideMomentum(b1: BallState, b2: BallState, d: real)
    requires WellFormed(b1) && WellFormed(b2) && DistanceOk(b1, b2, d)
    ensures var r := Collide(b1, b2, d);
      MomentumX(r.a) + MomentumX(r.b) == MomentumX(b1) + MomentumX(b2) &&
      MomentumY(r.a) + MomentumY(r.b) == MomentumY(b1) + MomentumY(b2)
  {
    if Approaching(b1, b2, d) {
      var n := Normal(b1, b2, d);
      var imp := Impulses(b1.mass, b2.mass, NormalVelocity(b1, b2, n.0, n.1));
      assert Collide(b1, b2, d) == Push(b1, b2, n.0, n.1, imp.0, imp.1);
      PushMomentum(b1, b2, n.0, n.1, imp.0, imp.1);
    }
  }

  /** A collision changes each velocity only along the normal. */
  lemma CollideKeepsTangent(b1: BallState, b2: BallState, d: real)
    requires WellFormed(b1) && WellFormed(b2) && DistanceOk(b1, b2, d) && d != 0.0
    ensures var r := Collide(b1, b2, d); var n := Normal(b1, b2, d);
      Tangential(r.a, n.0, n.1) == Tangential(b1, n.0, n.1) &&
      Tangential(r.b, n.0, n.1) == Tangential(b2, n.0, n.1)
  {
    if Approaching(b1, b2, d) {
      var n := Normal(b1, b2, d);
      var imp := Impulses(b1.mass, b2.mass, NormalVelocity(b1, b2, n.0, n.1));
      assert Collide(b1, b2, d) == Push(b1, b2, n.0, n.1, imp.0, imp.1);
      PushKeepsTangent(b1, b2, n.0, n.1, imp.0, imp.1);
    }
  }

  /** After the impulse the balls separate along the normal at `ELASTICITY`
      times their approach speed. */
  lemma CollideRebound(b1: BallState, b2: BallState, d: real)
    requires WellFormed(b1) && WellFormed(b2) && DistanceOk(b1, b2, d)
    requires Approaching(b1, b2, d)
    ensures var r := Collide(b1, b2, d); var n := Normal(b1, b2, d);
      NormalVelocity(r.a, r.b, n.0, n.1) == -ELASTICITY * NormalVelocity(b1, b2, n.0, n.1) > 0.0
  {
    var n := Normal(b1, b2, d);
    var imp := Impulses(b1.mass, b2.mass, NormalVelocity(b1, b2, n.0, n.1));
    assert Collide(b1, b2, d) == Push(b1, b2, n.0, n.1, imp.0, imp.1);
    NormalIsUnit(b1, b2, d);
    PushNormalVelocity(b1, b2, n.0, n.1, imp.0, imp.1);
  }

  /** The corrected collision never adds kinetic energy. */
  lemma CollideDissipates(b1: BallState, b2: BallState, d: real)
    requires WellFormed(b1) && WellFormed(b2) && DistanceOk(b1, b2, d)
    ensures var r := Collide(b1, b2, d);
      Energy(r.a) + Energy(r.b) <= Energy(b1) + Energy(b2)
  {
    if Approaching(b1, b2, d) {
      var n := Normal(b1, b2, d);
      var nv := NormalVelocity(b1, b2, n.0, n.1);
      var imp := Impulses(b1.mass, b2.mass, nv);
      assert Collide(b1, b2, d) == Push(b1, b2, n.0, n.1, imp.0, imp.1);
      NormalIsUnit(b1, b2, d);
      PushDissipates(b1, b2, n.0, n.1, nv);
    }
  }

  /** Along a unit normal, the corrected impulses of approaching balls of
      non-negative masses never add kinetic energy. */
  lemma PushDissipates(b1: BallState, b2: BallState, nx: real, ny: real, nv: real)
    requires nx * nx + ny * ny == 1.0
    requires b1.mass >= 0 && b2.mass >= 0 && b1.mass + b2.mass > 0
    requires nv == NormalVelocity(b1, b2, nx, ny) < 0.0
    ensures var imp := Impulses(b1.mass, b2.mass, nv); var r := Push(b1, b2, nx, ny, imp.0, imp.1);
      Energy(r.a) + Energy(r.b) <= Energy(b1) + Energy(b2)
  {
    var imp := Impulses(b1.mass, b2.mass, nv);
    ImpulsesDissipate(b1.mass, b2.mass, nv);
    PushEnergy(b1, b2, nx, ny, imp.0, imp.1, b1.mass as real * imp.0);
  }

  /** For approaching balls of non-negative masses, the corrected impulses
      `j == m1 * imp1 == m2 * imp2` make `j * (2 * nv + imp1 + imp2)`, the
      change of twice the kinetic energy, non-positive. */
  lemma ImpulsesDissipate(m1: int, m2: int, nv: real)
    requires m1 >= 0 && m2 >= 0 && m1 + m2 > 0 && nv < 0.0
    ensures var imp := Impulses(m1, m2, nv); var j := m1 as real * imp.0;
      j == m2 as real * imp.1 && Numerics.Mul(2.0 * nv + imp.0 + imp.1, j) <= 0.0
  {
    var imp := Impulses(m1, m2, nv);
    var j := m1 as real * imp.0;
    assert j >= 0.0;
    assert 2.0 * nv + imp.0 + imp.1 == (1.0 - ELASTICITY) * nv;
    assert j * ((1.0 - ELASTICITY) * nv) <= 0.0;
  }

  /** As written, the impulse still preserves both components of the total
      momentum. */
  lemma CollideAsWrittenMomentum(b1: BallState, b2: BallState, d: real)
    requires WellFormed(b1) && WellFormed(b2) && DistanceOk(b1, b2, d)
    ensures var r := CollideAsWritten(b1, b2, d);
      MomentumX(r.a) + MomentumX(r.b) == MomentumX(b1) + MomentumX(b2) &&
      MomentumY(r.a) + MomentumY(r.b) == MomentumY(b1) + MomentumY(b2)
  {
    if Approaching(b1, b2, d) {
      var n := Normal(b1, b2, d);
      var imp := ImpulsesAsWritten(b1.mass, b2.mass, NormalVelocity(b1, b2, n.0, n.1));
      assert CollideAsWritten(b1, b2, d) == Push(b1, b2, n.0, n.1, imp.0, imp.1);
      PushMomentum(b1, b2, n.0, n.1, imp.0, imp.1);
    }
  }

  /** As written, the balls rebound at `1 + 2 * ELASTICITY` times their
      approach speed, faster than they came. */
  lemma CollideAsWrittenRebound(b1: BallState, b2: BallState, d: real)
    requires WellFormed(b1) && WellFormed(b2) && DistanceOk(b1, b2, d)
    requires Approaching(b1, b2, d)
    ensures var r := CollideAsWritten(b1, b2, d); var n := Normal(b1, b2, d);
      NormalVelocity(r.a, r.b, n.0, n.1) == -(1.0 + 2.0 * ELASTICITY) * NormalVelocity(b1, b2, n.0, n.1)
  {
    var n := Normal(b1, b2, d);
    var imp := ImpulsesAsWritten(b1.mass, b2.mass, NormalVelocity(b1, b2, n.0, n.1));
    assert CollideAsWritten(b1, b2, d) == Push(b1, b2, n.0, n.1, imp.0, imp.1);
    NormalIsUnit(b1, b2, d);
    PushNormalVelocity(b1, b2, n.0, n.1, imp.0, imp.1);
  }

  /** Two balls of radius 20 whose centres are 30 apart, meeting head on at
      unit speed. */
  const HEAD_ON_1 := BallState(100.0, 100.0, 20, 1.0, 0.0, 400)
  const HEAD_ON_2 := BallState(130.0, 100.0, 20, -1.0, 0.0, 400)

  /** The head-on balls are well formed and 30 is their distance. */
  lemma HeadOnDistance()
    ensures WellFormed(HEAD_ON_1) && WellFormed(HEAD_ON_2) && DistanceOk(HEAD_ON_1, HEAD_ON_2, 30.0)
  {
  }

  /** The head-on balls approach each other along the normal `(1, 0)` at
      relative speed 2. */
  lemma HeadOnApproach()
    ensures Normal(HEAD_ON_1, HEAD_ON_2, 30.0) == (1.0, 0.0)
    ensures NormalVelocity(HEAD_ON_1, HEAD_ON_2, 1.0, 0.0) == -2.0
  {
  }

  /** The impulses as written for equal masses 400 approaching at speed 2. */
  lemma HeadOnImpulsesAsWritten()
    ensures ImpulsesAsWritten(400, 400, -2.0) == (3.9, 3.9)
  {
  }

  /** As written, the head-on balls rebound at 2.9 each. */
  lemma AsWrittenHeadOn()
    ensures CollideAsWritten(HEAD_ON_1, HEAD_ON_2, 30.0)
         == Pair(HEAD_ON_1.(dx := -2.9), HEAD_ON_2.(dx := 2.9))
  {
    HeadOnDistance();
    HeadOnApproach();
    HeadOnImpulsesAsWritten();
    assert CollideAsWritten(HEAD_ON_1, HEAD_ON_2, 30.0) == Push(HEAD_ON_1, HEAD_ON_2, 1.0, 0.0, 3.9, 3.9);
  }

  /** In that collision twice the kinetic energy grows from 800 to 6728: the
      impulse as written creates energy. */
  lemma AsWrittenGainsEnergy()
    ensures var r := CollideAsWritten(HEAD_ON_1, HEAD_ON_2, 30.0);
      Energy(HEAD_ON_1) + Energy(HEAD_ON_2) == 800.0 && Energy(r.a) + Energy(r.b) == 6728.0
  {
    AsWrittenHeadOn();
    assert Energy(HEAD_ON_1.(dx := -2.9)) == 3364.0;
    assert Energy(HEAD_ON_2.(dx := 2.9)) == 3364.0;
  }

  // ---------------------------------------------------------------------------
  // The pair loop on values

  /** The pairs `(i, j)` with `i < j < n` that remain when the pair loop is
      at `(i, j)`, in the order `for i in range(n): for j in range(i + 1, n)`
      visits them. */
  function PairsFrom(n: nat, i: nat, j: nat): (r: seq<(nat, nat)>)
    ensures forall k :: 0 <= k < |r| ==> i <= r[k].0 < r[k].1 < n
    ensures i < j ==> forall k :: 0 <= k < |r| ==> r[k].0 > i || r[k].1 >= j
    decreases n - i, n - j
  {
    if i >= n then []
    else if j >= n then PairsFrom(n, i + 1, i + 2)
    else if j <= i then PairsFrom(n, i, i + 1)
    else [(i, j)] + PairsFrom(n, i, j + 1)
  }

  /** Every pair `i < j < n` is visited. */
  lemma {:induction false} PairsFromComplete(n: nat, i: nat, j: nat, p: nat, q: nat)
    requires i < j
    requires p < q < n && (p > i || (p == i && q >= j))
    ensures (p, q) in PairsFrom(n, i, j)
    decreases n - i, n - j
  {
    if j >= n {
      assert p > i;
      PairsFromComplete(n, i + 1, i + 2, p, q);
    } else if (p, q) != (i, j) {
      assert p > i || q >= j + 1;
      PairsFromComplete(n, i, j + 1, p, q);
      InTail((i, j), PairsFrom(n, i, j + 1), (p, q));
    }
  }

  lemma InTail(a: (nat, nat), rest: seq<(nat, nat)>, x: (nat, nat))
    requires x in rest
    ensures x in [a] + rest
  {
    assert ([a] + rest)[1..] == rest;
  }

  /** Pair `p` comes before pair `q` in the order of the pair loop. */
  predicate Before(p: (nat, nat), q: (nat, nat))
  {
    p.0 < q.0 || (p.0 == q.0 && p.1 < q.1)
  }

  /** The pairs are visited in strictly increasing order, so none of them
      twice. */
  lemma {:induction false} PairsFromOrdered(n: nat, i: nat, j: nat)
    ensures forall k, l :: 0 <= k < l < |PairsFrom(n, i, j)| ==> Before(PairsFrom(n, i, j)[k], PairsFrom(n, i, j)[l])
    decreases n - i, n - j
  {
    if i >= n {
    } else if j >= n {
      assert PairsFrom(n, i, j) == PairsFrom(n, i + 1, i + 2);
      PairsFromOrdered(n, i + 1, i + 2);
    } else if j <= i {
      assert PairsFrom(n, i, j) == PairsFrom(n, i, i + 1);
      PairsFromOrdered(n, i, i + 1);
    } else {
      PairsFromOrdered(n, i, j + 1);
      var t := PairsFrom(n, i, j + 1);
      var r := [(i, j)] + t;
      assert PairsFrom(n, i, j) == r;
      forall k, l | 0 <= k < l < |r| ensures Before(r[k], r[l]) {
        assert r[l] == t[l - 1];
        if k > 0 {
          assert r[k] == t[k - 1];
        } else {
          assert i <= t[l - 1].0 && (t[l - 1].0 > i || t[l - 1].1 >= j + 1);
        }
      }
    }
  }

  /** The placement of a ball: what collisions never change. */
  function Placement(b: BallState): (real, real, int, int)
  {
    (b.x, b.y, b.radius, b.mass)
  }

  /** `dist` is a square table over the balls, and every pair's collision
      is defined. */
  predicate PairsDefined(s: seq<BallState>, dist: seq<seq<real>>)
  {
    && |dist| == |s|
    && (forall i :: 0 <= i < |s| ==> |dist[i]| == |s|)
    && forall i, j :: 0 <= i < j < |s| ==> Defined(s[i], s[j], dist[i][j])
  }

  /** Definedness depends on placements only. */
  lemma PairsDefinedPlacement(s: seq<BallState>, t: seq<BallState>, dist: seq<seq<real>>)
    requires PairsDefined(s, dist)
    requires |t| == |s| && forall k :: 0 <= k < |s| ==> Placement(t[k]) == Placement(s[k])
    ensures PairsDefined(t, dist)
  {
    forall i, j | 0 <= i < j < |s|
      ensures Defined(t[i], t[j], dist[i][j])
    {
      assert Placement(t[i]) == Placement(s[i]) && Placement(t[j]) == Placement(s[j]);
    }
  }

  /** The supplied distances of all pairs of balls are correct. */
  predicate DistancesOk(s: seq<BallState>, dist: seq<seq<real>>)
  {
    && |dist| == |s|
    && (forall i :: 0 <= i < |s| ==> WellFormed(s[i]) && |dist[i]| == |s|)
    && forall i, j :: 0 <= i < j < |s| ==> DistanceOk(s[i], s[j], dist[i][j])
  }

  /** Correct distances make every collision defined. */
  lemma DistancesOkDefined(s: seq<BallState>, dist: seq<seq<real>>)
    requires DistancesOk(s, dist)
    ensures PairsDefined(s, dist)
  {
  }

  /** Distances depend on placements only. */
  lemma DistancesOkPlacement(s: seq<BallState>, t: seq<BallState>, dist: seq<seq<real>>)
    requires DistancesOk(s, dist)
    requires |t| == |s| && forall k :: 0 <= k < |s| ==> Placement(t[k]) == Placement(s[k])
    ensures DistancesOk(t, dist)
  {
    forall i, j | 0 <= i < j < |s|
      ensures DistanceOk(t[i], t[j], dist[i][j])
    {
      assert Placement(t[i]) == Placement(s[i]) && Placement(t[j]) == Placement(s[j]);
    }
    forall i | 0 <= i < |s| ensures WellFormed(t[i]) {
      assert Placement(t[i]) == Placement(s[i]);
    }
  }

  /** Which impulse a collision applies: the one written at lines 87-88 of
      `Claude/claudeCode2.py`, or the corrected one. */
  datatype Impulse = AsWritten | Corrected

  /** `check_collision` on values, with the impulse `imp`. */
  function CollideWith(imp: Impulse, b1: BallState, b2: BallState, d: real): (r: Pair)
    requires Defined(b1, b2, d)
    ensures !Approaching(b1, b2, d) ==> r == Pair(b1, b2)
    ensures Placement(r.a) == Placement(b1) && Placement(r.b) == Placement(b2)
  {
    match imp
    case AsWritten => CollideAsWritten(b1, b2, d)
    case Corrected => Collide(b1, b2, d)
  }

  /** Either impulse keeps the total momentum of the pair. */
  lemma CollideWithMomentum(imp: Impulse, b1: BallState, b2: BallState, d: real)
    requires WellFormed(b1) && WellFormed(b2) && DistanceOk(b1, b2, d)
    ensures var r := CollideWith(imp, b1, b2, d);
      MomentumX(r.a) + MomentumX(r.b) == MomentumX(b1) + MomentumX(b2) &&
      MomentumY(r.a) + MomentumY(r.b) == MomentumY(b1) + MomentumY(b2)
  {
    match imp
    case AsWritten => CollideAsWrittenMomentum(b1, b2, d);
    case Corrected => CollideMomentum(b1, b2, d);
  }

  /** Either impulse changes each velocity only along the normal. */
  lemma CollideWithKeepsTangent(imp: Impulse, b1: BallState, b2: BallState, d: real)
    requires WellFormed(b1) && WellFormed(b2) && DistanceOk(b1, b2, d) && d != 0.0
    ensures var r := CollideWith(imp, b1, b2, d); var n := Normal(b1, b2, d);
      Tangential(r.a, n.0, n.1) == Tangential(b1, n.0, n.1) &&
      Tangential(r.b, n.0, n.1) == Tangential(b2, n.0, n.1)
  {
    match imp
    case AsWritten =>
      if Approaching(b1, b2, d) {
        var n := Normal(b1, b2, d);
        var i := ImpulsesAsWritten(b1.mass, b2.mass, NormalVelocity(b1, b2, n.0, n.1));
        assert CollideAsWritten(b1, b2, d) == Push(b1, b2, n.0, n.1, i.0, i.1);
        PushKeepsTangent(b1, b2, n.0, n.1, i.0, i.1);
      }
    case Corrected => CollideKeepsTangent(b1, b2, d);
  }

  /** One call `check_collision(balls[i], balls[j])` on values. */
  function Apply(imp: Impulse, s: seq<BallState>, dist: seq<seq<real>>, i: nat, j: nat): (r: seq<BallState>)
    requires PairsDefined(s, dist) && i < j < |s|
    ensures |r| == |s| && PairsDefined(r, dist)
    ensures forall k :: 0 <= k < |s| ==> Placement(r[k]) == Placement(s[k])
    ensures forall k :: 0 <= k < |s| && k != i && k != j ==> r[k] == s[k]
  {
    var c := CollideWith(imp, s[i], s[j], dist[i][j]);
    var r := s[i := c.a][j := c.b];
    PairsDefinedPlacement(s, r, dist);
    r
  }

  /** The pairs of `ps` handled in order. */
  function Resolve(imp: Impulse, s: seq<BallState>, dist: seq<seq<real>>, ps: seq<(nat, nat)>): (r: seq<BallState>)
    requires PairsDefined(s, dist)
    requires forall k :: 0 <= k < |ps| ==> ps[k].0 < ps[k].1 < |s|
    ensures |r| == |s| && PairsDefined(r, dist)
    ensures forall k :: 0 <= k < |s| ==> Placement(r[k]) == Placement(s[k])
    decreases |ps|
  {
    if ps == [] then s else Resolve(imp, Apply(imp, s, dist, ps[0].0, ps[0].1), dist, ps[1..])
  }

  /** Handling the pair `(i, j)` first leaves the pairs after it: when `s`
      is to end at `goal` through the pairs from `(i, j)` on, then `t`, the
      list after that collision, ends there through the pairs from
      `(i, next)` on, where `next` is `j + 1`. */
  lemma ResolveStep(imp: Impulse, s: seq<BallState>, t: seq<BallState>, dist: seq<seq<real>>, n: nat, i: nat, j: nat,
                    next: nat, goal: seq<BallState>)
    requires PairsDefined(s, dist) && n == |s| && i < j < n && next == j + 1
    requires t == Apply(imp, s, dist, i, j)
    requires Resolve(imp, s, dist, PairsFrom(n, i, j)) == goal
    ensures Resolve(imp, t, dist, PairsFrom(n, i, next)) == goal
  {
    PairsFromHead(n, i, j, next);
    var ps := PairsFrom(n, i, j);
    assert ps[0] == (i, j) && ps[1..] == PairsFrom(n, i, next);
  }

  /** Row `i` from column `j` starts with the pair `(i, j)`, followed by the
      pairs from column `next`, which is `j + 1`. */
  lemma PairsFromHead(n: nat, i: nat, j: nat, next: nat)
    requires i < j < n && next == j + 1
    ensures PairsFrom(n, i, j) == [(i, j)] + PairsFrom(n, i, next)
  {
  }

  /** The end of row `i` is the start of row `next`, where `next` is
      `i + 1`. */
  lemma PairsFromRowEnd(n: nat, i: nat, next: nat)
    requires i < n && next == i + 1
    ensures PairsFrom(n, i, n) == PairsFrom(n, next, next + 1)
  {
  }

  /** The sum of `f` over all balls. */
  function Total(s: seq<BallState>, f: BallState -> real): real
    decreases |s|
  {
    if s == [] then 0.0 else Total(s[..|s| - 1], f) + f(s[|s| - 1])
  }

  /** Replacing one ball changes a sum by the difference of its terms. */
  lemma {:induction false} TotalUpdate(s: seq<BallState>, f: BallState -> real, i: nat, b: BallState)
    requires i < |s|
    ensures Total(s[i := b], f) == Total(s, f) - f(s[i]) + f(b)
    decreases |s|
  {
    var last := |s| - 1;
    assert s[i := b][..last] == if i == last then s[..last] else s[..last][i := b];
    if i < last {
      TotalUpdate(s[..last], f, i, b);
    }
  }

  /** One pair's collision keeps the total momentum of all balls, and with
      the corrected impulse it does not add kinetic energy. */
  lemma ApplyConserves(imp: Impulse, s: seq<BallState>, dist: seq<seq<real>>, i: nat, j: nat)
    requires DistancesOk(s, dist) && i < j < |s|
    ensures Total(Apply(imp, s, dist, i, j), MomentumX) == Total(s, MomentumX)
    ensures Total(Apply(imp, s, dist, i, j), MomentumY) == Total(s, MomentumY)
    ensures imp == Corrected ==> Total(Apply(imp, s, dist, i, j), Energy) <= Total(s, Energy)
  {
    var c := CollideWith(imp, s[i], s[j], dist[i][j]);
    var s1 := s[i := c.a];
    TotalUpdate(s, MomentumX, i, c.a);
    TotalUpdate(s1, MomentumX, j, c.b);
    TotalUpdate(s, MomentumY, i, c.a);
    TotalUpdate(s1, MomentumY, j, c.b);
    TotalUpdate(s, Energy, i, c.a);
    TotalUpdate(s1, Energy, j, c.b);
    CollideWithMomentum(imp, s[i], s[j], dist[i][j]);
    CollideDissipates(s[i], s[j], dist[i][j]);
  }

  /** The whole pair loop keeps the total momentum of all balls, and with the
      corrected impulse it does not add kinetic energy. */
  lemma {:induction false} ResolveConserves(imp: Impulse, s: seq<BallState>, dist: seq<seq<real>>,
                                            ps: seq<(nat, nat)>)
    requires DistancesOk(s, dist)
    requires forall k :: 0 <= k < |ps| ==> ps[k].0 < ps[k].1 < |s|
    ensures Total(Resolve(imp, s, dist, ps), MomentumX) == Total(s, MomentumX)
    ensures Total(Resolve(imp, s, dist, ps), MomentumY) == Total(s, MomentumY)
    ensures imp == Corrected ==> Total(Resolve(imp, s, dist, ps), Energy) <= Total(s, Energy)
    decreases |ps|
  {
    if ps != [] {
      ApplyConserves(imp, s, dist, ps[0].0, ps[0].1);
      DistancesOkPlacement(s, Apply(imp, s, dist, ps[0].0, ps[0].1), dist);
      ResolveConserves(imp, Apply(imp, s, dist, ps[0].0, ps[0].1), dist, ps[1..]);
    }
  }

  /** The distances of the two head-on balls. */
  const HEAD_ON_DIST := [[0.0, 30.0], [30.0, 0.0]]

  /** With the impulse as written, the whole pair loop over the two head-on
      balls raises twice their kinetic energy from 800 to 6728. */
  lemma AsWrittenLoopGainsEnergy()
    ensures DistancesOk([HEAD_ON_1, HEAD_ON_2], HEAD_ON_DIST)
    ensures var s := [HEAD_ON_1, HEAD_ON_2];
      Total(s, Energy) == 800.0 &&
      Total(Resolve(AsWritten, s, HEAD_ON_DIST, PairsFrom(2, 0, 1)), Energy) == 6728.0
  {
    var s := [HEAD_ON_1, HEAD_ON_2];
    HeadOnDistance();
    AsWrittenGainsEnergy();
    PairsFromHead(2, 0, 1, 2);
    assert PairsFrom(2, 0, 1) == [(0, 1)];
    var c := CollideAsWritten(HEAD_ON_1, HEAD_ON_2, 30.0);
    var t := Apply(AsWritten, s, HEAD_ON_DIST, 0, 1);
    assert t == [c.a, c.b];
    assert Resolve(AsWritten, s, HEAD_ON_DIST, [(0, 1)]) == t;
    assert t[..1] == [c.a] && [c.a][..0] == [];
    assert Total([c.a], Energy) == Energy(c.a);
    assert Total(t, Energy) == Energy(c.a) + Energy(c.b);
    assert s[..1] == [HEAD_ON_1] && [HEAD_ON_1][..0] == [];
    assert Total([HEAD_ON_1], Energy) == Energy(HEAD_ON_1);
    assert Total(s, Energy) == Energy(HEAD_ON_1) + Energy(HEAD_ON_2);
  }

  // ---------------------------------------------------------------------------
  // Balls as objects

  class Ball {
    var x: real
    var y: real
    var radius: int
    var dx: real
    var dy: real
    var mass: int
    var color: Rgb

    function Snap(): BallState
      reads this
    {
      BallState(x, y, radius, dx, dy, mass)
    }

    /** `dx` and `dy` are the draws of `random.uniform(-5, 5)`, `color` of
        `random.choice(COLORS)`. */
    constructor (x: real, y: real, radius: int, dx: real, dy: real, color: Rgb)
      requires -5.0 <= dx <= 5.0 && -5.0 <= dy <= 5.0 && color in COLORS
      ensures WellFormed(Snap())
      ensures Snap() == BallState(x, y, radius, dx, dy, radius * radius) && this.color == color
    {
      this.x, this.y, this.radius := x, y, radius;
      this.dx, this.dy := dx, dy;
      mass := radius * radius;
      this.color := color;
    }

    method Move()
      modifies this
      ensures Snap() == Moved(old(Snap())) && color == old(color)
    {
      dy := dy + GRAVITY;
      x := x + dx;
      y := y + dy;
      if x - radius as real < 0.0 {
        x := radius as real;
        dx := dx * -ELASTICITY;
      } else if x + radius as real > WIDTH as real {
        x := WIDTH as real - radius as real;
        dx := dx * -ELASTICITY;
      }
      if y - radius as real < 0.0 {
        y := radius as real;
        dy := dy * -ELASTICITY;
      } else if y + radius as real > HEIGHT as real {
        y := HEIGHT as real - radius as real;
        dy := dy * -ELASTICITY;
      }
    }
  }

  /** `check_collision(ball1, ball2)` on two distinct balls, with the
      impulse `imp`. */
  method CheckCollision(imp: Impulse, ball1: Ball, ball2: Ball, distance: real)
    requires ball1 != ball2
    requires Defined(ball1.Snap(), ball2.Snap(), distance)
    modifies ball1, ball2
    ensures Pair(ball1.Snap(), ball2.Snap()) == CollideWith(imp, old(ball1.Snap()), old(ball2.Snap()), distance)
    ensures ball1.color == old(ball1.color) && ball2.color == old(ball2.color)
  {
    ghost var b1, b2 := ball1.Snap(), ball2.Snap();
    var dx := ball2.x - ball1.x;
    var dy := ball2.y - ball1.y;
    if distance < (ball1.radius + ball2.radius) as real {
      var nx := dx / distance;
      var ny := dy / distance;
      assert (nx, ny) == Normal(b1, b2, distance);
      var dvx := ball2.dx - ball1.dx;
      var dvy := ball2.dy - ball1.dy;
      var normalVel := dvx * nx + dvy * ny;
      assert normalVel == NormalVelocity(b1, b2, nx, ny);
      if normalVel < 0.0 {
        var imps := match imp
          case AsWritten => ImpulsesAsWritten(ball1.mass, ball2.mass, normalVel)
          case Corrected => Impulses(ball1.mass, ball2.mass, normalVel);
        var r := Push(ball1.Snap(), ball2.Snap(), nx, ny, imps.0, imps.1);
        assert CollideWith(imp, b1, b2, distance) == r;
        ball1.dx, ball1.dy := r.a.dx, r.a.dy;
        ball2.dx, ball2.dy := r.b.dx, r.b.dy;
      } else {
        assert CollideWith(imp, b1, b2, distance) == Pair(b1, b2);
      }
    } else {
      assert CollideWith(imp, b1, b2, distance) == Pair(b1, b2);
    }
  }

  /** The value view of a list of balls. */
  function Snaps(balls: seq<Ball>): (r: seq<BallState>)
    reads balls
    ensures |r| == |balls|
    ensures forall k :: 0 <= k < |balls| ==> r[k] == balls[k].Snap()
  {
    seq(|balls|, k requires 0 <= k < |balls| reads balls => balls[k].Snap())
  }

  /** The loop `for ball in balls: ball.move()`. */
  method MoveAll(balls: seq<Ball>)
    requires Seqs.Distinct(balls)
    modifies balls
    ensures forall k :: 0 <= k < |balls| ==> balls[k].Snap() == Moved(old(balls[k].Snap()))
    ensures forall k :: 0 <= k < |balls| ==> balls[k].color == old(balls[k].color)
  {
    var i := 0;
    while i < |balls|
      invariant 0 <= i <= |balls|
      invariant forall k :: 0 <= k < i ==> balls[k].Snap() == Moved(old(balls[k].Snap()))
      invariant forall k :: i <= k < |balls| ==> balls[k].Snap() == old(balls[k].Snap())
      invariant forall k :: 0 <= k < |balls| ==> balls[k].color == old(balls[k].color)
    {
      balls[i].Move();
      i := i + 1;
    }
  }

  /** One collision of the pair loop: when the list is to end at `goal`
      through the pairs from `(i, j)` on, then after `check_collision(balls[i],
      balls[j])` it ends there through the pairs from `(i, j + 1)` on. */
  method CheckPair(imp: Impulse, balls: seq<Ball>, dist: seq<seq<real>>, i: nat, j: nat, next: nat, ghost goal: seq<BallState>)
    requires Seqs.Distinct(balls) && i < j < |balls| && next == j + 1
    requires PairsDefined(Snaps(balls), dist)
    requires Resolve(imp, Snaps(balls), dist, PairsFrom(|balls|, i, j)) == goal
    modifies balls
    ensures PairsDefined(Snaps(balls), dist)
    ensures Resolve(imp, Snaps(balls), dist, PairsFrom(|balls|, i, next)) == goal
    ensures forall k :: 0 <= k < |balls| ==> balls[k].color == old(balls[k].color)
  {
    ghost var before := Snaps(balls);
    CheckCollision(imp, balls[i], balls[j], dist[i][j]);
    ghost var after := Apply(imp, before, dist, i, j);
    forall k | 0 <= k < |balls| ensures Snaps(balls)[k] == after[k] {
      if k != i && k != j {
        assert balls[k] != balls[i] && balls[k] != balls[j];
      }
    }
    ResolveStep(imp, before, Snaps(balls), dist, |balls|, i, j, next, goal);
  }

  /** The inner loop `for j in range(i + 1, n): check_collision(balls[i],
      balls[j])`: it does the pairs of row `i`, so what remains is the pairs
      from row `next`, which is `i + 1`, on. */
  method ResolveRow(imp: Impulse, balls: seq<Ball>, dist: seq<seq<real>>, i: nat, next: nat)
    requires Seqs.Distinct(balls) && i < |balls| && next == i + 1
    requires PairsDefined(Snaps(balls), dist)
    modifies balls
    ensures PairsDefined(Snaps(balls), dist)
    ensures Resolve(imp, Snaps(balls), dist, PairsFrom(|balls|, next, next + 1))
            == Resolve(imp, old(Snaps(balls)), dist, PairsFrom(|balls|, i, i + 1))
    ensures forall k :: 0 <= k < |balls| ==> balls[k].color == old(balls[k].color)
  {
    ghost var goal := Resolve(imp, Snaps(balls), dist, PairsFrom(|balls|, i, i + 1));
    var n := |balls|;
    var j := i + 1;
    while j < n
      invariant i + 1 <= j <= n
      invariant PairsDefined(Snaps(balls), dist)
      invariant Resolve(imp, Snaps(balls), dist, PairsFrom(n, i, j)) == goal
      invariant forall k :: 0 <= k < |balls| ==> balls[k].color == old(balls[k].color)
    {
      var next := j + 1;
      CheckPair(imp, balls, dist, i, j, next, goal);
      j := next;
    }
    PairsFromRowEnd(n, i, next);
  }

  /** The nested loop `for i in range(n): for j in range(i + 1, n):
      check_collision(balls[i], balls[j])`. */
  method ResolvePairs(imp: Impulse, balls: seq<Ball>, dist: seq<seq<real>>)
    requires Seqs.Distinct(balls)
    requires PairsDefined(Snaps(balls), dist)
    modifies balls
    ensures Snaps(balls) == Resolve(imp, old(Snaps(balls)), dist, PairsFrom(|balls|, 0, 1))
    ensures forall k :: 0 <= k < |balls| ==> balls[k].color == old(balls[k].color)
  {
    ghost var goal := Resolve(imp, Snaps(balls), dist, PairsFrom(|balls|, 0, 1));
    var n := |balls|;
    var i := 0;
    while i < n
      invariant 0 <= i <= n
      invariant PairsDefined(Snaps(balls), dist)
      invariant Resolve(imp, Snaps(balls), dist, PairsFrom(n, i, i + 1)) == goal
      invariant forall k :: 0 <= k < |balls| ==> balls[k].color == old(balls[k].color)
    {
      var next := i + 1;
      ResolveRow(imp, balls, dist, i, next);
      i := next;
    }
  }
}
