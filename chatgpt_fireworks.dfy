/** The fireworks demo of ChatGPT/chatgptCode3.py: rockets that rise by their
    speed while the speed decays by 2% per frame, and burst once it drops
    below 1 into 30 to 60 particles.  A particle moves along a fixed angle,
    slows down, fades by 4 per frame and loses one frame of lifetime per
    update; it is dropped once its lifetime reaches 0.

    Screen coordinates grow downwards.  Every `random.*` draw is a
    caller-supplied value inside its range, and `math.cos`/`math.sin` of a
    particle's angle are supplied as a unit vector stored with the particle. */
module ChatGptFireworks {
  import Seqs
  import Numerics

  const WIDTH := 800
  const HEIGHT := 600
  /** Added to a particle's `y` on every update. */
  const GRAVITY: real := 0.05
  /** The per-frame speed factor of rockets and particles alike. */
  const DRAG: real := 0.98
  /** The opacity a particle loses per update. */
  const FADE := 4
  /** A rocket explodes once its speed drops below this. */
  const EXPLODE_BELOW: real := 1.0
  /** Range of `random.randint(40, 80)` for a particle's lifetime. */
  const MIN_LIFETIME := 40
  const MAX_LIFETIME := 80
  /** Range of `random.randint(30, 60)` for the size of a burst. */
  const MIN_PARTICLES := 30
  const MAX_PARTICLES := 60

  datatype Rgb = Rgb(r: int, g: int, b: int)

  /** The palette a rocket's colour is chosen from. */
  const COLORS: seq<Rgb> := [Rgb(255, 0, 0), Rgb(0, 255, 0), Rgb(0, 0, 255),
                             Rgb(255, 255, 0), Rgb(255, 165, 0), Rgb(255, 20, 147)]

  // ---------------------------------------------------------------------------
  // Particles

  /** The state of one particle, as a value; `cos` and `sin` are the cosine
      and sine of `angle`. */
  datatype Spark = Spark(x: real, y: real, color: Rgb, angle: real, cos: real, sin: real,
                         speed: real, lifetime: int, alpha: int)

  /** The culling test of `Firework.update`: `p.lifetime > 0`. */
  predicate Alive(s: Spark)
  {
    s.lifetime > 0
  }

  /** What every particle held by a firework satisfies between updates. */
  predicate Live(s: Spark)
  {
    0 < s.lifetime <= MAX_LIFETIME && 0 <= s.alpha <= 255 && s.speed >= 0.0
  }

  predicate AllLive(s: seq<Spark>)
  {
    forall k {:trigger s[k]} :: 0 <= k < |s| ==> Live(s[k])
  }

  /** The opacity `max(0, alpha - 4)`. */
  function Fade(alpha: int): (a: int)
    ensures a >= 0 && a >= alpha - FADE
    ensures a == 0 || a == alpha - FADE
    ensures alpha >= 0 ==> a <= alpha
  {
    if alpha - FADE > 0 then alpha - FADE else 0
  }

  /** `Particle.update` on a value. */
  function Step(s: Spark): (r: Spark)
    ensures r.lifetime == s.lifetime - 1
    ensures r.alpha == Fade(s.alpha)
    ensures s.speed >= 0.0 ==> 0.0 <= r.speed <= s.speed
    ensures r.color == s.color && r.angle == s.angle && r.cos == s.cos && r.sin == s.sin
    ensures Alive(r) <==> s.lifetime > 1
  {
    s.(x := s.x + s.speed * s.cos,
       y := s.y + s.speed * s.sin + GRAVITY,
       speed := s.speed * DRAG,
       alpha := Fade(s.alpha),
       lifetime := s.lifetime - 1)
  }

  /** `n` updates of one particle. */
  function Steps(s: Spark, n: nat): Spark
    decreases n
  {
    if n == 0 then s else Steps(Step(s), n - 1)
  }

  /** After `n` updates a particle has lost `n` frames of lifetime, its speed
      carries the factor 0.98^n, and its opacity is `max(0, alpha - 4n)`. */
  lemma {:induction false} StepsClosedForm(s: Spark, n: nat)
    requires s.alpha >= 0
    ensures Steps(s, n).lifetime == s.lifetime - n
    ensures Steps(s, n).speed == s.speed * Numerics.Pow(DRAG, n)
    ensures Steps(s, n).alpha == if s.alpha - FADE * n > 0 then s.alpha - FADE * n else 0
    ensures Steps(s, n).angle == s.angle && Steps(s, n).color == s.color
    decreases n
  {
    if n > 0 {
      StepsClosedForm(Step(s), n - 1);
    }
  }

  class Particle {
    var x: real
    var y: real
    var color: Rgb
    var angle: real
    var cos: real
    var sin: real
    var speed: real
    var lifetime: int
    var alpha: int

    function Snap(): Spark
      reads this
    {
      Spark(x, y, color, angle, cos, sin, speed, lifetime, alpha)
    }

    /** `cos` and `sin` are `math.cos(angle)` and `math.sin(angle)`. */
    constructor (x: real, y: real, color: Rgb, angle: real, cos: real, sin: real,
                 speed: real, lifetime: int)
      ensures Snap() == Spark(x, y, color, angle, cos, sin, speed, lifetime, 255)
    {
      this.x, this.y, this.color := x, y, color;
      this.angle, this.cos, this.sin := angle, cos, sin;
      this.speed, this.lifetime, this.alpha := speed, lifetime, 255;
    }

    method Update()
      modifies this
      ensures Snap() == Step(old(Snap()))
    {
      x := x + speed * cos;
      y := y + speed * sin;
      speed := speed * DRAG;
      y := y + GRAVITY;
      alpha := if 0 > alpha - FADE then 0 else alpha - FADE;
      lifetime := lifetime - 1;
    }
  }

  /** The value view of a list of particles. */
  function Sparks(ps: seq<Particle>): (r: seq<Spark>)
    reads ps
    ensures |r| == |ps|
    ensures forall k :: 0 <= k < |ps| ==> r[k] == ps[k].Snap()
  {
    seq(|ps|, k requires 0 <= k < |ps| reads ps => ps[k].Snap())
  }

  lemma SparksSnoc(ps: seq<Particle>, p: Particle)
    ensures Sparks(ps + [p]) == Sparks(ps) + [p.Snap()]
  {
    assert forall k :: 0 <= k < |ps| ==> (ps + [p])[k] == ps[k];
  }

  lemma SparksAppend(ps: seq<Particle>, qs: seq<Particle>)
    ensures Sparks(ps + qs) == Sparks(ps) + Sparks(qs)
  {
    assert forall k :: 0 <= k < |ps| ==> (ps + qs)[k] == ps[k];
    assert forall k :: 0 <= k < |qs| ==> (ps + qs)[|ps| + k] == qs[k];
  }

  /** Every particle of a list updated once, as values. */
  function StepAll(s: seq<Spark>): (r: seq<Spark>)
    ensures |r| == |s|
    ensures forall k :: 0 <= k < |s| ==> r[k] == Step(s[k])
  {
    seq(|s|, k requires 0 <= k < |s| => Step(s[k]))
  }

  /** The exploded branch of `Firework.update` on values: update every
      particle, then keep those with lifetime left. */
  function ExplodedUpdate(s: seq<Spark>): (r: seq<Spark>)
    ensures forall k :: 0 <= k < |r| ==> Alive(r[k])
    ensures AllLive(s) ==> AllLive(r)
    ensures Seqs.SubsequenceOf(r, StepAll(s))
  {
    var stepped := StepAll(s);
    Seqs.FilterIsSubsequence(stepped, Alive);
    var r := Seqs.Filter(stepped, Alive);
    assert AllLive(s) ==> AllLive(r) by {
      if AllLive(s) {
        forall k | 0 <= k < |r| ensures Live(r[k]) {
          Seqs.FilterMembership(stepped, Alive, r[k]);
          var j :| 0 <= j < |stepped| && stepped[j] == r[k];
          assert Live(s[j]);
        }
      }
    }
    r
  }

  /** A particle survives an exploded update iff it is the update of a
      particle that had more than one frame of lifetime left. */
  lemma ExplodedUpdateMembers(s: seq<Spark>, x: Spark)
    ensures x in ExplodedUpdate(s) <==> exists k :: 0 <= k < |s| && x == Step(s[k]) && s[k].lifetime > 1
  {
    Seqs.FilterMembership(StepAll(s), Alive, x);
  }

  /** `n` exploded updates in a row. */
  function Run(s: seq<Spark>, n: nat): seq<Spark>
    decreases n
  {
    if n == 0 then s else Run(ExplodedUpdate(s), n - 1)
  }

  /** Particles with at most `n` frames of lifetime are all gone after `n`
      exploded updates. */
  lemma {:induction false} FadesWithin(s: seq<Spark>, n: nat)
    requires n >= 1
    requires forall k :: 0 <= k < |s| ==> s[k].lifetime <= n
    ensures Run(s, n) == []
    decreases n
  {
    var next := ExplodedUpdate(s);
    if n == 1 {
      Seqs.FilterEmpty(StepAll(s), Alive);
    } else {
      forall k | 0 <= k < |next|
        ensures next[k].lifetime <= n - 1
      {
        ExplodedUpdateMembers(s, next[k]);
      }
      FadesWithin(next, n - 1);
    }
  }

  /** Every particle of a burst is gone after 80 exploded updates. */
  lemma BurstFadesWithinMaxLifetime(s: seq<Spark>)
    requires AllLive(s)
    ensures Run(s, MAX_LIFETIME) == []
  {
    FadesWithin(s, MAX_LIFETIME);
  }

  /** The loop `for particle in self.explosion_particles: particle.update()`. */
  method UpdateAll(ps: seq<Particle>)
    requires Seqs.Distinct(ps)
    modifies ps
    ensures Sparks(ps) == StepAll(old(Sparks(ps)))
  {
    ghost var before := Sparks(ps);
    var i := 0;
    while i < |ps|
      invariant 0 <= i <= |ps|
      invariant forall k :: 0 <= k < i ==> ps[k].Snap() == Step(before[k])
      invariant forall k :: i <= k < |ps| ==> ps[k].Snap() == before[k]
    {
      ps[i].Update();
      i := i + 1;
    }
    assert Sparks(ps) == StepAll(before);
  }

  /** The list comprehension `[p for p in ps if p.lifetime > 0]`. */
  method KeepAlive(ps: seq<Particle>) returns (r: seq<Particle>)
    ensures Sparks(r) == Seqs.Filter(Sparks(ps), Alive)
    ensures Seqs.SubsequenceOf(r, ps)
  {
    r := [];
    var i := 0;
    while i < |ps|
      invariant 0 <= i <= |ps|
      invariant Sparks(r) == Seqs.Filter(Sparks(ps[..i]), Alive)
      invariant Seqs.SubsequenceOf(r, ps[..i])
    {
      var p, next := ps[i], i + 1;
      assert ps[..next] == ps[..i] + [p];
      SparksSnoc(ps[..i], p);
      Seqs.FilterSnoc(Sparks(ps[..i]), p.Snap(), Alive);
      if p.lifetime > 0 {
        SparksSnoc(r, p);
        Seqs.SubsequenceSnocBoth(r, ps[..i], p);
        r := r + [p];
      } else {
        Seqs.SubsequenceSnocRight(r, ps[..i], p);
      }
      i := next;
    }
    assert ps[..i] == ps;
  }

  // ---------------------------------------------------------------------------
  // Bursts

  /** `random.choice(["circle", "star", "cascade"])`. */
  datatype Pattern = Circle | Star | Cascade

  /** The draws for one particle: `angle` from `uniform(0, 2*pi)`, `speed`
      from `uniform(2, 5)`, `lifetime` from `randint(40, 80)`, the cascade
      factor from `uniform(0.5, 1.5)` (drawn only for cascades), and the
      cosine and sine of the particle's final angle. */
  datatype ParticleDraw = ParticleDraw(angle: real, speed: real, lifetime: int, factor: real,
                                       cos: real, sin: real)

  /** Everything `explode` draws at random. */
  datatype Burst = Burst(pattern: Pattern, draws: seq<ParticleDraw>)

  predicate ValidDraw(d: ParticleDraw)
  {
    && 0.0 <= d.angle <= 2.0 * Numerics.PI
    && 2.0 <= d.speed <= 5.0
    && MIN_LIFETIME <= d.lifetime <= MAX_LIFETIME
    && 0.5 <= d.factor <= 1.5
    && d.cos * d.cos + d.sin * d.sin == 1.0
  }

  predicate ValidBurst(b: Burst)
  {
    && MIN_PARTICLES <= |b.draws| <= MAX_PARTICLES
    && forall k :: 0 <= k < |b.draws| ==> ValidDraw(b.draws[k])
  }

  /** The angle and speed of the `i`-th particle of a burst: a "star" shifts
      the even-indexed angles by pi/8, a "cascade" scales every speed by its
      factor, and a "circle" keeps both draws. */
  function Launch(p: Pattern, i: nat, d: ParticleDraw): (r: (real, real))
    ensures r.0 == d.angle || (p == Star && i % 2 == 0 && r.0 == d.angle + Numerics.PI / 8.0)
    ensures r.1 == d.speed || (p == Cascade && r.1 == d.speed * d.factor)
    ensures ValidDraw(d) ==> 0.0 <= r.0 <= 2.0 * Numerics.PI + Numerics.PI / 8.0
    ensures ValidDraw(d) && p != Cascade ==> 2.0 <= r.1 <= 5.0
    ensures ValidDraw(d) && p == Cascade ==> 1.0 <= r.1 <= 7.5
  {
    if p == Star && i % 2 == 0 then
      (d.angle + Numerics.PI / 8.0, d.speed)
    else if p == Cascade then
      assert ValidDraw(d) ==> 1.0 <= d.speed * d.factor <= 7.5 by {
        if ValidDraw(d) {
          assert (d.speed - 2.0) * d.factor >= 0.0;
          assert (5.0 - d.speed) * d.factor >= 0.0;
        }
      }
      (d.angle, d.speed * d.factor)
    else
      (d.angle, d.speed)
  }

  /** The three patterns differ only where the source says: a star shifts
      exactly the even-indexed angles by pi/8 and keeps every speed, a
      cascade keeps every angle and scales every speed by its factor. */
  lemma {:induction false} PatternDifferences(i: nat, d: ParticleDraw)
    ensures Launch(Star, i, d).1 == Launch(Circle, i, d).1
    ensures Launch(Star, i, d).0 == Launch(Circle, i, d).0 + (if i % 2 == 0 then Numerics.PI / 8.0 else 0.0)
    ensures Launch(Cascade, i, d).0 == Launch(Circle, i, d).0
    ensures Launch(Cascade, i, d).1 == Launch(Circle, i, d).1 * d.factor
  {
    var circle := Launch(Circle, i, d);
    assert circle == (d.angle, d.speed);
  }

  /** The `i`-th particle of a burst, at the rocket's position and colour. */
  function Ignite(x: int, y: real, color: Rgb, p: Pattern, i: nat, d: ParticleDraw): Spark
  {
    var launch := Launch(p, i, d);
    Spark(x as real, y, color, launch.0, d.cos, d.sin, launch.1, d.lifetime, 255)
  }

  /** The particles one burst appends. */
  function Ignited(x: int, y: real, color: Rgb, b: Burst): (r: seq<Spark>)
    ensures |r| == |b.draws|
    ensures ValidBurst(b) ==> MIN_PARTICLES <= |r| <= MAX_PARTICLES && AllLive(r)
    ensures forall k :: 0 <= k < |r| ==>
      r[k].x == x as real && r[k].y == y && r[k].color == color && r[k].alpha == 255 &&
      r[k].lifetime == b.draws[k].lifetime
  {
    seq(|b.draws|, k requires 0 <= k < |b.draws| => Ignite(x, y, color, b.pattern, k, b.draws[k]))
  }

  // ---------------------------------------------------------------------------
  // Rockets

  /** A rising rocket, as a value. */
  datatype Rocket = Rocket(y: real, speed: real, exploded: bool)

  /** The ascending branch of `Firework.update`: rise by the current speed,
      slow down, and explode once the new speed is below 1. */
  function Ascend(r: Rocket): (r': Rocket)
    ensures r'.y == r.y - r.speed
    ensures r.speed >= 0.0 ==> 0.0 <= r'.speed <= r.speed
    ensures r'.exploded <==> r'.speed < EXPLODE_BELOW
  {
    var speed := r.speed * DRAG;
    Rocket(r.y - r.speed, speed, speed < EXPLODE_BELOW)
  }

  /** Up to `n` updates of a rocket, stopping once it has exploded. */
  function Ascents(r: Rocket, n: nat): Rocket
    decreases n
  {
    if n == 0 || r.exploded then r else Ascents(Ascend(r), n - 1)
  }

  /** A rocket that has not exploded yet carries the factor 0.98^n. */
  lemma {:induction false} AscentSpeed(r: Rocket, n: nat)
    requires !r.exploded
    ensures !Ascents(r, n).exploded ==> Ascents(r, n).speed == r.speed * Numerics.Pow(DRAG, n)
    decreases n
  {
    if n > 0 {
      var r' := Ascend(r);
      if !r'.exploded {
        AscentSpeed(r', n - 1);
      }
    }
  }

  /** After at least one update, a rocket has exploded iff its speed is
      below 1. */
  lemma {:induction false} AscentsExplodedBelowOne(r: Rocket, n: nat)
    requires !r.exploded && n >= 1
    ensures Ascents(r, n).exploded <==> Ascents(r, n).speed < EXPLODE_BELOW
    decreases n
  {
    var r' := Ascend(r);
    if n > 1 && !r'.exploded {
      AscentsExplodedBelowOne(r', n - 1);
    }
  }

  /** 7 * 0.98^97 < 1. */
  lemma DragBound()
    ensures 0.0 <= Numerics.Pow(DRAG, 97) && Numerics.Pow(DRAG, 97) * 7.0 < 1.0
  {
    Numerics.PowAdd(DRAG, 90, 7);
    Numerics.PowMul(DRAG, 10, 9);
    Numerics.PowMonotoneBase(Numerics.Pow(DRAG, 10), 0.8171, 9);
    assert Numerics.Pow(0.8171, 9) * Numerics.Pow(DRAG, 7) * 7.0 < 1.0;
  }

  /** A rocket whose speed would fall below 1 after `n` frames of drag has
      exploded within `n` updates. */
  lemma ExplodesWithin(r: Rocket, n: nat)
    requires !r.exploded && n >= 1
    requires r.speed * Numerics.Pow(DRAG, n) < EXPLODE_BELOW
    ensures Ascents(r, n).exploded
  {
    AscentSpeed(r, n);
    AscentsExplodedBelowOne(r, n);
  }

  /** Launched with a speed from `uniform(5, 7)`, a rocket explodes within
      97 updates. */
  lemma ExplodesWithin97(r: Rocket)
    requires !r.exploded && 0.0 <= r.speed <= 7.0
    ensures Ascents(r, 97).exploded
  {
    DragBound();
    var p := Numerics.Pow(DRAG, 97);
    assert (7.0 - r.speed) * p >= 0.0;
    ExplodesWithin(r, 97);
  }

  // ---------------------------------------------------------------------------
  // Fireworks

  /** The retention test of the main loop:
      `not fw.exploded or fw.explosion_particles`. */
  predicate Kept(exploded: bool, particleCount: nat)
  {
    !exploded || particleCount > 0
  }

  /** The particles of one burst, made afresh at `(x, y)` with `color`: the
      loop of `explode`. */
  method Spawn(x: int, y: real, color: Rgb, burst: Burst) returns (made: seq<Particle>)
    requires ValidBurst(burst)
    ensures Seqs.Distinct(made)
    ensures forall k :: 0 <= k < |made| ==> fresh(made[k])
    ensures Sparks(made) == Ignited(x, y, color, burst)
  {
    ghost var want := Ignited(x, y, color, burst);
    made := [];
    var i := 0;
    while i < |burst.draws|
      invariant 0 <= i <= |burst.draws| && |made| == i
      invariant forall k :: 0 <= k < i ==> fresh(made[k])
      invariant Seqs.Distinct(made)
      invariant forall k :: 0 <= k < i ==> made[k].Snap() == want[k]
    {
      var next := i + 1;
      var d := burst.draws[i];
      var launch := Launch(burst.pattern, i, d);
      var q := new Particle(x as real, y, color, launch.0, d.cos, d.sin, launch.1, d.lifetime);
      made := made + [q];
      i := next;
    }
    assert forall k :: 0 <= k < |want| ==> Sparks(made)[k] == want[k];
  }

  class Firework {
    var x: int
    var y: real
    var color: Rgb
    var speed: real
    var exploded: bool
    var particles: seq<Particle>

    /** Particles exist only after the burst, are distinct objects and are
        all live between updates. */
    ghost predicate Valid()
      reads this, particles
    {
      && Seqs.Distinct(particles)
      && (!exploded ==> particles == [])
      && AllLive(Sparks(particles))
    }

    /** `x` is the draw of `randint(100, WIDTH - 100)`, `color` of
        `choice(COLORS)` and `speed` of `uniform(5, 7)`. */
    constructor (x: int, color: Rgb, speed: real)
      requires 100 <= x <= WIDTH - 100 && color in COLORS && 5.0 <= speed <= 7.0
      ensures Valid()
      ensures this.x == x && y == HEIGHT as real && this.color == color && this.speed == speed
      ensures !exploded && particles == []
    {
      this.x, y, this.color, this.speed := x, HEIGHT as real, color, speed;
      exploded := false;
      particles := [];
    }

    /** Marks the firework exploded and appends one particle per draw of the
        burst, at the rocket's position. */
    method Explode(burst: Burst)
      requires Valid() && ValidBurst(burst)
      modifies this
      ensures Valid() && exploded
      ensures x == old(x) && y == old(y) && speed == old(speed) && color == old(color)
      ensures |particles| == old(|particles|) + |burst.draws|
      ensures particles[..old(|particles|)] == old(particles)
      ensures Sparks(particles[old(|particles|)..]) == Ignited(x, y, color, burst)
      ensures forall k :: old(|particles|) <= k < |particles| ==> fresh(particles[k])
    {
      exploded := true;
      var made := Spawn(x, y, color, burst);
      Seqs.DistinctAppend(particles, made);
      SparksAppend(particles, made);
      particles := particles + made;
      assert particles[old(|particles|)..] == made;
    }

    /** One frame: rise (and burst once slow enough), or update the particles
        and drop those without lifetime left. */
    method Update(burst: Burst)
      requires Valid() && ValidBurst(burst)
      modifies this, particles
      ensures Valid()
      ensures x == old(x) && color == old(color)
      ensures old(exploded) ==> exploded
      ensures !old(exploded) ==>
        Rocket(y, speed, exploded) == Ascend(Rocket(old(y), old(speed), false))
      ensures !old(exploded) ==>
        Sparks(particles) == (if exploded then Ignited(x, y, color, burst) else [])
      ensures !old(exploded) ==> forall k :: 0 <= k < |particles| ==> fresh(particles[k])
      ensures old(exploded) ==> y == old(y) && speed == old(speed)
      ensures old(exploded) ==> Sparks(particles) == ExplodedUpdate(old(Sparks(particles)))
      ensures old(exploded) ==> Seqs.SubsequenceOf(particles, old(particles))
    {
      if !exploded {
        y := y - speed;
        speed := speed * DRAG;
        if speed < EXPLODE_BELOW {
          Explode(burst);
          assert particles[0..] == particles;
        }
      } else {
        Burn();
      }
    }

    /** The exploded branch of an update: every particle moves and ages, and
        those without lifetime left are dropped. */
    method Burn()
      requires Valid() && exploded
      modifies this, particles
      ensures Valid()
      ensures x == old(x) && y == old(y) && speed == old(speed) && color == old(color) && exploded
      ensures Sparks(particles) == ExplodedUpdate(old(Sparks(particles)))
      ensures Seqs.SubsequenceOf(particles, old(particles))
    {
      var kept := Age(particles);
      ghost var after := Sparks(kept);
      particles := kept;
      assert Sparks(particles) == after;
    }

    predicate IsKept()
      reads this
    {
      Kept(exploded, |particles|)
    }
  }

  /** Every particle of a burst is updated, then only the live ones are
      kept. */
  method Age(ps: seq<Particle>) returns (kept: seq<Particle>)
    requires Seqs.Distinct(ps) && AllLive(Sparks(ps))
    modifies ps
    ensures Sparks(kept) == ExplodedUpdate(old(Sparks(ps)))
    ensures AllLive(Sparks(kept))
    ensures Seqs.SubsequenceOf(kept, ps) && Seqs.Distinct(kept)
  {
    ghost var before := Sparks(ps);
    UpdateAll(ps);
    ghost var stepped := Sparks(ps);
    kept := KeepAlive(ps);
    assert Sparks(kept) == ExplodedUpdate(before) by {
      assert stepped == StepAll(before);
    }
    Seqs.SubsequenceDistinct(kept, ps);
  }

  /** The retention filter of the main loop. */
  method Retain(fireworks: seq<Firework>) returns (kept: seq<Firework>)
    requires Seqs.Distinct(fireworks)
    ensures Seqs.SubsequenceOf(kept, fireworks) && Seqs.Distinct(kept)
    ensures forall f :: f in kept <==> f in fireworks && (!f.exploded || |f.particles| > 0)
  {
    kept := [];
    var i := 0;
    while i < |fireworks|
      invariant 0 <= i <= |fireworks|
      invariant Seqs.SubsequenceOf(kept, fireworks[..i])
      invariant forall f :: f in kept <==> f in fireworks[..i] && f.IsKept()
    {
      var f, next := fireworks[i], i + 1;
      assert fireworks[..next] == fireworks[..i] + [f];
      if !f.exploded || |f.particles| > 0 {
        Seqs.SubsequenceSnocBoth(kept, fireworks[..i], f);
        kept := kept + [f];
      } else {
        Seqs.SubsequenceSnocRight(kept, fireworks[..i], f);
      }
      i := next;
    }
    assert fireworks[..i] == fireworks;
    Seqs.SubsequenceDistinct(kept, fireworks);
  }
}
