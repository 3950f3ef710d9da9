/** The fireworks demo of DeepSeek/deepseekCode3.py: rockets that rise 5
    pixels per frame until a random trial below 0.02 makes them burst into 50
    to 100 particles.  A particle moves along a fixed angle, slows down by 5%
    per frame and ages one frame per update; it is culled once its age reaches
    its lifetime, and is drawn with opacity `255 * (1 - age / lifetime)`.

    Screen coordinates grow downwards.  Every `random.*` draw is a
    caller-supplied value inside its range, and `math.cos`/`math.sin` of a
    particle's angle are supplied as a unit vector stored with the particle. */
module DeepSeekFireworks {
  import Seqs
  import Numerics

  const WIDTH := 800
  const HEIGHT := 600
  /** Added to a particle's `y` on every move. */
  const GRAVITY: real := 0.1
  /** The per-frame speed factor of a particle (air resistance). */
  const DRAG: real := 0.95
  /** The height a rocket rises per frame. */
  const RISE := 5
  /** A rocket explodes when the frame's `random.random()` is below this. */
  const EXPLODE_CHANCE: real := 0.02
  /** Range of `random.randint(50, 100)` for a particle's lifetime. */
  const MIN_LIFETIME := 50
  const MAX_LIFETIME := 100
  /** Range of `random.randint(50, 100)` for the size of a burst. */
  const MIN_PARTICLES := 50
  const MAX_PARTICLES := 100

  datatype Rgb = Rgb(r: int, g: int, b: int)

  /** The palette a rocket's colour is chosen from. */
  const COLORS: seq<Rgb> := [Rgb(255, 0, 0), Rgb(0, 255, 0), Rgb(0, 0, 255),
                             Rgb(255, 255, 0), Rgb(255, 0, 255), Rgb(0, 255, 255)]

  // ---------------------------------------------------------------------------
  // Particles

  /** The state of one particle, as a value; `cos` and `sin` are the cosine
      and sine of `angle`. */
  datatype Spark = Spark(x: real, y: real, color: Rgb, speed: real, angle: real,
                         cos: real, sin: real, age: int, lifetime: int)

  /** What every particle satisfies: a lifetime drawn from its range and a
      non-negative age. */
  predicate WellFormed(s: Spark)
  {
    MIN_LIFETIME <= s.lifetime <= MAX_LIFETIME && s.age >= 0
  }

  /** `is_alive`: the particle has not yet reached its lifetime. */
  predicate Alive(s: Spark)
  {
    s.age < s.lifetime
  }

  /** Every particle of a list is well formed and alive. */
  predicate AllLive(s: seq<Spark>)
  {
    forall k {:trigger s[k]} :: 0 <= k < |s| ==> WellFormed(s[k]) && Alive(s[k])
  }

  /** `Particle.move` on a value. */
  function Moved(s: Spark): (r: Spark)
    ensures r.age == s.age + 1 && r.lifetime == s.lifetime
    ensures WellFormed(s) ==> WellFormed(r)
    ensures s.speed >= 0.0 ==> 0.0 <= r.speed <= s.speed
    ensures r.color == s.color && r.angle == s.angle && r.cos == s.cos && r.sin == s.sin
    ensures Alive(r) <==> s.age + 1 < s.lifetime
  {
    s.(x := s.x + s.cos * s.speed,
       y := s.y + s.sin * s.speed + GRAVITY,
       speed := s.speed * DRAG,
       age := s.age + 1)
  }

  /** `n` moves of one particle. */
  function Moves(s: Spark, n: nat): Spark
    decreases n
  {
    if n == 0 then s else Moves(Moved(s), n - 1)
  }

  /** After `n` moves a particle is `n` frames older and its speed carries
      the factor 0.95^n. */
  lemma {:induction false} MovesClosedForm(s: Spark, n: nat)
    ensures Moves(s, n).age == s.age + n && Moves(s, n).lifetime == s.lifetime
    ensures Moves(s, n).speed == s.speed * Numerics.Pow(DRAG, n)
    ensures Moves(s, n).angle == s.angle && Moves(s, n).color == s.color
    decreases n
  {
    if n > 0 {
      MovesClosedForm(Moved(s), n - 1);
    }
  }

  /** The opacity a particle is drawn with, `255 * (1 - age / lifetime)`
      (true division, so a real number). */
  function DrawAlpha(s: Spark): (a: real)
    requires s.lifetime > 0
    ensures Alive(s) && s.age >= 0 ==> 0.0 < a <= 255.0
    ensures s.age == 0 ==> a == 255.0
    ensures s.age == s.lifetime ==> a == 0.0
  {
    var l := s.lifetime as real;
    var ratio := s.age as real / l;
    assert Alive(s) && s.age >= 0 ==> 0.0 <= ratio < 1.0 by {
      if Alive(s) && s.age >= 0 {
        assert ratio * l == s.age as real;
      }
    }
    255.0 * (1.0 - ratio)
  }

  /** Older particles are drawn fainter. */
  lemma DrawAlphaDecreasing(s: Spark, t: Spark)
    requires s.lifetime == t.lifetime > 0
    requires s.age < t.age
    ensures DrawAlpha(t) < DrawAlpha(s)
  {
    var l := s.lifetime as real;
    var a, b := s.age as real / l, t.age as real / l;
    assert a * l == s.age as real && b * l == t.age as real;
    assert (b - a) * l == t.age as real - s.age as real;
    assert a < b;
  }

  class Particle {
    var x: real
    var y: real
    var color: Rgb
    var speed: real
    var angle: real
    var cos: real
    var sin: real
    var age: int
    var lifetime: int

    ghost predicate Valid()
      reads this
    {
      WellFormed(Snap())
    }

    function Snap(): Spark
      reads this
    {
      Spark(x, y, color, speed, angle, cos, sin, age, lifetime)
    }

    /** `cos` and `sin` are `math.cos(angle)` and `math.sin(angle)`;
        `lifetime` is the draw of `random.randint(50, 100)`. */
    constructor (x: real, y: real, color: Rgb, speed: real, angle: real, cos: real, sin: real,
                 lifetime: int)
      requires MIN_LIFETIME <= lifetime <= MAX_LIFETIME
      ensures Valid()
      ensures Snap() == Spark(x, y, color, speed, angle, cos, sin, 0, lifetime)
    {
      this.x, this.y, this.color := x, y, color;
      this.speed, this.angle, this.cos, this.sin := speed, angle, cos, sin;
      this.age, this.lifetime := 0, lifetime;
    }

    method Move()
      modifies this
      ensures Snap() == Moved(old(Snap()))
    {
      x := x + cos * speed;
      y := y + sin * speed + GRAVITY;
      speed := speed * DRAG;
      age := age + 1;
    }

    predicate IsAlive()
      reads this
    {
      Alive(Snap())
    }
  }

  /** The value view of a list of particles. */
  function Sparks(ps: seq<Particle>): (r: seq<Spark>)
    reads ps
    ensures |r| == |ps|
    ensures forall k :: 0 <= k < |ps| ==> r[k] == ps[k].Snap()
  {
    seq(|ps|, k requires 0 <= k < |ps| reads ps => ps[k].Snap())
  }

  lemma SparksSnoc(ps: seq<Particle>, p: Particle)
    ensures Sparks(ps + [p]) == Sparks(ps) + [p.Snap()]
  {
    assert forall k :: 0 <= k < |ps| ==> (ps + [p])[k] == ps[k];
  }

  lemma SparksAppend(ps: seq<Particle>, qs: seq<Particle>)
    ensures Sparks(ps + qs) == Sparks(ps) + Sparks(qs)
  {
    assert forall k :: 0 <= k < |ps| ==> (ps + qs)[k] == ps[k];
    assert forall k :: 0 <= k < |qs| ==> (ps + qs)[|ps| + k] == qs[k];
  }

  /** Every particle of a list moved once, as values. */
  function MoveAll(s: seq<Spark>): (r: seq<Spark>)
    ensures |r| == |s|
    ensures forall k :: 0 <= k < |s| ==> r[k] == Moved(s[k])
  {
    seq(|s|, k requires 0 <= k < |s| => Moved(s[k]))
  }

  /** The exploded branch of `Firework.update` on values: move every
      particle, then keep the live ones. */
  function ExplodedUpdate(s: seq<Spark>): (r: seq<Spark>)
    ensures forall k :: 0 <= k < |r| ==> Alive(r[k])
    ensures AllLive(s) ==> AllLive(r)
    ensures Seqs.SubsequenceOf(r, MoveAll(s))
  {
    var moved := MoveAll(s);
    Seqs.FilterIsSubsequence(moved, Alive);
    var r := Seqs.Filter(moved, Alive);
    assert AllLive(s) ==> AllLive(r) by {
      if AllLive(s) {
        forall k | 0 <= k < |r| ensures WellFormed(r[k]) {
          Seqs.FilterMembership(moved, Alive, r[k]);
          var j :| 0 <= j < |moved| && moved[j] == r[k];
          assert WellFormed(s[j]);
        }
      }
    }
    r
  }

  /** An exploded update removes exactly the particles that die on this
      move: a particle survives iff it is the move of one that had more than
      one frame left. */
  lemma ExplodedUpdateMembers(s: seq<Spark>, x: Spark)
    ensures x in ExplodedUpdate(s) <==> exists k :: 0 <= k < |s| && x == Moved(s[k]) && s[k].age + 1 < s[k].lifetime
  {
    Seqs.FilterMembership(MoveAll(s), Alive, x);
  }

  /** Every particle still held after an exploded update is drawn with an
      opacity in (0, 255]. */
  lemma DrawnAlphaInRange(s: seq<Spark>, k: nat)
    requires AllLive(s)
    requires k < |ExplodedUpdate(s)|
    ensures 0.0 < DrawAlpha(ExplodedUpdate(s)[k]) <= 255.0
  {
    var r := ExplodedUpdate(s);
    assert WellFormed(r[k]) && Alive(r[k]);
  }

  /** `n` exploded updates in a row. */
  function Run(s: seq<Spark>, n: nat): seq<Spark>
    decreases n
  {
    if n == 0 then s else Run(ExplodedUpdate(s), n - 1)
  }

  /** Particles with at most `n` frames of life left are all gone after `n`
      exploded updates. */
  lemma {:induction false} FadesWithin(s: seq<Spark>, n: nat)
    requires n >= 1
    requires forall k :: 0 <= k < |s| ==> s[k].lifetime - s[k].age <= n
    ensures Run(s, n) == []
    decreases n
  {
    var next := ExplodedUpdate(s);
    if n == 1 {
      Seqs.FilterEmpty(MoveAll(s), Alive);
    } else {
      forall k | 0 <= k < |next|
        ensures next[k].lifetime - next[k].age <= n - 1
      {
        ExplodedUpdateMembers(s, next[k]);
      }
      FadesWithin(next, n - 1);
    }
  }

  /** Every particle of a burst is gone after 100 exploded updates. */
  lemma BurstFadesWithinMaxLifetime(s: seq<Spark>)
    requires AllLive(s)
    ensures Run(s, MAX_LIFETIME) == []
  {
    FadesWithin(s, MAX_LIFETIME);
  }

  /** The loop `for particle in self.particles: particle.move()`. */
  method MoveParticles(ps: seq<Particle>)
    requires Seqs.Distinct(ps)
    modifies ps
    ensures Sparks(ps) == MoveAll(old(Sparks(ps)))
  {
    ghost var before := Sparks(ps);
    var i := 0;
    while i < |ps|
      invariant 0 <= i <= |ps|
      invariant forall k :: 0 <= k < i ==> ps[k].Snap() == Moved(before[k])
      invariant forall k :: i <= k < |ps| ==> ps[k].Snap() == before[k]
    {
      ps[i].Move();
      i := i + 1;
    }
    assert Sparks(ps) == MoveAll(before);
  }

  /** The list comprehension `[p for p in ps if p.is_alive()]`. */
  method KeepAlive(ps: seq<Particle>) returns (r: seq<Particle>)
    ensures Sparks(r) == Seqs.Filter(Sparks(ps), Alive)
    ensures Seqs.SubsequenceOf(r, ps)
  {
    r := [];
    var i := 0;
    while i < |ps|
      invariant 0 <= i <= |ps|
      invariant Sparks(r) == Seqs.Filter(Sparks(ps[..i]), Alive)
      invariant Seqs.SubsequenceOf(r, ps[..i])
    {
      var p, next := ps[i], i + 1;
      assert ps[..next] == ps[..i] + [p];
      SparksSnoc(ps[..i], p);
      Seqs.FilterSnoc(Sparks(ps[..i]), p.Snap(), Alive);
      if p.IsAlive() {
        SparksSnoc(r, p);
        Seqs.SubsequenceSnocBoth(r, ps[..i], p);
        r := r + [p];
      } else {
        Seqs.SubsequenceSnocRight(r, ps[..i], p);
      }
      i := next;
    }
    assert ps[..i] == ps;
  }

  // ---------------------------------------------------------------------------
  // Bursts

  /** The draws for one particle: `speed` from `uniform(2, 5)`, `angle` from
      `uniform(0, 2*pi)` with its cosine and sine, and the particle's own
      `randint(50, 100)` lifetime. */
  datatype ParticleDraw = ParticleDraw(speed: real, angle: real, cos: real, sin: real, lifetime: int)

  predicate ValidDraw(d: ParticleDraw)
  {
    && 2.0 <= d.speed <= 5.0
    && 0.0 <= d.angle <= 2.0 * Numerics.PI
    && d.cos * d.cos + d.sin * d.sin == 1.0
    && MIN_LIFETIME <= d.lifetime <= MAX_LIFETIME
  }

  /** Everything `explode` draws at random: one draw per particle. */
  predicate ValidBurst(b: seq<ParticleDraw>)
  {
    && MIN_PARTICLES <= |b| <= MAX_PARTICLES
    && forall k :: 0 <= k < |b| ==> ValidDraw(b[k])
  }

  /** A new particle of a burst, at the rocket's position and colour. */
  function Ignite(x: int, y: int, color: Rgb, d: ParticleDraw): Spark
  {
    Spark(x as real, y as real, color, d.speed, d.angle, d.cos, d.sin, 0, d.lifetime)
  }

  /** The particles one burst appends. */
  function Ignited(x: int, y: int, color: Rgb, b: seq<ParticleDraw>): (r: seq<Spark>)
    ensures |r| == |b|
    ensures ValidBurst(b) ==> MIN_PARTICLES <= |r| <= MAX_PARTICLES && AllLive(r)
    ensures forall k :: 0 <= k < |r| ==>
      r[k].x == x as real && r[k].y == y as real && r[k].color == color && r[k].age == 0 &&
      r[k].speed == b[k].speed && r[k].angle == b[k].angle
  {
    seq(|b|, k requires 0 <= k < |b| => Ignite(x, y, color, b[k]))
  }

  // ---------------------------------------------------------------------------
  // Rockets

  /** A rising rocket, as a value. */
  datatype Rocket = Rocket(y: int, exploded: bool)

  /** `launch`: rise 5 pixels, and explode iff the trial is below 0.02. */
  function Launch(r: Rocket, trial: real): (r': Rocket)
    ensures r'.y == r.y - RISE
    ensures r'.exploded <==> trial < EXPLODE_CHANCE
  {
    Rocket(r.y - RISE, trial < EXPLODE_CHANCE)
  }

  /** The rocket after one frame per trial, stopping once it has exploded. */
  function Launches(r: Rocket, trials: seq<real>): Rocket
    decreases |trials|
  {
    if trials == [] || r.exploded then r else Launches(Launch(r, trials[0]), trials[1..])
  }

  /** With no successful trial, a rocket rises 5 pixels per frame and never
      explodes. */
  lemma {:induction false} LaunchesWithoutSuccess(r: Rocket, trials: seq<real>)
    requires !r.exploded
    requires forall k :: 0 <= k < |trials| ==> trials[k] >= EXPLODE_CHANCE
    ensures Launches(r, trials) == Rocket(r.y - RISE * |trials|, false)
    decreases |trials|
  {
    if trials != [] {
      LaunchesWithoutSuccess(Launch(r, trials[0]), trials[1..]);
    }
  }

  /** A rocket explodes on the frame of its first successful trial, having
      risen 5 pixels on every frame up to and including that one. */
  lemma {:induction false} LaunchesFirstSuccess(r: Rocket, trials: seq<real>, m: nat)
    requires !r.exploded
    requires m < |trials| && trials[m] < EXPLODE_CHANCE
    requires forall k :: 0 <= k < m ==> trials[k] >= EXPLODE_CHANCE
    ensures Launches(r, trials) == Rocket(r.y - RISE * (m + 1), true)
    decreases m
  {
    var r' := Launch(r, trials[0]);
    if m == 0 {
      assert r'.exploded;
    } else {
      LaunchesFirstSuccess(r', trials[1..], m - 1);
    }
  }

  // ---------------------------------------------------------------------------
  // Fireworks

  /** The retention test of the main loop:
      `not f.exploded or len(f.particles) > 0`. */
  predicate Kept(exploded: bool, particleCount: nat)
  {
    !exploded || particleCount > 0
  }

  /** The particles of one burst, made afresh at `(x, y)` with `color`: the
      loop of `explode`. */
  method Spawn(x: int, y: int, color: Rgb, burst: seq<ParticleDraw>) returns (made: seq<Particle>)
    requires ValidBurst(burst)
    ensures Seqs.Distinct(made)
    ensures forall k :: 0 <= k < |made| ==> fresh(made[k])
    ensures Sparks(made) == Ignited(x, y, color, burst)
  {
    ghost var want := Ignited(x, y, color, burst);
    made := [];
    var i := 0;
    while i < |burst|
      invariant 0 <= i <= |burst| && |made| == i
      invariant forall k :: 0 <= k < i ==> fresh(made[k])
      invariant Seqs.Distinct(made)
      invariant forall k :: 0 <= k < i ==> made[k].Snap() == want[k]
    {
      var next := i + 1;
      var d := burst[i];
      var q := new Particle(x as real, y as real, color, d.speed, d.angle, d.cos, d.sin, d.lifetime);
      made := made + [q];
      i := next;
    }
    assert forall k :: 0 <= k < |want| ==> Sparks(made)[k] == want[k];
  }

  class Firework {
    var x: int
    var y: int
    var color: Rgb
    var particles: seq<Particle>
    var exploded: bool

    /** Particles exist only after the burst, are distinct objects and are
        all alive between updates. */
    ghost predicate Valid()
      reads this, particles
    {
      && Seqs.Distinct(particles)
      && (!exploded ==> particles == [])
      && AllLive(Sparks(particles))
    }

    /** `x` is the draw of `randint(100, WIDTH - 100)` and `color` of
        `choice(COLORS)`. */
    constructor (x: int, color: Rgb)
      requires 100 <= x <= WIDTH - 100 && color in COLORS
      ensures Valid()
      ensures this.x == x && y == HEIGHT && this.color == color
      ensures !exploded && particles == []
    {
      this.x, y, this.color := x, HEIGHT, color;
      particles := [];
      exploded := false;
    }

    /** Marks the firework exploded and appends one particle per draw of the
        burst, at the rocket's position and with its colour. */
    method Explode(burst: seq<ParticleDraw>)
      requires Valid() && ValidBurst(burst)
      modifies this
      ensures Valid() && exploded
      ensures x == old(x) && y == old(y) && color == old(color)
      ensures |particles| == old(|particles|) + |burst|
      ensures particles[..old(|particles|)] == old(particles)
      ensures Sparks(particles[old(|particles|)..]) == Ignited(x, y, color, burst)
      ensures forall k :: old(|particles|) <= k < |particles| ==> fresh(particles[k])
    {
      exploded := true;
      var made := Spawn(x, y, color, burst);
      Seqs.DistinctAppend(particles, made);
      SparksAppend(particles, made);
      particles := particles + made;
      assert particles[old(|particles|)..] == made;
    }

    /** `launch`: rise, and burst when the frame's trial succeeds. */
    method LaunchStep(trial: real, burst: seq<ParticleDraw>)
      requires Valid() && !exploded && ValidBurst(burst)
      modifies this
      ensures Valid()
      ensures x == old(x) && color == old(color)
      ensures Rocket(y, exploded) == Launch(Rocket(old(y), false), trial)
      ensures Sparks(particles) == (if exploded then Ignited(x, y, color, burst) else [])
      ensures forall k :: 0 <= k < |particles| ==> fresh(particles[k])
    {
      y := y - RISE;
      if trial < EXPLODE_CHANCE {
        Explode(burst);
        assert particles[0..] == particles;
      }
    }

    /** One frame: launch while climbing, or move the particles and drop the
        dead ones. */
    method Update(trial: real, burst: seq<ParticleDraw>)
      requires Valid() && ValidBurst(burst)
      modifies this, particles
      ensures Valid()
      ensures x == old(x) && color == old(color)
      ensures old(exploded) ==> exploded
      ensures !old(exploded) ==> Rocket(y, exploded) == Launch(Rocket(old(y), false), trial)
      ensures !old(exploded) ==>
        Sparks(particles) == (if exploded then Ignited(x, y, color, burst) else [])
      ensures !old(exploded) ==> forall k :: 0 <= k < |particles| ==> fresh(particles[k])
      ensures old(exploded) ==> y == old(y)
      ensures old(exploded) ==> Sparks(particles) == ExplodedUpdate(old(Sparks(particles)))
      ensures old(exploded) ==> Seqs.SubsequenceOf(particles, old(particles))
    {
      if !exploded {
        LaunchStep(trial, burst);
      } else {
        Burn();
      }
    }

    /** The exploded branch of an update: every particle moves and ages, and
        those without lifetime left are dropped. */
    method Burn()
      requires Valid() && exploded
      modifies this, particles
      ensures Valid()
      ensures x == old(x) && y == old(y) && color == old(color) && exploded
      ensures Sparks(particles) == ExplodedUpdate(old(Sparks(particles)))
      ensures Seqs.SubsequenceOf(particles, old(particles))
    {
      var kept := Age(particles);
      ghost var after := Sparks(kept);
      particles := kept;
      assert Sparks(particles) == after;
    }

    predicate IsKept()
      reads this
    {
      Kept(exploded, |particles|)
    }
  }

  /** Every particle of a burst is updated, then only the live ones are
      kept. */
  method Age(ps: seq<Particle>) returns (kept: seq<Particle>)
    requires Seqs.Distinct(ps) && AllLive(Sparks(ps))
    modifies ps
    ensures Sparks(kept) == ExplodedUpdate(old(Sparks(ps)))
    ensures AllLive(Sparks(kept))
    ensures Seqs.SubsequenceOf(kept, ps) && Seqs.Distinct(kept)
  {
    ghost var before := Sparks(ps);
    MoveParticles(ps);
    ghost var stepped := Sparks(ps);
    kept := KeepAlive(ps);
    assert Sparks(kept) == ExplodedUpdate(before) by {
      assert stepped == MoveAll(before);
    }
    Seqs.SubsequenceDistinct(kept, ps);
  }

  /** The retention filter of the main loop. */
  method Retain(fireworks: seq<Firework>) returns (kept: seq<Firework>)
    requires Seqs.Distinct(fireworks)
    ensures Seqs.SubsequenceOf(kept, fireworks) && Seqs.Distinct(kept)
    ensures forall f :: f in kept <==> f in fireworks && (!f.exploded || |f.particles| > 0)
  {
    kept := [];
    var i := 0;
    while i < |fireworks|
      invariant 0 <= i <= |fireworks|
      invariant Seqs.SubsequenceOf(kept, fireworks[..i])
      invariant forall f :: f in kept <==> f in fireworks[..i] && f.IsKept()
    {
      var f, next := fireworks[i], i + 1;
      assert fireworks[..next] == fireworks[..i] + [f];
      if !f.exploded || |f.particles| > 0 {
        Seqs.SubsequenceSnocBoth(kept, fireworks[..i], f);
        kept := kept + [f];
      } else {
        Seqs.SubsequenceSnocRight(kept, fireworks[..i], f);
      }
      i := next;
    }
    assert fireworks[..i] == fireworks;
    Seqs.SubsequenceDistinct(kept, fireworks);
  }
}
