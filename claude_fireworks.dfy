/** The fireworks demo of Claude/claudeCode3.py: rockets that climb until their
    vertical velocity reaches zero, then burst into 50 to 80 particles that age
    one frame per update and are culled when their age reaches their lifetime.

    Screen coordinates grow downwards, so a rising rocket has negative `vy`.
    Every `random.*` draw is a caller-supplied value inside its range; the
    trigonometry of the patterns is supplied as a unit vector. */
module ClaudeFireworks {
  import Seqs
  import Numerics

  const WIDTH := 800
  const HEIGHT := 600
  /** Added to a particle's vertical velocity on every update. */
  const PARTICLE_GRAVITY: real := 0.15
  /** Added to a climbing rocket's vertical velocity on every update. */
  const ROCKET_GRAVITY: real := 0.2
  /** Range of `random.randint(30, 60)` for a particle's lifetime. */
  const MIN_LIFETIME := 30
  const MAX_LIFETIME := 60
  /** Range of `random.randint(50, 80)` for the size of a burst. */
  const MIN_SPARKS := 50
  const MAX_SPARKS := 80

  /** A colour with its alpha channel (the four-element colour list). */
  datatype Rgba = Rgba(r: int, g: int, b: int, a: int)

  // ---------------------------------------------------------------------------
  // Particles

  /** The state of one particle, as a value. */
  datatype Spark = Spark(x: real, y: real, color: Rgba, vx: real, vy: real,
                         alpha: int, lifetime: int, age: int)

  /** What every particle satisfies: a lifetime drawn from its range, a
      non-negative age, and the opacity of that age, also held in the
      colour's alpha channel. */
  predicate WellFormed(s: Spark)
  {
    && MIN_LIFETIME <= s.lifetime <= MAX_LIFETIME && s.age >= 0
    && s.alpha == Alpha(s.age, s.lifetime) && s.color.a == s.alpha
  }

  /** `is_alive`: the particle has not yet reached its lifetime. */
  predicate Alive(s: Spark)
  {
    s.age < s.lifetime
  }

  /** The opacity `int(255 * (1 - age / lifetime))`, truncated toward zero as
      Python's `int` does. */
  function Alpha(age: int, lifetime: int): (a: int)
    requires lifetime > 0
    ensures 0 <= age <= lifetime ==> 0 <= a <= 255
    ensures age == 0 ==> a == 255
    ensures age == lifetime ==> a == 0
  {
    var num := 255 * (lifetime - age);
    Numerics.TruncDivExact(0, lifetime);
    Numerics.TruncDivExact(255, lifetime);
    if 0 <= age <= lifetime then
      Numerics.TruncDivMonotone(0, num, lifetime);
      Numerics.TruncDivMonotone(num, 255 * lifetime, lifetime);
      Numerics.TruncDiv(num, lifetime)
    else
      Numerics.TruncDiv(num, lifetime)
  }

  /** Opacity never increases as a particle ages. */
  lemma AlphaNonIncreasing(age1: int, age2: int, lifetime: int)
    requires lifetime > 0
    requires age1 <= age2
    ensures Alpha(age2, lifetime) <= Alpha(age1, lifetime)
  {
    Numerics.TruncDivMonotone(255 * (lifetime - age2), 255 * (lifetime - age1), lifetime);
  }

  /** A well-formed particle is alive exactly while it is still visible. */
  lemma AliveIsVisible(s: Spark)
    requires WellFormed(s)
    ensures Alive(s) <==> s.alpha > 0
  {
  }

  /** `Particle.update` on a value: gravity, then motion, then one frame of
      age and the opacity (also written into the colour's alpha channel). */
  function Step(s: Spark): (r: Spark)
    requires s.lifetime > 0
    ensures r.age == s.age + 1 && r.lifetime == s.lifetime
    ensures WellFormed(s) ==> WellFormed(r) && r.alpha <= s.alpha
    ensures 0 <= s.age < s.lifetime ==> 0 <= r.alpha <= 255 && r.alpha <= Alpha(s.age, s.lifetime)
    ensures r.color.a == r.alpha && r.color.(a := 0) == s.color.(a := 0)
    ensures Alive(r) <==> s.age + 1 < s.lifetime
  {
    var vy := s.vy + PARTICLE_GRAVITY;
    var age := s.age + 1;
    var alpha := Alpha(age, s.lifetime);
    AlphaNonIncreasing(s.age, age, s.lifetime);
    s.(x := s.x + s.vx, y := s.y + vy, vy := vy, age := age, alpha := alpha,
       color := s.color.(a := alpha))
  }

  class Particle {
    var x: real
    var y: real
    var color: Rgba
    var vx: real
    var vy: real
    var alpha: int
    var lifetime: int
    var age: int

    ghost predicate Valid()
      reads this
    {
      WellFormed(Snap())
    }

    function Snap(): Spark
      reads this
    {
      Spark(x, y, color, vx, vy, alpha, lifetime, age)
    }

    /** `lifetime` is the draw of `random.randint(30, 60)`; `color` is the
        opaque colour of the firework. */
    constructor (x: real, y: real, color: Rgba, vx: real, vy: real, lifetime: int)
      requires MIN_LIFETIME <= lifetime <= MAX_LIFETIME && color.a == 255
      ensures Valid()
      ensures Snap() == Spark(x, y, color, vx, vy, 255, lifetime, 0)
    {
      this.x, this.y, this.color := x, y, color;
      this.vx, this.vy := vx, vy;
      this.alpha, this.lifetime, this.age := 255, lifetime, 0;
    }

    method Update()
      requires Valid()
      modifies this
      ensures Valid()
      ensures Snap() == Step(old(Snap()))
    {
      vy := vy + PARTICLE_GRAVITY;
      x := x + vx;
      y := y + vy;
      age := age + 1;
      alpha := Alpha(age, lifetime);
      color := color.(a := alpha);
    }

    predicate IsAlive()
      reads this
    {
      Alive(Snap())
    }
  }

  /** The value view of a list of particles. */
  function Sparks(ps: seq<Particle>): (r: seq<Spark>)
    reads ps
    ensures |r| == |ps|
    ensures forall k :: 0 <= k < |ps| ==> r[k] == ps[k].Snap()
  {
    seq(|ps|, k requires 0 <= k < |ps| reads ps => ps[k].Snap())
  }

  lemma SparksSnoc(ps: seq<Particle>, p: Particle)
    ensures Sparks(ps + [p]) == Sparks(ps) + [p.Snap()]
  {
    assert forall k :: 0 <= k < |ps| ==> (ps + [p])[k] == ps[k];
  }

  lemma SparksAppend(ps: seq<Particle>, qs: seq<Particle>)
    ensures Sparks(ps + qs) == Sparks(ps) + Sparks(qs)
  {
    assert forall k :: 0 <= k < |ps| ==> (ps + qs)[k] == ps[k];
    assert forall k :: 0 <= k < |qs| ==> (ps + qs)[|ps| + k] == qs[k];
  }

  /** Every particle of a list updated once, as values. */
  function StepAll(s: seq<Spark>): (r: seq<Spark>)
    requires AllWellFormed(s)
    ensures |r| == |s|
    ensures forall k :: 0 <= k < |s| ==> r[k] == Step(s[k])
  {
    seq(|s|, k requires 0 <= k < |s| => Step(s[k]))
  }

  /** The exploded branch of `Firework.update` on values: update every
      particle, then keep the live ones. */
  function ExplodedUpdate(s: seq<Spark>): (r: seq<Spark>)
    requires AllWellFormed(s)
    ensures forall k :: 0 <= k < |r| ==> WellFormed(r[k]) && Alive(r[k])
    ensures Seqs.SubsequenceOf(r, StepAll(s))
  {
    var stepped := StepAll(s);
    Seqs.FilterIsSubsequence(stepped, Alive);
    Seqs.Filter(stepped, Alive)
  }

  /** `n` exploded updates in a row. */
  function Run(s: seq<Spark>, n: nat): seq<Spark>
    requires AllWellFormed(s)
    decreases n
  {
    if n == 0 then s else Run(ExplodedUpdate(s), n - 1)
  }

  /** A spark survives an exploded update iff it is the update of a spark
      that had more than one frame left. */
  lemma ExplodedUpdateMembers(s: seq<Spark>, x: Spark)
    requires AllWellFormed(s)
    ensures x in ExplodedUpdate(s) <==> exists k :: 0 <= k < |s| && x == Step(s[k]) && s[k].age + 1 < s[k].lifetime
  {
    Seqs.FilterMembership(StepAll(s), Alive, x);
  }

  /** Every spark of a list is well formed. */
  predicate AllWellFormed(s: seq<Spark>)
  {
    forall k {:trigger s[k]} :: 0 <= k < |s| ==> WellFormed(s[k])
  }

  /** Every spark of a list is well formed and still alive. */
  predicate AllLive(s: seq<Spark>)
  {
    forall k {:trigger s[k]} :: 0 <= k < |s| ==> WellFormed(s[k]) && Alive(s[k])
  }

  /** Particles with at most `n` frames of life left are all gone after `n`
      exploded updates. */
  lemma {:induction false} FadesWithin(s: seq<Spark>, n: nat)
    requires n >= 1
    requires forall k :: 0 <= k < |s| ==> WellFormed(s[k]) && Alive(s[k]) && s[k].lifetime - s[k].age <= n
    ensures Run(s, n) == []
    decreases n
  {
    var next := ExplodedUpdate(s);
    if n == 1 {
      Seqs.FilterEmpty(StepAll(s), Alive);
    } else {
      forall k | 0 <= k < |next|
        ensures next[k].lifetime - next[k].age <= n - 1
      {
        ExplodedUpdateMembers(s, next[k]);
      }
      FadesWithin(next, n - 1);
    }
  }

  /** Every live particle of a burst is gone after 60 exploded updates. */
  lemma BurstFadesWithinMaxLifetime(s: seq<Spark>)
    requires forall k :: 0 <= k < |s| ==> WellFormed(s[k]) && Alive(s[k])
    ensures Run(s, MAX_LIFETIME) == []
  {
    FadesWithin(s, MAX_LIFETIME);
  }

  /** The loop `for particle in self.particles: particle.update()`. */
  method UpdateAll(ps: seq<Particle>)
    requires Seqs.Distinct(ps)
    requires AllWellFormed(Sparks(ps))
    modifies ps
    ensures AllWellFormed(Sparks(ps))
    ensures Sparks(ps) == StepAll(old(Sparks(ps)))
  {
    ghost var before := Sparks(ps);
    assert forall k :: 0 <= k < |ps| ==> before[k] == ps[k].Snap();
    var i := 0;
    while i < |ps|
      invariant 0 <= i <= |ps|
      invariant forall k :: 0 <= k < i ==> ps[k].Valid() && ps[k].Snap() == Step(before[k])
      invariant forall k :: i <= k < |ps| ==> ps[k].Valid() && ps[k].Snap() == before[k]
    {
      ps[i].Update();
      i := i + 1;
    }
    assert Sparks(ps) == StepAll(before);
  }

  /** The list comprehension `[p for p in ps if p.is_alive()]`. */
  method KeepAlive(ps: seq<Particle>) returns (r: seq<Particle>)
    ensures Sparks(r) == Seqs.Filter(Sparks(ps), Alive)
    ensures Seqs.SubsequenceOf(r, ps)
  {
    r := [];
    var i := 0;
    while i < |ps|
      invariant 0 <= i <= |ps|
      invariant Sparks(r) == Seqs.Filter(Sparks(ps[..i]), Alive)
      invariant Seqs.SubsequenceOf(r, ps[..i])
    {
      var p, next := ps[i], i + 1;
      assert ps[..next] == ps[..i] + [p];
      SparksSnoc(ps[..i], p);
      Seqs.FilterSnoc(Sparks(ps[..i]), p.Snap(), Alive);
      if p.IsAlive() {
        SparksSnoc(r, p);
        Seqs.SubsequenceSnocBoth(r, ps[..i], p);
        r := r + [p];
      } else {
        Seqs.SubsequenceSnocRight(r, ps[..i], p);
      }
      i := next;
    }
    assert ps[..i] == ps;
  }

  // ---------------------------------------------------------------------------
  // Fireworks

  /** `random.choice(['circular', 'starburst', 'cascade'])`. */
  datatype Pattern = Circular | Starburst | Cascade

  /** The initial velocity of one particle of a burst: a unit direction
      `(cos(angle), sin(angle))` times a speed, or the two components drawn
      directly (cascade). */
  datatype Kick = Polar(cos: real, sin: real, speed: real) | Cartesian(vx: real, vy: real)

  /** One particle of a burst: its velocity draw and its lifetime draw. */
  datatype SparkDraw = SparkDraw(kick: Kick, lifetime: int)

  /** Everything `explode` draws at random. */
  datatype Burst = Burst(pattern: Pattern, sparks: seq<SparkDraw>)

  /** The ranges of the per-particle draws of each pattern. */
  predicate ValidKick(p: Pattern, k: Kick)
  {
    match p
    case Circular =>
      k.Polar? && k.cos * k.cos + k.sin * k.sin == 1.0 && 3.0 <= k.speed <= 6.0
    case Starburst =>
      k.Polar? && k.cos * k.cos + k.sin * k.sin == 1.0 && 2.0 <= k.speed <= 8.0
    case Cascade =>
      k.Cartesian? && -3.0 <= k.vx <= 3.0 && -2.0 <= k.vy <= 4.0
  }

  predicate ValidBurst(b: Burst)
  {
    && MIN_SPARKS <= |b.sparks| <= MAX_SPARKS
    && forall k :: 0 <= k < |b.sparks| ==>
         ValidKick(b.pattern, b.sparks[k].kick)
         && MIN_LIFETIME <= b.sparks[k].lifetime <= MAX_LIFETIME
  }

  function Velocity(k: Kick): (real, real)
  {
    match k
    case Polar(c, s, speed) => (c * speed, s * speed)
    case Cartesian(vx, vy) => (vx, vy)
  }

  /** The speed range of each pattern: squared speed within [9, 36] for
      circular and [4, 64] for starburst; for cascade each component stays in
      its own range. */
  lemma KickSpeed(p: Pattern, k: Kick)
    requires ValidKick(p, k)
    ensures var v := Velocity(k);
      match p
      case Circular => 9.0 <= v.0 * v.0 + v.1 * v.1 <= 36.0
      case Starburst => 4.0 <= v.0 * v.0 + v.1 * v.1 <= 64.0
      case Cascade => -3.0 <= v.0 <= 3.0 && -2.0 <= v.1 <= 4.0
  {
    if k.Polar? {
      var v := Velocity(k);
      calc {
        v.0 * v.0 + v.1 * v.1;
        k.speed * k.speed * (k.cos * k.cos + k.sin * k.sin);
        k.speed * k.speed;
      }
      match p
      case Circular => Numerics.SquareBetween(3.0, k.speed, 6.0);
      case Starburst => Numerics.SquareBetween(2.0, k.speed, 8.0);
    }
  }

  /** A new particle of a burst, at the rocket's position and colour. */
  function Ignite(x: real, y: real, color: Rgba, d: SparkDraw): Spark
  {
    var v := Velocity(d.kick);
    Spark(x, y, color, v.0, v.1, 255, d.lifetime, 0)
  }

  /** The particles one burst appends. */
  function Ignited(x: real, y: real, color: Rgba, b: Burst): (r: seq<Spark>)
    ensures |r| == |b.sparks|
    ensures ValidBurst(b) ==> MIN_SPARKS <= |r| <= MAX_SPARKS
    ensures ValidBurst(b) ==> forall k :: 0 <= k < |r| ==>
      r[k].x == x && r[k].y == y && r[k].color == color && r[k].age == 0 &&
      r[k].alpha == 255 && Alive(r[k])
    ensures ValidBurst(b) && color.a == 255 ==> forall k :: 0 <= k < |r| ==> WellFormed(r[k])
  {
    seq(|b.sparks|, k requires 0 <= k < |b.sparks| => Ignite(x, y, color, b.sparks[k]))
  }

  /** A climbing rocket, as a value. */
  datatype Rocket = Rocket(y: real, vy: real, exploded: bool)

  /** The ascending branch of `Firework.update`: the rocket explodes on the
      first update that brings its vertical velocity to zero or above. */
  function Climb(r: Rocket): (r': Rocket)
    requires !r.exploded
    ensures r'.vy == r.vy + ROCKET_GRAVITY
    ensures r'.exploded <==> r'.vy >= 0.0
  {
    var vy := r.vy + ROCKET_GRAVITY;
    Rocket(r.y + vy, vy, vy >= 0.0)
  }

  /** Up to `n` updates of a rocket, stopping once it has exploded. */
  function Climbs(r: Rocket, n: nat): Rocket
    decreases n
  {
    if n == 0 || r.exploded then r else Climbs(Climb(r), n - 1)
  }

  /** A rocket that has not exploded yet gained exactly 0.2 per update. */
  lemma {:induction false} ClimbSpeed(r: Rocket, n: nat)
    requires !r.exploded
    ensures !Climbs(r, n).exploded ==> Climbs(r, n).vy == r.vy + ROCKET_GRAVITY * n as real
    decreases n
  {
    if n > 0 {
      var r' := Climb(r);
      if !r'.exploded {
        ClimbSpeed(r', n - 1);
      }
    }
  }

  /** Launched with `vy` in `uniform(-16, -12)`, a rocket explodes within 80
      updates. */
  lemma ApexWithin80(r: Rocket)
    requires !r.exploded && r.vy >= -16.0
    ensures Climbs(r, 80).exploded
  {
    if !Climbs(r, 80).exploded {
      ClimbSpeed(r, 80);
      ClimbsExplodedNonNegative(r, 80);
    }
  }

  /** A rocket that has climbed at least once without exploding still has a
      negative vertical velocity; one that exploded on its way has a
      non-negative one. */
  lemma {:induction false} ClimbsExplodedNonNegative(r: Rocket, n: nat)
    requires !r.exploded && n >= 1
    ensures Climbs(r, n).exploded <==> Climbs(r, n).vy >= 0.0
    decreases n
  {
    var r' := Climb(r);
    if n > 1 && !r'.exploded {
      ClimbsExplodedNonNegative(r', n - 1);
    }
  }

  /** The firework is alive while it climbs or while it has particles. */
  predicate FireworkAlive(exploded: bool, particleCount: nat)
  {
    !exploded || particleCount > 0
  }

  /** The particles of one burst, made afresh at `(x, y)` with `color`: the
      loop of `explode`. */
  method Spawn(x: real, y: real, color: Rgba, burst: Burst) returns (made: seq<Particle>)
    requires ValidBurst(burst) && color.a == 255
    ensures Seqs.Distinct(made)
    ensures forall k :: 0 <= k < |made| ==> fresh(made[k])
    ensures Sparks(made) == Ignited(x, y, color, burst)
  {
    ghost var want := Ignited(x, y, color, burst);
    made := [];
    var i := 0;
    while i < |burst.sparks|
      invariant 0 <= i <= |burst.sparks| && |made| == i
      invariant forall k :: 0 <= k < i ==> fresh(made[k])
      invariant Seqs.Distinct(made)
      invariant forall k :: 0 <= k < i ==> made[k].Snap() == want[k]
    {
      var next := i + 1;
      var d := burst.sparks[i];
      var v := Velocity(d.kick);
      var q := new Particle(x, y, color, v.0, v.1, d.lifetime);
      made := made + [q];
      i := next;
    }
    assert forall k :: 0 <= k < |want| ==> Sparks(made)[k] == want[k];
  }

  class Firework {
    var x: real
    var y: real
    var exploded: bool
    var particles: seq<Particle>
    var vy: real
    var color: Rgba

    /** The colour is opaque; particles exist only after the burst, are
        distinct objects and are all alive between updates. */
    ghost predicate Valid()
      reads this, particles
    {
      && color.a == 255
      && Seqs.Distinct(particles)
      && (!exploded ==> particles == [])
      && AllLive(Sparks(particles))
    }

    /** `vy` is the draw of `random.uniform(-16, -12)`; `r`, `g`, `b` are the
        draws of `random.randint(50, 255)`. */
    constructor (x: real, y: real, vy: real, r: int, g: int, b: int)
      requires -16.0 <= vy <= -12.0
      requires 50 <= r <= 255 && 50 <= g <= 255 && 50 <= b <= 255
      ensures Valid()
      ensures this.x == x && this.y == y && this.vy == vy
      ensures !exploded && particles == [] && color == Rgba(r, g, b, 255)
    {
      this.x, this.y := x, y;
      exploded := false;
      particles := [];
      this.vy := vy;
      color := Rgba(r, g, b, 255);
    }

    /** Appends one particle per draw of the burst, at the rocket's position. */
    method Explode(burst: Burst)
      requires Valid() && exploded && ValidBurst(burst)
      modifies this
      ensures Valid()
      ensures x == old(x) && y == old(y) && vy == old(vy) && color == old(color) && exploded
      ensures |particles| == old(|particles|) + |burst.sparks|
      ensures particles[..old(|particles|)] == old(particles)
      ensures Sparks(particles[old(|particles|)..]) == Ignited(x, y, color, burst)
      ensures forall k :: old(|particles|) <= k < |particles| ==> fresh(particles[k])
    {
      var made := Spawn(x, y, color, burst);
      Seqs.DistinctAppend(particles, made);
      SparksAppend(particles, made);
      particles := particles + made;
      assert particles[old(|particles|)..] == made;
    }

    /** One frame: climb (and burst at the apex), or age the particles and
        drop the dead ones. */
    method Update(burst: Burst)
      requires Valid() && ValidBurst(burst)
      modifies this, particles
      ensures Valid()
      ensures x == old(x) && color == old(color)
      ensures old(exploded) ==> exploded
      ensures !old(exploded) ==> Rocket(y, vy, exploded) == Climb(Rocket(old(y), old(vy), false))
      ensures !old(exploded) ==>
        Sparks(particles) == (if exploded then Ignited(x, y, color, burst) else [])
      ensures !old(exploded) ==> forall k :: 0 <= k < |particles| ==> fresh(particles[k])
      ensures old(exploded) ==> y == old(y) && vy == old(vy)
      ensures old(exploded) ==> Sparks(particles) == ExplodedUpdate(old(Sparks(particles)))
      ensures old(exploded) ==> Seqs.SubsequenceOf(particles, old(particles))
    {
      if !exploded {
        vy := vy + ROCKET_GRAVITY;
        y := y + vy;
        if vy >= 0.0 {
          exploded := true;
          Explode(burst);
          assert particles[0..] == particles;
        }
      } else {
        Burn();
      }
    }

    /** The exploded branch of `update`. */
    method Burn()
      requires Valid() && exploded
      modifies this, particles
      ensures Valid()
      ensures x == old(x) && y == old(y) && vy == old(vy) && color == old(color) && exploded
      ensures Sparks(particles) == ExplodedUpdate(old(Sparks(particles)))
      ensures Seqs.SubsequenceOf(particles, old(particles))
    {
      var kept := Age(particles);
      ghost var after := Sparks(kept);
      particles := kept;
      assert Sparks(particles) == after;
    }

    predicate IsAlive()
      reads this
    {
      FireworkAlive(exploded, |particles|)
    }
  }

  /** Every particle of a burst is updated, then only the live ones are
      kept. */
  method Age(ps: seq<Particle>) returns (kept: seq<Particle>)
    requires Seqs.Distinct(ps) && AllWellFormed(Sparks(ps))
    modifies ps
    ensures Sparks(kept) == ExplodedUpdate(old(Sparks(ps)))
    ensures AllLive(Sparks(kept))
    ensures Seqs.SubsequenceOf(kept, ps) && Seqs.Distinct(kept)
  {
    ghost var before := Sparks(ps);
    UpdateAll(ps);
    ghost var stepped := Sparks(ps);
    kept := KeepAlive(ps);
    assert Sparks(kept) == ExplodedUpdate(before) by {
      assert stepped == StepAll(before);
    }
    Seqs.SubsequenceDistinct(kept, ps);
  }

  /** The retention filter of the main loop:
      `fireworks = [f for f in fireworks if f.is_alive()]`. */
  method Retain(fireworks: seq<Firework>) returns (kept: seq<Firework>)
    requires Seqs.Distinct(fireworks)
    ensures Seqs.SubsequenceOf(kept, fireworks) && Seqs.Distinct(kept)
    ensures forall f :: f in kept <==> f in fireworks && f.IsAlive()
  {
    kept := [];
    var i := 0;
    while i < |fireworks|
      invariant 0 <= i <= |fireworks|
      invariant Seqs.SubsequenceOf(kept, fireworks[..i])
      invariant forall f :: f in kept <==> f in fireworks[..i] && f.IsAlive()
    {
      var f, next := fireworks[i], i + 1;
      assert fireworks[..next] == fireworks[..i] + [f];
      if f.IsAlive() {
        Seqs.SubsequenceSnocBoth(kept, fireworks[..i], f);
        kept := kept + [f];
      } else {
        Seqs.SubsequenceSnocRight(kept, fireworks[..i], f);
      }
      i := next;
    }
    assert fireworks[..i] == fireworks;
    Seqs.SubsequenceDistinct(kept, fireworks);
  }
}
