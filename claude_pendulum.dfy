/** The bookkeeping around Claude's double pendulum (Claude/claudeCode.py):
    the explicit Euler step, the trail of at most 100 pixel points, and the
    pause, reset and click-to-perturb commands of the main loop.  The
    equations of motion (`derivatives`) and the pixel position of the lower
    bob are supplied as functions of the pendulum's state. */
module ClaudePendulum {
  import Numerics

  /** The number of trail points kept (`if len(self.trail) > 100`). */
  const TRAIL_LENGTH: nat := 100

  /** The time step `dt = 1 / FPS` with `FPS = 60`. */
  const DT: real := 1.0 / 60.0

  /** The angles and generalised momenta of the pendulum. */
  datatype Phase = Phase(theta1: real, theta2: real, p1: real, p2: real)

  /** What `derivatives` returns: the rate of change of each coordinate. */
  datatype Rates = Rates(dtheta1: real, dtheta2: real, dp1: real, dp2: real)

  /** A trail point in screen pixels. */
  type Point = (int, int)

  /** A pendulum as a value: its phase and its trail. */
  datatype Pendulum = Pendulum(phase: Phase, trail: seq<Point>)

  /** The state of the main loop. */
  datatype Sim = Sim(pendulum: Pendulum, paused: bool, running: bool)

  /** The events the main loop reacts to.  `Click(angle)` carries
      `arctan2(x - WIDTH//2, y - HEIGHT//2)` for the mouse position. */
  datatype Event = Quit | Space | ResetKey | OtherKey | Click(angle: real)

  function Min(a: int, b: int): int { if a <= b then a else b }

  /** The last `k` elements of `s`. */
  function LastN<T>(s: seq<T>, k: nat): seq<T>
    requires k <= |s|
  {
    s[|s| - k..]
  }

  // ---------------------------------------------------------------------------
  // The Euler step and the trail

  /** One explicit Euler step of length `dt` with the rates `r`. */
  function EulerStep(s: Phase, r: Rates, dt: real): (t: Phase)
    ensures t.theta1 - s.theta1 == r.dtheta1 * dt
    ensures t.theta2 - s.theta2 == r.dtheta2 * dt
    ensures t.p1 - s.p1 == r.dp1 * dt
    ensures t.p2 - s.p2 == r.dp2 * dt
  {
    Phase(s.theta1 + r.dtheta1 * dt, s.theta2 + r.dtheta2 * dt,
          s.p1 + r.dp1 * dt, s.p2 + r.dp2 * dt)
  }

  /** Two Euler steps with the same rates make one step of the summed length. */
  lemma EulerStepAdds(s: Phase, r: Rates, a: real, b: real)
    ensures EulerStep(EulerStep(s, r, a), r, b) == EulerStep(s, r, a + b)
  {
    assert r.dtheta1 * a + r.dtheta1 * b == r.dtheta1 * (a + b);
    assert r.dtheta2 * a + r.dtheta2 * b == r.dtheta2 * (a + b);
    assert r.dp1 * a + r.dp1 * b == r.dp1 * (a + b);
    assert r.dp2 * a + r.dp2 * b == r.dp2 * (a + b);
  }

  /** The trail after appending `pt` and dropping the oldest point when the
      trail has grown past `TRAIL_LENGTH`. */
  function Keep(trail: seq<Point>, pt: Point): (r: seq<Point>)
    ensures |r| > 0 && r[|r| - 1] == pt && |r| <= |trail| + 1
    ensures |trail| <= TRAIL_LENGTH ==> |r| <= TRAIL_LENGTH
  {
    var t := trail + [pt];
    if |t| > TRAIL_LENGTH then t[1..] else t
  }

  /** From a trail of at most 100 points, `Keep` gives the last
      min(n + 1, 100) points of the old trail followed by `pt`: the new point
      is last, at most 100 are kept, and only the oldest point is dropped. */
  lemma KeepLast(trail: seq<Point>, pt: Point)
    requires |trail| <= TRAIL_LENGTH
    ensures |trail + [pt]| >= Min(|trail| + 1, TRAIL_LENGTH)
    ensures Keep(trail, pt) == LastN(trail + [pt], Min(|trail| + 1, TRAIL_LENGTH))
    ensures |Keep(trail, pt)| <= TRAIL_LENGTH
    ensures Keep(trail, pt)[|Keep(trail, pt)| - 1] == pt
    ensures |trail| == TRAIL_LENGTH ==> Keep(trail, pt) == trail[1..] + [pt]
    ensures |trail| < TRAIL_LENGTH ==> Keep(trail, pt) == trail + [pt]
  {
  }

  /** The trail after appending each of `pts` in turn. */
  function KeepAll(trail: seq<Point>, pts: seq<Point>): (r: seq<Point>)
    ensures |trail| <= TRAIL_LENGTH ==> |r| <= TRAIL_LENGTH
    ensures pts != [] ==> |r| > 0 && r[|r| - 1] == pts[|pts| - 1]
    decreases |pts|
  {
    if pts == [] then trail else KeepAll(Keep(trail, pts[0]), pts[1..])
  }

  /** The trail always holds the most recent min(n, 100) points of all the
      points appended so far. */
  lemma {:induction false} KeepAllLast(trail: seq<Point>, pts: seq<Point>)
    requires |trail| <= TRAIL_LENGTH
    ensures Min(|trail| + |pts|, TRAIL_LENGTH) <= |trail + pts|
    ensures KeepAll(trail, pts)
            == LastN(trail + pts, Min(|trail| + |pts|, TRAIL_LENGTH))
    decreases |pts|
  {
    if pts != [] {
      var t := Keep(trail, pts[0]);
      KeepLast(trail, pts[0]);
      KeepAllLast(t, pts[1..]);
      var k := Min(|trail| + |pts|, TRAIL_LENGTH);
      var d := |trail| + 1 - |t|;
      assert Min(|t| + |pts[1..]|, TRAIL_LENGTH) == k;
      SuffixAppend(trail, pts, d);
      LastNOfSuffix(trail + pts, d, k);
    }
  }

  /** Dropping `d` elements from `trail + [pts[0]]` and appending the rest
      of `pts` drops `d` elements from `trail + pts`. */
  lemma SuffixAppend<T>(trail: seq<T>, pts: seq<T>, d: nat)
    requires pts != [] && d <= |trail| + 1
    ensures (trail + [pts[0]])[d..] + pts[1..] == (trail + pts)[d..]
  {
    assert trail + pts == (trail + [pts[0]]) + pts[1..];
  }

  /** The last `k` elements of a suffix of `s` that is long enough are the
      last `k` elements of `s`. */
  lemma LastNOfSuffix<T>(s: seq<T>, d: nat, k: nat)
    requires d <= |s| && k <= |s| - d
    ensures LastN(s[d..], k) == LastN(s, k)
  {
    assert s[d..][|s| - d - k..] == s[|s| - k..];
  }

  /** One `update`: every rate is taken from the state before the step, then
      the new pixel point of the lower bob joins the trail. */
  function Stepped(p: Pendulum, derivatives: Phase -> Rates, pixel: Phase -> Point, dt: real): (q: Pendulum)
    ensures q.phase == EulerStep(p.phase, derivatives(p.phase), dt)
    ensures |p.trail| <= TRAIL_LENGTH ==> |q.trail| <= TRAIL_LENGTH
    ensures |q.trail| > 0 && q.trail[|q.trail| - 1] == pixel(q.phase)
  {
    var ph := EulerStep(p.phase, derivatives(p.phase), dt);
    Pendulum(ph, Keep(p.trail, pixel(ph)))
  }

  // ---------------------------------------------------------------------------
  // Commands of the main loop

  /** `DoublePendulum(theta1, theta2, p1, p2)`: the given phase and no trail. */
  function Start(theta1: real, theta2: real, p1: real, p2: real): (p: Pendulum)
    ensures p.phase == Phase(theta1, theta2, p1, p2) && p.trail == []
  {
    Pendulum(Phase(theta1, theta2, p1, p2), [])
  }

  /** The pendulum the program starts with and returns to on reset. */
  function Initial(): (p: Pendulum)
    ensures p.phase == Phase(Numerics.PI / 2.0, Numerics.PI / 2.0, 0.0, 0.0) && p.trail == []
  {
    Start(Numerics.PI / 2.0, Numerics.PI / 2.0, 0.0, 0.0)
  }

  /** A mouse click: the upper arm points at the mouse, both momenta are
      zeroed and the trail is cleared; the lower arm keeps its angle. */
  function Clicked(p: Pendulum, angle: real): (q: Pendulum)
    ensures q.phase.theta1 == angle && q.phase.theta2 == p.phase.theta2
    ensures q.phase.p1 == 0.0 && q.phase.p2 == 0.0
    ensures q.trail == []
  {
    Pendulum(Phase(angle, p.phase.theta2, 0.0, 0.0), [])
  }

  /** The effect of one event on the main loop's state: only `Quit` stops
      the loop, only space toggles the pause, and only reset and a click
      change the pendulum. */
  function Handle(s: Sim, e: Event): (r: Sim)
    ensures r.running <==> s.running && !e.Quit?
    ensures r.paused <==> (s.paused <==> !e.Space?)
    ensures !e.ResetKey? && !e.Click? ==> r.pendulum == s.pendulum
    ensures e.ResetKey? ==> r.pendulum == Initial()
    ensures e.Click? ==> r.pendulum == Clicked(s.pendulum, e.angle)
  {
    match e
    case Quit => s.(running := false)
    case Space => s.(paused := !s.paused)
    case ResetKey => s.(pendulum := Initial())
    case OtherKey => s
    case Click(angle) => s.(pendulum := Clicked(s.pendulum, angle))
  }

  /** The physics part of a frame: one update of length `DT` unless paused. */
  function Advance(s: Sim, derivatives: Phase -> Rates, pixel: Phase -> Point): (r: Sim)
    ensures r.paused == s.paused && r.running == s.running
    ensures s.paused ==> r == s
    ensures !s.paused ==> r.pendulum.phase == EulerStep(s.pendulum.phase, derivatives(s.pendulum.phase), DT)
    ensures !s.paused ==> |r.pendulum.trail| > 0 && r.pendulum.trail[|r.pendulum.trail| - 1] == pixel(r.pendulum.phase)
    ensures |s.pendulum.trail| <= TRAIL_LENGTH ==> |r.pendulum.trail| <= TRAIL_LENGTH
  {
    if s.paused then s else s.(pendulum := Stepped(s.pendulum, derivatives, pixel, DT))
  }

  /** Reset restores the start pendulum whatever the state before, and
      changes nothing else. */
  lemma ResetRestores(s: Sim)
    ensures Handle(s, ResetKey).pendulum.phase
            == Phase(Numerics.PI / 2.0, Numerics.PI / 2.0, 0.0, 0.0)
    ensures Handle(s, ResetKey).pendulum.trail == []
    ensures Handle(s, ResetKey).paused == s.paused
    ensures Handle(s, ResetKey).running == s.running
    ensures forall t: Sim :: Handle(t, ResetKey).pendulum == Handle(s, ResetKey).pendulum
  {
  }

  /** Space flips `paused` and touches nothing else; pressing it twice
      restores the state. */
  lemma SpaceToggles(s: Sim)
    ensures Handle(s, Space).paused == !s.paused
    ensures Handle(s, Space).pendulum == s.pendulum
    ensures Handle(Handle(s, Space), Space) == s
  {
  }

  /** While paused, the physics does not run; otherwise it runs exactly once. */
  lemma AdvanceOnlyUnpaused(s: Sim, derivatives: Phase -> Rates, pixel: Phase -> Point)
    ensures s.paused ==> Advance(s, derivatives, pixel) == s
    ensures !s.paused ==> Advance(s, derivatives, pixel).pendulum
                          == Stepped(s.pendulum, derivatives, pixel, DT)
    ensures Advance(s, derivatives, pixel).paused == s.paused
  {
  }

  /** The trail never exceeds 100 points, whatever events and frames happen. */
  lemma TrailBounded(s: Sim, e: Event, derivatives: Phase -> Rates, pixel: Phase -> Point)
    requires |s.pendulum.trail| <= TRAIL_LENGTH
    ensures |Handle(s, e).pendulum.trail| <= TRAIL_LENGTH
    ensures |Advance(s, derivatives, pixel).pendulum.trail| <= TRAIL_LENGTH
  {
  }

  // ---------------------------------------------------------------------------
  // The objects

  /** The `DoublePendulum` object. */
  class DoublePendulum {
    var theta1: real
    var theta2: real
    var p1: real
    var p2: real
    var trail: seq<Point>

    /** The pendulum's current value. */
    function Snap(): Pendulum
      reads this
    {
      Pendulum(Phase(theta1, theta2, p1, p2), trail)
    }

    /** `DoublePendulum.__init__`. */
    constructor (theta1: real, theta2: real, p1: real, p2: real)
      ensures Snap() == Start(theta1, theta2, p1, p2)
    {
      this.theta1, this.theta2, this.p1, this.p2 := theta1, theta2, p1, p2;
      trail := [];
    }

    /** `update(dt)`: the Euler step from the rates of the old state, then the
        trail append and cap. */
    method Update(derivatives: Phase -> Rates, pixel: Phase -> Point, dt: real)
      modifies this
      ensures Snap() == Stepped(old(Snap()), derivatives, pixel, dt)
    {
      ghost var before := Snap();
      var r := derivatives(Phase(theta1, theta2, p1, p2));
      theta1 := theta1 + r.dtheta1 * dt;
      theta2 := theta2 + r.dtheta2 * dt;
      p1 := p1 + r.dp1 * dt;
      p2 := p2 + r.dp2 * dt;
      var ph := Phase(theta1, theta2, p1, p2);
      assert ph == EulerStep(before.phase, derivatives(before.phase), dt);
      trail := trail + [pixel(ph)];
      if |trail| > TRAIL_LENGTH {
        trail := trail[1..];
      }
      assert trail == Keep(before.trail, pixel(ph));
    }

    /** The click handler's changes to the pendulum. */
    method Perturb(angle: real)
      modifies this
      ensures Snap() == Clicked(old(Snap()), angle)
    {
      theta1 := angle;
      p1 := 0.0;
      p2 := 0.0;
      trail := [];
    }
  }

  /** The main loop's state: the pendulum object and the two flags. */
  class Simulation {
    var pendulum: DoublePendulum
    var paused: bool
    var running: bool

    /** The loop's current value. */
    function Snap(): Sim
      reads this, pendulum
    {
      Sim(pendulum.Snap(), paused, running)
    }

    /** The state before the first frame. */
    constructor ()
      ensures Snap() == Sim(Initial(), false, true)
    {
      pendulum := new DoublePendulum(Numerics.PI / 2.0, Numerics.PI / 2.0, 0.0, 0.0);
      paused := false;
      running := true;
    }

    /** Reacts to one event; reset makes a new pendulum object. */
    method HandleEvent(e: Event)
      modifies this, pendulum
      ensures Snap() == Handle(old(Snap()), e)
      ensures e.ResetKey? ==> fresh(pendulum)
      ensures !e.ResetKey? ==> pendulum == old(pendulum)
    {
      match e {
        case Quit => running := false;
        case Space => paused := !paused;
        case ResetKey =>
          pendulum := new DoublePendulum(Numerics.PI / 2.0, Numerics.PI / 2.0, 0.0, 0.0);
        case OtherKey =>
        case Click(angle) => pendulum.Perturb(angle);
      }
    }

    /** The physics part of a frame. */
    method Frame(derivatives: Phase -> Rates, pixel: Phase -> Point)
      modifies pendulum
      ensures Snap() == Advance(old(Snap()), derivatives, pixel)
      ensures old(paused) ==> unchanged(pendulum)
    {
      if !paused {
        pendulum.Update(derivatives, pixel, DT);
      }
    }
  }
}
