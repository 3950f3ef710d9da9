# Fireworks, bouncing balls and a double pendulum, modelled in Dafny

The repository holds three small pygame and matplotlib demos. Each demo was
written several times, once by each of several code assistants. This project
models the discrete logic of those demos and proves what they promise.

- **Fireworks.** Three variants: `Claude/claudeCode3.py`,
  `ChatGPT/chatgptCode3.py` and `DeepSeek/deepseekCode3.py`.
  - A firework is a one-way state machine that goes from ascending to
    exploded.
  - An explosion appends a burst of particles. Each particle has integer
    age and lifetime counters and fades as it ages.
  - Each exploded-phase update moves every particle and then drops the dead
    ones by filtering the list.
  - The main loop keeps a firework exactly while it is still ascending or
    still has particles.
- **Bouncing balls.** Three variants: `Claude/claudeCode2.py`,
  `ChatGPT/chatgptCode2.py` and `DeepSeek/deepseekCode2.py`.
  - Balls move under gravity.
  - A ball is clamped back into the window or reflected off a wall.
  - Two overlapping balls exchange momentum along their line of centres.
  - The Claude variant also resolves every pair `i < j` in a nested loop.
- **Double pendulum.** One variant: `Claude/claudeCode.py`.
  - One explicit Euler step per frame.
  - A trail capped at 100 points.
  - Keys pause and reset the simulation; a mouse click perturbs the
    pendulum.

## How the model is organised

Each Python file becomes one module: `ClaudeFireworks`, `ChatGptFireworks`,
`DeepSeekFireworks`, `ClaudeBalls`, `ChatGptBalls`, `DeepSeekBalls` and
`ClaudePendulum`. Three helper modules are shared:

- `ElasticCollision`: the 1-D elastic collision formula used by two ball
  variants.
- `Seqs`: order-preserving filtering and subsequences.
- `Numerics`: `math.pi` as a decimal, an uninterpreted product and square,
  and unit vectors.

The model follows the shape of the Python code:

- **Classes stay classes.** Every Python class whose fields are updated in
  place is a Dafny `class` with the same fields. Each such class has one
  view function, `Snap()`, which reads the fields as a value.
- **Methods are tied to value functions.** Each method's `ensures` ties the
  new `Snap()` to a pure function of the old one. For example,
  `Particle.Update` ensures `Snap() == Step(old(Snap()))`.
- **Lemmas are about the value functions.** The lemmas prove what the demos
  promise about those functions: bounds, fading, termination,
  conservation, and the bookkeeping of lists.
- **Lists of objects become sequences of objects.** A particle list is a
  `seq<Particle>` of distinct objects. Culling is a loop whose result
  equals `Seqs.Filter` on the particles' values.
- **Random draws become arguments.** Every `randint`, `uniform` or `choice`
  is a caller-supplied value, and preconditions keep it inside the range the
  source draws from.
- **Trigonometry and square roots become arguments.**
  - `sqrt` is a supplied `d` with `d >= 0` and `d * d == dx * dx + dy * dy`.
  - `cos` and `sin` make a supplied unit vector.
- **Arithmetic is exact.** All arithmetic is over Dafny's exact `real`.
- **Integer conversions are written out.** Python's `int()` truncation
  toward zero is written out where the source uses it (the Claude particle
  alpha).

## Model

| member | source | states |
|---|---|---|
| ClaudeFireworks.Alpha | Claude/claudeCode3.py:42 | for 0 <= age <= lifetime the alpha `int(255*(1-age/lifetime))` lies in [0, 255]; it is 255 at age 0 and 0 at age == lifetime |
| ClaudeFireworks.AlphaNonIncreasing | Claude/claudeCode3.py:42 | the alpha never increases as the age grows, for a fixed lifetime |
| ClaudeFireworks.Step | Claude/claudeCode3.py:32-45 | one particle update raises age by exactly 1 and keeps the lifetime; it keeps a particle well formed (alpha equal to `int(255*(1-age/lifetime))` and held in the colour); the alpha stays in [0, 255] and does not exceed the previous one; the colour's fourth entry becomes the alpha and the other entries are unchanged; the particle is still alive iff age + 1 < lifetime |
| ClaudeFireworks.Alive | Claude/claudeCode3.py:47-48 | `is_alive` holds while the age is below the lifetime |
| ClaudeFireworks.Particle.IsAlive | Claude/claudeCode3.py:47-48 | `is_alive` of a particle object is `Alive` of its state; `AliveIsVisible` ties it to the alpha |
| ClaudeFireworks.AliveIsVisible | Claude/claudeCode3.py:42-48 | a well-formed particle is alive exactly while its alpha is positive |
| ClaudeFireworks.Particle.constructor | Claude/claudeCode3.py:22-30 | a new particle of the firework's opaque colour starts well formed, at age 0 with alpha 255 and a lifetime drawn from [30, 60] |
| ClaudeFireworks.Particle.Update | Claude/claudeCode3.py:32-45 | the particle's new state is `Step` of its old state |
| ClaudeFireworks.StepAll | Claude/claudeCode3.py:99-100 | updating all particles updates each one in place, keeping the count and the order |
| ClaudeFireworks.ExplodedUpdate | Claude/claudeCode3.py:98-101 | after an exploded-phase update, every remaining particle is alive, and the list is an order-preserving subsequence of the updated particles |
| ClaudeFireworks.ExplodedUpdateMembers | Claude/claudeCode3.py:99-101 | a particle state survives an exploded-phase update iff it is the update of a particle whose new age is still below its lifetime |
| ClaudeFireworks.FadesWithin | Claude/claudeCode3.py:98-101 | if every particle has at most n updates left, then n exploded-phase updates empty the list |
| ClaudeFireworks.BurstFadesWithinMaxLifetime | Claude/claudeCode3.py:98-104 | any list of live particles from a burst is empty after 60 exploded-phase updates, so an exploded firework stops being alive within 60 updates |
| ClaudeFireworks.UpdateAll | Claude/claudeCode3.py:99-100 | the particle loop leaves every particle in the list at `Step` of its old state |
| ClaudeFireworks.KeepAlive | Claude/claudeCode3.py:101 | the list comprehension keeps exactly the alive particles, in order |
| ClaudeFireworks.KickSpeed | Claude/claudeCode3.py:68-88 | circular sparks have squared speed in [9, 36], starburst sparks in [4, 64], and cascade sparks have vx in [-3, 3] and vy in [-2, 4] |
| ClaudeFireworks.Ignited | Claude/claudeCode3.py:64-88 | an explosion creates 50 to 80 sparks, each at the firework's (x, y) with its colour, at age 0, alpha 255, and alive, and well formed when the colour is opaque |
| ClaudeFireworks.Climb | Claude/claudeCode3.py:91-97 | while ascending, velocity_y rises by exactly 0.2 per update, and the rocket explodes exactly on the update where velocity_y becomes >= 0 |
| ClaudeFireworks.ClimbSpeed | Claude/claudeCode3.py:91-93 | after n ascending updates without explosion, velocity_y has risen by 0.2·n |
| ClaudeFireworks.ApexWithin80 | Claude/claudeCode3.py:91-97 | a rocket launched with velocity_y >= -16 (the lowest launch speed drawn at line 56) has exploded after 80 updates |
| ClaudeFireworks.ClimbsExplodedNonNegative | Claude/claudeCode3.py:95-96 | after one or more updates, the rocket has exploded iff velocity_y >= 0, and `exploded` is never reset |
| ClaudeFireworks.Spawn | Claude/claudeCode3.py:64-88 | the explosion loops create distinct new particle objects whose states are `Ignited` of the burst |
| ClaudeFireworks.Firework.constructor | Claude/claudeCode3.py:51-62 | a new firework is ascending with no particles, velocity_y in [-16, -12], and an opaque colour with channels in [50, 255] |
| ClaudeFireworks.Firework.Explode | Claude/claudeCode3.py:64-88 | `explode` appends the burst's particles after the existing ones, and location and colour are unchanged |
| ClaudeFireworks.Firework.Update | Claude/claudeCode3.py:90-101 | an ascending update is `Climb` and, on explosion, adds the burst; an exploded update leaves the rocket alone and performs `ExplodedUpdate` on the particles; `exploded` is never reset |
| ClaudeFireworks.Firework.Burn | Claude/claudeCode3.py:98-101 | the exploded branch of `update` applies `ExplodedUpdate` to the particle list |
| ClaudeFireworks.Age | Claude/claudeCode3.py:99-101 | updating then filtering the particles yields `ExplodedUpdate` of their old states, using distinct objects that are a subsequence of the old list |
| ClaudeFireworks.FireworkAlive | Claude/claudeCode3.py:103-104 | a firework is alive while it has not exploded or still has particles |
| ClaudeFireworks.Firework.IsAlive | Claude/claudeCode3.py:103-104 | `is_alive` of a firework object is `FireworkAlive` of its flag and particle count |
| ClaudeFireworks.Retain | Claude/claudeCode3.py:132 | from a list of distinct fireworks, the retention filter keeps a firework iff it is alive (not exploded, or has particles), preserving order, so the kept list is exactly the filtered list |
| ChatGptFireworks.Fade | ChatGPT/chatgptCode3.py:38 | `max(0, alpha-4)` is at least 0 and at least alpha-4, is one of the two, and never exceeds a non-negative alpha |
| ChatGptFireworks.Step | ChatGPT/chatgptCode3.py:32-39 | one update lowers the lifetime by 1 and fades the alpha; a non-negative speed stays non-negative and does not increase; the particle stays alive iff its lifetime was > 1 |
| ChatGptFireworks.StepsClosedForm | ChatGPT/chatgptCode3.py:32-39 | after n updates, the lifetime is lifetime-n, the speed is speed·0.98^n, the alpha is max(0, alpha-4n), and angle and colour are unchanged |
| ChatGptFireworks.Particle.constructor | ChatGPT/chatgptCode3.py:23-30 | a new particle starts with alpha 255 and the given position, angle, speed and lifetime |
| ChatGptFireworks.Particle.Update | ChatGPT/chatgptCode3.py:32-39 | the particle's new state is `Step` of its old state |
| ChatGptFireworks.StepAll | ChatGPT/chatgptCode3.py:64-65 | updating all particles updates each one in place, keeping the count and the order |
| ChatGptFireworks.ExplodedUpdate | ChatGPT/chatgptCode3.py:63-66 | after an exploded update, every kept particle has lifetime > 0, and the list is an order-preserving subsequence of the updated particles |
| ChatGptFireworks.ExplodedUpdateMembers | ChatGPT/chatgptCode3.py:64-66 | a particle state is kept iff it is the update of a particle whose lifetime was > 1 |
| ChatGptFireworks.FadesWithin | ChatGPT/chatgptCode3.py:63-66 | if every lifetime is at most n, then n exploded updates empty the list |
| ChatGptFireworks.BurstFadesWithinMaxLifetime | ChatGPT/chatgptCode3.py:63-66 | live particles, whose lifetimes are at most the maximum of 80, are all gone after 80 exploded updates |
| ChatGptFireworks.UpdateAll | ChatGPT/chatgptCode3.py:64-65 | the particle loop leaves every particle at `Step` of its old state |
| ChatGptFireworks.KeepAlive | ChatGPT/chatgptCode3.py:66 | the list comprehension keeps exactly the particles with lifetime > 0, in order |
| ChatGptFireworks.Alive | ChatGPT/chatgptCode3.py:66 | the culling test `lifetime > 0`; `ExplodedUpdateMembers` and `KeepAlive` state what it keeps |
| ChatGptFireworks.Launch | ChatGPT/chatgptCode3.py:72-79 | a particle's angle is shifted by π/8 only for even indices of a star burst, and its speed is scaled only in a cascade; angles stay in [0, 2π+π/8], and speeds stay in [2, 5] (or [1, 7.5] in a cascade) |
| ChatGptFireworks.PatternDifferences | ChatGPT/chatgptCode3.py:76-79 | compared with a circle burst, a star burst shifts exactly the even-indexed angles by π/8, and a cascade scales exactly the speed by the drawn factor |
| ChatGptFireworks.Ignited | ChatGPT/chatgptCode3.py:68-80 | an explosion creates 30 to 60 particles, each at the firework's position with its colour, alpha 255, and a lifetime in [40, 80] |
| ChatGptFireworks.Ascend | ChatGPT/chatgptCode3.py:58-62 | while ascending, y drops by the current speed, a non-negative speed decays without going negative, and the rocket explodes exactly when the decayed speed is < 1 |
| ChatGptFireworks.AscentSpeed | ChatGPT/chatgptCode3.py:59-60 | after n ascending updates without explosion, the speed is speed·0.98^n |
| ChatGptFireworks.AscentsExplodedBelowOne | ChatGPT/chatgptCode3.py:61-62 | after one or more updates, the rocket has exploded iff its speed is < 1, and `exploded` is never reset |
| ChatGptFireworks.ExplodesWithin | ChatGPT/chatgptCode3.py:58-62 | if speed·0.98^n < 1, the rocket has exploded after n updates |
| ChatGptFireworks.ExplodesWithin97 | ChatGPT/chatgptCode3.py:58-62 | a rocket launched with speed at most 7 (the highest launch speed drawn at line 53) has exploded after 97 updates |
| ChatGptFireworks.Spawn | ChatGPT/chatgptCode3.py:72-80 | the explosion loop creates distinct new particle objects whose states are `Ignited` of the burst |
| ChatGptFireworks.Firework.constructor | ChatGPT/chatgptCode3.py:49-55 | a new firework starts at the bottom edge, x in [100, 700], speed in [5, 7], a palette colour, ascending, with no particles |
| ChatGptFireworks.Firework.Explode | ChatGPT/chatgptCode3.py:68-80 | `explode` sets `exploded` and appends the burst's particles after the existing ones |
| ChatGptFireworks.Firework.Update | ChatGPT/chatgptCode3.py:57-66 | an ascending update is `Ascend` and, on explosion, adds the burst; an exploded update performs `ExplodedUpdate` on the particles; `exploded` is never reset |
| ChatGptFireworks.Firework.Burn | ChatGPT/chatgptCode3.py:63-66 | the exploded branch of `update` applies `ExplodedUpdate` to the particle list |
| ChatGptFireworks.Age | ChatGPT/chatgptCode3.py:64-66 | updating then filtering the particles yields `ExplodedUpdate` of their old states, as a distinct subsequence of the old list |
| ChatGptFireworks.Retain | ChatGPT/chatgptCode3.py:104 | from a list of distinct fireworks, the retention filter keeps a firework iff it is unexploded or has particles, preserving order, so the kept list is exactly the filtered list |
| ChatGptFireworks.Kept | ChatGPT/chatgptCode3.py:104 | the retention test: unexploded, or exploded with particles left; `Retain` states that exactly these fireworks are kept |
| ChatGptFireworks.Firework.IsKept | ChatGPT/chatgptCode3.py:104 | `Kept` of a firework object's flag and particle count; `Retain` keeps a firework iff it holds |
| DeepSeekFireworks.Moved | DeepSeek/deepseekCode3.py:33-37 | `move` raises age by exactly 1 and keeps the lifetime; a non-negative speed decays without going negative; the particle stays alive iff age + 1 < lifetime |
| DeepSeekFireworks.Alive | DeepSeek/deepseekCode3.py:39-40 | `is_alive` holds while the age is below the lifetime |
| DeepSeekFireworks.Particle.IsAlive | DeepSeek/deepseekCode3.py:39-40 | `is_alive` of a particle object is `Alive` of its state, the filter test of `KeepAlive` |
| DeepSeekFireworks.MovesClosedForm | DeepSeek/deepseekCode3.py:33-37 | after n moves, the age is age+n and the speed is speed·0.95^n |
| DeepSeekFireworks.DrawAlpha | DeepSeek/deepseekCode3.py:78 | the draw alpha `255*(1-age/lifetime)` lies in (0, 255] for a live particle; it is 255 at age 0 and 0 at age == lifetime |
| DeepSeekFireworks.DrawAlphaDecreasing | DeepSeek/deepseekCode3.py:78 | the draw alpha strictly decreases as the age grows |
| DeepSeekFireworks.Particle.constructor | DeepSeek/deepseekCode3.py:24-31 | a new particle starts at age 0 with a lifetime in [50, 100] |
| DeepSeekFireworks.Particle.Move | DeepSeek/deepseekCode3.py:33-37 | the particle's new state is `Moved` of its old state |
| DeepSeekFireworks.MoveAll | DeepSeek/deepseekCode3.py:69-70 | moving all particles moves each one in place, keeping the count and the order |
| DeepSeekFireworks.ExplodedUpdate | DeepSeek/deepseekCode3.py:68-71 | after an exploded update, every remaining particle is alive, and the list is an order-preserving subsequence of the moved particles |
| DeepSeekFireworks.ExplodedUpdateMembers | DeepSeek/deepseekCode3.py:69-71 | the update removes exactly the dead particles: a state is kept iff it is a moved particle whose new age is below its lifetime |
| DeepSeekFireworks.DrawnAlphaInRange | DeepSeek/deepseekCode3.py:76-78 | every particle drawn after an exploded update has an alpha in (0, 255] |
| DeepSeekFireworks.FadesWithin | DeepSeek/deepseekCode3.py:68-71 | if every particle has at most n moves left, then n exploded updates empty the list |
| DeepSeekFireworks.BurstFadesWithinMaxLifetime | DeepSeek/deepseekCode3.py:68-71 | a list of live particles (lifetime at most 100) is empty after 100 exploded updates |
| DeepSeekFireworks.MoveParticles | DeepSeek/deepseekCode3.py:69-70 | the particle loop leaves every particle at `Moved` of its old state |
| DeepSeekFireworks.KeepAlive | DeepSeek/deepseekCode3.py:71 | the list comprehension keeps exactly the alive particles, in order |
| DeepSeekFireworks.Ignited | DeepSeek/deepseekCode3.py:57-63 | an explosion creates 50 to 100 live particles, each at the firework's (x, y) with its colour and the drawn speed and angle |
| DeepSeekFireworks.Launch | DeepSeek/deepseekCode3.py:51-55 | an ascending update lowers y by exactly 5 and explodes iff the supplied trial is below 0.02 |
| DeepSeekFireworks.LaunchesWithoutSuccess | DeepSeek/deepseekCode3.py:51-55 | if no trial succeeds, k updates lower y by 5k and the rocket does not explode |
| DeepSeekFireworks.LaunchesFirstSuccess | DeepSeek/deepseekCode3.py:51-55 | if the first successful trial is number m, the rocket explodes at height y - 5(m+1) and stays exploded |
| DeepSeekFireworks.Spawn | DeepSeek/deepseekCode3.py:57-63 | the explosion loop creates distinct new particle objects whose states are `Ignited` of the burst |
| DeepSeekFireworks.Firework.constructor | DeepSeek/deepseekCode3.py:44-49 | a new firework starts at the bottom edge, x in [100, 700], a palette colour, unexploded, with no particles |
| DeepSeekFireworks.Firework.Explode | DeepSeek/deepseekCode3.py:57-63 | `explode` sets `exploded` and appends the burst's particles after the existing ones |
| DeepSeekFireworks.Firework.LaunchStep | DeepSeek/deepseekCode3.py:51-55 | `launch` is `Launch` on the rocket and, on explosion, adds the burst |
| DeepSeekFireworks.Firework.Update | DeepSeek/deepseekCode3.py:65-71 | an unexploded update is `Launch`; an exploded update performs `ExplodedUpdate` on the particles; `exploded` is never reset |
| DeepSeekFireworks.Firework.Burn | DeepSeek/deepseekCode3.py:68-71 | the exploded branch of `update` applies `ExplodedUpdate` to the particle list |
| DeepSeekFireworks.Age | DeepSeek/deepseekCode3.py:69-71 | moving then filtering the particles yields `ExplodedUpdate` of their old states, as a distinct subsequence of the old list |
| DeepSeekFireworks.Retain | DeepSeek/deepseekCode3.py:104 | from a list of distinct fireworks, the retention filter keeps a firework iff it is unexploded or has particles, preserving order, so the kept list is exactly the filtered list |
| DeepSeekFireworks.Kept | DeepSeek/deepseekCode3.py:104 | the retention test: unexploded, or exploded with particles left; `Retain` states that exactly these fireworks are kept |
| DeepSeekFireworks.Firework.IsKept | DeepSeek/deepseekCode3.py:104 | `Kept` of a firework object's flag and particle count; `Retain` keeps a firework iff it holds |
| ClaudeBalls.Moved | Claude/claudeCode2.py:34-55 | gravity is added to dy before the position moves; when 2·radius fits the window, the ball ends with radius <= x <= WIDTH-radius and radius <= y <= HEIGHT-radius; a velocity component is multiplied by -0.95 exactly when its axis was clamped, and otherwise it is unchanged |
| ClaudeBalls.BounceTurnsInward | Claude/claudeCode2.py:42-55 | for a ball inside the window, a clamp at the left or top makes that component point inward, and so does a clamp at the right or bottom |
| ClaudeBalls.Push | Claude/claudeCode2.py:90-94 | the velocity update leaves both balls' positions, radii and masses unchanged |
| ClaudeBalls.PushMomentum | Claude/claudeCode2.py:90-94 | when m1·imp1 == m2·imp2, the update keeps both components of the total momentum |
| ClaudeBalls.PushKeepsTangent | Claude/claudeCode2.py:90-94 | the update changes each velocity only along the normal, so the component along the tangent is kept |
| ClaudeBalls.PushNormalVelocity | Claude/claudeCode2.py:76-94 | with a unit normal, the update raises the normal relative velocity by imp1 + imp2 |
| ClaudeBalls.PushEnergy | Claude/claudeCode2.py:90-94 | with a unit normal and equal impulses j, the change in total kinetic energy is (2·nv + imp1 + imp2)·j |
| ClaudeBalls.ImpulsesAsWritten | Claude/claudeCode2.py:81-88 | the impulses as written satisfy m1·imp1 == m2·imp2 and sum to -2(1+0.95)·nv |
| ClaudeBalls.Impulses | Claude/claudeCode2.py:81-88 | the corrected impulses satisfy m1·imp1 == m2·imp2, sum to -(1+0.95)·nv, and are non-negative for approaching balls |
| ClaudeBalls.NormalIsUnit | Claude/claudeCode2.py:61-69 | with a true positive distance, (dx/d, dy/d) is a unit vector |
| ClaudeBalls.Normal | Claude/claudeCode2.py:68-69 | the normal (dx/d, dy/d); `NormalIsUnit` proves it is a unit vector |
| ClaudeBalls.NormalVelocity | Claude/claudeCode2.py:72-76 | the relative velocity along the normal; `PushNormalVelocity`, `CollideRebound` and `CollideAsWrittenRebound` state how a collision changes it |
| ClaudeBalls.Approaching | Claude/claudeCode2.py:65-79 | the two guards of `check_collision`, overlap (line 65) and approach (line 79); `Collide` and `CollideAsWritten` change nothing when it fails |
| ClaudeBalls.CollideAsWritten | Claude/claudeCode2.py:60-94 | `check_collision` as written changes nothing unless the discs overlap and the balls approach, and it never moves a ball |
| ClaudeBalls.Collide | Claude/claudeCode2.py:60-94 | the corrected `check_collision` changes nothing unless the discs overlap and the balls approach, and it never moves a ball |
| ClaudeBalls.CollideMomentum | Claude/claudeCode2.py:84-94 | a collision keeps both components of the total momentum |
| ClaudeBalls.CollideKeepsTangent | Claude/claudeCode2.py:90-94 | each velocity changes only along the normal |
| ClaudeBalls.CollideRebound | Claude/claudeCode2.py:76-94 | with the corrected impulse, after a collision the normal relative velocity is -0.95 times its old value, so the pair separates |
| ClaudeBalls.CollideDissipates | Claude/claudeCode2.py:79-94 | with the corrected impulse, a collision never increases the total kinetic energy |
| ClaudeBalls.PushDissipates | Claude/claudeCode2.py:87-94 | the corrected impulses applied to approaching balls do not increase the kinetic energy |
| ClaudeBalls.ImpulsesDissipate | Claude/claudeCode2.py:81-88 | for approaching balls, the energy change (2·nv + imp1 + imp2)·j of the corrected impulses is <= 0 |
| ClaudeBalls.CollideAsWrittenMomentum | Claude/claudeCode2.py:87-94 | the code as written still conserves momentum |
| ClaudeBalls.CollideAsWrittenRebound | Claude/claudeCode2.py:76-94 | as written, the normal relative velocity after the impulse is -(1+2·0.95) times its old value |
| ClaudeBalls.HeadOnDistance | Claude/claudeCode2.py:61-65 | the two head-on balls of the finding are well formed, 30 apart, and overlapping |
| ClaudeBalls.HeadOnApproach | Claude/claudeCode2.py:68-76 | their normal is (1, 0) and their normal relative velocity is -2 |
| ClaudeBalls.HeadOnImpulsesAsWritten | Claude/claudeCode2.py:81-88 | both impulses as written are 3.9 |
| ClaudeBalls.AsWrittenHeadOn | Claude/claudeCode2.py:60-94 | as written, the balls leave with dx = -2.9 and 2.9 |
| ClaudeBalls.AsWrittenGainsEnergy | Claude/claudeCode2.py:87-94 | as written, the head-on collision raises twice the kinetic energy from 800 to 6728 |
| ClaudeBalls.CollideWith | Claude/claudeCode2.py:60-94 | `check_collision` with either impulse changes nothing unless the discs overlap and the balls approach, and it never moves a ball |
| ClaudeBalls.CollideWithMomentum | Claude/claudeCode2.py:84-94 | either impulse keeps both components of the pair's total momentum |
| ClaudeBalls.CollideWithKeepsTangent | Claude/claudeCode2.py:90-94 | either impulse changes each ball's velocity only along the collision normal, so the tangential component is kept |
| ClaudeBalls.PairsFrom | Claude/claudeCode2.py:121-123 | the loop's pairs are all (i, j) with i < j < n, in loop order from a given point |
| ClaudeBalls.PairsFromComplete | Claude/claudeCode2.py:121-123 | every pair p < q < n at or after the start point is visited |
| ClaudeBalls.PairsFromOrdered | Claude/claudeCode2.py:121-123 | the loop visits its pairs in strictly increasing (i, j) order, so no pair twice |
| ClaudeBalls.Apply | Claude/claudeCode2.py:123 | one `check_collision(balls[i], balls[j])`, with either impulse, changes only balls i and j, and never their positions |
| ClaudeBalls.Resolve | Claude/claudeCode2.py:120-123 | resolving a list of pairs, with either impulse, keeps the number of balls and every position |
| ClaudeBalls.ApplyConserves | Claude/claudeCode2.py:123 | one pair check keeps the total momentum of all balls with either impulse; with the corrected impulse it does not increase their total energy |
| ClaudeBalls.ResolveConserves | Claude/claudeCode2.py:120-123 | the whole pair loop keeps the total momentum of all balls with either impulse; with the corrected impulse it does not increase their total energy |
| ClaudeBalls.AsWrittenLoopGainsEnergy | Claude/claudeCode2.py:87-88 | with the impulse as written, the whole pair loop over the two head-on balls raises twice their kinetic energy from 800 to 6728 |
| ClaudeBalls.Ball.constructor | Claude/claudeCode2.py:25-32 | a new ball has mass radius·radius and a velocity in [-5, 5]² |
| ClaudeBalls.Ball.Move | Claude/claudeCode2.py:34-55 | the ball's new state is `Moved` of its old state |
| ClaudeBalls.CheckCollision | Claude/claudeCode2.py:60-94 | with either impulse `imp`, the two balls' new states are `CollideWith(imp, ...)` of their old states, and their colours are kept |
| ClaudeBalls.MoveAll | Claude/claudeCode2.py:117-118 | every ball is left at `Moved` of its old state, with its colour |
| ClaudeBalls.CheckPair | Claude/claudeCode2.py:122-123 | with either impulse, one inner-loop step advances the pair loop towards the same final state and keeps every colour |
| ClaudeBalls.ResolveRow | Claude/claudeCode2.py:121-123 | with either impulse, one row of the inner loop advances the pair loop towards the same final state and keeps every colour |
| ClaudeBalls.ResolvePairs | Claude/claudeCode2.py:120-123 | the nested i<j loop leaves the balls at `Resolve` with the given impulse (as written or corrected) over all pairs in loop order, and keeps every colour |
| ChatGptBalls.Clamp | ChatGPT/chatgptCode2.py:38 | `max(lo, min(hi, v))` lies in [lo, hi], is v when v already does, and is one of v, lo and hi |
| ChatGptBalls.Moved | ChatGPT/chatgptCode2.py:28-41 | gravity first, then the position moves, then both velocities are scaled by 0.99; when 2·radius fits, the ball ends inside the window on both axes; an out-of-bounds axis has its component negated |
| ChatGptBalls.WallTurnsInward | ChatGPT/chatgptCode2.py:36-41 | for a ball inside the window, hitting a minimum wall makes that component positive and hitting a maximum wall makes it negative |
| ChatGptBalls.Direction | ChatGPT/chatgptCode2.py:48-54 | the direction from ball 1 to ball 2, falling back to (1, 0), the direction of `atan2(0, 0) = 0`, at distance 0; its properties are stated by `DirectionIsUnit` |
| ChatGptBalls.DirectionIsUnit | ChatGPT/chatgptCode2.py:49-54 | (cos, sin) of `atan2(dy, dx)` is a unit vector pointing from ball 1 to ball 2 |
| ChatGptBalls.Nudge | ChatGPT/chatgptCode2.py:65-68 | the velocity update leaves positions, radii and masses unchanged |
| ChatGptBalls.Kick | ChatGPT/chatgptCode2.py:57-68 | the velocity part of a collision leaves positions, radii and masses unchanged |
| ChatGptBalls.NudgeComponents | ChatGPT/chatgptCode2.py:65-68 | adding (dv·cos, dv·sin) changes the parallel component by dv and keeps the perpendicular one |
| ChatGptBalls.KickComponents | ChatGPT/chatgptCode2.py:57-68 | the new parallel components are the elastic-collision values, and the perpendicular components are kept |
| ChatGptBalls.NudgeMomentum | ChatGPT/chatgptCode2.py:65-68 | the update keeps both components of the total momentum when m1·dv1 + m2·dv2 == 0 |
| ChatGptBalls.KickMomentum | ChatGPT/chatgptCode2.py:57-68 | the velocity part of a collision keeps the total momentum |
| ChatGptBalls.KickEnergy | ChatGPT/chatgptCode2.py:57-68 | the velocity part of a collision keeps the total kinetic energy |
| ChatGptBalls.Separate | ChatGPT/chatgptCode2.py:70-75 | separation moves the balls and keeps velocities, radii and masses |
| ChatGptBalls.SeparateTouches | ChatGPT/chatgptCode2.py:70-75 | after separation, the centre distance is exactly r1 + r2 and the midpoint of the centres is kept |
| ChatGptBalls.SeparateKeepsMotion | ChatGPT/chatgptCode2.py:70-75 | separation changes no momentum, energy or velocity component |
| ChatGptBalls.Collide | ChatGPT/chatgptCode2.py:48-75 | `resolve_collision` changes nothing when distance >= r1 + r2, and it keeps radii and masses |
| ChatGptBalls.CollideConserves | ChatGPT/chatgptCode2.py:53-75 | a collision keeps the total momentum and the total kinetic energy |
| ChatGptBalls.CollideEqualMasses | ChatGPT/chatgptCode2.py:61-62 | with equal masses, the parallel components are exchanged and the perpendicular ones are kept |
| ChatGptBalls.CollideTouches | ChatGPT/chatgptCode2.py:71-75 | after resolving an overlap, the centres are exactly r1 + r2 apart |
| ChatGptBalls.Ball.constructor | ChatGPT/chatgptCode2.py:19-26 | a new ball has the given position, radius, colour and mass in [1, 3], and a velocity in [-2, 2]² |
| ChatGptBalls.Ball.Move | ChatGPT/chatgptCode2.py:28-41 | the ball's new state is `Moved` of its old state |
| ChatGptBalls.ResolveCollision | ChatGPT/chatgptCode2.py:48-75 | the two balls' new states are `Collide` of their old states, and their colours are kept |
| ElasticCollision.Elastic | ChatGPT/chatgptCode2.py:61-62 | the 1-D elastic formula keeps the momentum m1·v1 + m2·v2, reverses the relative velocity, and exchanges the velocities when the masses are equal |
| ElasticCollision.ElasticEnergy | DeepSeek/deepseekCode2.py:43-44 | the 1-D elastic formula keeps the kinetic energy m1·v1² + m2·v2² |
| DeepSeekBalls.Advanced | DeepSeek/deepseekCode2.py:21-23 | `update_position` keeps the horizontal velocity and the mass |
| DeepSeekBalls.AdvancedTimesClosedForm | DeepSeek/deepseekCode2.py:21-23 | after n steps, x has moved by n·vx·DT, vy has dropped by n·GRAVITY·DT, and y has moved by n·vy·DT - n(n-1)/2·GRAVITY·DT², because position moves by the pre-gravity velocity |
| DeepSeekBalls.Bounced | DeepSeek/deepseekCode2.py:25-29 | `check_wall_collision` negates velocity[0] iff x <= RADIUS or x >= WIDTH-RADIUS (likewise for y), and it never changes the position |
| DeepSeekBalls.BouncedTwice | DeepSeek/deepseekCode2.py:25-29 | two wall checks in a row restore the ball |
| DeepSeekBalls.BouncedKeepsSpeed | DeepSeek/deepseekCode2.py:25-29 | a wall check keeps the speed |
| DeepSeekBalls.Normal | DeepSeek/deepseekCode2.py:35 | the normal `(other - self) / distance`; its properties are stated by `NormalIsUnit` |
| DeepSeekBalls.NormalIsUnit | DeepSeek/deepseekCode2.py:32-35 | the normal `(other - self) / distance` is a unit vector |
| DeepSeekBalls.CombineComponents | DeepSeek/deepseekCode2.py:36-48 | `a·normal + b·tangent` has normal component a and tangent component b |
| DeepSeekBalls.Recombine | DeepSeek/deepseekCode2.py:36-48 | a velocity rebuilt from its normal and tangent components is the same velocity |
| DeepSeekBalls.Collide | DeepSeek/deepseekCode2.py:31-48 | `check_ball_collision` changes nothing when distance > 2·RADIUS, and it never changes positions or masses |
| DeepSeekBalls.CollideComponents | DeepSeek/deepseekCode2.py:36-48 | the new normal components are the elastic-collision values, and both tangential components are preserved |
| DeepSeekBalls.CollideEqualMasses | DeepSeek/deepseekCode2.py:43-44 | with equal masses, the two balls exchange normal components |
| DeepSeekBalls.CollideMomentum | DeepSeek/deepseekCode2.py:43-48 | a collision keeps both components of the total momentum |
| DeepSeekBalls.CollideEnergy | DeepSeek/deepseekCode2.py:43-48 | a collision keeps the total kinetic energy |
| DeepSeekBalls.Ball.constructor | DeepSeek/deepseekCode2.py:16-19 | a new ball holds the given position, velocity and mass in two fresh arrays |
| DeepSeekBalls.Ball.UpdatePosition | DeepSeek/deepseekCode2.py:21-23 | the ball's new state is `Advanced` of its old state |
| DeepSeekBalls.Ball.CheckWallCollision | DeepSeek/deepseekCode2.py:25-29 | the ball's new state is `Bounced` of its old state |
| DeepSeekBalls.Ball.CheckBallCollision | DeepSeek/deepseekCode2.py:31-48 | the two balls' new states are `Collide` of their old states, and their position arrays are untouched |
| ClaudePendulum.EulerStep | Claude/claudeCode.py:44-50 | theta1, theta2, p1 and p2 each advance by their derivative·dt, all taken from the pre-update state |
| ClaudePendulum.EulerStepAdds | Claude/claudeCode.py:47-50 | with fixed rates, two Euler steps of a and b equal one step of a + b |
| ClaudePendulum.Keep | Claude/claudeCode.py:59-61 | appending a point makes it the last, grows the trail by at most one, and keeps a trail of at most 100 points within 100 |
| ClaudePendulum.KeepLast | Claude/claudeCode.py:59-61 | appending a point and popping the oldest one past 100 keeps the last min(n+1, 100) points of trail + [point]; the newest point is last, and the oldest is dropped first |
| ClaudePendulum.KeepAll | Claude/claudeCode.py:59-61 | after appending several points the last one is newest, and a trail of at most 100 points stays within 100 |
| ClaudePendulum.KeepAllLast | Claude/claudeCode.py:59-61 | after any number of updates, the trail is the last min(n+k, 100) points of the old trail followed by the new points |
| ClaudePendulum.Stepped | Claude/claudeCode.py:44-61 | `update` is one Euler step with derivatives of the old state, the trail stays within 100 points, and the newest point is the new state's pixel |
| ClaudePendulum.Start | Claude/claudeCode.py:28-33 | a new pendulum has the given angles and momenta and an empty trail |
| ClaudePendulum.Initial | Claude/claudeCode.py:71 | the start pendulum has angles π/2 and π/2, zero momenta and an empty trail, as on reset at line 86 |
| ClaudePendulum.Clicked | Claude/claudeCode.py:90-93 | a click sets theta1, zeroes p1 and p2, empties the trail, and leaves theta2 unchanged |
| ClaudePendulum.Handle | Claude/claudeCode.py:79-93 | only Quit clears `running`, only space toggles `paused`, the pendulum changes only on reset, where it becomes `Initial()`, and on a click, where it becomes `Clicked` of the old pendulum and the click angle (theta1 set to the angle, both momenta zero, theta2 kept, trail cleared) |
| ClaudePendulum.Advance | Claude/claudeCode.py:95-97 | a frame never changes `paused` or `running`; paused, it changes nothing; otherwise the pendulum takes one Euler step of 1/60 and the new pixel point is the newest trail point, and the trail stays within 100 points |
| ClaudePendulum.ResetRestores | Claude/claudeCode.py:86 | reset yields the pendulum (π/2, π/2, 0, 0) with an empty trail whatever the prior state, and leaves `paused` and `running` alone |
| ClaudePendulum.SpaceToggles | Claude/claudeCode.py:83-84 | space toggles `paused`, leaves the pendulum alone, and pressing it twice restores the state |
| ClaudePendulum.AdvanceOnlyUnpaused | Claude/claudeCode.py:95-97 | while paused no physics update runs; otherwise the pendulum takes one `update(1/60)` |
| ClaudePendulum.TrailBounded | Claude/claudeCode.py:59-61 | no event and no frame makes the trail longer than 100 points |
| ClaudePendulum.DoublePendulum.constructor | Claude/claudeCode.py:28-33 | the new object's state is `Start` of its arguments |
| ClaudePendulum.DoublePendulum.Update | Claude/claudeCode.py:44-61 | the pendulum's new state is `Stepped` of its old state |
| ClaudePendulum.DoublePendulum.Perturb | Claude/claudeCode.py:90-93 | the pendulum's new state is `Clicked` of its old state |
| ClaudePendulum.Simulation.constructor | Claude/claudeCode.py:71-76 | the program starts with the pendulum (π/2, π/2, 0, 0), unpaused and running |
| ClaudePendulum.Simulation.HandleEvent | Claude/claudeCode.py:79-93 | an event changes the simulation as `Handle` says; only reset creates a new pendulum object |
| ClaudePendulum.Simulation.Frame | Claude/claudeCode.py:95-97 | a frame changes the simulation as `Advance` says, and a paused frame leaves the pendulum untouched |
| Numerics.TruncDiv | Claude/claudeCode3.py:42 | Python's `int(num / den)` for den > 0: the quotient truncated toward zero, from below for num >= 0 and from above for num < 0 |

## Left out

- Drawing, display, event polling, `clock.tick` and the matplotlib animation are left out. They are presentation, and they have no state the logic depends on.
- The launch schedule of the fireworks main loops is left out: the mouse clicks, `pygame.time.get_ticks()` and `random.random() < p` launch tests. A new firework is a constructor call with its drawn values.
- Every `random.*` draw becomes an argument constrained to its range, so nothing probabilistic is modelled. This includes the DeepSeek explode trial, which becomes a supplied real compared with 0.02.
- `math.sqrt`, `math.atan2`, `math.cos`, `math.sin` and `np.linalg.norm` are left out. They become supplied reals under the preconditions that define them: a unit (cos, sin) pair, and a distance `d` with `d >= 0` and `d*d == dx*dx + dy*dy`.
- The arithmetic is exact real arithmetic. IEEE floating-point rounding is not modelled, so nothing is said about float drift.
- ClaudeFireworks.Ignited: the explosion angles and speeds are supplied as velocity draws within the ranges of each pattern, because the cosines and sines of the angles are not modelled. The evenly spaced angles of the circular pattern are therefore not captured.
- ClaudeBalls.ResolveConserves: the energy bound is stated for the corrected impulse only (momentum is conserved by both). With the impulse as written the energy can grow, which `AsWrittenLoopGainsEnergy` shows (see Findings).
- The zero-distance collision is excluded by preconditions. Here Python raises a division error (Claude/claudeCode2.py:68) and numpy yields nan (DeepSeek/deepseekCode2.py:35). The ChatGPT variant never divides by the distance, and it is modelled at distance 0 with atan2(0, 0) = 0.
- The frame loops of the ChatGPT and DeepSeek ball demos are left out (ChatGPT/chatgptCode2.py:97-101 and DeepSeek/deepseekCode2.py:66-70). In those loops each ball moves and then collides with balls that have not moved yet, so every pair check needs the square root of freshly moved positions. Their single-ball and single-pair operations are modelled.
- `DoublePendulum.derivatives` is a function parameter of the update, so the equations of motion are not modelled. Being a function of the state, it cannot change the state.
- Pixel positions are a function parameter, and the value returned by `update` is not modelled. Both are positions for drawing only.
- The Quit event only clears `running`. The loop that stops on it is not modelled.
- ChatGPT/chatgptCode.py and DeepSeek/deepseekCode.py are not part of this model. They are an ODE right-hand side handed to SciPy's `solve_ivp`, plus plotting widgets.
- DeepSeek/tempCodeRunnerFile.py is not part of this model. It holds only a comment.

## Findings

| source | as written | input that shows it | evidently intended | confidence | as-written member | corrected member |
|---|---|---|---|---|---|---|
| Claude/claudeCode2.py:87-88 | `imp1 = 2*m2*imp/total`, where `imp` already carries the factor `(1+ELASTICITY)`. The relative normal velocity becomes `-(1+2·0.95)` times its old value, and the kinetic energy grows. | Two balls of radius 20 at (100, 100) and (130, 100), moving at dx = 1 and dx = -1. As written they leave at dx = -2.9 and 2.9, and twice the kinetic energy goes from 800 to 6728. | `imp1 = m2*imp/total`: the relative normal velocity becomes `-0.95` times its old value, and the kinetic energy does not increase | not executed | ClaudeBalls.CollideAsWritten, ClaudeBalls.AsWrittenGainsEnergy, ClaudeBalls.CollideAsWrittenRebound, ClaudeBalls.AsWrittenLoopGainsEnergy | ClaudeBalls.Collide, ClaudeBalls.CollideRebound, ClaudeBalls.CollideDissipates, ClaudeBalls.ResolveConserves |
