# Fireworks display core, modelled in Dafny

This project models the animation core of a WeChat mini-program that draws fireworks on a
canvas. The model covers these parts:

- **The particle.** Each rocket and each spark of a burst is a particle. It has a position,
  velocity, acceleration, colour, life, decay and size, a launch or explode phase, a trail of up
  to five earlier positions, and optional text.
- **The object pool.** It hands out pre-built particles and takes them back.
- **The 3-vector and the 4×4 matrix.** These are the maths helpers: a vector with add, sub,
  multiply, lerp, clone and set, a random draw in a range, and a matrix with its identity
  constructor, perspective layout and multiplication.
- **The explosion streak.** It leaves a fading, shrinking sample behind on every update.
- **The display controller.** It holds two particle lists: the rockets in flight and the burst
  particles. It does the following:
  - launches rockets from a button, from a text and from a burnt-out fuse;
  - advances both lists once per frame, bursting a rocket that reached the top of its climb into
    80 sparks;
  - builds pooled explosion bursts and text particles;
  - moves the camera's target towards the first burst particle;
  - measures the frame rate over the last 60 frames and shrinks the pool when the frame rate
    drops;
  - converts HSL colours to RGB.

The model follows the code as written, including where the code does not do what its names
suggest:

- `Particle.update` drops the vectors that `add` and `multiply` return, so particles never move.
  Only their life, trail and phase change.
- `new Particle(x, y, ...)` ignores its arguments, so every rocket and every spark of `explode`
  sits at the origin.
- The rocket loop of `update` removes a rocket exactly when it explodes, and the particle loop
  removes nothing. `update` returns the particle itself, so the "dead" test never fires.
- A rocket launched upward keeps `velocity.y < 0` forever, so it never explodes. This is proved
  for both kinds of launch.

The model represents JavaScript as follows:

- Every `Math.random()` is a call to `Random.Next`. It returns a value in [0, 1) and appends it
  to a ghost history. Contracts name each draw by its position in that history, in the order the
  source makes the calls.
- `Date.now()` is an integer parameter.
- `Math.cos` and `Math.sin` are functions held by a `Trig` object.
- A frame rate of `1000 / 0` is the value `Infinity`.
- JavaScript's `%`, its falsy defaults (`x || d`), and `Set` (kept as an insertion-ordered,
  duplicate-free sequence) are written out in module `Js`.

## Model

| member | source | states |
|---|---|---|
| Js.Rem | miniprogram/services/FireworkSystem.js:122 | The `%` of a hue: the dividend less a whole multiple of the divisor, with the dividend's sign. For a non-negative dividend and a positive divisor it lies in [0, divisor); a dividend below the divisor comes back unchanged, and one in [divisor, 2·divisor), such as a hue in [360, 390), comes back less one divisor. |
| Js.NumberOr | miniprogram/services/Particle.js:24-25 | `config.size` or else 2.0: a given non-zero number wins; a missing value or 0 (falsy) gives the default. |
| Js.StringOrNull | miniprogram/services/Particle.js:26 | `config.text` or else null: null exactly when the text is missing or empty, otherwise the text itself. |
| Js.SetAdd | miniprogram/utils/ObjectPool.js:20 | `Set.add`: no change when the element is present, appended otherwise; the set stays duplicate-free. |
| Js.SetDelete | miniprogram/utils/ObjectPool.js:26 | `Set.delete`: the result holds exactly the elements other than the one removed, is unchanged when that one is absent, and is one shorter when it was present. |
| Js.Iterations | miniprogram/utils/ObjectPool.js:8-10 | A counting loop `for (i = 0; i < n; i++)` runs `n` times, and none when `n` is not positive. |
| MathUtil.Vector3.constructor | miniprogram/utils/math.js:2-6 | The new vector's components are the arguments. |
| MathUtil.Vector3.Add | miniprogram/utils/math.js:8-14 | Returns a new vector, the componentwise sum; the receiver is not changed. |
| MathUtil.Vector3.Sub | miniprogram/utils/math.js:16-21 | The receiver becomes the componentwise difference and is returned. |
| MathUtil.MinusUndoesPlus | miniprogram/utils/math.js:8-21 | Subtracting a vector undoes adding it. |
| MathUtil.Vector3.Multiply | miniprogram/utils/math.js:23-29 | Returns a new, scaled vector; the receiver is not changed. |
| MathUtil.Vector3.Lerp | miniprogram/utils/math.js:31-36 | The receiver moves the fraction `alpha` of the way to the target and is returned. |
| MathUtil.LerpEnds | miniprogram/utils/math.js:31-36 | A factor of 0 keeps the receiver; a factor of 1 reaches the target. |
| MathUtil.LerpBetween | miniprogram/utils/math.js:31-36 | For a factor in [0, 1] every component ends between the receiver's and the target's. |
| MathUtil.Vector3.Clone | miniprogram/utils/math.js:38-40 | A new vector equal in value to the receiver. |
| MathUtil.Vector3.Set | miniprogram/utils/math.js:42-47 | The receiver takes the three given components and is returned. |
| MathUtil.Vector3.ToJson | miniprogram/utils/math.js:53-59 | A plain record of the receiver's value: its x, y and z components. |
| MathUtil.Random.Next | miniprogram/utils/math.js:64 | `Math.random()`: a value in [0, 1), recorded as the next entry of the draw history. |
| MathUtil.RandomIn | miniprogram/utils/math.js:63-65 | `random(min, max)` lies in [min, max) when min < max, in (max, min] when max < min, and is min when they are equal. |
| Matrices.Matrix4.constructor | miniprogram/utils/matrix.js:2-9 | The elements are a new 16-entry array holding the identity. |
| Matrices.Matrix4.Perspective | miniprogram/utils/matrix.js:12-37 | Rewrites the same array in place with the perspective layout: f/aspect, f, (far+near)/(near−far), −1, 2·far·near/(near−far) in their slots, zeros elsewhere. |
| Matrices.PerspectiveProjects | miniprogram/utils/matrix.js:12-37 | That layout sends a point (x, y, z, 1) to one whose x is scaled by f/aspect, whose y is scaled by f, and whose w is −z. |
| Matrices.Product | miniprogram/utils/matrix.js:73-81 | The product has 16 entries; entry (i, j) sits at index 4i + j. |
| Matrices.EntryTerms | miniprogram/utils/matrix.js:76-78 | Entry (i, j) is the four-term dot product of row i of the left matrix and column j of the right one. |
| Matrices.Matrix4.Multiply | miniprogram/utils/matrix.js:69-85 | The receiver gets a new array holding the product of its old elements and `b`, and is returned. |
| Matrices.ProductIdentityRight | miniprogram/utils/matrix.js:69-85 | Multiplying by the constructor's identity on the right changes nothing. |
| Matrices.ProductIdentityLeft | miniprogram/utils/matrix.js:69-85 | Multiplying by the identity on the left changes nothing. |
| Pool.ObjectPool.constructor | miniprogram/utils/ObjectPool.js:2-11 | No object is active; the pool holds `initialSize` new particles in their initial state (none for a non-positive size); the pool invariant holds. |
| Pool.ObjectPool.Get | miniprogram/utils/ObjectPool.js:13-22 | Pops the last idle particle, or builds a new one when the pool is empty; the particle joins the active set. The invariant is kept: every particle built is either idle or active, never both, and none appears twice. |
| Pool.ObjectPool.Release | miniprogram/utils/ObjectPool.js:24-32 | Does nothing to a particle that is not active; an active one leaves the active set, is reset and goes back to the pool. |
| Pool.ObjectPool.ReleaseAll | miniprogram/utils/ObjectPool.js:34-42 | Every active particle is reset and appended to the pool, and the active set empties. |
| Pool.ObjectPool.ActiveCount | miniprogram/utils/ObjectPool.js:45-47 | The active count is the number of particles built minus those idle. |
| Pool.ObjectPool.AvailableCount | miniprogram/utils/ObjectPool.js:50-52 | The available count is the number built minus those active. |
| Pool.ObjectPool.Expand | miniprogram/utils/ObjectPool.js:55-59 | `count` new initial particles (none for a non-positive count) are appended after the idle ones; the active set is unchanged. |
| Particles.Particle.constructor | miniprogram/services/Particle.js:4-16 | Origin, at rest, falling at 9.8, white, life 1, decay 0.02, size 2, launching, empty trail, no text, all vectors new. |
| Particles.Particle.Init | miniprogram/services/Particle.js:18-28 | The state becomes the configured one and the particle is returned. |
| Particles.Configured | miniprogram/services/Particle.js:18-28 | A configured particle is at copies of the given position and velocity, has life 1 and is launching. A missing colour gives white; a missing or zero size gives 2 and decay 0.02; missing or empty text gives none. A given non-zero size or decay and a given non-empty text are kept as given. Trail and acceleration are kept. |
| Particles.PushTrail | miniprogram/services/Particle.js:32-35 | The new position is first, every older entry moves one place back, and the trail never exceeds 5 entries. |
| Particles.Advance | miniprogram/services/Particle.js:30-57 | One update keeps position, velocity, acceleration, colour, size and decay (the sums are dropped). A text-free particle then explodes exactly when it already had, or when `velocity.y >= 0`. |
| Particles.Particle.Update | miniprogram/services/Particle.js:30-57 | The particle's new state is one `Advance` of its old one, and it returns itself. |
| Particles.UpdatedEffect | miniprogram/services/Particle.js:30-57 | After n updates the position and velocity are unchanged and the life has dropped by n·decay. The particle has exploded exactly when it already had, or when n > 0 and `velocity.y >= 0`. |
| Particles.UpdatedTrail | miniprogram/services/Particle.js:32-35 | After n updates the trail holds min(length + n, 5) entries, and the newest n of them are the particle's unchanging position. |
| Particles.LaunchingUpwardNeverExplodes | miniprogram/services/Particle.js:45-49 | A text-free launching particle moving up (`velocity.y < 0`) is still launching after any number of updates. |
| Particles.DeadAfter | miniprogram/services/Particle.js:42 | A text-free particle is dead (`isDead`: life ≤ 0) after n updates exactly when n·decay has reached its life. |
| Particles.Particle.IsDead | miniprogram/services/Particle.js:64-66 | `isDead()` holds exactly when the particle has no life left. |
| Particles.Particle.Explode | miniprogram/services/Particle.js:59-62 | The phase becomes explode. |
| Particles.Particle.Reset | miniprogram/services/Particle.js:68-74 | The state becomes the reset one. |
| Particles.ResetState | miniprogram/services/Particle.js:68-74 | A reset particle is at the origin, at rest, with life 1, launching and without text; its colour, size, decay, trail and acceleration are kept. |
| Particles.ResetEach | miniprogram/utils/ObjectPool.js:35-40 | Resetting each particle of a list in turn leaves every one in its reset state. |
| Trails.ExplosionTrail.constructor | miniprogram/services/ExplosionTrail.js:2-34 | The streak keeps the given vectors, hue and layer, starts with no samples and life 1, and draws once for its colour. |
| Trails.GenerateColor | miniprogram/services/ExplosionTrail.js:36-39 | Three channels, each in [0, 1] for a non-negative base hue. |
| Trails.ExplosionTrail.Update | miniprogram/services/ExplosionTrail.js:41-69 | The streak takes one step. Its position and velocity vectors keep their values, since the sums are dropped. It returns whether its life is still positive. |
| Trails.Step | miniprogram/services/ExplosionTrail.js:41-69 | One step takes 0.012 off the life, and adds one sample until there are 10. |
| Trails.StepSamples | miniprogram/services/ExplosionTrail.js:46-62 | After a step, the first sample is the new one, already faded once; every other sample is the one before it, faded once more. |
| Trails.Faded | miniprogram/services/ExplosionTrail.js:59-62 | Fading keeps a sample's position and colour, and shrinks a non-negative alpha and size without making them negative. |
| Trails.StepsShape | miniprogram/services/ExplosionTrail.js:41-69 | After n steps the life has dropped by n·0.012 and there are min(count + n, 10) samples. |
| Trails.SampleFade | miniprogram/services/ExplosionTrail.js:41-69 | After n steps, sample k was pushed k + 1 steps ago at the life ℓ of that moment: its alpha is ℓ·0.88^(k+1), its size 2ℓ·0.92^(k+1), and its position the streak's unchanging one. |
| Trails.InterpolateColor | miniprogram/services/ExplosionTrail.js:97-99 | As many channels as the first colour; each channel moves the fraction `factor` of the way from the first colour's channel toward the second's matching channel. |
| Trails.InterpolateEnds | miniprogram/services/ExplosionTrail.js:97-99 | A factor of 0 gives the first colour; a factor of 1 gives the matching channels of the second. |
| Trails.InterpolateBetween | miniprogram/services/ExplosionTrail.js:97-99 | For a factor in [0, 1] every channel lies between the two colours' channels. |
| FireworkColors.Opaque | miniprogram/services/FireworkSystem.js:311 | `[...rgb, 1]`: the three channels as given, alpha 1. |
| FireworkColors.HslToRgb | miniprogram/services/FireworkSystem.js:144-167 | Three channels; grey `[l, l, l]` at zero saturation. |
| FireworkColors.HslToRgbIsCss | miniprogram/services/FireworkSystem.js:144-167 | Equals the HSL-to-RGB algorithm of section 4.2.4 of CSS Color Module Level 3 on every input. |
| FireworkColors.Hue2Rgb | miniprogram/services/FireworkSystem.js:150-157 | `hue2rgb` is the hue-to-RGB step of that standard. |
| FireworkColors.HueToRgbIsCss | miniprogram/services/FireworkSystem.js:150-157 | `hue2rgb` equals that standard's hue-to-RGB step on every input. |
| FireworkColors.HslToRgbInRange | miniprogram/services/FireworkSystem.js:144-167 | With hue, saturation and lightness in [0, 1], every channel lies in [0, 1]. |
| FireworkColors.Hue2RgbBetween | miniprogram/services/FireworkSystem.js:150-157 | For p ≤ q and a hue within one turn of [0, 1], the result lies between p and q. |
| FireworkColors.RandomColor | miniprogram/services/FireworkSystem.js:308-312 | The colour of a draw is opaque and a valid colour, the HSL colour of that hue at saturation 0.8 and lightness 0.5. |
| Fireworks.FrameDelta | miniprogram/services/FireworkSystem.js:171-172 | The time step never exceeds 0.1 s; it is the elapsed time in seconds below 100 ms and exactly 0.1 at or above it. |
| Fireworks.FrameRate | miniprogram/services/FireworkSystem.js:317-320 | `1000 / frameTime` is `Infinity` exactly when no time passed, and otherwise the number whose product with the frame time is 1000. |
| Fireworks.PushFps | miniprogram/services/FireworkSystem.js:321-324 | The history after a push and at most one shift is the latest entries of the old history plus the new rate, at most 60 of them. |
| Fireworks.SumFps | miniprogram/services/FireworkSystem.js:327 | The `reduce` sum is finite only if every entry is. |
| Fireworks.AverageFps | miniprogram/services/FireworkSystem.js:327 | The average is `Infinity` exactly when the sum is; otherwise the average times the number of entries is the sum. |
| Fireworks.SumFpsBounds | miniprogram/services/FireworkSystem.js:327 | The `reduce` sum is infinite exactly when some entry is, and at least n·floor when every entry is at least floor. |
| Fireworks.AverageFpsBounds | miniprogram/services/FireworkSystem.js:327-336 | The average is `Infinity` exactly when some entry is, and it is below a threshold only if some entry is. |
| Fireworks.NextMode | miniprogram/services/FireworkSystem.js:330-336 | The mode never goes up and low is final; it changes only when the average is below 45; below 30 it becomes low; below 45 it leaves high. |
| Fireworks.PoolSizeFor | miniprogram/services/FireworkSystem.js:340-352 | The new pool holds 500, 750 or 1000 particles: 250 more for each mode up from low. |
| Fireworks.Clamp | miniprogram/services/FireworkSystem.js:385 | On a screen at least 100 wide the result lies within the 50-pixel margins, and a value already inside them is kept. |
| Fireworks.PlanFuse | miniprogram/services/FireworkSystem.js:380-423 | The flight time is positive, and the start speed `v0`, slowed by the planned gravity, climbs exactly the planned rise in that time. |
| Fireworks.UpwardStart | miniprogram/services/FireworkSystem.js:414-417 | A start speed that climbs a non-negative rise in a positive time against a positive gravity is upward. |
| Fireworks.PlanFuseFlight | miniprogram/services/FireworkSystem.js:380-417 | The start lies within the margins, at most 20 px from a touch inside them, and 50 px above the bottom. The flight takes 3.5 to 4.5 s under a gravity of 2.3 to 2.7, and `v0` climbs exactly the planned height in that time. |
| Fireworks.PlanFuseRise | miniprogram/services/FireworkSystem.js:409-417 | The planned climb is 65 to 85 percent of the display height, and the start speed is upward. |
| Fireworks.FuseRocket | miniprogram/services/FireworkSystem.js:405-436 | The fuse rocket starts at the origin, launching and without text. Its upward speed is `v0`, its acceleration is the planned gravity, and its target records the display height, the target height and the start height. |
| Fireworks.FuseRocketNeverExplodes | miniprogram/services/FireworkSystem.js:405-437 | A rocket from `handleFuseBurnout` on a display of non-negative height never explodes. |
| Fireworks.LaunchedRocket | miniprogram/services/FireworkSystem.js:66-76 | A launched rocket starts at the origin, launching and without text, at upward speed 25 and acceleration 1.5 downward; its sideways speed lies in [−1, 1). |
| Fireworks.LaunchedRocketNeverExplodes | miniprogram/services/FireworkSystem.js:66-80 | A rocket from `launchFirework` never explodes, however many frames pass. |
| Fireworks.SparkOf | miniprogram/services/FireworkSystem.js:457-471 | A spark is a default particle whose velocity and colour alone are replaced. |
| Fireworks.Spark | miniprogram/services/FireworkSystem.js:454-471 | Spark k takes its speed and hue from draws 2k + 1 and 2k + 2 after the base hue. It is launching, without text, at the origin, with full life, moving in the screen's plane and opaque. |
| Fireworks.SparkColor | miniprogram/services/FireworkSystem.js:460-471 | Every colour channel of a spark lies in [0, 1]. |
| Fireworks.Climbing | miniprogram/services/FireworkSystem.js:176-186 | The rockets the loop keeps are exactly those that were climbing: each kept rocket was climbing, and each climbing rocket is kept. |
| Fireworks.ClimbedStatesOf | miniprogram/services/FireworkSystem.js:176-186 | After every rocket has advanced one step, the rockets kept are the climbing ones, in their advanced states, in order. |
| Fireworks.KeptStep | miniprogram/services/FireworkSystem.js:180-185 | One pass of the rocket loop drops rocket i exactly when it is not climbing, and keeps the rockets before it. |
| Fireworks.ExplosionCount | miniprogram/services/FireworkSystem.js:116 | A burst has 50 to 99 particles. |
| Fireworks.FragmentOf | miniprogram/services/FireworkSystem.js:120-137 | A given colour wins; otherwise the particle's own colour is opaque. |
| Fireworks.FragmentBounds | miniprogram/services/FireworkSystem.js:121-137 | A burst particle's size lies in [2, 4) and its decay in [0.015, 0.025); a colour it computes itself is valid. |
| Fireworks.PassAt | miniprogram/services/FireworkSystem.js:119-137 | Pass k of the burst loop reads four draws starting at draw 4k: speed, hue shift, size and decay. |
| Fireworks.FireworkSystem.constructor | miniprogram/services/FireworkSystem.js:6-29 | Both lists are empty and the pool holds 1000 idle particles, each new and in its initial state. The camera is at (0, 0, 100), looking at the origin and following; the mode is high; there is no audio; the history is empty and the frame clock is set. |
| Fireworks.FireworkSystem.InitRenderer | miniprogram/services/FireworkSystem.js:51-52 | The display size becomes the window's size. |
| Fireworks.FireworkSystem.LaunchFirework | miniprogram/services/FireworkSystem.js:63-97 | One draw; one new rocket made from that draw is appended, and the earlier rockets stay. |
| Fireworks.FireworkSystem.GetRandomColor | miniprogram/services/FireworkSystem.js:308-312 | One draw, and the random colour of that draw. |
| Fireworks.FireworkSystem.NewTextRockets | miniprogram/services/FireworkSystem.js:277-290 | n new, distinct rockets; rocket k is made from draw 2k + 1, after the colour draw 2k it never uses. |
| Fireworks.FireworkSystem.LaunchTextFirework | miniprogram/services/FireworkSystem.js:272-291 | One new rocket per entry of `split('')`, that is per UTF-16 code unit of the text, appended in order, each from the second of its entry's two draws. |
| Fireworks.FireworkSystem.HandleFuseBurnout | miniprogram/services/FireworkSystem.js:380-449 | Five draws, in source order; one new rocket is appended, built from the plan those draws give. |
| Fireworks.FireworkSystem.NewBurst | miniprogram/services/FireworkSystem.js:457-474 | 80 new, distinct particles; particle k is spark k of the draws. |
| Fireworks.FireworkSystem.Explode | miniprogram/services/FireworkSystem.js:452-475 | 161 draws; 80 new sparks are appended to the burst list in order, and the earlier particles stay. |
| Fireworks.FireworkSystem.ExplodeAt | miniprogram/services/FireworkSystem.js:180-185 | An exploding rocket bursts into 80 sparks and is spliced out of the list. No other particle's state changes. |
| Fireworks.FireworkSystem.UpdateRockets | miniprogram/services/FireworkSystem.js:176-186 | Every rocket advances one step. The list keeps exactly the climbing ones, in their advanced states and in order. Each rocket gone leaves 80 sparks and 161 draws, and the earlier burst particles are unchanged. |
| Fireworks.FireworkSystem.UpdateParticles | miniprogram/services/FireworkSystem.js:189-195 | Every burst particle advances one step and none leaves the list; the rockets are unchanged. |
| Fireworks.FireworkSystem.Animate | miniprogram/services/FireworkSystem.js:175-195 | The rocket loop, then the particle loop: the climbing rockets stay, each advanced. Every burst particle, including the sparks made this frame, advances one step. |
| Fireworks.FireworkSystem.Tick | miniprogram/services/FireworkSystem.js:171-173 | The capped time step since the last frame, and the frame clock moves to now. |
| Fireworks.FireworkSystem.Follow | miniprogram/services/FireworkSystem.js:197-199 | When following, the camera's target moves a tenth of the way to the first burst particle; otherwise it stays put. |
| Fireworks.FireworkSystem.Update | miniprogram/services/FireworkSystem.js:170-200 | One frame: the clock, the rocket loop, the particle loop and the camera. The results are those of the steps above, and the display's invariant is kept. |
| Fireworks.FireworkSystem.UpdateCamera | miniprogram/services/FireworkSystem.js:203-208 | The camera's target moves a tenth of the way towards the first burst particle and stays put when there is none; no particle moves. |
| Fireworks.FireworkSystem.SetCameraFollowing | miniprogram/services/FireworkSystem.js:253-255 | The follow flag becomes the argument. |
| Fireworks.FireworkSystem.SetAudioManager | miniprogram/services/FireworkSystem.js:267-269 | Whether an audio manager is set becomes the argument. |
| Fireworks.FireworkSystem.Dispose | miniprogram/services/FireworkSystem.js:258-264 | Every handed-out particle is reset and returned to the pool, the burst list is emptied, and the rockets stay. |
| Fireworks.FireworkSystem.AdjustPerformance | miniprogram/services/FireworkSystem.js:340-352 | A new pool, sized for the current mode, with nothing active; its idle particles are new and in their initial state. |
| Fireworks.FireworkSystem.RecordFrame | miniprogram/services/FireworkSystem.js:316-327 | The frame rate since the last reading joins the history, which stays at 60 entries or fewer; its average is returned. |
| Fireworks.FireworkSystem.MonitorPerformance | miniprogram/services/FireworkSystem.js:315-337 | The history takes the new rate and the mode becomes the next mode for the average. The pool is replaced by one of the new mode's size exactly when the mode changed. Such a new pool's idle particles are new and in their initial state. |
| Fireworks.FireworkSystem.Acquire | miniprogram/services/FireworkSystem.js:127-138 | A particle from the pool, one that neither list holds, becomes active and is configured as asked. |
| Fireworks.FireworkSystem.CreateTextParticle | miniprogram/services/FireworkSystem.js:294-305 | One pooled particle joins the burst list. It is at the given position, rising at speed 1, with size 20 and decay 0.01, white unless a colour is given, and carrying the text. |
| Fireworks.FireworkSystem.FragmentLoop | miniprogram/services/FireworkSystem.js:119-140 | `count` passes; each draws four numbers and hands out a pooled particle configured from them. |
| Fireworks.FireworkSystem.Whistle | miniprogram/services/FireworkSystem.js:108-114 | One draw when an audio manager is set, none otherwise. |
| Fireworks.FireworkSystem.AcquireBurst | miniprogram/services/FireworkSystem.js:116-138 | The count draw (50 to 99 particles), the hue draw, then four draws per particle. Each particle is a distinct one from the pool, configured at the given position from its own pass; the pool's active list grows by exactly these particles, in order. |
| Fireworks.FireworkSystem.CreateBurst | miniprogram/services/FireworkSystem.js:107-140 | The whistle draw, then the burst above, appended to the burst list after the earlier particles; the new particles are the ones the pool newly holds active. |
| Fireworks.FireworkSystem.CreateExplosionParticles | miniprogram/services/FireworkSystem.js:100-141 | A non-empty text gives one text particle and no draw; otherwise a full burst. Either way the new particles of the burst list are the ones the pool newly holds active. |

## Left out

- Drawing on the canvas is not modelled. This covers `render`, the debug marker in
  `launchFirework`, `ExplosionTrail.render`, `Vector3.toString`, and the canvas and context setup
  of `initRenderer`. The model keeps only the display size recorded there.
- `Matrix4.lookAt` is not modelled: it calls `normalize`, `subtract`, `cross` and `dot`, which
  `Vector3` does not define.
- `recover` is not modelled. It awaits the renderer setup, which is I/O.
- Sound is not modelled. The model keeps only whether an audio manager is set. `setTimeout`
  schedules sounds only, so it is left out too.
- The debug logs are not modelled, nor is the `getApp()` global reference set in the constructor
  and cleared in `dispose`.
- The `distance`, `degreesToRads` and `polarToCartesian` helpers of the maths file are not
  modelled. They are not part of the display's core.
- Numbers are reals. Floating-point rounding is not modelled, and neither is the single-precision
  rounding of the matrix's `Float32Array`.
- The display imports `Particle` as a default export, which the particle file does not provide.
  The model assumes that the import resolves to the particle class.
- Pool.ObjectPool: the pool is specialised to particles. The class it should build is a
  constructor argument in the source.
- Matrices.Matrix4.Perspective: takes the focal factor `f = 1 / tan(fovy / 2)` in place of the
  field of view, because the tangent is not modelled.
- Particles.Particle.Update: requires a launching particle to carry no text. For one that does,
  the source calls `velocity.length()`, which `Vector3` does not define, so it throws. Only
  `createTextParticle` makes such particles, and nothing in the repository calls
  `createExplosionParticles` with a text.
- Fireworks.FireworkSystem.Update: requires that no launching burst particle carries text, for
  the same reason. It states the sparks of the rockets that explode during the frame only by
  their shared traits (launching, at the origin, full life, opaque), not draw by draw. `Explode`
  states them draw by draw.
- Fireworks.FireworkSystem.Animate: requires that no launching burst particle carries text, for
  the same reason as `Update`. It has the same weaker statement of this frame's sparks.
- Fireworks.FireworkSystem.UpdateParticles: requires that no launching burst particle carries
  text. For one that does, the particle's `update` calls `velocity.length()`, which `Vector3`
  does not define, so the source throws.
- Fireworks.FireworkSystem.UpdateRockets: the same weaker statement of this frame's sparks as
  `Update`.
- Fireworks.FireworkSystem.ExplodeAt: the same weaker statement of this frame's sparks as
  `Update`.
- Fireworks.FireworkSystem.HandleFuseBurnout: requires a non-zero display width. Before
  `initRenderer` the width is 0: the start clamps to −50 and the centre is 0, so the distance
  from the centre, divided by half the width, is −`Infinity` and the sideways speed is
  `Infinity`. `Infinity` is not modelled, apart from a frame rate of `Infinity`.
- Fireworks.FireworkSystem.LaunchFirework: the options are not modelled. The particle
  constructor ignores the position, and nothing reads the colour or text. The model also
  assumes the renderer is set up. Without a context (before `initRenderer`, or after it gave up
  for lack of a canvas) the debug marker's `ctx.save()` throws right after the push; that error
  path is not modelled.
- Fireworks.FireworkSystem.LaunchTextFirework: the text firework's target points are not
  modelled. The source computes them with `cos` and `sin`, but nothing reads them. Without a
  context the first `launchFirework` throws after its push, so the source stops after the
  first rocket; the model assumes the renderer is set up and launches one rocket per code unit.
- Trails.ExplosionTrail.constructor: the caller's `hslToRgb` option is fixed to the display's own
  conversion, `FireworkColors.HslToRgb`. Nothing in the repository constructs a streak, so no
  caller fixes it otherwise.
- Trails.GenerateColor: uses that same fixed conversion; its bound of [0, 1] per channel holds
  for that conversion, not for any conversion a caller might pass.
- MathUtil.Random.Next: `Math.random()` is any value in [0, 1). Its sequence is not modelled
  beyond being recorded.
