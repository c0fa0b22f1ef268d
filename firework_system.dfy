/** The display's controller: the rockets in flight, the particles of their bursts, the pool the
    explosion particles come from, the camera that follows them, and the frame-rate monitor that
    shrinks the pool when frames get slow. */
module Fireworks {
  import opened RealArith
  import opened Js
  import opened MathUtil
  import opened FireworkColors
  import opened Particles
  import opened Pool

  const PI: real := 3.141592653589793
  /** Particles in one `explode` burst. */
  const BURST: nat := 80
  /** `Math.random()` calls one `explode` makes: the base hue, then a speed and a hue per particle. */
  const BURST_DRAWS: nat := 1 + 2 * BURST
  /** The cap on a frame's time step, in seconds. */
  const MAX_DT: real := 0.1
  /** How many frame rates the monitor averages over. */
  const FPS_WINDOW: nat := 60
  /** The margin `handleFuseBurnout` keeps from the screen's edges. */
  const PADDING: real := 50.0

  /** `Math.min((now - lastFrameTime) / 1000, 0.1)`: the elapsed time in seconds, capped. */
  function FrameDelta(now: int, last: int): (dt: real)
    ensures dt <= MAX_DT
    ensures (now - last) as real <= 100.0 ==> dt * 1000.0 == (now - last) as real
    ensures 100.0 <= (now - last) as real ==> dt == MAX_DT
  {
    var elapsed := (now - last) as real / 1000.0;
    if elapsed < MAX_DT then elapsed else MAX_DT
  }

  datatype PerformanceMode = High | Medium | Low

  /** High above medium above low. */
  function Rank(mode: PerformanceMode): nat {
    match mode
    case Low => 0
    case Medium => 1
    case High => 2
  }

  /** A frame rate `1000 / frameTime`: a number, or `Infinity` when no time passed. */
  datatype Fps = Rate(value: real) | Infinity

  function FrameRate(frameTime: int): (f: Fps)
    ensures f.Infinity? <==> frameTime == 0
    ensures f.Rate? ==> f.value * frameTime as real == 1000.0
  {
    if frameTime == 0 then Infinity else Rate(1000.0 / frameTime as real)
  }

  /** `a + b`: `Infinity` absorbs every number. */
  function AddFps(a: Fps, b: Fps): Fps {
    if a.Infinity? || b.Infinity? then Infinity else Rate(a.value + b.value)
  }

  /** `reduce((a, b) => a + b)`: a left fold that starts from the first entry. */
  function SumFps(h: seq<Fps>): (r: Fps)
    requires |h| > 0
    ensures r.Rate? ==> forall k :: 0 <= k < |h| ==> h[k].Rate?
  {
    if |h| == 1 then h[0] else AddFps(SumFps(h[..|h| - 1]), h[|h| - 1])
  }

  /** The average frame rate `monitorPerformance` compares with its thresholds. */
  function AverageFps(h: seq<Fps>): (r: Fps)
    requires |h| > 0
    ensures r.Infinity? <==> SumFps(h).Infinity?
    ensures r.Rate? ==> r.value * |h| as real == SumFps(h).value
  {
    var sum := SumFps(h);
    if sum.Infinity? then Infinity else Rate(sum.value / |h| as real)
  }

  /** `avg < threshold`: `Infinity` is below nothing. */
  predicate Below(avg: Fps, threshold: real) {
    avg.Rate? && avg.value < threshold
  }

  /** The sum is infinite exactly when some entry is, and otherwise at least `|h| * floor` when
      every entry is at least `floor`. */
  lemma {:induction false} SumFpsBounds(h: seq<Fps>, floor: real)
    requires |h| > 0
    ensures SumFps(h).Infinity? <==> exists k :: 0 <= k < |h| && h[k].Infinity?
    ensures (forall k :: 0 <= k < |h| ==> h[k].Infinity? || floor <= h[k].value) ==>
      SumFps(h).Infinity? || |h| as real * floor <= SumFps(h).value
  {
    if |h| > 1 {
      var init := h[..|h| - 1];
      SumFpsBounds(init, floor);
      assert forall k :: 0 <= k < |init| ==> init[k] == h[k];
      if SumFps(h).Infinity? && !h[|h| - 1].Infinity? {
        var k :| 0 <= k < |init| && init[k].Infinity?;
        assert h[k].Infinity?;
      }
    }
  }

  /** The average is `Infinity` exactly when some frame took no time, and it is below a threshold
      only if some frame rate is: frames that all run at `floor` or faster never trigger a
      downgrade at threshold `floor`. */
  lemma AverageFpsBounds(h: seq<Fps>, floor: real)
    requires |h| > 0
    ensures AverageFps(h).Infinity? <==> exists k :: 0 <= k < |h| && h[k].Infinity?
    ensures Below(AverageFps(h), floor) ==> exists k :: 0 <= k < |h| && Below(h[k], floor)
  {
    SumFpsBounds(h, floor);
    var avg := AverageFps(h);
    if avg.Rate? && forall k :: 0 <= k < |h| ==> !Below(h[k], floor) {
      var n := |h| as real;
      var sum := SumFps(h).value;
      assert n * floor <= sum && avg.value == sum / n;
      DivLower(sum, n, floor);
    }
  }

  /** The history after `push(fps)` and, when it then holds more than 60 entries, one `shift()`:
      the latest entries of `h + [f]`, at most 60 of them once `h` holds at most 60. */
  function PushFps(h: seq<Fps>, f: Fps): (r: seq<Fps>)
    ensures |h| <= FPS_WINDOW ==> |r| == Min(|h| + 1, FPS_WINDOW)
    ensures |r| <= |h| + 1 && r == (h + [f])[|h| + 1 - |r|..]
  {
    var pushed := h + [f];
    if |pushed| > FPS_WINDOW then pushed[1..] else pushed
  }

  /** The mode after one check of the average: a drop below 30 frames per second goes straight to
      low, a drop below 45 takes high to medium. The mode only ever goes down, low is final, and
      nothing changes while the average stays at 45 or above. */
  function NextMode(mode: PerformanceMode, avg: Fps): (r: PerformanceMode)
    ensures Rank(r) <= Rank(mode)
    ensures mode == Low ==> r == Low
    ensures r != mode ==> Below(avg, 45.0)
    ensures Below(avg, 30.0) ==> r == Low
    ensures Below(avg, 45.0) && mode == High ==> r != High
  {
    if Below(avg, 30.0) && mode != Low then Low
    else if Below(avg, 45.0) && mode == High then Medium
    else mode
  }

  /** The size of the pool `adjustPerformance` installs: 250 more for each step up. */
  function PoolSizeFor(mode: PerformanceMode): (n: nat)
    ensures n == 250 * (Rank(mode) + 2)
  {
    match mode
    case Low => 500
    case Medium => 750
    case High => 1000
  }

  /** `Math.min(Math.max(x, 50), width - 50)`. */
  function Clamp(x: real, width: real): (r: real)
    ensures PADDING + PADDING <= width ==> PADDING <= r <= width - PADDING
    ensures PADDING <= x <= width - PADDING ==> r == x
  {
    var atLeast := if x > PADDING then x else PADDING;
    if atLeast < width - PADDING then atLeast else width - PADDING
  }

  /** The numbers `handleFuseBurnout` works out for a rocket. */
  datatype FusePlan = FusePlan(
    startX: real,
    startY: real,
    time: real,
    gravity: real,
    riseDistance: real,
    v0: real,
    horizontalSpeed: real)

  /** `handleFuseBurnout(x, y)` on a `width` by `height` display, with its five `Math.random()`
      values passed in, in the order the source draws them. */
  function PlanFuse(x: real, width: real, height: real, offsetDraw: real, timeDraw: real,
                    gravityDraw: real, heightDraw: real, sideDraw: real): (p: FusePlan)
    requires width != 0.0 && 0.0 <= timeDraw
    ensures 0.0 < p.time
    ensures p.v0 * p.time - 0.5 * p.gravity * p.time * p.time == p.riseDistance
  {
    var startX := Clamp(Clamp(x, width) + (offsetDraw - 0.5) * 40.0, width);
    var time := 3.5 + timeDraw;
    var gravity := 2.3 + gravityDraw * 0.4;
    var riseDistance := height * (0.65 + heightDraw * 0.2);
    var v0 := (riseDistance + 0.5 * gravity * time * time) / time;
    var centerX := width / 2.0;
    var distanceFromCenter := (startX - centerX) / centerX;
    FusePlan(startX, height - PADDING, time, gravity, riseDistance, v0,
             (sideDraw - 0.5 - distanceFromCenter * 0.3) * 3.0)
  }

  /** The launch arithmetic: the start stays within the margins, at most 20 pixels from the touch
      when the touch was inside them; the flight lasts 3.5 to 4.5 seconds under a gravity of 2.3
      to 2.7; and `v0` is the speed that, slowing at `gravity`, climbs exactly `riseDistance` in
      `time`. */
  lemma PlanFuseFlight(x: real, width: real, height: real, offsetDraw: real, timeDraw: real,
                       gravityDraw: real, heightDraw: real, sideDraw: real)
    requires PADDING + PADDING <= width
    requires 0.0 <= offsetDraw < 1.0 && 0.0 <= timeDraw < 1.0 && 0.0 <= gravityDraw < 1.0
    ensures var p := PlanFuse(x, width, height, offsetDraw, timeDraw, gravityDraw, heightDraw, sideDraw);
      PADDING <= p.startX <= width - PADDING && p.startY == height - PADDING
      && (PADDING <= x <= width - PADDING ==> x - 20.0 <= p.startX <= x + 20.0)
      && 3.5 <= p.time < 4.5 && 2.3 <= p.gravity < 2.7
      && p.v0 * p.time - 0.5 * p.gravity * p.time * p.time == p.riseDistance
  {
    var p := PlanFuse(x, width, height, offsetDraw, timeDraw, gravityDraw, heightDraw, sideDraw);
    var lifted := p.riseDistance + 0.5 * p.gravity * p.time * p.time;
    assert p.v0 * p.time == lifted;
  }

  /** On a display of non-negative height the rocket climbs 65 to 85 percent of it and starts
      upward (`v0 > 0`). */
  lemma PlanFuseRise(x: real, width: real, height: real, offsetDraw: real, timeDraw: real,
                     gravityDraw: real, heightDraw: real, sideDraw: real)
    requires width != 0.0 && 0.0 <= height
    requires 0.0 <= timeDraw < 1.0 && 0.0 <= gravityDraw < 1.0 && 0.0 <= heightDraw < 1.0
    ensures var p := PlanFuse(x, width, height, offsetDraw, timeDraw, gravityDraw, heightDraw, sideDraw);
      0.65 * height <= p.riseDistance <= 0.85 * height && 0.0 < p.v0
  {
    var p := PlanFuse(x, width, height, offsetDraw, timeDraw, gravityDraw, heightDraw, sideDraw);
    var share := 0.65 + heightDraw * 0.2;
    assert p.riseDistance == height * share;
    MulMono(height, 0.65, share);
    MulMono(height, share, 0.85);
    MulNonNeg(height, share);
    UpwardStart(p.v0, p.time, p.gravity, p.riseDistance);
  }

  /** A start speed that, slowing at a positive `gravity`, climbs a non-negative `rise` in a
      positive `time` is upward. */
  lemma UpwardStart(v0: real, time: real, gravity: real, rise: real)
    requires 0.0 < time && 0.0 < gravity && 0.0 <= rise
    requires v0 * time - 0.5 * gravity * time * time == rise
    ensures 0.0 < v0
  {
    var pull := 0.5 * gravity * time;
    MulPos(0.5 * gravity, time);
    MulPos(pull, time);
    assert v0 * time == rise + pull * time;
    if v0 <= 0.0 {
      MulMono(time, v0, 0.0);
      assert false;
    }
  }

  /** The rocket `handleFuseBurnout` pushes: a `new Particle` (so at the origin), green, with the
      planned velocity, gravity and launch target. */
  function FuseRocket(p: FusePlan, height: real): (s: ParticleState)
    ensures s.phase == Launch && s.text.None? && s.position == ZERO
    ensures s.velocity.y == -p.v0 && s.acceleration == Vec(0.0, p.gravity, 0.0)
    ensures s.target == Some(LaunchTarget(height, p.startY - p.riseDistance, p.startY))
  {
    INITIAL.(color := Rgba(0.0, 1.0, 0.0, 1.0), velocity := Vec(p.horizontalSpeed, -p.v0, 0.0),
             acceleration := Vec(0.0, p.gravity, 0.0),
             target := Some(LaunchTarget(height, p.startY - p.riseDistance, p.startY)))
  }

  /** A rocket from `handleFuseBurnout` on a display of non-negative height never explodes. */
  lemma FuseRocketNeverExplodes(x: real, width: real, height: real, offsetDraw: real,
                                timeDraw: real, gravityDraw: real, heightDraw: real,
                                sideDraw: real, n: nat)
    requires width != 0.0 && 0.0 <= height
    requires 0.0 <= timeDraw < 1.0 && 0.0 <= gravityDraw < 1.0 && 0.0 <= heightDraw < 1.0
    ensures Updated(FuseRocket(PlanFuse(x, width, height, offsetDraw, timeDraw, gravityDraw,
                                        heightDraw, sideDraw), height), n).phase == Launch
  {
    PlanFuseRise(x, width, height, offsetDraw, timeDraw, gravityDraw, heightDraw, sideDraw);
    var p := PlanFuse(x, width, height, offsetDraw, timeDraw, gravityDraw, heightDraw, sideDraw);
    LaunchingUpwardNeverExplodes(FuseRocket(p, height), n);
  }

  /** The rocket `launchFirework` pushes: a `new Particle` with colour [2, 2, 2, 2], a sideways
      speed of `2 * draw - 1`, an upward speed of 25 and an acceleration of 1.5 downward. */
  function LaunchedRocket(draw: real): (s: ParticleState)
    ensures s.phase == Launch && s.text.None? && s.position == ZERO && s.velocity.y == -25.0
    ensures s.acceleration == Vec(0.0, 1.5, 0.0) && s.target.None?
    ensures 0.0 <= draw < 1.0 ==> -1.0 <= s.velocity.x < 1.0
  {
    INITIAL.(color := Rgba(2.0, 2.0, 2.0, 2.0), velocity := Vec(draw * 2.0 - 1.0, -25.0, 0.0),
             acceleration := Vec(0.0, 1.5, 0.0))
  }

  /** A rocket from `launchFirework` never explodes either. */
  lemma LaunchedRocketNeverExplodes(draw: real, n: nat)
    ensures Updated(LaunchedRocket(draw), n).phase == Launch
  {
    LaunchingUpwardNeverExplodes(LaunchedRocket(draw), n);
  }

  /** Particle `k` of an `explode` burst of base hue `baseHue`, given its speed and hue-shift
      draws: a `new Particle` (at the origin) with a new velocity of speed `2 + 3 * speedDraw` at
      `k / 80` of a turn, in the burst's hue shifted by up to 30 degrees. */
  function SparkOf(baseHue: real, speedDraw: real, hueDraw: real, k: nat, trig: Trig): (s: ParticleState)
    ensures s == INITIAL.(velocity := s.velocity, color := s.color)
  {
    var speed := 2.0 + speedDraw * 3.0;
    var hue := Rem(baseHue + hueDraw * 30.0, 360.0);
    var angle := k as real / BURST as real * PI * 2.0;
    INITIAL.(velocity := Vec(trig.cos(angle) * speed, trig.sin(angle) * speed, 0.0),
             color := Opaque(HslToRgb(hue / 360.0, 0.8, 0.5)))
  }

  /** Particle `k` of an `explode` burst whose base-hue draw is call `first`: its speed and
      hue-shift draws are calls `first + 1 + 2k` and `first + 2 + 2k`. */
  function Spark(draws: seq<real>, first: nat, k: nat, trig: Trig)
    : (s: ParticleState)
    requires first + 2 + 2 * k < |draws|
    ensures s.phase == Launch && s.text.None? && s.position == ZERO && s.life == 1.0
    ensures s.velocity.z == 0.0 && s.color.a == 1.0
  {
    SparkOf(draws[first] * 360.0, draws[first + 1 + 2 * k], draws[first + 2 + 2 * k], k, trig)
  }

  /** Drawing more does not change the sparks already drawn. */
  lemma SparkPrefix(pre: seq<real>, draws: seq<real>, first: nat, k: nat, trig: Trig)
    requires pre <= draws && first + 2 + 2 * k < |pre|
    ensures Spark(draws, first, k, trig) == Spark(pre, first, k, trig)
  {
    assert draws[first] == pre[first] && draws[first + 1 + 2 * k] == pre[first + 1 + 2 * k];
    assert draws[first + 2 + 2 * k] == pre[first + 2 + 2 * k];
  }

  /** Rocket `k` of `batch` is the one `launchTextFirework` makes from the second of the two
      draws for character `k`, counting from `first`. */
  ghost predicate TextRocketsAre(batch: seq<Particle>, draws: seq<real>, first: nat)
    reads batch, Footprint(batch)
  {
    first + 2 * |batch| <= |draws|
    && forall k :: 0 <= k < |batch| ==> batch[k].State() == LaunchedRocket(draws[first + 2 * k + 1])
  }

  /** A rocket made from the draws after those of `batch` extends it; more draws later change
      none of the earlier ones. */
  lemma TextRocketsSnoc(batch: seq<Particle>, pre: seq<real>, draws: seq<real>, first: nat,
                        rocket: Particle)
    requires TextRocketsAre(batch, pre, first) && pre <= draws
    requires |pre| == first + 2 * |batch| && |draws| == |pre| + 2
    requires rocket.State() == LaunchedRocket(draws[|pre| + 1])
    ensures TextRocketsAre(batch + [rocket], draws, first)
  {
    assert forall k :: 0 <= k < |batch| ==> (batch + [rocket])[k] == batch[k];
  }

  /** Particle `k` of `burst` is spark `k` of the draws from `first`. */
  ghost predicate SparksAre(burst: seq<Particle>, draws: seq<real>, first: nat, trig: Trig)
    reads burst, Footprint(burst)
  {
    first + 1 + 2 * |burst| <= |draws|
    && forall k :: 0 <= k < |burst| ==> burst[k].State() == Spark(draws, first, k, trig)
  }

  /** Later draws leave earlier sparks as they were, and the next spark extends the burst. */
  lemma SparksSnoc(burst: seq<Particle>, pre: seq<real>, draws: seq<real>, first: nat,
                   trig: Trig, p: Particle)
    requires SparksAre(burst, pre, first, trig) && pre <= draws
    requires |pre| == first + 1 + 2 * |burst| && |draws| == |pre| + 2
    requires p.State() == Spark(draws, first, |burst|, trig)
    ensures SparksAre(burst + [p], draws, first, trig)
  {
    forall k | 0 <= k < |burst|
      ensures Spark(draws, first, k, trig) == Spark(pre, first, k, trig)
    {
      SparkPrefix(pre, draws, first, k, trig);
    }
    assert forall k :: 0 <= k < |burst| ==> (burst + [p])[k] == burst[k];
  }

  /** With draws from [0, 1), a spark's colour channels lie in [0, 1]. */
  lemma SparkColor(draws: seq<real>, first: nat, k: nat, trig: Trig)
    requires first + 2 + 2 * k < |draws|
    requires 0.0 <= draws[first] < 1.0 && 0.0 <= draws[first + 2 + 2 * k] < 1.0
    ensures InUnit(Spark(draws, first, k, trig).color)
  {
    var hue := Rem(draws[first] * 360.0 + draws[first + 2 + 2 * k] * 30.0, 360.0);
    DivBelowOne(hue, 360.0);
    HslToRgbInRange(hue / 360.0, 0.8, 0.5);
  }

  /** A spark as `explode` makes it: launching and without text, at the origin with full life,
      moving in the screen's plane, opaque. */
  ghost predicate IsSpark(s: ParticleState) {
    s.phase == Launch && s.text.None? && s.position == ZERO && s.life == 1.0
    && s.velocity.z == 0.0 && s.color.a == 1.0
  }

  /** The rockets of `rs` whose states `was` show them still climbing (`velocity.y < 0`, the
      screen's y axis points down), in order: the ones the rocket loop of `update` keeps. */
  function Climbing(rs: seq<Particle>, was: seq<ParticleState>): (kept: seq<Particle>)
    requires |rs| == |was|
    ensures |kept| <= |rs|
    ensures forall x :: x in kept ==> exists k :: 0 <= k < |rs| && rs[k] == x && was[k].velocity.y < 0.0
    ensures forall k :: 0 <= k < |rs| && was[k].velocity.y < 0.0 ==> rs[k] in kept
  {
    if rs == [] then []
    else (if was[0].velocity.y < 0.0 then [rs[0]] else []) + Climbing(rs[1..], was[1..])
  }

  /** The states of the rockets kept from states `was`, one step on: what the rocket loop of
      `update` leaves in the list. */
  ghost function ClimbedStates(was: seq<ParticleState>): (ss: seq<ParticleState>)
    requires Updatable(was)
    ensures |ss| <= |was|
  {
    if was == [] then []
    else (if was[0].velocity.y < 0.0 then [Advance(was[0])] else []) + ClimbedStates(was[1..])
  }

  /** Rockets that each advanced one step from `was` leave, among those kept, exactly the
      advanced states of the climbing ones, in order. */
  lemma {:induction false} ClimbedStatesOf(rs: seq<Particle>, was: seq<ParticleState>)
    requires |rs| == |was| && Updatable(was)
    requires forall k :: 0 <= k < |rs| ==> rs[k].State() == Advance(was[k])
    ensures StatesAre(Climbing(rs, was), ClimbedStates(was))
  {
    if rs != [] {
      var tail, tailStates := Climbing(rs[1..], was[1..]), ClimbedStates(was[1..]);
      forall k | 0 <= k < |rs| - 1 ensures rs[1..][k].State() == Advance(was[1..][k]) {
        assert rs[1..][k] == rs[k + 1] && was[1..][k] == was[k + 1];
      }
      ClimbedStatesOf(rs[1..], was[1..]);
      if was[0].velocity.y < 0.0 {
        assert Climbing(rs, was) == [rs[0]] + tail;
        assert ClimbedStates(was) == [Advance(was[0])] + tailStates;
        forall k | 0 < k <= |tail|
          ensures ([rs[0]] + tail)[k].State() == ([Advance(was[0])] + tailStates)[k]
        {
          assert ([rs[0]] + tail)[k] == tail[k - 1];
          assert ([Advance(was[0])] + tailStates)[k] == tailStates[k - 1];
        }
      } else {
        assert Climbing(rs, was) == tail && ClimbedStates(was) == tailStates;
      }
    }
  }

  /** Every state in `was` is a launching one without text: the rockets' states. */
  ghost predicate Unlit(was: seq<ParticleState>) {
    forall k :: 0 <= k < |was| ==> was[k].phase == Launch && was[k].text.None?
  }

  /** Rocket `i` of `rs` heads the rockets kept from `rs[i..]` exactly when it is climbing. */
  lemma ClimbingStep(rs: seq<Particle>, was: seq<ParticleState>, i: nat)
    requires i < |rs| == |was|
    ensures Climbing(rs[i..], was[i..])
      == (if was[i].velocity.y < 0.0 then [rs[i]] else []) + Climbing(rs[i + 1..], was[i + 1..])
  {
    assert rs[i..][1..] == rs[i + 1..] && was[i..][1..] == was[i + 1..];
  }

  /** One pass of the rocket loop keeps the list equal to the rockets before `i`, then those
      kept from `i` on: rocket `i` is dropped exactly when it is not climbing. */
  lemma KeptStep(rs: seq<Particle>, was: seq<ParticleState>, i: nat, before: seq<Particle>,
                 after: seq<Particle>, burst: bool)
    requires i < |rs| == |was| && before == rs[..i + 1] + Climbing(rs[i + 1..], was[i + 1..])
    requires burst <==> !(was[i].velocity.y < 0.0)
    requires after == if burst then before[..i] + before[i + 1..] else before
    ensures after == rs[..i] + Climbing(rs[i..], was[i..])
  {
    ClimbingStep(rs, was, i);
    SpliceLast(rs, Climbing(rs[i + 1..], was[i + 1..]), i);
  }

  /** `50 + Math.floor(Math.random() * 50)`: between 50 and 99 particles. */
  function ExplosionCount(draw: real): (n: nat)
    requires 0.0 <= draw < 1.0
    ensures 50 <= n <= 99
  {
    MulMono(50.0, 0.0, draw);
    MulStrict(50.0, draw, 1.0);
    50 + (draw * 50.0).Floor
  }

  /** What `createExplosionParticles` hands `init` for one particle. */
  datatype Fragment = Fragment(velocity: Vec, color: Rgba, size: real, decay: real)

  /** The four `Math.random()` values one pass of the `createExplosionParticles` loop draws, in
      the order it draws them. */
  datatype FragmentDraws = FragmentDraws(speed: real, hue: real, size: real, decay: real)

  /** Every draw of the pass lies in [0, 1). */
  predicate Unit(d: FragmentDraws) {
    0.0 <= d.speed < 1.0 && 0.0 <= d.hue < 1.0 && 0.0 <= d.size < 1.0 && 0.0 <= d.decay < 1.0
  }

  /** The configuration `createExplosionParticles` hands `init` for particle `k` of `count`,
      given the draws of its pass. A given colour wins over the burst's hue. */
  function FragmentOf(k: nat, count: nat, baseHue: real, color: Option<Rgba>, d: FragmentDraws,
                      trig: Trig): (f: Fragment)
    requires 0 < count
    ensures color.Some? ==> f.color == color.value
    ensures color.None? ==> f.color.a == 1.0
  {
    var angle := k as real / count as real * PI * 2.0;
    var speed := 2.0 + d.speed * 3.0;
    var hue := Rem(baseHue + d.hue * 30.0, 360.0);
    var rgb := HslToRgb(hue / 360.0, 0.8, 0.5);
    Fragment(Vec(trig.cos(angle) * speed, trig.sin(angle) * speed, 0.0),
             if color.Some? then color.value else Opaque(rgb),
             2.0 + d.size * 2.0, 0.015 + d.decay * 0.01)
  }

  /** With draws in [0, 1) and a non-negative base hue, a fragment's size lies in [2, 4), its
      decay in [0.015, 0.025), its speed in [2, 5), and a colour it computes itself is a valid
      opaque colour. */
  lemma FragmentBounds(k: nat, count: nat, baseHue: real, color: Option<Rgba>, d: FragmentDraws,
                       trig: Trig)
    requires 0 < count && Unit(d) && 0.0 <= baseHue
    ensures var f := FragmentOf(k, count, baseHue, color, d, trig);
      2.0 <= f.size < 4.0 && 0.015 <= f.decay < 0.025
      && (color.None? ==> InUnit(f.color))
  {
    var hue := Rem(baseHue + d.hue * 30.0, 360.0);
    DivBelowOne(hue, 360.0);
    HslToRgbInRange(hue / 360.0, 0.8, 0.5);
  }

  /** The draws of the first `n` passes of the loop, four per pass from call `start` on. */
  function Passes(draws: seq<real>, start: nat, n: nat): (ds: seq<FragmentDraws>)
    requires start + 4 * n <= |draws|
    ensures |ds| == n
  {
    if n == 0 then []
    else
      var at := start + 4 * (n - 1);
      Passes(draws, start, n - 1)
      + [FragmentDraws(draws[at], draws[at + 1], draws[at + 2], draws[at + 3])]
  }

  /** Pass `k` reads calls `start + 4 * k` to `start + 4 * k + 3`. */
  lemma {:induction false} PassAt(draws: seq<real>, start: nat, n: nat, k: nat)
    requires k < n && start + 4 * n <= |draws|
    ensures var at := start + 4 * k;
      Passes(draws, start, n)[k]
      == FragmentDraws(draws[at], draws[at + 1], draws[at + 2], draws[at + 3])
    decreases n
  {
    if k < n - 1 {
      PassAt(draws, start, n - 1, k);
    }
  }

  /** Pass `n` follows the first `n` passes. */
  lemma PassesNext(draws: seq<real>, start: nat, n: nat)
    requires start + 4 * n + 4 <= |draws|
    ensures var at := start + 4 * n;
      Passes(draws, start, n + 1)
      == Passes(draws, start, n)
         + [FragmentDraws(draws[at], draws[at + 1], draws[at + 2], draws[at + 3])]
  {
  }

  /** Drawing more does not change the passes already drawn. */
  lemma {:induction false} PassesPrefix(pre: seq<real>, draws: seq<real>, start: nat, n: nat)
    requires pre <= draws && start + 4 * n <= |pre|
    ensures Passes(draws, start, n) == Passes(pre, start, n)
    decreases n
  {
    if n > 0 {
      PassesPrefix(pre, draws, start, n - 1);
    }
  }

  /** A particle `init` configured with `f` at `position`: live, launching, without text. */
  ghost predicate Carries(s: ParticleState, position: Vec, f: Fragment) {
    s.position == position && s.velocity == f.velocity && s.color == f.color
    && s.size == f.size && s.decay == f.decay && s.life == 1.0 && s.phase == Launch
    && s.text.None?
  }

  /** Particle `k` of `ps` is configured at `position` as particle `k` of a burst of `count`
      with base hue `baseHue`, from the draws of pass `k` of `ds`. */
  ghost predicate CarriesAll(ps: seq<Particle>, position: Vec, ds: seq<FragmentDraws>,
                             count: nat, baseHue: real, color: Option<Rgba>, trig: Trig)
    reads ps, Footprint(ps)
  {
    |ps| == |ds| <= count
    && forall k :: 0 <= k < |ps| ==>
         Carries(ps[k].State(), position, FragmentOf(k, count, baseHue, color, ds[k], trig))
  }

  /** One more particle configured from the next pass extends the burst. */
  lemma CarriesAllSnoc(ps: seq<Particle>, origin: Vec, ds: seq<FragmentDraws>, count: nat,
                       baseHue: real, color: Option<Rgba>, trig: Trig, p: Particle,
                       d: FragmentDraws)
    requires CarriesAll(ps, origin, ds, count, baseHue, color, trig) && |ps| < count
    requires Carries(p.State(), origin, FragmentOf(|ps|, count, baseHue, color, d, trig))
    ensures CarriesAll(ps + [p], origin, ds + [d], count, baseHue, color, trig)
  {
    assert forall k :: 0 <= k < |ps| ==> (ps + [p])[k] == ps[k] && (ds + [d])[k] == ds[k];
  }

  /** `ps` is a whole burst whose draws start at call `first` of `draws` and end the sequence:
      the count (50 to 99), then the base hue, then four draws per particle; particle `k` is
      configured at `origin` from pass `k`. */
  ghost predicate BurstFrom(ps: seq<Particle>, origin: Vec, draws: seq<real>, first: nat,
                            color: Option<Rgba>, trig: Trig)
    reads ps, Footprint(ps)
  {
    first + 2 <= |draws| && 0.0 <= draws[first] < 1.0
    && var count := ExplosionCount(draws[first]);
    |draws| == first + 2 + 4 * count && |ps| == count
    && CarriesAll(ps, origin, Passes(draws, first + 2, count), count, draws[first + 1] * 360.0,
                  color, trig)
  }

  /** A burst of `count` particles with base hue `baseHue`, drawn right after those two draws,
      is the burst from `first`. */
  lemma BurstFromPasses(ps: seq<Particle>, origin: Vec, draws: seq<real>, first: nat,
                        color: Option<Rgba>, trig: Trig, count: nat, baseHue: real)
    requires first + 2 <= |draws| && 0.0 <= draws[first] < 1.0
    requires count == ExplosionCount(draws[first]) && baseHue == draws[first + 1] * 360.0
    requires |draws| == first + 2 + 4 * count
    requires CarriesAll(ps, origin, Passes(draws, first + 2, count), count, baseHue, color, trig)
    ensures BurstFrom(ps, origin, draws, first, color, trig)
  {
  }

  /** A particle `init` configured as `createTextParticle` does: live and launching at
      `position`, rising at speed 1, size 20, decay 0.01, white unless a colour is given, and
      carrying `text` unless it is empty. */
  ghost predicate CarriesText(s: ParticleState, position: Vec, color: Option<Rgba>, text: string) {
    s.position == position && s.velocity == Vec(0.0, -1.0, 0.0) && s.life == 1.0
    && s.phase == Launch && s.size == 20.0 && s.decay == 0.01
    && s.color == (if color.Some? then color.value else WHITE) && s.text == StringOrNull(Some(text))
  }

  /** `new Particle()` whose colour and velocity the display then replaces, and its acceleration
      too when `acceleration` is given; every replacement vector is new. A rocket of
      `handleFuseBurnout` also gets its launch target. */
  method NewParticle(color: Rgba, velocity: Vec, acceleration: Option<Vec>,
                     target: Option<LaunchTarget>) returns (p: Particle)
    ensures fresh(p) && fresh(p.position) && fresh(p.velocity) && fresh(p.acceleration)
    ensures p.State() == INITIAL.(color := color, velocity := velocity, target := target,
                                  acceleration := if acceleration.Some? then acceleration.value else GRAVITY)
  {
    p := new Particle();
    p.color := color;
    var v := new Vector3(velocity.x, velocity.y, velocity.z);
    p.velocity := v;
    v.owner := p;
    if acceleration.Some? {
      var a := new Vector3(acceleration.value.x, acceleration.value.y, acceleration.value.z);
      p.acceleration := a;
      a.owner := p;
    }
    p.target := target;
  }

  class FireworkSystem {
    var particles: seq<Particle>
    var rockets: seq<Particle>
    var particlePool: ObjectPool
    var cameraPosition: Vector3
    var cameraTarget: Vector3
    var cameraFollowing: bool
    /** Whether an audio manager is set; the sounds themselves are not modelled. */
    var hasAudio: bool
    var fpsHistory: seq<Fps>
    var lastFrameTime: int
    var performanceMode: PerformanceMode
    var displayWidth: real
    var displayHeight: real

    /** The pool keeps its own invariant and every particle it knows of owns its vectors. */
    ghost predicate PoolValid()
      reads this`particlePool, particlePool, particlePool.pool, particlePool.active
      reads Footprint(particlePool.pool), Footprint(particlePool.active)
    {
      particlePool.Valid() && particlePool.ObjectsValid()
    }

    /** Rockets are distinct, launching, text-free particles that the pool has never handed out. */
    ghost predicate RocketsValid()
      reads this`rockets, this`particlePool, particlePool, rockets
    {
      Distinct(rockets)
      && forall k :: 0 <= k < |rockets| ==>
        rockets[k].phase == Launch && rockets[k].text.None?
        && rockets[k] !in particlePool.pool && rockets[k] !in particlePool.active
    }

    /** `Valid()` while rocket `i` has just exploded: rockets other than `i` are as
        `RocketsValid()` asks, and rocket `i` is still no idle or handed-out pool particle. */
    ghost predicate ExplodingAt(i: nat)
      reads this, particlePool, rockets, particles
    {
      i < |rockets| && Distinct(rockets)
      && (forall k :: 0 <= k < |rockets| && k != i ==>
            rockets[k].phase == Launch && rockets[k].text.None?)
      && (forall k :: 0 <= k < |rockets| ==>
            rockets[k] !in particlePool.pool && rockets[k] !in particlePool.active)
      && ParticlesValid() && Apart() && CameraApart() && |fpsHistory| <= FPS_WINDOW
    }

    /** The burst particles from index `from` on are sparks as `explode` makes them. */
    ghost predicate SparksFrom(from: nat)
      reads this`particles, particles, Footprint(particles)
    {
      forall k :: from <= k < |particles| ==> IsSpark(particles[k].State())
    }

    /** Burst particles are distinct and none is idle in the pool. */
    ghost predicate ParticlesValid()
      reads this`particles, this`particlePool, particlePool
    {
      Distinct(particles)
      && forall k :: 0 <= k < |particles| ==> particles[k] !in particlePool.pool
    }

    /** No particle is both a rocket and a burst particle. */
    ghost predicate Apart()
      reads this`rockets, this`particles
    {
      forall j, k :: 0 <= j < |rockets| && 0 <= k < |particles| ==> rockets[j] != particles[k]
    }

    /** The camera's target, which `updateCamera` moves, is none of the vectors of a rocket or a
        burst particle. */
    ghost predicate CameraApart()
      reads this`cameraTarget, this`rockets, this`particles, rockets, particles
    {
      (forall k :: 0 <= k < |rockets| ==>
         rockets[k].position != cameraTarget && rockets[k].velocity != cameraTarget
         && rockets[k].acceleration != cameraTarget)
      && forall k :: 0 <= k < |particles| ==>
         particles[k].position != cameraTarget && particles[k].velocity != cameraTarget
         && particles[k].acceleration != cameraTarget
    }

    /** The camera's target belongs to the display, so it is none of a particle's own vectors. */
    ghost predicate CameraOwned()
      reads this`cameraTarget, cameraTarget
    {
      cameraTarget.owner == this
    }

    /** What stays true while a burst is being drawn from the pool: rockets, burst particles
        and the pool are valid, and the display owns the camera's target. */
    ghost predicate Drawing()
      reads this, particlePool, particlePool.pool, particlePool.active, rockets, cameraTarget
      reads Footprint(particlePool.pool), Footprint(particlePool.active)
    {
      RocketsValid() && ParticlesValid() && PoolValid() && CameraOwned()
    }

    /** The idle particles are the first of `pool0`, in order: the pool has only shrunk. */
    ghost predicate PoolWithin(pool0: seq<Particle>)
      reads this`particlePool, particlePool
    {
      |particlePool.pool| <= |pool0|
      && forall k :: 0 <= k < |particlePool.pool| ==> particlePool.pool[k] == pool0[k]
    }

    /** A particle the pool has handed out for a burst not yet joined to the burst list: no
        rocket, no burst particle, not idle, and none of its vectors is the camera's target. */
    ghost predicate Handed(p: Particle)
      reads this`rockets, this`particles, this`particlePool, particlePool, this`cameraTarget, p
    {
      p !in rockets && p !in particles && p !in particlePool.pool
      && p.position != cameraTarget && p.velocity != cameraTarget && p.acceleration != cameraTarget
    }

    /** The particles of `batch` are handed out, and configured at `origin` as the first
        particles of a burst of `count` with base hue `baseHue`, from the draws `ds`. */
    ghost predicate HandedAll(batch: seq<Particle>, origin: Vec, ds: seq<FragmentDraws>,
                              count: nat, baseHue: real, color: Option<Rgba>, trig: Trig)
      reads this`rockets, this`particles, this`particlePool, particlePool, this`cameraTarget
      reads batch, Footprint(batch)
    {
      (forall k :: 0 <= k < |batch| ==> Handed(batch[k]))
      && CarriesAll(batch, origin, ds, count, baseHue, color, trig)
    }

    /** Every launching burst particle is without text: the particles `update` can advance. */
    ghost predicate Textless()
      reads this`particles, particles
    {
      forall k :: 0 <= k < |particles| ==> particles[k].phase == Launch ==> particles[k].text.None?
    }

    /** The invariant every operation keeps, besides the pool's own, which only the operations
        that use the pool state; the frame-rate history holds at most 60 entries. */
    ghost predicate Valid()
      reads this, particlePool, rockets, particles
    {
      RocketsValid() && ParticlesValid() && Apart() && CameraApart()
      && |fpsHistory| <= FPS_WINDOW
    }

    /** `new FireworkSystem()`, with `Date.now()` passed in: no particles, a pool of 1000, the
        camera 100 away looking at the origin and following, high performance mode. */
    constructor (now: int)
      ensures Valid() && PoolValid() && fresh(particlePool)
      ensures particles == [] && rockets == [] && fpsHistory == [] && lastFrameTime == now
      ensures performanceMode == High && cameraFollowing && !hasAudio
      ensures particlePool.AvailableCount() == 1000 && particlePool.ActiveCount() == 0
      ensures forall k :: 0 <= k < |particlePool.pool| ==>
        fresh(particlePool.pool[k]) && particlePool.pool[k].State() == INITIAL
      ensures cameraPosition.Value() == Vec(0.0, 0.0, 100.0) && cameraTarget.Value() == ZERO
      ensures displayWidth == 0.0 && displayHeight == 0.0 && CameraOwned()
    {
      particles := [];
      rockets := [];
      particlePool := new ObjectPool(1000);
      cameraPosition := new Vector3(0.0, 0.0, 100.0);
      cameraTarget := new Vector3(0.0, 0.0, 0.0);
      cameraFollowing := true;
      hasAudio := false;
      fpsHistory := [];
      lastFrameTime := now;
      performanceMode := High;
      displayWidth := 0.0;
      displayHeight := 0.0;
      new;
      cameraTarget.owner := this;
    }

    /** The part of `initRenderer` that records the window's size in logical pixels. */
    method InitRenderer(windowWidth: real, windowHeight: real)
      modifies this`displayWidth, this`displayHeight
      ensures displayWidth == windowWidth && displayHeight == windowHeight
    {
      displayWidth := windowWidth;
      displayHeight := windowHeight;
    }

    /** `this.rockets.push(rocket)` for a launching, text-free rocket that is no other list's and
        shares no vector with the camera. */
    method PushRocket(rocket: Particle)
      requires Valid() && rocket !in rockets && rocket !in particles
      requires rocket.phase == Launch && rocket.text.None?
      requires rocket !in particlePool.pool && rocket !in particlePool.active
      requires rocket.position != cameraTarget && rocket.velocity != cameraTarget
      requires rocket.acceleration != cameraTarget
      modifies this`rockets
      ensures Valid() && rockets == old(rockets) + [rocket]
    {
      DistinctAppend(rockets, rocket);
      rockets := rockets + [rocket];
    }

    /** `this.particles.push(particle)` for a particle that is no other list's, is not idle in the
        pool and shares no vector with the camera. */
    method PushParticle(particle: Particle)
      requires ParticlesValid() && Apart() && CameraApart()
      requires particle !in rockets && particle !in particles && particle !in particlePool.pool
      requires particle.position != cameraTarget && particle.velocity != cameraTarget
      requires particle.acceleration != cameraTarget
      modifies this`particles
      ensures ParticlesValid() && Apart() && CameraApart() && particles == old(particles) + [particle]
    {
      DistinctAppend(particles, particle);
      particles := particles + [particle];
    }

    /** The rocket `launchFirework` makes, with its one `Math.random()` for the sideways speed. */
    method NewRocket(rng: Random) returns (rocket: Particle)
      modifies rng`history
      ensures old(rng.history) <= rng.history
      ensures |rng.history| == old(|rng.history|) + 1
      ensures fresh(rocket) && fresh(rocket.position) && fresh(rocket.velocity)
      ensures fresh(rocket.acceleration)
      ensures rocket.State() == LaunchedRocket(rng.history[old(|rng.history|)])
    {
      var sideways := rng.Next();
      rocket := NewParticle(Rgba(2.0, 2.0, 2.0, 2.0), Vec(sideways * 2.0 - 1.0, -25.0, 0.0),
                            Some(Vec(0.0, 1.5, 0.0)), None);
    }

    /** `launchFirework(options)`: the options are not read (the constructor ignores its
        arguments); one `Math.random()` sets the sideways speed. */
    method LaunchFirework(rng: Random)
      requires Valid()
      modifies this`rockets, rng`history
      ensures old(rng.history) <= rng.history
      ensures Valid() && |rng.history| == old(|rng.history|) + 1
      ensures |rockets| == |old(rockets)| + 1 && rockets[..|old(rockets)|] == old(rockets)
      ensures fresh(rockets[|old(rockets)|])
      ensures rockets[|old(rockets)|].State() == LaunchedRocket(rng.history[old(|rng.history|)])
    {
      var rocket := NewRocket(rng);
      PushRocket(rocket);
    }

    /** `getRandomColor()`: one `Math.random()` for the hue. */
    method GetRandomColor(rng: Random) returns (rgba: Rgba)
      modifies rng`history
      ensures old(rng.history) <= rng.history
      ensures |rng.history| == old(|rng.history|) + 1
      ensures var draw := rng.history[old(|rng.history|)];
        0.0 <= draw < 1.0 && rgba == RandomColor(draw)
    {
      var draw := rng.Next();
      var hue := draw * 360.0;
      rgba := Opaque(HslToRgb(hue / 360.0, 0.8, 0.5));
    }

    /** One character of `launchTextFirework`: a colour that `launchFirework` never reads, then
        the rocket, which follows the rockets of the earlier characters. */
    method NextTextRocket(batch: seq<Particle>, rng: Random, ghost first: nat) returns (rocket: Particle)
      requires TextRocketsAre(batch, rng.history, first) && |rng.history| == first + 2 * |batch|
      modifies rng`history
      ensures old(rng.history) <= rng.history && |rng.history| == old(|rng.history|) + 2
      ensures fresh(rocket) && fresh(rocket.position) && fresh(rocket.velocity)
      ensures fresh(rocket.acceleration)
      ensures TextRocketsAre(batch + [rocket], rng.history, first)
    {
      ghost var before := rng.history;
      var color := GetRandomColor(rng);
      rocket := NewRocket(rng);
      TextRocketsSnoc(batch, before, rng.history, first, rocket);
    }

    /** The `forEach` of `launchTextFirework`: per character a colour that `launchFirework` never
        reads, then the rocket it makes. */
    method NewTextRockets(n: nat, rng: Random) returns (batch: seq<Particle>)
      modifies rng`history
      ensures old(rng.history) <= rng.history
      ensures |rng.history| == old(|rng.history|) + 2 * n && |batch| == n && Distinct(batch)
      ensures forall k :: 0 <= k < n ==>
        fresh(batch[k]) && fresh(batch[k].position) && fresh(batch[k].velocity)
        && fresh(batch[k].acceleration)
      ensures forall k :: 0 <= k < n ==> batch[k].State() == LaunchedRocket(rng.history[old(|rng.history|) + 2 * k + 1])
    {
      batch := [];
      var index := 0;
      while index < n
        invariant 0 <= index <= n && |batch| == index && Distinct(batch)
        invariant |rng.history| == old(|rng.history|) + 2 * index && old(rng.history) <= rng.history
        invariant forall k :: 0 <= k < index ==>
          fresh(batch[k]) && fresh(batch[k].position) && fresh(batch[k].velocity)
          && fresh(batch[k].acceleration)
        invariant TextRocketsAre(batch, rng.history, old(|rng.history|))
      {
        var rocket := NextTextRocket(batch, rng, old(|rng.history|));
        DistinctAppend(batch, rocket);
        batch := batch + [rocket];
        index := index + 1;
      }
    }

    /** `launchTextFirework(text, options)`: one rocket per entry of `text.split('')`, that is
        per UTF-16 code unit of `text`, pushed in order. Each entry costs two `Math.random()`
        calls, a colour that `launchFirework` never reads and the sideways speed. */
    method LaunchTextFirework(text: Utf16, rng: Random)
      requires Valid()
      modifies this`rockets, rng`history
      ensures old(rng.history) <= rng.history
      ensures Valid() && |rng.history| == old(|rng.history|) + 2 * |text|
      ensures |rockets| == |old(rockets)| + |text| && rockets[..|old(rockets)|] == old(rockets)
      ensures forall k :: 0 <= k < |text| ==>
        fresh(rockets[|old(rockets)| + k])
        && rockets[|old(rockets)| + k].State() == LaunchedRocket(rng.history[old(|rng.history|) + 2 * k + 1])
    {
      var batch := NewTextRockets(|text|, rng);
      AppendRockets(batch);
    }

    /** Several `this.rockets.push(rocket)` in a row, for launching, text-free rockets that are
        no list's and share no vector with the camera. */
    method AppendRockets(batch: seq<Particle>)
      requires Valid() && Distinct(batch)
      requires forall k :: 0 <= k < |batch| ==>
        batch[k] !in rockets && batch[k] !in particles && batch[k].phase == Launch
        && batch[k].text.None? && batch[k] !in particlePool.pool && batch[k] !in particlePool.active
      requires forall k :: 0 <= k < |batch| ==>
        batch[k].position != cameraTarget && batch[k].velocity != cameraTarget
        && batch[k].acceleration != cameraTarget
      modifies this`rockets
      ensures Valid() && rockets == old(rockets) + batch
    {
      DistinctConcat(rockets, batch);
      rockets := rockets + batch;
    }

    /** The arithmetic of `handleFuseBurnout` with its five `Math.random()` calls, in source
        order: offset, flight time, gravity, height percentage and sideways speed. */
    method DrawFusePlan(x: real, rng: Random) returns (plan: FusePlan)
      requires displayWidth != 0.0
      modifies rng`history
      ensures old(rng.history) <= rng.history
      ensures |rng.history| == old(|rng.history|) + 5
      ensures var c := old(|rng.history|);
        0.0 <= rng.history[c + 1]
        && plan == PlanFuse(x, displayWidth, displayHeight, rng.history[c], rng.history[c + 1],
                            rng.history[c + 2], rng.history[c + 3], rng.history[c + 4])
    {
      var offset := rng.Next();
      var timeDraw := rng.Next();
      var gravityDraw := rng.Next();
      var heightDraw := rng.Next();
      var sideDraw := rng.Next();
      plan := PlanFuse(x, displayWidth, displayHeight, offset, timeDraw, gravityDraw,
                       heightDraw, sideDraw);
    }

    /** `handleFuseBurnout(x, y)`: one rocket launched from the bottom of the screen near `x`.
        The source divides by half the display width, so the width must be set. */
    method HandleFuseBurnout(x: real, y: real, rng: Random)
      requires Valid() && displayWidth != 0.0
      modifies this`rockets, rng`history
      ensures old(rng.history) <= rng.history
      ensures Valid() && |rng.history| == old(|rng.history|) + 5
      ensures |rockets| == |old(rockets)| + 1 && rockets[..|old(rockets)|] == old(rockets)
      ensures fresh(rockets[|old(rockets)|])
      ensures var c := old(|rng.history|);
        0.0 <= rng.history[c + 1]
        && var plan := PlanFuse(x, displayWidth, displayHeight, rng.history[c], rng.history[c + 1],
                                rng.history[c + 2], rng.history[c + 3], rng.history[c + 4]);
        rockets[|old(rockets)|].State() == FuseRocket(plan, displayHeight)
    {
      var plan := DrawFusePlan(x, rng);
      var rocket := NewParticle(Rgba(0.0, 1.0, 0.0, 1.0), Vec(plan.horizontalSpeed, -plan.v0, 0.0),
                                Some(Vec(0.0, plan.gravity, 0.0)),
                                Some(LaunchTarget(displayHeight, plan.startY - plan.riseDistance, plan.startY)));
      PushRocket(rocket);
    }

    /** One pass of the `explode` loop up to the push: particle `k` of the burst, with its speed
        and hue-shift draws. */
    method NewSpark(baseHue: real, ghost first: nat, k: nat, rng: Random, trig: Trig)
      returns (particle: Particle)
      requires |rng.history| == first + 1 + 2 * k && baseHue == rng.history[first] * 360.0
      modifies rng`history
      ensures old(rng.history) <= rng.history
      ensures |rng.history| == old(|rng.history|) + 2
      ensures fresh(particle) && fresh(particle.position) && fresh(particle.velocity)
      ensures fresh(particle.acceleration)
      ensures particle.State() == Spark(rng.history, first, k, trig)
    {
      var speedDraw := rng.Next();
      var hueDraw := rng.Next();
      assert hueDraw == rng.history[first + 2 + 2 * k];
      var spark := SparkOf(baseHue, speedDraw, hueDraw, k, trig);
      particle := NewParticle(spark.color, spark.velocity, None, None);
    }

    /** The `explode` loop's 80 particles, each with its speed and hue-shift draws. */
    method NewBurst(baseHue: real, ghost first: nat, rng: Random, trig: Trig)
      returns (burst: seq<Particle>)
      requires |rng.history| == first + 1 && baseHue == rng.history[first] * 360.0
      modifies rng`history
      ensures old(rng.history) <= rng.history
      ensures |rng.history| == old(|rng.history|) + 2 * BURST && |burst| == BURST && Distinct(burst)
      ensures forall k :: 0 <= k < BURST ==>
        fresh(burst[k]) && fresh(burst[k].position) && fresh(burst[k].velocity)
        && fresh(burst[k].acceleration)
      ensures forall k :: 0 <= k < BURST ==> burst[k].State() == Spark(rng.history, first, k, trig)
    {
      burst := [];
      var i := 0;
      while i < BURST
        invariant 0 <= i <= BURST && |burst| == i && Distinct(burst)
        invariant |rng.history| == first + 1 + 2 * i && old(rng.history) <= rng.history
        invariant forall k :: 0 <= k < i ==>
          fresh(burst[k]) && fresh(burst[k].position) && fresh(burst[k].velocity)
          && fresh(burst[k].acceleration)
        invariant SparksAre(burst, rng.history, first, trig)
      {
        ghost var before := rng.history;
        var particle := NewSpark(baseHue, first, i, rng, trig);
        SparksSnoc(burst, before, rng.history, first, trig, particle);
        DistinctAppend(burst, particle);
        burst := burst + [particle];
        i := i + 1;
      }
    }

    /** `explode(x, y)`: 80 new particles, not from the pool, pushed in order; `x` and `y` go to
        the particle constructor, which ignores them. */
    method Explode(x: real, y: real, rng: Random, trig: Trig)
      requires ParticlesValid() && Apart() && CameraApart()
      modifies this`particles, rng`history
      ensures old(rng.history) <= rng.history
      ensures ParticlesValid() && Apart() && CameraApart()
      ensures |particles| == |old(particles)| + BURST && particles[..|old(particles)|] == old(particles)
      ensures |rng.history| == old(|rng.history|) + BURST_DRAWS
      ensures forall k :: |old(particles)| <= k < |particles| ==>
        fresh(particles[k])
        && particles[k].State() == Spark(rng.history, old(|rng.history|), k - |old(particles)|, trig)
    {
      var baseDraw := rng.Next();
      var burst := NewBurst(baseDraw * 360.0, old(|rng.history|), rng, trig);
      AppendParticles(burst);
    }

    /** Several `this.particles.push(particle)` in a row, for particles that are no list's, are
        not idle in the pool and share no vector with the camera. */
    method AppendParticles(batch: seq<Particle>)
      requires ParticlesValid() && Apart() && CameraApart() && Distinct(batch)
      requires forall k :: 0 <= k < |batch| ==> Handed(batch[k])
      modifies this`particles
      ensures ParticlesValid() && Apart() && CameraApart() && particles == old(particles) + batch
      ensures old(RocketsValid()) ==> RocketsValid()
      ensures old(PoolValid()) ==> PoolValid()
      ensures forall k :: 0 <= k < |batch| ==> batch[k].State() == old(batch[k].State())
    {
      DistinctConcat(particles, batch);
      particles := particles + batch;
    }

    /** The pushes that end `createExplosionParticles`: the burst joins the burst list, each
        particle configured as it was. */
    method AppendBurst(batch: seq<Particle>, ghost origin: Vec, ghost draws: seq<real>,
                       ghost first: nat, ghost color: Option<Rgba>, ghost trig: Trig)
      requires Valid() && PoolValid() && Distinct(batch)
      requires forall k :: 0 <= k < |batch| ==> Handed(batch[k])
      requires BurstFrom(batch, origin, draws, first, color, trig)
      modifies this`particles
      ensures Valid() && PoolValid() && particles == old(particles) + batch
      ensures BurstFrom(particles[|old(particles)|..], origin, draws, first, color, trig)
    {
      AppendParticles(batch);
      assert particles[|old(particles)|..] == batch;
    }

    /** The explosion branch of the rocket loop of `update`: `this.explode(...)`, then
        `this.rockets.splice(i, 1)`. */
    method ExplodeAt(i: nat, rng: Random, trig: Trig, ghost others: seq<Particle>)
      requires ExplodingAt(i)
      modifies this`rockets, this`particles, rng`history
      ensures Valid() && rockets == old(rockets[..i] + rockets[i + 1..])
      ensures forall k :: 0 <= k < |others| ==> others[k].State() == old(others[k].State())
      ensures |particles| == old(|particles|) + BURST
      ensures forall k :: 0 <= k < |old(particles)| ==>
        particles[k].State() == old(particles[k].State())
      ensures |rng.history| == old(|rng.history|) + BURST_DRAWS
      ensures old(rng.history) <= rng.history && particles[..|old(particles)|] == old(particles)
      ensures forall k :: |old(particles)| <= k < |particles| ==>
        fresh(particles[k]) && IsSpark(particles[k].State())
    {
      var rocket := rockets[i];
      Explode(rocket.position.x, rocket.position.y, rng, trig);
      DistinctRemove(rockets, i);
      rockets := rockets[..i] + rockets[i + 1..];
    }

    /** `rocket.update()` for rocket `i`: it advances one step, and nothing else changes. */
    method AdvanceRocket(i: nat, rocket: Particle, dt: real, ghost others: seq<Particle>)
      requires Valid() && i < |rockets| && rocket == rockets[i]
      modifies rocket`trail, rocket`life, rocket`phase
      ensures ExplodingAt(i) && rocket.State() == Advance(old(rocket.State()))
      ensures forall k :: 0 <= k < |others| && others[k] != rocket ==>
        others[k].State() == old(others[k].State())
      ensures forall k :: 0 <= k < |particles| ==> particles[k].State() == old(particles[k].State())
    {
      assert ExplodingAt(i);
      var status := rocket.Update(dt);
    }

    /** The rocket loop of `update` after it has handled rockets `i` and on of `R`, found in
        states `was`: the list holds the rockets before `i`, then those kept from `i` on; the
        rockets handled advanced one step, the others are as found; the `e` rockets gone left
        `BURST` sparks and `BURST_DRAWS` draws each, after `p0` particles and `h0` draws. */
    ghost predicate RocketsFrom(i: nat, R: seq<Particle>, was: seq<ParticleState>, e: nat,
                                p0: nat, h0: nat, rng: Random)
      reads this`rockets, this`particles, rng, R, Footprint(R)
    {
      i <= |R| == |was| && Unlit(was)
      && rockets == R[..i] + Climbing(R[i..], was[i..])
      && AdvancedFrom(i, R, was) && Exploded(|R| - e, e, p0, h0, rng)
    }

    /** Rockets `i` and on of `R` advanced one step from their states `was`; the others are
        still in them. */
    ghost predicate AdvancedFrom(i: nat, R: seq<Particle>, was: seq<ParticleState>)
      requires |R| == |was| && Unlit(was)
      reads R, Footprint(R)
    {
      (forall k :: 0 <= k < i && k < |R| ==> R[k].State() == was[k])
      && forall k :: i <= k < |R| ==> R[k].State() == Advance(was[k])
    }

    /** `n` rockets are left after `e` exploded, each leaving `BURST` sparks and `BURST_DRAWS`
        draws after `p0` particles and `h0` draws. */
    ghost predicate Exploded(n: int, e: nat, p0: nat, h0: nat, rng: Random)
      reads this`rockets, this`particles, rng
    {
      |rockets| == n && |particles| == p0 + BURST * e && |rng.history| == h0 + BURST_DRAWS * e
    }

    /** The burst list starts with `P0`, whose particles are in states `S0`, and every
        particle after them is a spark. */
    ghost predicate KeepsOld(P0: seq<Particle>, S0: seq<ParticleState>)
      reads this`particles, particles, Footprint(particles)
    {
      |S0| == |P0| <= |particles| && particles[..|P0|] == P0
      && (forall k :: 0 <= k < |P0| ==> particles[k].State() == S0[k])
      && SparksFrom(|P0|)
    }

    /** Rocket `i` of `R` has just advanced and is still in the list: the list holds the rockets
        up to `i`, then those kept after it; rockets `i` and on advanced one step. */
    ghost predicate MidPass(i: nat, R: seq<Particle>, was: seq<ParticleState>, e: nat,
                            p0: nat, h0: nat, rng: Random)
      reads this`rockets, this`particles, rng, R, Footprint(R)
    {
      i < |R| == |was| && Unlit(was)
      && rockets == R[..i + 1] + Climbing(R[i + 1..], was[i + 1..])
      && AdvancedFrom(i, R, was) && Exploded(|R| - e, e, p0, h0, rng)
    }

    /** `rocket.update()` for rocket `i` of `R` in the rocket loop: it advances one step, and it
        is now exploding exactly when it was not climbing. */
    method AdvancePass(i: nat, rocket: Particle, dt: real, rng: Random, ghost R: seq<Particle>,
                       ghost was: seq<ParticleState>, ghost e: nat, ghost p0: nat, ghost h0: nat,
                       ghost P0: seq<Particle>, ghost S0: seq<ParticleState>)
      requires Valid() && Distinct(R) && i < |R| && rocket == R[i]
      requires RocketsFrom(i + 1, R, was, e, p0, h0, rng) && KeepsOld(P0, S0)
      modifies rocket`trail, rocket`life, rocket`phase
      ensures ExplodingAt(i) && MidPass(i, R, was, e, p0, h0, rng) && KeepsOld(P0, S0)
      ensures rocket.phase == Phase.Explode <==> !(was[i].velocity.y < 0.0)
    {
      assert rockets[i] == rocket;
      AdvanceRocket(i, rocket, dt, R);
    }

    /** A rocket still climbing after its update stays in the list. */
    lemma KeepPass(i: nat, R: seq<Particle>, was: seq<ParticleState>, e: nat, p0: nat, h0: nat,
                   rng: Random)
      requires ExplodingAt(i) && MidPass(i, R, was, e, p0, h0, rng) && was[i].velocity.y < 0.0
      ensures Valid() && RocketsFrom(i, R, was, e, p0, h0, rng)
    {
      KeptStep(R, was, i, rockets, rockets, false);
      assert rockets[i] == R[i];
    }

    /** A rocket exploding after its update bursts into `BURST` sparks and leaves the list. */
    method ExplodePass(i: nat, rng: Random, trig: Trig, ghost R: seq<Particle>,
                       ghost was: seq<ParticleState>, ghost e: nat, ghost p0: nat, ghost h0: nat,
                       ghost P0: seq<Particle>, ghost S0: seq<ParticleState>)
      requires ExplodingAt(i) && MidPass(i, R, was, e, p0, h0, rng) && KeepsOld(P0, S0)
      requires !(was[i].velocity.y < 0.0)
      modifies this`rockets, this`particles, rng`history
      ensures Valid() && RocketsFrom(i, R, was, e + 1, p0, h0, rng) && KeepsOld(P0, S0)
      ensures old(rng.history) <= rng.history && |old(particles)| <= |particles|
      ensures forall k :: 0 <= k < |old(particles)| ==> particles[k] == old(particles)[k]
      ensures forall k :: |old(particles)| <= k < |particles| ==> fresh(particles[k])
    {
      ghost var before := rockets;
      ExplodeAt(i, rng, trig, R);
      KeptStep(R, was, i, before, rockets, true);
      MulSucc(BURST, e);
      MulSucc(BURST_DRAWS, e);
    }

    /** One pass of the rocket loop of `update`, for rocket `i` of `R`: it advances, and if it
        now explodes (it was not climbing) it bursts into `BURST` sparks and leaves the list. */
    method RocketPass(i: nat, dt: real, rng: Random, trig: Trig, ghost R: seq<Particle>,
                      ghost was: seq<ParticleState>, ghost e: nat, ghost p0: nat, ghost h0: nat,
                      ghost P0: seq<Particle>, ghost S0: seq<ParticleState>)
      returns (ghost e': nat)
      requires Valid() && Distinct(R) && i < |R|
      requires RocketsFrom(i + 1, R, was, e, p0, h0, rng) && KeepsOld(P0, S0)
      modifies this`rockets, this`particles, rng`history, R`trail, R`life, R`phase
      ensures Valid() && RocketsFrom(i, R, was, e', p0, h0, rng) && KeepsOld(P0, S0)
      ensures old(rng.history) <= rng.history && |old(particles)| <= |particles|
      ensures forall k :: 0 <= k < |old(particles)| ==> particles[k] == old(particles)[k]
      ensures forall k :: |old(particles)| <= k < |particles| ==> fresh(particles[k])
    {
      var rocket := rockets[i];
      AdvancePass(i, rocket, dt, rng, R, was, e, p0, h0, P0, S0);
      if rocket.phase == Phase.Explode {
        ExplodePass(i, rng, trig, R, was, e, p0, h0, P0, S0);
        e' := e + 1;
      } else {
        KeepPass(i, R, was, e, p0, h0, rng);
        e' := e;
      }
    }

    /** The rocket loop itself, last rocket first, over the rockets `R` found in states `was`;
        `e` rockets explode. */
    method RocketLoop(dt: real, rng: Random, trig: Trig, ghost R: seq<Particle>,
                      ghost was: seq<ParticleState>, ghost h0: nat,
                      ghost P0: seq<Particle>, ghost S0: seq<ParticleState>)
      returns (ghost e: nat)
      requires Valid() && Distinct(R) && rockets == R
      requires RocketsFrom(|R|, R, was, 0, |P0|, h0, rng) && KeepsOld(P0, S0)
      modifies this`rockets, this`particles, rng`history, R`trail, R`life, R`phase
      ensures Valid() && RocketsFrom(0, R, was, e, |P0|, h0, rng) && KeepsOld(P0, S0)
      ensures old(rng.history) <= rng.history
      ensures forall k :: |P0| <= k < |particles| ==> fresh(particles[k])
    {
      var i := |rockets|;
      e := 0;
      while i > 0
        invariant 0 <= i <= |R| && Valid()
        invariant RocketsFrom(i, R, was, e, |P0|, h0, rng) && KeepsOld(P0, S0)
        invariant old(rng.history) <= rng.history
        invariant forall k :: |P0| <= k < |particles| ==> fresh(particles[k])
      {
        i := i - 1;
        e := RocketPass(i, dt, rng, trig, R, was, e, |P0|, h0, P0, S0);
      }
    }

    /** Before the rocket loop, no rocket is handled yet and the burst list is as it was. */
    lemma RocketLoopStarts(R: seq<Particle>, was: seq<ParticleState>, h0: nat, rng: Random)
      requires Valid() && rockets == R && was == States(R) && h0 == |rng.history|
      ensures RocketsFrom(|R|, R, was, 0, |particles|, h0, rng)
      ensures KeepsOld(particles, States(particles))
    {
      assert R[..|R|] == R && R[|R|..] == [] && was[|R|..] == [];
      assert particles[..|particles|] == particles;
    }

    /** After the rocket loop, the climbing rockets are kept and every rocket advanced. */
    lemma RocketLoopEnds(R: seq<Particle>, was: seq<ParticleState>, e: nat, p0: nat, h0: nat,
                         rng: Random)
      requires RocketsFrom(0, R, was, e, p0, h0, rng)
      ensures rockets == Climbing(R, was) && Updatable(was)
      ensures StatesAre(rockets, ClimbedStates(was))
    {
      assert R[..0] == [] && R[0..] == R && was[0..] == was;
      ClimbedStatesOf(R, was);
    }

    /** The rocket loop of `update`, last rocket first: every rocket advances one step; one that
        now explodes (it was not climbing) bursts into `BURST` sparks and leaves the list, and
        `exploded` rockets do. */
    method UpdateRockets(dt: real, rng: Random, trig: Trig) returns (ghost exploded: nat)
      requires Valid()
      modifies this`rockets, this`particles, rng`history, rockets`trail, rockets`life, rockets`phase
      ensures Valid()
      ensures rockets == Climbing(old(rockets), old(States(rockets)))
      ensures StatesAre(rockets, ClimbedStates(old(States(rockets))))
      ensures |rockets| + exploded == old(|rockets|)
      ensures |particles| == old(|particles|) + BURST * exploded
      ensures |rng.history| == old(|rng.history|) + BURST_DRAWS * exploded
      ensures old(rng.history) <= rng.history
      ensures KeepsOld(old(particles), old(States(particles)))
      ensures forall k :: |old(particles)| <= k < |particles| ==> fresh(particles[k])
    {
      ghost var R := rockets;
      ghost var was := States(rockets);
      ghost var P0 := particles;
      ghost var S0 := States(particles);
      ghost var h0 := |rng.history|;
      RocketLoopStarts(R, was, h0, rng);
      exploded := RocketLoop(dt, rng, trig, R, was, h0, P0, S0);
      RocketLoopEnds(R, was, exploded, |P0|, h0, rng);
    }

    /** The particle loop of `update` after it has handled particles `i` and on, found in
        states `S`: those advanced one step, the others are still as found. */
    ghost predicate ParticlesFrom(i: nat, S: seq<ParticleState>)
      reads this`particles, particles, Footprint(particles)
    {
      |S| == |particles| && i <= |S| && Updatable(S)
      && (forall k :: 0 <= k < i ==> particles[k].State() == S[k])
      && forall k :: i <= k < |S| ==> particles[k].State() == Advance(S[k])
    }

    /** One pass of the particle loop of `update`: `particle.update(dt)` for particle `i`,
        which stays in the list whatever it returns, since it returns itself. */
    method AdvanceParticle(i: nat, particle: Particle, dt: real, ghost S: seq<ParticleState>,
                           ghost RS: seq<ParticleState>)
      requires Valid() && i < |particles| && particle == particles[i]
      requires ParticlesFrom(i + 1, S) && StatesAre(rockets, RS)
      modifies particle`trail, particle`life, particle`phase
      ensures Valid() && ParticlesFrom(i, S) && StatesAre(rockets, RS)
    {
      assert forall k :: 0 <= k < |particles| && k != i ==> particles[k] != particle;
      assert forall k :: 0 <= k < |rockets| ==> rockets[k] != particle;
      var status := particle.Update(dt);
    }

    /** The particle loop of `update`, last particle first: every burst particle advances one
        step and none leaves the list; the rockets stay as they are. */
    method UpdateParticles(dt: real)
      requires Valid() && Textless()
      modifies particles`trail, particles`life, particles`phase
      ensures Valid() && Textless()
      ensures Updatable(old(States(particles)))
      ensures StatesAre(particles, Advanced(old(States(particles))))
      ensures StatesAre(rockets, old(States(rockets)))
    {
      ghost var S := States(particles);
      ghost var RS := States(rockets);
      var i := |particles|;
      while i > 0
        invariant 0 <= i <= |S| && Valid() && ParticlesFrom(i, S) && StatesAre(rockets, RS)
      {
        i := i - 1;
        AdvanceParticle(i, particles[i], dt, S, RS);
      }
    }

    /** After the rocket loop: the burst list is the particles that were there, in the states
        `S0` they were in, then sparks; none launches with text. */
    lemma AfterRocketLoop(P0: seq<Particle>, S0: seq<ParticleState>)
      returns (sparks: seq<ParticleState>)
      requires KeepsOld(P0, S0) && Updatable(S0)
      ensures Textless() && States(particles) == S0 + sparks
      ensures forall j :: 0 <= j < |sparks| ==> IsSpark(sparks[j])
    {
      sparks := States(particles)[|P0|..];
      assert States(particles) == S0 + sparks;
    }

    /** The rocket loop of `update`, with the burst list it leaves: the burst particles as they
        were, then the sparks of the rockets that exploded. */
    method FlyRockets(dt: real, rng: Random, trig: Trig)
      returns (ghost exploded: nat, ghost sparks: seq<ParticleState>)
      requires Valid() && Textless()
      modifies this`rockets, this`particles, rng`history
      modifies rockets`trail, rockets`life, rockets`phase
      ensures Valid() && Textless()
      ensures rockets == Climbing(old(rockets), old(States(rockets)))
      ensures StatesAre(rockets, ClimbedStates(old(States(rockets))))
      ensures |rockets| + exploded == old(|rockets|)
      ensures |rng.history| == old(|rng.history|) + BURST_DRAWS * exploded
      ensures old(rng.history) <= rng.history
      ensures |sparks| == BURST * exploded && forall j :: 0 <= j < |sparks| ==> IsSpark(sparks[j])
      ensures |old(particles)| <= |particles| && particles[..|old(particles)|] == old(particles)
      ensures Updatable(old(States(particles)) + sparks)
      ensures States(particles) == old(States(particles)) + sparks
      ensures forall k :: |old(particles)| <= k < |particles| ==> fresh(particles[k])
    {
      ghost var P0 := particles;
      ghost var S0 := States(particles);
      exploded := UpdateRockets(dt, rng, trig);
      sparks := AfterRocketLoop(P0, S0);
    }

    /** The two loops of `update`, for a time step of `dt`: rockets, then burst particles. */
    method Animate(dt: real, rng: Random, trig: Trig)
      returns (ghost exploded: nat, ghost sparks: seq<ParticleState>)
      requires Valid() && Textless()
      modifies this`rockets, this`particles, rng`history
      modifies rockets`trail, rockets`life, rockets`phase
      modifies particles`trail, particles`life, particles`phase
      ensures Valid() && Textless()
      ensures rockets == Climbing(old(rockets), old(States(rockets)))
      ensures StatesAre(rockets, ClimbedStates(old(States(rockets))))
      ensures |rockets| + exploded == old(|rockets|)
      ensures |rng.history| == old(|rng.history|) + BURST_DRAWS * exploded
      ensures old(rng.history) <= rng.history
      ensures |sparks| == BURST * exploded && forall j :: 0 <= j < |sparks| ==> IsSpark(sparks[j])
      ensures |old(particles)| <= |particles| && particles[..|old(particles)|] == old(particles)
      ensures Updatable(old(States(particles)) + sparks)
      ensures StatesAre(particles, Advanced(old(States(particles)) + sparks))
    {
      exploded, sparks := FlyRockets(dt, rng, trig);
      UpdateParticles(dt);
    }

    /** The start of `update()`, with `Date.now()` passed in as `now`: the time step since the
        last frame, capped at `MAX_DT`, and the new frame time; nothing else changes. */
    method Tick(now: int) returns (dt: real)
      requires Valid() && Textless()
      modifies this`lastFrameTime
      ensures dt == FrameDelta(now, old(lastFrameTime)) && lastFrameTime == now
      ensures Valid() && Textless()
      ensures States(rockets) == old(States(rockets)) && States(particles) == old(States(particles))
    {
      dt := FrameDelta(now, lastFrameTime);
      lastFrameTime := now;
    }

    /** The end of `update()`: `if (this.cameraFollowing) this.updateCamera()`. */
    method Follow()
      requires Valid() && Textless()
      modifies cameraTarget`x, cameraTarget`y, cameraTarget`z
      ensures Valid() && Textless()
      ensures States(rockets) == old(States(rockets)) && States(particles) == old(States(particles))
      ensures cameraFollowing && |particles| > 0 ==>
        cameraTarget.Value() == LerpVec(old(cameraTarget.Value()), particles[0].position.Value(), 0.1)
      ensures !cameraFollowing || |particles| == 0 ==>
        cameraTarget.Value() == old(cameraTarget.Value())
    {
      if cameraFollowing {
        UpdateCamera();
      }
    }

    /** `update()`, with `Date.now()` passed in as `now`: the frame's time step is taken; the
        rocket loop runs, then the particle loop, which also advances the sparks of this
        frame's `exploded` explosions, whose states just after `explode` are `sparks`; then the
        camera follows the first burst particle if it is following. */
    method Update(now: int, rng: Random, trig: Trig)
      returns (ghost exploded: nat, ghost sparks: seq<ParticleState>)
      requires Valid() && Textless()
      modifies this`lastFrameTime, this`rockets, this`particles, rng`history
      modifies rockets`trail, rockets`life, rockets`phase
      modifies particles`trail, particles`life, particles`phase
      modifies cameraTarget`x, cameraTarget`y, cameraTarget`z
      ensures Valid() && Textless() && lastFrameTime == now
      ensures rockets == Climbing(old(rockets), old(States(rockets)))
      ensures StatesAre(rockets, ClimbedStates(old(States(rockets))))
      ensures |rockets| + exploded == old(|rockets|)
      ensures |rng.history| == old(|rng.history|) + BURST_DRAWS * exploded
      ensures old(rng.history) <= rng.history
      ensures |sparks| == BURST * exploded && forall j :: 0 <= j < |sparks| ==> IsSpark(sparks[j])
      ensures |old(particles)| <= |particles| && particles[..|old(particles)|] == old(particles)
      ensures Updatable(old(States(particles)) + sparks)
      ensures StatesAre(particles, Advanced(old(States(particles)) + sparks))
      ensures cameraFollowing && |particles| > 0 ==>
        cameraTarget.Value() == LerpVec(old(cameraTarget.Value()), particles[0].position.Value(), 0.1)
      ensures !cameraFollowing || |particles| == 0 ==>
        cameraTarget.Value() == old(cameraTarget.Value())
    {
      var dt := Tick(now);
      exploded, sparks := Animate(dt, rng, trig);
      ghost var advanced := Advanced(old(States(particles)) + sparks);
      StatesOf(particles, advanced);
      Follow();
    }

    /** `setCameraFollowing(following)`. */
    method SetCameraFollowing(following: bool)
      modifies this`cameraFollowing
      ensures cameraFollowing == following
    {
      cameraFollowing := following;
    }

    /** `setAudioManager(audioManager)`: the model keeps only whether one is set. */
    method SetAudioManager(present: bool)
      modifies this`hasAudio
      ensures hasAudio == present
    {
      hasAudio := present;
    }

    /** `updateCamera()`: the camera's target moves a tenth of the way towards the first burst
        particle, and stays put when there is none; no particle moves. */
    method UpdateCamera()
      requires CameraApart()
      modifies cameraTarget`x, cameraTarget`y, cameraTarget`z
      ensures |particles| > 0 ==>
        cameraTarget.Value() == LerpVec(old(cameraTarget.Value()), particles[0].position.Value(), 0.1)
      ensures |particles| == 0 ==> cameraTarget.Value() == old(cameraTarget.Value())
      ensures forall k :: 0 <= k < |particles| ==> particles[k].State() == old(particles[k].State())
      ensures forall k :: 0 <= k < |rockets| ==> rockets[k].State() == old(rockets[k].State())
    {
      if |particles| > 0 {
        var target := particles[0].position;
        var moved := cameraTarget.Lerp(target, 0.1);
      }
    }

    /** `dispose()`: every handed-out particle is reset and returned to the pool, and the burst
        list is emptied; the rockets stay. */
    method Dispose()
      requires Valid() && PoolValid()
      modifies this`particles, particlePool
      modifies particlePool.active`life, particlePool.active`phase, particlePool.active`text
      modifies Moving(particlePool.active)`x, Moving(particlePool.active)`y, Moving(particlePool.active)`z
      ensures Valid() && PoolValid() && particles == [] && rockets == old(rockets)
      ensures particlePool.active == []
      ensures particlePool.pool == old(particlePool.pool) + old(particlePool.active)
      ensures forall p :: p in old(particlePool.active) ==> p.State() == ResetState(old(p.State()))
    {
      particlePool.ReleaseAll();
      particles := [];
    }

    /** `adjustPerformance()`: a new pool sized for the current mode replaces the old one. */
    method AdjustPerformance()
      requires Valid()
      modifies this`particlePool
      ensures Valid() && PoolValid() && fresh(particlePool)
      ensures particlePool.AvailableCount() == PoolSizeFor(performanceMode)
      ensures particlePool.ActiveCount() == 0
      ensures forall k :: 0 <= k < |particlePool.pool| ==>
        fresh(particlePool.pool[k]) && particlePool.pool[k].State() == INITIAL
    {
      match performanceMode
      case Low => particlePool := new ObjectPool(500);
      case Medium => particlePool := new ObjectPool(750);
      case High => particlePool := new ObjectPool(1000);
    }

    /** The first half of `monitorPerformance()`: the frame rate since the last reading joins
        the history, which keeps at most 60 entries, and their average is returned. */
    method RecordFrame(now: int) returns (avgFps: Fps)
      requires |fpsHistory| <= FPS_WINDOW
      modifies this`lastFrameTime, this`fpsHistory
      ensures lastFrameTime == now && |fpsHistory| <= FPS_WINDOW
      ensures fpsHistory == PushFps(old(fpsHistory), FrameRate(now - old(lastFrameTime)))
      ensures avgFps == AverageFps(fpsHistory)
    {
      var frameTime := now - lastFrameTime;
      lastFrameTime := now;
      var fps := FrameRate(frameTime);
      fpsHistory := PushFps(fpsHistory, fps);
      avgFps := AverageFps(fpsHistory);
    }

    /** `monitorPerformance()`, with `Date.now()` passed in: the frame rate since the last
        reading joins the history, and a low average lowers the mode and replaces the pool. */
    method MonitorPerformance(now: int)
      requires Valid()
      modifies this`lastFrameTime, this`fpsHistory, this`performanceMode, this`particlePool
      ensures Valid() && lastFrameTime == now
      ensures fpsHistory == PushFps(old(fpsHistory), FrameRate(now - old(lastFrameTime)))
      ensures performanceMode == NextMode(old(performanceMode), AverageFps(fpsHistory))
      ensures performanceMode == old(performanceMode) ==> particlePool == old(particlePool)
      ensures performanceMode != old(performanceMode) ==>
        fresh(particlePool) && PoolValid() && particlePool.ActiveCount() == 0
        && particlePool.AvailableCount() == PoolSizeFor(performanceMode)
        && (forall k :: 0 <= k < |particlePool.pool| ==>
             fresh(particlePool.pool[k]) && particlePool.pool[k].State() == INITIAL)
    {
      var avgFps := RecordFrame(now);
      if Below(avgFps, 30.0) && performanceMode != Low {
        performanceMode := Low;
        AdjustPerformance();
      } else if Below(avgFps, 45.0) && performanceMode == High {
        performanceMode := Medium;
        AdjustPerformance();
      }
    }

    /** `this.particlePool.get()` followed by `init(config)`: a particle that no list of the
        display holds, configured as `config` says. */
    method Acquire(config: ParticleConfig) returns (particle: Particle)
      requires RocketsValid() && ParticlesValid() && PoolValid() && CameraOwned()
      modifies particlePool, particlePool.pool
      ensures PoolValid() && RocketsValid() && ParticlesValid()
      ensures particlePool.active == old(particlePool.active) + [particle]
      ensures |particlePool.pool| <= |old(particlePool.pool)|
      ensures particlePool.pool == old(particlePool.pool)[..|particlePool.pool|]
      ensures particle !in old(particlePool.active)
      ensures particle !in rockets && particle !in particles && particle !in particlePool.pool
      ensures particle.position != cameraTarget && particle.velocity != cameraTarget
      ensures particle.acceleration != cameraTarget
      ensures var s := particle.State();
        s == Configured(s, old(config.position.Value()), old(config.velocity.Value()), config.color,
                        config.size, config.decay, config.text)
    {
      particle := particlePool.Get();
      var configured := particle.Init(config);
    }

    /** `createTextParticle(position, color, text)`: a particle from the pool, configured to
        rise slowly at `position` with large, long-lived text, joins the burst list. */
    method CreateTextParticle(position: Vector3, color: Option<Rgba>, text: string)
      requires Valid() && PoolValid() && CameraOwned()
      modifies this`particles, particlePool, particlePool.pool
      ensures Valid() && PoolValid()
      ensures |particles| == |old(particles)| + 1 && particles[..|old(particles)|] == old(particles)
      ensures particlePool.active == old(particlePool.active) + [particles[|old(particles)|]]
      ensures |particlePool.pool| <= |old(particlePool.pool)|
      ensures particlePool.pool == old(particlePool.pool)[..|particlePool.pool|]
      ensures CarriesText(particles[|old(particles)|].State(), old(position.Value()), color, text)
    {
      var velocity := new Vector3(0.0, -1.0, 0.0);
      var particle := Acquire(ParticleConfig(position, velocity, color, Some(20.0), Some(0.01),
                                             Some(text)));
      PushParticle(particle);
    }

    /** The four draws of one pass of the `createExplosionParticles` loop, in source order: speed,
        hue shift, size and decay, and the configuration they give particle `k` of `count`. */
    method DrawFragment(k: nat, count: nat, baseHue: real, color: Option<Rgba>, rng: Random,
                        trig: Trig, ghost start: nat, ghost done: seq<FragmentDraws>)
      returns (f: Fragment, ghost d: FragmentDraws)
      requires k < count && 0.0 <= baseHue && |rng.history| == start + 4 * k
      requires done == Passes(rng.history, start, k)
      modifies rng`history
      ensures old(rng.history) <= rng.history
      ensures |rng.history| == old(|rng.history|) + 4
      ensures done + [d] == Passes(rng.history, start, k + 1)
      ensures f == FragmentOf(k, count, baseHue, color, d, trig)
      ensures 2.0 <= f.size && 0.015 <= f.decay
    {
      var speedDraw := rng.Next();
      var hueDraw := rng.Next();
      var sizeDraw := rng.Next();
      var decayDraw := rng.Next();
      d := FragmentDraws(speedDraw, hueDraw, sizeDraw, decayDraw);
      f := FragmentOf(k, count, baseHue, color,
                      FragmentDraws(speedDraw, hueDraw, sizeDraw, decayDraw), trig);
      FragmentBounds(k, count, baseHue, color, d, trig);
      PassesPrefix(old(rng.history), rng.history, start, k);
      PassesNext(rng.history, start, k);
    }

    /** The rest of one pass of the `createExplosionParticles` loop up to the push: a particle
        from the pool, configured at `position` with `f`; the particles handed out before it,
        `earlier`, are left as they were. */
    method AcquireFragment(position: Vector3, f: Fragment, ghost earlier: seq<Particle>)
      returns (particle: Particle)
      requires Drawing()
      requires f.size != 0.0 && f.decay != 0.0
      requires forall j :: 0 <= j < |earlier| ==> Handed(earlier[j])
      modifies particlePool, particlePool.pool
      ensures Drawing()
      ensures particlePool.active == old(particlePool.active) + [particle]
      ensures |particlePool.pool| <= |old(particlePool.pool)|
      ensures forall j :: 0 <= j < |particlePool.pool| ==>
        particlePool.pool[j] == old(particlePool.pool)[j]
      ensures Handed(particle) && Carries(particle.State(), old(position.Value()), f)
      ensures forall j :: 0 <= j < |earlier| ==>
        Handed(earlier[j]) && earlier[j].State() == old(earlier[j].State())
    {
      var velocity := new Vector3(f.velocity.x, f.velocity.y, f.velocity.z);
      particle := Acquire(ParticleConfig(position, velocity, Some(f.color), Some(f.size),
                                         Some(f.decay), None));
    }

    /** The `createExplosionParticles` loop has handed out `batch` from the pool, in order,
        configured from the passes `ds`; the pool has only shrunk from `pool0` and handed out
        `batch` after `active0`. */
    ghost predicate Handing(batch: seq<Particle>, ds: seq<FragmentDraws>, origin: Vec,
                            count: nat, baseHue: real, color: Option<Rgba>, trig: Trig,
                            pool0: seq<Particle>, active0: seq<Particle>)
      reads this, particlePool, particlePool.pool, particlePool.active, rockets, cameraTarget
      reads Footprint(particlePool.pool), Footprint(particlePool.active), batch
      reads Footprint(batch)
    {
      Drawing() && PoolWithin(pool0) && particlePool.active == active0 + batch
      && HandedAll(batch, origin, ds, count, baseHue, color, trig)
    }

    /** ... and `ds` are the passes of the draws from `start`. */
    ghost predicate Drawn(batch: seq<Particle>, ds: seq<FragmentDraws>, start: nat, origin: Vec,
                          count: nat, baseHue: real, color: Option<Rgba>, trig: Trig, rng: Random,
                          pool0: seq<Particle>, active0: seq<Particle>)
      reads this, particlePool, particlePool.pool, particlePool.active, rockets, cameraTarget
      reads Footprint(particlePool.pool), Footprint(particlePool.active), rng, batch
      reads Footprint(batch)
    {
      |batch| <= count && |rng.history| == start + 4 * |batch|
      && ds == Passes(rng.history, start, |batch|)
      && Handing(batch, ds, origin, count, baseHue, color, trig, pool0, active0)
    }

    /** The pool step of one pass of the `createExplosionParticles` loop: a particle from the
        pool configured with `f`, the fragment of pass `d`, at `position`. */
    method HandNext(position: Vector3, f: Fragment, color: Option<Rgba>, baseHue: real,
                    count: nat, ghost start: nat, rng: Random, trig: Trig,
                    ghost batch: seq<Particle>, ghost ds: seq<FragmentDraws>,
                    ghost d: FragmentDraws, ghost origin: Vec, ghost pool0: seq<Particle>,
                    ghost active0: seq<Particle>)
      returns (particle: Particle)
      requires |batch| < count && f == FragmentOf(|batch|, count, baseHue, color, d, trig)
      requires 2.0 <= f.size && 0.015 <= f.decay && position.Value() == origin
      requires |rng.history| == start + 4 * (|batch| + 1)
      requires ds + [d] == Passes(rng.history, start, |batch| + 1)
      requires Handing(batch, ds, origin, count, baseHue, color, trig, pool0, active0)
      modifies particlePool, pool0
      ensures Drawn(batch + [particle], ds + [d], start, origin, count, baseHue, color, trig, rng,
                    pool0, active0)
    {
      particle := AcquireFragment(position, f, batch);
      assert CarriesAll(batch, origin, ds, count, baseHue, color, trig) by {
        forall j | 0 <= j < |batch|
          ensures Carries(batch[j].State(), origin,
                          FragmentOf(j, count, baseHue, color, ds[j], trig))
        {
          assert old(Carries(batch[j].State(), origin,
                             FragmentOf(j, count, baseHue, color, ds[j], trig)));
        }
      }
      CarriesAllSnoc(batch, origin, ds, count, baseHue, color, trig, particle, d);
    }

    /** The four draws of a pass, while the particles handed out so far stay as they are. */
    method DrawKeeping(k: nat, count: nat, baseHue: real, color: Option<Rgba>, rng: Random,
                       trig: Trig, ghost start: nat, ghost batch: seq<Particle>,
                       ghost ds: seq<FragmentDraws>, ghost origin: Vec,
                       ghost pool0: seq<Particle>, ghost active0: seq<Particle>)
      returns (f: Fragment, ghost d: FragmentDraws)
      requires k < count && 0.0 <= baseHue && |rng.history| == start + 4 * k
      requires ds == Passes(rng.history, start, k)
      requires Handing(batch, ds, origin, count, baseHue, color, trig, pool0, active0)
      modifies rng`history
      ensures old(rng.history) <= rng.history
      ensures |rng.history| == old(|rng.history|) + 4
      ensures ds + [d] == Passes(rng.history, start, k + 1)
      ensures f == FragmentOf(k, count, baseHue, color, d, trig)
      ensures 2.0 <= f.size && 0.015 <= f.decay
      ensures Handing(batch, ds, origin, count, baseHue, color, trig, pool0, active0)
    {
      f, d := DrawFragment(k, count, baseHue, color, rng, trig, start, ds);
    }

    /** One pass of the `createExplosionParticles` loop up to the push: its four draws, then a
        particle from the pool configured with them at `position`. */
    method NextFragment(position: Vector3, color: Option<Rgba>, baseHue: real, count: nat,
                        ghost start: nat, rng: Random, trig: Trig, batch: seq<Particle>,
                        ghost ds: seq<FragmentDraws>, ghost pool0: seq<Particle>,
                        ghost active0: seq<Particle>)
      returns (batch': seq<Particle>, ghost ds': seq<FragmentDraws>)
      requires |batch| < count && 0.0 <= baseHue
      requires Drawn(batch, ds, start, position.Value(), count, baseHue, color, trig, rng, pool0,
                     active0)
      modifies particlePool, pool0, rng`history
      ensures old(rng.history) <= rng.history && |batch'| == |batch| + 1
      ensures Drawn(batch', ds', start, old(position.Value()), count, baseHue, color, trig, rng,
                    pool0, active0)
    {
      ghost var origin := position.Value();
      var f, d := DrawKeeping(|batch|, count, baseHue, color, rng, trig, start, batch, ds, origin,
                              pool0, active0);
      var particle := HandNext(position, f, color, baseHue, count, start, rng, trig, batch, ds, d,
                               origin, pool0, active0);
      batch' := batch + [particle];
      ds' := ds + [d];
    }

    /** The `createExplosionParticles` loop without its pushes: `count` passes, each drawing four
        numbers and handing out a particle from the pool configured with them. */
    method FragmentLoop(position: Vector3, color: Option<Rgba>, baseHue: real, count: nat,
                        ghost start: nat, rng: Random, trig: Trig, ghost pool0: seq<Particle>,
                        ghost active0: seq<Particle>)
      returns (batch: seq<Particle>, ghost ds: seq<FragmentDraws>)
      requires 0.0 <= baseHue
      requires Drawn([], [], start, position.Value(), count, baseHue, color, trig, rng, pool0,
                     active0)
      modifies particlePool, pool0, rng`history
      ensures old(rng.history) <= rng.history && |batch| == count
      ensures Drawn(batch, ds, start, old(position.Value()), count, baseHue, color, trig, rng,
                    pool0, active0)
    {
      ghost var origin := position.Value();
      ds := [];
      batch := [];
      while |batch| < count
        invariant old(rng.history) <= rng.history
        invariant Drawn(batch, ds, start, origin, count, baseHue, color, trig, rng, pool0, active0)
        decreases count - |batch|
      {
        batch, ds := NextFragment(position, color, baseHue, count, start, rng, trig, batch, ds,
                                  pool0, active0);
      }
    }

    /** `count` particles from the pool, each configured with its own four draws, not yet
        joined to the burst list. */
    method AcquireFragments(position: Vector3, color: Option<Rgba>, baseHue: real, count: nat,
                            ghost first: nat, rng: Random, trig: Trig)
      returns (batch: seq<Particle>)
      requires 0 < count && 0.0 <= baseHue && Valid() && PoolValid() && CameraOwned()
      requires |rng.history| == first + 2
      modifies particlePool, particlePool.pool, rng`history
      ensures old(rng.history) <= rng.history
      ensures Valid() && PoolValid()
      ensures |rng.history| == first + 2 + 4 * count && |batch| == count && Distinct(batch)
      ensures particlePool.active == old(particlePool.active) + batch
      ensures HandedAll(batch, old(position.Value()), Passes(rng.history, first + 2, count), count,
                        baseHue, color, trig)
    {
      assert States([]) == [];
      ghost var ds;
      batch, ds := FragmentLoop(position, color, baseHue, count, first + 2, rng, trig,
                                particlePool.pool, particlePool.active);
      DistinctSuffix(old(particlePool.active), batch);
    }

    /** The first draw of `createExplosionParticles`, made only when an audio manager is set:
        `Math.random() < 0.3` decides whether the whistle plays too. */
    method Whistle(rng: Random)
      requires Valid() && PoolValid() && CameraOwned()
      modifies rng`history
      ensures Valid() && PoolValid() && CameraOwned()
      ensures old(rng.history) <= rng.history
      ensures |rng.history| == old(|rng.history|) + (if hasAudio then 1 else 0)
    {
      if hasAudio {
        var whistleDraw := rng.Next();
      }
    }

    /** The part of `createExplosionParticles` after the whistle: the count (50 to 99) and the
        base hue, then `count` particles from the pool, each with its own four draws, not yet
        joined to the burst list. */
    method AcquireBurst(position: Vector3, color: Option<Rgba>, rng: Random, trig: Trig)
      returns (batch: seq<Particle>)
      requires Valid() && PoolValid() && CameraOwned()
      modifies particlePool, particlePool.pool, rng`history
      ensures old(rng.history) <= rng.history
      ensures Valid() && PoolValid() && Distinct(batch)
      ensures particles == old(particles) && hasAudio == old(hasAudio)
      ensures particlePool.active == old(particlePool.active) + batch
      ensures forall k :: 0 <= k < |batch| ==> Handed(batch[k])
      ensures BurstFrom(batch, old(position.Value()), rng.history, old(|rng.history|), color, trig)
    {
      ghost var origin := position.Value();
      ghost var first := |rng.history|;
      var countDraw := rng.Next();
      var particleCount := ExplosionCount(countDraw);
      var hueDraw := rng.Next();
      var baseHue := hueDraw * 360.0;
      ghost var drawn := rng.history;
      batch := AcquireFragments(position, color, baseHue, particleCount, first, rng, trig);
      assert drawn <= rng.history && drawn == old(rng.history) + [countDraw, hueDraw];
      assert hueDraw == rng.history[first + 1] && countDraw == rng.history[first];
      BurstFromPasses(batch, origin, rng.history, first, color, trig, particleCount, baseHue);
    }

    /** `createExplosionParticles` without text: a draw for the whistle when an audio manager is
        set, then the count (50 to 99) and the base hue, then four draws per particle; every
        particle comes from the pool and starts at `position`, spread evenly around the circle. */
    method CreateBurst(position: Vector3, color: Option<Rgba>, rng: Random, trig: Trig)
      requires Valid() && PoolValid() && CameraOwned()
      modifies this`particles, particlePool, particlePool.pool, rng`history
      ensures old(rng.history) <= rng.history
      ensures Valid() && PoolValid()
      ensures |old(particles)| <= |particles| && particles[..|old(particles)|] == old(particles)
      ensures particlePool.active == old(particlePool.active) + particles[|old(particles)|..]
      ensures var first := old(|rng.history|) + (if hasAudio then 1 else 0);
        BurstFrom(particles[|old(particles)|..], old(position.Value()), rng.history, first, color,
                  trig)
    {
      ghost var origin := position.Value();
      Whistle(rng);
      ghost var first := |rng.history|;
      var batch := AcquireBurst(position, color, rng, trig);
      AppendBurst(batch, origin, rng.history, first, color, trig);
      assert particles[|old(particles)|..] == batch;
    }

    /** `createExplosionParticles(position, color, text)`: one text particle when the text is
        non-empty, a burst from the pool otherwise. */
    method CreateExplosionParticles(position: Vector3, color: Option<Rgba>, text: Option<string>,
                                    rng: Random, trig: Trig)
      requires Valid() && PoolValid() && CameraOwned()
      modifies this`particles, particlePool, particlePool.pool, rng`history
      ensures old(rng.history) <= rng.history
      ensures Valid() && PoolValid()
      ensures |old(particles)| <= |particles| && particles[..|old(particles)|] == old(particles)
      ensures particlePool.active == old(particlePool.active) + particles[|old(particles)|..]
      ensures StringOrNull(text).Some? ==>
        |rng.history| == old(|rng.history|) && |particles| == |old(particles)| + 1
        && CarriesText(particles[|old(particles)|].State(), old(position.Value()), color, text.value)
      ensures StringOrNull(text).None? ==>
        var first := old(|rng.history|) + (if hasAudio then 1 else 0);
        BurstFrom(particles[|old(particles)|..], old(position.Value()), rng.history, first, color,
                  trig)
    {
      if StringOrNull(text).Some? {
        CreateTextParticle(position, color, text.value);
        assert particles[|old(particles)|..] == [particles[|old(particles)|]];
      } else {
        CreateBurst(position, color, rng, trig);
      }
    }
  }
}
