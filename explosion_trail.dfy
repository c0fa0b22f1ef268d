/** The streak a burst fragment can leave: a newest-first history of at most ten samples of its
    position, each fading in alpha and size on every update, while the streak's own `life`
    burns down by a fixed decay. */
module Trails {
  import opened RealArith
  import opened Js
  import opened MathUtil
  import opened FireworkColors

  /** One entry of `particles`: a copy of the position, a size, an alpha and a colour. */
  datatype Sample = Sample(position: Vec, size: real, alpha: real, color: seq<real>)

  /** `particles` and `life`, the part of a streak that `update` changes. */
  datatype TrailState = TrailState(samples: seq<Sample>, life: real)

  const MAX_SAMPLES: nat := 10
  const DECAY: real := 0.012
  const ALPHA_FADE: real := 0.88
  const SIZE_FADE: real := 0.92
  const END_COLOR: seq<real> := [1.0, 1.0, 1.0, 1.0]

  /** The constructor's options. The model fixes the `hslToRgb` option to the display's own
      conversion, `FireworkColors.HslToRgb`, and so does not carry it. */
  datatype TrailOptions = TrailOptions(position: Vector3, velocity: Vector3, baseHue: real, layer: int)

  /** `interpolateColor(c1, c2, factor)`: `c1.map((c, i) => c + (c2[i] - c) * factor)`. The
      precondition keeps `c2[i]` defined; the streak passes a three-channel colour and the
      four-channel white. */
  function InterpolateColor(c1: seq<real>, c2: seq<real>, factor: real): (r: seq<real>)
    requires |c1| <= |c2|
    ensures |r| == |c1|
    ensures forall i :: 0 <= i < |c1| ==> r[i] - c1[i] == (c2[i] - c1[i]) * factor
  {
    seq(|c1|, i requires 0 <= i < |c1| => c1[i] + (c2[i] - c1[i]) * factor)
  }

  /** Factor 0 gives the first colour and factor 1 the matching channels of the second. */
  lemma InterpolateEnds(c1: seq<real>, c2: seq<real>)
    requires |c1| <= |c2|
    ensures InterpolateColor(c1, c2, 0.0) == c1
    ensures InterpolateColor(c1, c2, 1.0) == c2[..|c1|]
  {}

  /** With a factor in [0, 1] each channel lies between the two inputs' channels. */
  lemma InterpolateBetween(c1: seq<real>, c2: seq<real>, factor: real)
    requires |c1| <= |c2| && 0.0 <= factor <= 1.0
    ensures forall i :: 0 <= i < |c1| ==> Between(c1[i], c2[i], InterpolateColor(c1, c2, factor)[i])
  {
    forall i | 0 <= i < |c1|
      ensures Between(c1[i], c2[i], InterpolateColor(c1, c2, factor)[i])
    {
      LerpComponentBetween(c1[i], c2[i], factor);
    }
  }

  /** `generateColor()` with the value of `Math.random()` passed in as `draw`: a hue up to 30
      degrees past `baseHue`, reduced by JavaScript's `% 360`, at saturation 0.8 and lightness
      0.5. */
  function GenerateColor(baseHue: real, draw: real): (rgb: seq<real>)
    requires 0.0 <= draw < 1.0
    ensures |rgb| == 3
    ensures 0.0 <= baseHue ==> forall i :: 0 <= i < 3 ==> 0.0 <= rgb[i] <= 1.0
  {
    var hue := Rem(baseHue + draw * 30.0, 360.0);
    if 0.0 <= baseHue then
      HslToRgbInRange(hue / 360.0, 0.8, 0.5);
      HslToRgb(hue / 360.0, 0.8, 0.5)
    else
      HslToRgb(hue / 360.0, 0.8, 0.5)
  }

  /** What one `forEach` pass does to a sample. */
  function Faded(s: Sample): (r: Sample)
    ensures r.position == s.position && r.color == s.color
    ensures 0.0 <= s.alpha ==> 0.0 <= r.alpha <= s.alpha
    ensures 0.0 <= s.size ==> 0.0 <= r.size <= s.size
  {
    s.(alpha := s.alpha * ALPHA_FADE, size := s.size * SIZE_FADE)
  }

  /** The sample `update` adds for a streak at `position` with life `life`, before fading. */
  function NewSample(position: Vec, life: real, baseColor: seq<real>): Sample
    requires |baseColor| <= |END_COLOR|
  {
    Sample(position, 2.0 * life, life, InterpolateColor(baseColor, END_COLOR, 1.0 - life))
  }

  /** One `update`: the new sample goes in front, the oldest drops out past ten, every sample
      fades once, and `life` drops by the decay. */
  function Step(t: TrailState, position: Vec, baseColor: seq<real>): (r: TrailState)
    requires |baseColor| <= |END_COLOR|
    ensures r.life == t.life - DECAY
    ensures |t.samples| < MAX_SAMPLES ==> |r.samples| == |t.samples| + 1
    ensures MAX_SAMPLES <= |t.samples| ==> |r.samples| == |t.samples|
  {
    var pushed := [NewSample(position, t.life, baseColor)] + t.samples;
    var kept := if |pushed| > MAX_SAMPLES then pushed[..|pushed| - 1] else pushed;
    TrailState(seq(|kept|, i requires 0 <= i < |kept| => Faded(kept[i])), t.life - DECAY)
  }

  /** The samples after one `update`: the new one in front, then the old ones shifted back by
      one place, each faded once. */
  lemma StepSamples(t: TrailState, position: Vec, baseColor: seq<real>)
    requires |baseColor| <= |END_COLOR|
    ensures 0 < |Step(t, position, baseColor).samples|
    ensures Step(t, position, baseColor).samples[0] == Faded(NewSample(position, t.life, baseColor))
    ensures forall i :: 0 < i < |Step(t, position, baseColor).samples| ==>
      Step(t, position, baseColor).samples[i] == Faded(t.samples[i - 1])
  {}

  /** `n` successive updates of a streak that stays at `position`. */
  function Steps(t: TrailState, position: Vec, baseColor: seq<real>, n: nat): TrailState
    requires |baseColor| <= |END_COLOR|
  {
    if n == 0 then t else Step(Steps(t, position, baseColor, n - 1), position, baseColor)
  }

  /** `x` multiplied `k` times by `b`: `b^k * x`. */
  function Fade(b: real, k: nat, x: real): real {
    if k == 0 then x else Fade(b, k - 1, x) * b
  }

  /** After `n` updates the streak has lost `n` decays of life and holds up to ten samples. */
  lemma {:induction false} StepsShape(t: TrailState, position: Vec, baseColor: seq<real>, n: nat)
    requires |baseColor| <= |END_COLOR| && |t.samples| <= MAX_SAMPLES
    ensures Steps(t, position, baseColor, n).life == t.life - n as real * DECAY
    ensures |Steps(t, position, baseColor, n).samples| == Min(|t.samples| + n, MAX_SAMPLES)
  {
    if n > 0 {
      StepsShape(t, position, baseColor, n - 1);
    }
  }

  /** A sample added at life `life` once it has faded `k + 1` times. */
  function Aged(position: Vec, life: real, baseColor: seq<real>, k: nat): Sample
    requires |baseColor| <= |END_COLOR|
  {
    Sample(position, Fade(SIZE_FADE, k + 1, 2.0 * life), Fade(ALPHA_FADE, k + 1, life),
           InterpolateColor(baseColor, END_COLOR, 1.0 - life))
  }

  /** The sample added `k` updates ago (the `k`-th, newest first) has faded `k + 1` times from
      the life the streak had when it was added, after `m` updates. */
  lemma {:induction false} StepsSample(t: TrailState, position: Vec, baseColor: seq<real>, m: nat, k: nat)
    requires |baseColor| <= |END_COLOR| && |t.samples| <= MAX_SAMPLES && k < MAX_SAMPLES
    ensures k < |Steps(t, position, baseColor, m + k + 1).samples|
    ensures Steps(t, position, baseColor, m + k + 1).samples[k] ==
      Aged(position, Steps(t, position, baseColor, m).life, baseColor, k)
  {
    var life := Steps(t, position, baseColor, m).life;
    if k == 0 {
      StepsNewest(t, position, baseColor, m + 1);
      assert m + 1 - 1 == m;
    } else {
      var prev := Steps(t, position, baseColor, m + k);
      StepsSample(t, position, baseColor, m, k - 1);
      assert m + (k - 1) + 1 == m + k;
      StepAged(prev, position, baseColor, life, k);
      assert Steps(t, position, baseColor, m + k + 1) == Step(prev, position, baseColor);
    }
  }

  /** With the life written out: the sample added `k` updates ago has alpha
      `0.88^(k+1) * life` and size `0.92^(k+1) * 2 * life`, where `life` is the starting life
      less `n - 1 - k` decays. */
  lemma SampleFade(t: TrailState, position: Vec, baseColor: seq<real>, n: nat, k: nat)
    requires |baseColor| <= |END_COLOR| && |t.samples| <= MAX_SAMPLES
    requires k < n && k < MAX_SAMPLES
    ensures k < |Steps(t, position, baseColor, n).samples|
    ensures Steps(t, position, baseColor, n).samples[k].alpha ==
      Fade(ALPHA_FADE, k + 1, t.life - (n - 1 - k) as real * DECAY)
    ensures Steps(t, position, baseColor, n).samples[k].size ==
      Fade(SIZE_FADE, k + 1, 2.0 * (t.life - (n - 1 - k) as real * DECAY))
    ensures Steps(t, position, baseColor, n).samples[k].position == position
  {
    var m := n - 1 - k;
    StepsSample(t, position, baseColor, m, k);
    assert m + k + 1 == n;
    StepsShape(t, position, baseColor, m);
    var life := Steps(t, position, baseColor, m).life;
    assert life == t.life - (n - 1 - k) as real * DECAY;
    var aged := Aged(position, life, baseColor, k);
    assert aged.size == Fade(SIZE_FADE, k + 1, 2.0 * (t.life - (n - 1 - k) as real * DECAY));
    var now := Steps(t, position, baseColor, n);
    assert k < |now.samples| && now.samples[k] == aged;
  }

  /** The newest sample after `n` updates was added by the last of them. */
  lemma StepsNewest(t: TrailState, position: Vec, baseColor: seq<real>, n: nat)
    requires |baseColor| <= |END_COLOR| && |t.samples| <= MAX_SAMPLES && 0 < n
    ensures 0 < |Steps(t, position, baseColor, n).samples|
    ensures Steps(t, position, baseColor, n).samples[0] ==
      Aged(position, Steps(t, position, baseColor, n - 1).life, baseColor, 0)
  {
    StepSamples(Steps(t, position, baseColor, n - 1), position, baseColor);
    FadedNew(position, Steps(t, position, baseColor, n - 1).life, baseColor);
  }

  /** One update turns the sample aged `k - 1` into one aged `k`, one place further back. */
  lemma StepAged(prev: TrailState, position: Vec, baseColor: seq<real>, life: real, k: nat)
    requires |baseColor| <= |END_COLOR| && 0 < k < MAX_SAMPLES && k - 1 < |prev.samples|
    requires prev.samples[k - 1] == Aged(position, life, baseColor, k - 1)
    ensures k < |Step(prev, position, baseColor).samples|
    ensures Step(prev, position, baseColor).samples[k] == Aged(position, life, baseColor, k)
  {
    StepSamples(prev, position, baseColor);
    FadedAged(position, life, baseColor, k - 1);
  }

  lemma FadedNew(position: Vec, life: real, baseColor: seq<real>)
    requires |baseColor| <= |END_COLOR|
    ensures Faded(NewSample(position, life, baseColor)) == Aged(position, life, baseColor, 0)
  {
    assert Fade(ALPHA_FADE, 1, life) == life * ALPHA_FADE;
    assert Fade(SIZE_FADE, 1, 2.0 * life) == 2.0 * life * SIZE_FADE;
  }

  lemma FadedAged(position: Vec, life: real, baseColor: seq<real>, k: nat)
    requires |baseColor| <= |END_COLOR|
    ensures Faded(Aged(position, life, baseColor, k)) == Aged(position, life, baseColor, k + 1)
  {
    assert Fade(ALPHA_FADE, k + 2, life) == Fade(ALPHA_FADE, k + 1, life) * ALPHA_FADE;
    assert Fade(SIZE_FADE, k + 2, 2.0 * life) == Fade(SIZE_FADE, k + 1, 2.0 * life) * SIZE_FADE;
  }

  class ExplosionTrail {
    /** Shared with whoever built the options; `update` never changes them. */
    var position: Vector3
    var velocity: Vector3
    var baseHue: real
    var layer: int
    var particles: seq<Sample>
    const maxParticles: nat := MAX_SAMPLES
    var life: real
    const decay: real := DECAY
    var baseColor: seq<real>
    const endColor: seq<real> := END_COLOR

    /** The history never exceeds its capacity, and the base colour has no more channels than
        the end colour it is blended towards. */
    ghost predicate Valid()
      reads this
    {
      |particles| <= maxParticles && |baseColor| <= |endColor|
    }

    function State(): TrailState
      reads this
    {
      TrailState(particles, life)
    }

    /** `new ExplosionTrail(options)`: the vectors are taken by reference, the history starts
        empty at full life, and the base colour uses one draw of `Math.random()`. */
    constructor (options: TrailOptions, rng: Random)
      modifies rng`history
      ensures old(rng.history) <= rng.history
      ensures Valid() && particles == [] && life == 1.0
      ensures position == options.position && velocity == options.velocity
      ensures baseHue == options.baseHue && layer == options.layer
      ensures |rng.history| == old(|rng.history|) + 1
      ensures var draw := rng.history[old(|rng.history|)];
        0.0 <= draw < 1.0 && baseColor == GenerateColor(options.baseHue, draw)
    {
      position := options.position;
      velocity := options.velocity;
      baseHue := options.baseHue;
      layer := options.layer;
      particles := [];
      life := 1.0;
      new;
      var draw := rng.Next();
      baseColor := GenerateColor(baseHue, draw);
    }

    /** `update(dt)`. The sums `add` and `multiply` return are dropped, so the streak never
        moves; the result is whether any life is left. */
    method Update(dt: real) returns (alive: bool)
      requires Valid()
      modifies this`particles, this`life
      ensures Valid()
      ensures State() == Step(old(State()), position.Value(), baseColor)
      ensures position.Value() == old(position.Value()) && velocity.Value() == old(velocity.Value())
      ensures alive <==> life > 0.0
    {
      ghost var expected := Step(State(), position.Value(), baseColor);
      StepSamples(State(), position.Value(), baseColor);
      var moved := Plus(position.Value(), Scale(velocity.Value(), dt));
      particles := [NewSample(position.Value(), life, baseColor)] + particles;
      if |particles| > maxParticles {
        particles := particles[..|particles| - 1];
      }
      ghost var kept := particles;
      assert |kept| == |expected.samples| && kept[0] == NewSample(position.Value(), life, baseColor);
      assert forall k :: 0 < k < |kept| ==> kept[k] == old(particles)[k - 1];
      var i := 0;
      while i < |particles|
        invariant 0 <= i <= |particles| == |kept| && life == old(life)
        invariant forall k :: 0 <= k < i ==> particles[k] == Faded(kept[k])
        invariant forall k :: i <= k < |particles| ==> particles[k] == kept[k]
      {
        var s := particles[i];
        particles := particles[i := s.(alpha := s.alpha * ALPHA_FADE, size := s.size * SIZE_FADE)];
        i := i + 1;
      }
      assert forall k :: 0 <= k < |particles| ==> particles[k] == expected.samples[k];
      life := life - decay;
      var slowed := Scale(velocity.Value(), 0.98);
      alive := life > 0.0;
    }
  }
}
