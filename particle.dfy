/** A particle of the display: a rocket before it bursts, or one spark of a burst. Each update
    keeps a short trail of past positions, burns `life`, and may move the particle from the
    launch phase to the explode phase. */
module Particles {
  import opened Js
  import opened MathUtil
  import opened FireworkColors

  /** The `phase` string. The source also mentions a `'fade'` phase, which is never assigned. */
  datatype Phase = Launch | Explode

  /** The fields `handleFuseBurnout` attaches to a rocket after building it. */
  datatype LaunchTarget = LaunchTarget(displayHeight: real, targetHeight: real, startY: real)

  /** The argument of `init`. A missing entry is `None`. */
  datatype ParticleConfig = ParticleConfig(
    position: Vector3,
    velocity: Vector3,
    color: Option<Rgba>,
    size: Option<real>,
    decay: Option<real>,
    text: Option<string>)

  /** Everything a particle holds, as a value: its vectors by their components. */
  datatype ParticleState = ParticleState(
    position: Vec,
    velocity: Vec,
    acceleration: Vec,
    color: Rgba,
    life: real,
    decay: real,
    size: real,
    phase: Phase,
    trail: seq<Vec>,
    text: Option<string>,
    target: Option<LaunchTarget>)

  const MAX_TRAIL_LENGTH: nat := 5
  const GRAVITY: Vec := Vec(0.0, -9.8, 0.0)
  const WHITE: Rgba := Rgba(1.0, 1.0, 1.0, 1.0)

  /** The state the constructor builds. */
  const INITIAL: ParticleState :=
    ParticleState(ZERO, ZERO, GRAVITY, WHITE, 1.0, 0.02, 2.0, Launch, [], None, None)

  /** The trail after `unshift(p)` followed, when it then holds more than five entries, by one
      `pop()`. */
  function PushTrail(trail: seq<Vec>, p: Vec): (r: seq<Vec>)
    ensures 0 < |r| && r[0] == p
    ensures |trail| < MAX_TRAIL_LENGTH ==> |r| == |trail| + 1
    ensures MAX_TRAIL_LENGTH <= |trail| ==> |r| == |trail|
    ensures forall i :: 0 < i < |r| ==> r[i] == trail[i - 1]
  {
    var pushed := [p] + trail;
    if |pushed| > MAX_TRAIL_LENGTH then pushed[..|pushed| - 1] else pushed
  }

  /** One `update` of a particle whose text branch is not taken: the trail gains the current
      position, `life` drops by `decay`, and a launching particle that is not moving up
      (`velocity.y >= 0`, the screen's y axis points down) explodes. Position and velocity stay
      put because `update` throws away the vectors `add` returns. */
  function Advance(s: ParticleState): (r: ParticleState)
    requires s.phase == Launch ==> s.text.None?
    ensures r.position == s.position && r.velocity == s.velocity
    ensures r.acceleration == s.acceleration && r.text == s.text
    ensures r.color == s.color && r.size == s.size && r.decay == s.decay && r.target == s.target
    ensures r.phase == Explode <==> s.phase == Explode || 0.0 <= s.velocity.y
  {
    var phase := if s.phase == Launch && 0.0 <= s.velocity.y then Explode else s.phase;
    s.(trail := PushTrail(s.trail, s.position), life := s.life - s.decay, phase := phase)
  }

  /** `n` successive updates. */
  function Updated(s: ParticleState, n: nat): (r: ParticleState)
    requires s.phase == Launch ==> s.text.None?
    ensures r.text == s.text
    ensures r.phase == Launch ==> s.phase == Launch
  {
    if n == 0 then s else Advance(Updated(s, n - 1))
  }

  /** What repeated updates do: position and velocity never move, `life` falls by `decay` each
      time, and the particle is exploded after `n` updates exactly when it was exploded already
      or, with at least one update, it is not moving up. */
  lemma {:induction false} UpdatedEffect(s: ParticleState, n: nat)
    requires s.phase == Launch ==> s.text.None?
    ensures Updated(s, n).position == s.position && Updated(s, n).velocity == s.velocity
    ensures Updated(s, n).decay == s.decay && Updated(s, n).life == s.life - n as real * s.decay
    ensures Updated(s, n).phase == Explode <==> s.phase == Explode || (0 < n && 0.0 <= s.velocity.y)
  {
    if n > 0 {
      UpdatedEffect(s, n - 1);
      StepDown(n, s.decay);
    }
  }

  /** The trail after `n` updates: it fills up to five entries, and the newest `n` of them are
      copies of the (unchanging) position. */
  lemma {:induction false} UpdatedTrail(s: ParticleState, n: nat)
    requires s.phase == Launch ==> s.text.None?
    requires |s.trail| <= MAX_TRAIL_LENGTH
    ensures |Updated(s, n).trail| == Min(|s.trail| + n, MAX_TRAIL_LENGTH)
    ensures forall k :: 0 <= k < n && k < |Updated(s, n).trail| ==> Updated(s, n).trail[k] == s.position
  {
    if n > 0 {
      UpdatedTrail(s, n - 1);
      UpdatedEffect(s, n - 1);
      var prev := Updated(s, n - 1);
      var t := Updated(s, n).trail;
      assert t == PushTrail(prev.trail, s.position);
      forall k | 0 <= k < n && k < |t|
        ensures t[k] == s.position
      {
        if k > 0 {
          assert t[k] == prev.trail[k - 1];
        }
      }
    }
  }

  lemma StepDown(n: nat, d: real)
    requires 0 < n
    ensures (n - 1) as real * d + d == n as real * d
  {}

  /** A launching particle that moves up never explodes, however many updates it gets: the
      rockets the display launches (upward, `velocity.y < 0`) stay in their launch phase. */
  lemma LaunchingUpwardNeverExplodes(s: ParticleState, n: nat)
    requires s.phase == Launch && s.text.None? && s.velocity.y < 0.0
    ensures Updated(s, n).phase == Launch
  {
    UpdatedEffect(s, n);
  }

  /** What `isDead()` tests: no life left. */
  predicate Dead(s: ParticleState) {
    s.life <= 0.0
  }

  /** A particle is dead after `n` updates exactly when `n * decay` has used up its life. */
  lemma DeadAfter(s: ParticleState, n: nat)
    requires s.phase == Launch ==> s.text.None?
    ensures Dead(Updated(s, n)) <==> s.life <= n as real * s.decay
  {
    UpdatedEffect(s, n);
  }

  /** The state `init(config)` leaves: position and velocity copied from the configuration, life
      and phase restarted, and each falsy entry replaced by its default. The trail, the
      acceleration and any launch target survive. */
  function Configured(s: ParticleState, position: Vec, velocity: Vec, color: Option<Rgba>,
                      size: Option<real>, decay: Option<real>, text: Option<string>): (r: ParticleState)
    ensures r.life == 1.0 && r.phase == Launch
    ensures r.position == position && r.velocity == velocity
    ensures r.trail == s.trail && r.acceleration == s.acceleration && r.target == s.target
    ensures r.color == (if color.Some? then color.value else WHITE)
    ensures size.None? || size.value == 0.0 ==> r.size == 2.0
    ensures size.Some? && size.value != 0.0 ==> r.size == size.value
    ensures decay.None? || decay.value == 0.0 ==> r.decay == 0.02
    ensures decay.Some? && decay.value != 0.0 ==> r.decay == decay.value
    ensures r.text.Some? ==> r.text == text && text.value != ""
    ensures text.Some? && text.value != "" ==> r.text == text
  {
    s.(position := position, velocity := velocity,
       color := if color.Some? then color.value else WHITE,
       life := 1.0, phase := Launch,
       size := NumberOr(size, 2.0), decay := NumberOr(decay, 0.02), text := StringOrNull(text))
  }

  /** The state `reset()` leaves: at rest at the origin with full life, launching, without text;
      colour, size, decay, trail, acceleration and launch target untouched. */
  function ResetState(s: ParticleState): (r: ParticleState)
    ensures r.position == ZERO && r.velocity == ZERO && r.life == 1.0
    ensures r.phase == Launch && r.text.None?
    ensures r.color == s.color && r.size == s.size && r.decay == s.decay && r.trail == s.trail
    ensures r.acceleration == s.acceleration && r.target == s.target
  {
    s.(position := ZERO, velocity := ZERO, life := 1.0, phase := Launch, text := None)
  }

  class Particle {
    var position: Vector3
    var velocity: Vector3
    var acceleration: Vector3
    var color: Rgba
    var life: real
    var decay: real
    var size: real
    var phase: Phase
    var trail: seq<Vec>
    var text: Option<string>
    var target: Option<LaunchTarget>

    /** The three vectors are distinct and belong to this particle alone. */
    ghost predicate Valid()
      reads this, position, velocity, acceleration
    {
      position != velocity && position != acceleration && velocity != acceleration
      && position.owner == this && velocity.owner == this && acceleration.owner == this
    }

    function State(): ParticleState
      reads this, position, velocity, acceleration
    {
      ParticleState(position.Value(), velocity.Value(), acceleration.Value(), color, life, decay,
                    size, phase, trail, text, target)
    }

    /** `new Particle()`. The display passes `(x, y, isRocket)`, which this constructor takes no
        notice of, so every particle starts at the origin. */
    constructor ()
      ensures Valid() && State() == INITIAL
      ensures fresh(position) && fresh(velocity) && fresh(acceleration)
    {
      position := new Vector3(0.0, 0.0, 0.0);
      velocity := new Vector3(0.0, 0.0, 0.0);
      acceleration := new Vector3(0.0, -9.8, 0.0);
      color := WHITE;
      life := 1.0;
      decay := 0.02;
      size := 2.0;
      phase := Launch;
      trail := [];
      text := None;
      target := None;
      new;
      position.owner := this;
      velocity.owner := this;
      acceleration.owner := this;
    }

    /** `init(config)`: copies of the configured vectors, defaults for falsy entries. */
    method Init(config: ParticleConfig) returns (r: Particle)
      requires Valid()
      modifies this
      ensures r == this && Valid()
      ensures State() == Configured(old(State()), old(config.position.Value()),
                                    old(config.velocity.Value()), config.color, config.size,
                                    config.decay, config.text)
    {
      var p := config.position.CloneFor(this);
      var v := config.velocity.CloneFor(this);
      // The falsy-value defaults of `init`, as `Configured` spells them out.
      var settings := Configured(State(), p.Value(), v.Value(), config.color, config.size,
                                 config.decay, config.text);
      position, velocity := p, v;
      color, life, phase := settings.color, settings.life, settings.phase;
      size, decay, text := settings.size, settings.decay, settings.text;
      r := this;
    }

    /** `update(dt)`. The source's text branch calls `velocity.length()`, which `Vector3` does
        not define, so a launching particle with text is outside the precondition. The result is
        the particle itself, which the display's loops read as a truthy status. */
    method Update(dt: real) returns (r: Particle)
      requires phase == Launch ==> text.None?
      modifies this`trail, this`life, this`phase
      ensures r == this
      ensures State() == Advance(old(State()))
    {
      var snapshot := position.Clone();
      trail := [snapshot.Value()] + trail;
      if |trail| > MAX_TRAIL_LENGTH {
        trail := trail[..|trail| - 1];
      }
      // `add` and `multiply` return new vectors, and `update` drops both sums: nothing moves.
      var newVelocity := Plus(velocity.Value(), Scale(acceleration.Value(), dt));
      var newPosition := Plus(position.Value(), Scale(velocity.Value(), dt));
      life := life - decay;
      if phase == Launch {
        if text.None? && 0.0 <= velocity.y {
          Explode();
        }
      }
      r := this;
    }

    method Explode()
      modifies this`phase
      ensures phase == Phase.Explode
    {
      phase := Phase.Explode;
    }

    predicate IsDead(): (dead: bool)
      reads this, position, velocity, acceleration
      ensures dead <==> Dead(State())
    {
      life <= 0.0
    }

    /** `reset()`: the vectors are zeroed in place. */
    method Reset()
      requires Valid()
      modifies this`life, this`phase, this`text
      modifies position`x, position`y, position`z, velocity`x, velocity`y, velocity`z
      ensures State() == ResetState(old(State()))
    {
      var p := position.Set(0.0, 0.0, 0.0);
      var v := velocity.Set(0.0, 0.0, 0.0);
      life := 1.0;
      phase := Launch;
      text := None;
    }
  }

  /** The objects and vectors that make up the particles of `ps`. */
  ghost function Footprint(ps: seq<Particle>): set<object>
    reads ps
  {
    (set p | p in ps :: p as object) + (set p | p in ps :: p.position as object)
    + (set p | p in ps :: p.velocity as object) + (set p | p in ps :: p.acceleration as object)
  }

  /** The states of the particles of `ps`, in order. */
  ghost function States(ps: seq<Particle>): (ss: seq<ParticleState>)
    reads ps, Footprint(ps)
    ensures |ss| == |ps| && forall k :: 0 <= k < |ps| ==> ss[k] == ps[k].State()
  {
    seq(|ps|, k requires 0 <= k < |ps| reads ps, Footprint(ps) => ps[k].State())
  }

  /** The particles of `ps` are in the states `ss`, in order. */
  ghost predicate StatesAre(ps: seq<Particle>, ss: seq<ParticleState>)
    reads ps, Footprint(ps)
  {
    |ps| == |ss| && forall k :: 0 <= k < |ps| ==> ps[k].State() == ss[k]
  }

  /** Particles in the states `ss` have exactly those as their states. */
  lemma StatesOf(ps: seq<Particle>, ss: seq<ParticleState>)
    requires StatesAre(ps, ss)
    ensures States(ps) == ss
  {
  }

  /** Every launching state of `ss` is without text: states `update` can advance. */
  ghost predicate Updatable(ss: seq<ParticleState>) {
    forall k :: 0 <= k < |ss| ==> ss[k].phase == Launch ==> ss[k].text.None?
  }

  /** Each of the states `ss` advanced one step. */
  ghost function Advanced(ss: seq<ParticleState>): (rs: seq<ParticleState>)
    requires Updatable(ss)
    ensures |rs| == |ss| && forall k :: 0 <= k < |ss| ==> rs[k] == Advance(ss[k])
  {
    seq(|ss|, k requires 0 <= k < |ss| && Updatable(ss) => Advance(ss[k]))
  }

  /** The vectors `reset()` zeroes in the particles of `ps`. */
  ghost function Moving(ps: seq<Particle>): set<Vector3>
    reads ps
  {
    (set k | 0 <= k < |ps| :: ps[k].position) + (set k | 0 <= k < |ps| :: ps[k].velocity)
  }

  ghost predicate AllValid(ps: seq<Particle>)
    reads ps, Footprint(ps)
  {
    forall k :: 0 <= k < |ps| ==> ps[k].Valid()
  }

  /** No particle of `ps` shares a vector that `reset()` zeroes with another particle of `ps`. */
  ghost predicate Separate(ps: seq<Particle>)
    reads ps
  {
    forall j, k :: 0 <= j < |ps| && 0 <= k < |ps| && j != k ==>
      ps[j].position != ps[k].position && ps[j].position != ps[k].velocity
      && ps[j].velocity != ps[k].position && ps[j].velocity != ps[k].velocity
      && ps[j].acceleration != ps[k].position && ps[j].acceleration != ps[k].velocity
  }

  /** Distinct particles that own their vectors share none. */
  lemma OwnedAreSeparate(ps: seq<Particle>)
    requires Distinct(ps) && AllValid(ps)
    ensures Separate(ps)
  {}

  /** `reset()` on each particle of `ps` in turn. */
  method ResetEach(ps: seq<Particle>)
    requires Distinct(ps) && AllValid(ps) && Separate(ps)
    modifies ps`life, ps`phase, ps`text, Moving(ps)`x, Moving(ps)`y, Moving(ps)`z
    ensures forall k :: 0 <= k < |ps| ==> ps[k].State() == ResetState(old(ps[k].State()))
  {
    var i := 0;
    while i < |ps|
      invariant 0 <= i <= |ps|
      invariant forall k :: 0 <= k < i ==> ps[k].State() == ResetState(old(ps[k].State()))
      invariant forall k :: i <= k < |ps| ==> ps[k].State() == old(ps[k].State())
    {
      ps[i].Reset();
      i := i + 1;
    }
  }
}
