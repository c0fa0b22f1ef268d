/** The vector type of the simulation and the random-number helper of the utilities file.
    `add`, `multiply` and `clone` build new vectors; `sub`, `lerp` and `set` change the
    receiver in place and return it. */
module MathUtil {
  import opened RealArith

  /** The plain `{x, y, z}` record: the value a `Vector3` holds and what `toJSON` returns. */
  datatype Vec = Vec(x: real, y: real, z: real)

  const ZERO: Vec := Vec(0.0, 0.0, 0.0)

  function Plus(a: Vec, b: Vec): Vec {
    Vec(a.x + b.x, a.y + b.y, a.z + b.z)
  }

  function Minus(a: Vec, b: Vec): Vec {
    Vec(a.x - b.x, a.y - b.y, a.z - b.z)
  }

  function Scale(a: Vec, s: real): Vec {
    Vec(a.x * s, a.y * s, a.z * s)
  }

  /** Each component moves the fraction `t` of the way from `a` to `b`. */
  function LerpVec(a: Vec, b: Vec, t: real): Vec {
    Vec(a.x + (b.x - a.x) * t, a.y + (b.y - a.y) * t, a.z + (b.z - a.z) * t)
  }

  /** `sub` undoes `add`. */
  lemma MinusUndoesPlus(a: Vec, b: Vec)
    ensures Minus(Plus(a, b), b) == a
  {}

  /** `lerp` by 0 keeps the receiver and `lerp` by 1 reaches the target. */
  lemma LerpEnds(a: Vec, b: Vec)
    ensures LerpVec(a, b, 0.0) == a
    ensures LerpVec(a, b, 1.0) == b
  {}

  /** For a factor in [0, 1] every component of the result lies between the two inputs. */
  lemma LerpBetween(a: Vec, b: Vec, t: real)
    requires 0.0 <= t <= 1.0
    ensures Between(a.x, b.x, LerpVec(a, b, t).x)
    ensures Between(a.y, b.y, LerpVec(a, b, t).y)
    ensures Between(a.z, b.z, LerpVec(a, b, t).z)
  {
    LerpComponentBetween(a.x, b.x, t);
    LerpComponentBetween(a.y, b.y, t);
    LerpComponentBetween(a.z, b.z, t);
  }

  ghost predicate Between(lo: real, hi: real, v: real) {
    (lo <= v <= hi) || (hi <= v <= lo)
  }

  lemma LerpComponentBetween(a: real, b: real, t: real)
    requires 0.0 <= t <= 1.0
    ensures Between(a, b, a + (b - a) * t)
  {
    if a <= b {
      MulMono(b - a, 0.0, t);
      MulMono(b - a, t, 1.0);
    } else {
      MulMono(a - b, 0.0, t);
      MulMono(a - b, t, 1.0);
    }
  }

  class Vector3 {
    var x: real
    var y: real
    var z: real
    /** The entity whose state this vector belongs to (a particle or the camera); `null` for a
        temporary. Only used in proofs, to tell the vectors of different entities apart. */
    ghost var owner: object?

    constructor (x: real, y: real, z: real)
      ensures Value() == Vec(x, y, z) && owner == null
    {
      this.x := x;
      this.y := y;
      this.z := z;
      owner := null;
    }

    function Value(): Vec
      reads this
    {
      Vec(x, y, z)
    }

    /** A new vector holding the componentwise sum; the receiver is left alone. */
    method Add(v: Vector3) returns (r: Vector3)
      ensures fresh(r) && r.owner == null
      ensures r.Value() == Plus(Value(), v.Value())
    {
      r := new Vector3(x + v.x, y + v.y, z + v.z);
    }

    /** Subtracts `v` from the receiver in place and returns the receiver. */
    method Sub(v: Vector3) returns (r: Vector3)
      modifies this`x, this`y, this`z
      ensures r == this
      ensures Value() == Minus(old(Value()), old(v.Value()))
    {
      x := x - v.x;
      y := y - v.y;
      z := z - v.z;
      r := this;
    }

    /** A new vector scaled by `scalar`; the receiver is left alone. */
    method Multiply(scalar: real) returns (r: Vector3)
      ensures fresh(r) && r.owner == null
      ensures r.Value() == Scale(Value(), scalar)
    {
      r := new Vector3(x * scalar, y * scalar, z * scalar);
    }

    /** Moves the receiver the fraction `alpha` of the way toward `target`, in place. */
    method Lerp(target: Vector3, alpha: real) returns (r: Vector3)
      modifies this`x, this`y, this`z
      ensures r == this
      ensures Value() == LerpVec(old(Value()), old(target.Value()), alpha)
    {
      x := x + (target.x - x) * alpha;
      y := y + (target.y - y) * alpha;
      z := z + (target.z - z) * alpha;
      r := this;
    }

    /** A distinct vector with the same components. */
    method Clone() returns (r: Vector3)
      ensures fresh(r) && r.owner == null
      ensures r.Value() == Value()
    {
      r := new Vector3(x, y, z);
    }

    /** `clone()` for a copy that will belong to `owner`. */
    method CloneFor(ghost owner: object?) returns (r: Vector3)
      ensures fresh(r) && r.owner == owner
      ensures r.Value() == Value()
    {
      r := new Vector3(x, y, z);
      r.owner := owner;
    }

    /** Assigns all three components and returns the receiver. */
    method Set(x: real, y: real, z: real) returns (r: Vector3)
      modifies this`x, this`y, this`z
      ensures r == this
      ensures Value() == Vec(x, y, z)
    {
      this.x := x;
      this.y := y;
      this.z := z;
      r := this;
    }

    /** The plain record of the three components. */
    method ToJson() returns (j: Vec)
      ensures j == Value()
    {
      j := Vec(x, y, z);
    }
  }

  /** `Math.random()`: each call returns some value in [0, 1), which the ghost `history`
      records, so that contracts can say which call produced what. */
  class Random {
    ghost var history: seq<real>

    constructor ()
      ensures history == []
    {
      history := [];
    }

    method Next() returns (r: real)
      modifies this`history
      ensures 0.0 <= r < 1.0 && history == old(history) + [r]
    {
      r :| 0.0 <= r < 1.0;
      history := history + [r];
    }
  }

  /** `Math.cos` and `Math.sin`, passed in: the model assumes nothing about their values. */
  class Trig {
    const cos: real -> real
    const sin: real -> real

    constructor (cos: real -> real, sin: real -> real)
      ensures this.cos == cos && this.sin == sin
    {
      this.cos := cos;
      this.sin := sin;
    }
  }

  /** `random(min, max)` with the value of `Math.random()` passed in as `draw`. */
  function RandomIn(draw: real, min: real, max: real): (r: real)
    requires 0.0 <= draw < 1.0
    ensures min < max ==> min <= r < max
    ensures max < min ==> max < r <= min
    ensures min == max ==> r == min
  {
    if min < max then
      DrawInRising(draw, min, max);
      draw * (max - min) + min
    else if max < min then
      DrawInFalling(draw, min, max);
      draw * (max - min) + min
    else
      draw * (max - min) + min
  }

  lemma DrawInRising(draw: real, min: real, max: real)
    requires 0.0 <= draw < 1.0 && min < max
    ensures min <= draw * (max - min) + min < max
  {
    var rest := 1.0 - draw;
    MulNonNeg(draw, max - min);
    assert 0.0 < rest * (max - min) by { MulPos(rest, max - min); }
    assert rest * (max - min) == max - min - draw * (max - min);
  }

  lemma DrawInFalling(draw: real, min: real, max: real)
    requires 0.0 <= draw < 1.0 && max < min
    ensures max < draw * (max - min) + min <= min
  {
    var rest := 1.0 - draw;
    MulNonNeg(draw, min - max);
    assert 0.0 < rest * (min - max) by { MulPos(rest, min - max); }
    assert rest * (min - max) == min - max - draw * (min - max);
    assert draw * (max - min) == -(draw * (min - max));
  }
}
