/** The 4x4 matrix of the renderer: sixteen numbers in one flat array, entry `i * 4 + j` read as
    row `i`, column `j` by `multiply`. */
module Matrices {
  const IDENTITY: seq<real> := [1.0, 0.0, 0.0, 0.0,
                                0.0, 1.0, 0.0, 0.0,
                                0.0, 0.0, 1.0, 0.0,
                                0.0, 0.0, 0.0, 1.0]

  /** The first `n` terms of the sum `multiply` accumulates for entry (i, j) of `a * b`. */
  function Dot(a: seq<real>, b: seq<real>, i: nat, j: nat, n: nat): real
    requires |a| == 16 && |b| == 16 && i < 4 && j < 4 && n <= 4
  {
    if n == 0 then 0.0 else Dot(a, b, i, j, n - 1) + a[i * 4 + n - 1] * b[(n - 1) * 4 + j]
  }

  /** Entry (i, j) of the product: row `i` of `a` against column `j` of `b`. */
  function Entry(a: seq<real>, b: seq<real>, i: nat, j: nat): real
    requires |a| == 16 && |b| == 16 && i < 4 && j < 4
  {
    Dot(a, b, i, j, 4)
  }

  /** The matrix product in the flat row-major layout. */
  function Product(a: seq<real>, b: seq<real>): (r: seq<real>)
    requires |a| == 16 && |b| == 16
    ensures |r| == 16
    ensures forall i: nat, j: nat :: i < 4 && j < 4 ==> r[i * 4 + j] == Entry(a, b, i, j)
  {
    var r := seq(16, n requires 0 <= n < 16 => Entry(a, b, n / 4, n % 4));
    forall i: nat, j: nat | i < 4 && j < 4
      ensures r[i * 4 + j] == Entry(a, b, i, j)
    {
      assert (i * 4 + j) / 4 == i && (i * 4 + j) % 4 == j;
    }
    r
  }

  /** The four terms of entry (i, j) written out. */
  lemma EntryTerms(a: seq<real>, b: seq<real>, i: nat, j: nat)
    requires |a| == 16 && |b| == 16 && i < 4 && j < 4
    ensures Entry(a, b, i, j) ==
      a[i * 4] * b[j] + a[i * 4 + 1] * b[4 + j] + a[i * 4 + 2] * b[8 + j] + a[i * 4 + 3] * b[12 + j]
  {
    assert Dot(a, b, i, j, 1) == a[i * 4] * b[j];
    assert Dot(a, b, i, j, 2) == Dot(a, b, i, j, 1) + a[i * 4 + 1] * b[4 + j];
    assert Dot(a, b, i, j, 3) == Dot(a, b, i, j, 2) + a[i * 4 + 2] * b[8 + j];
    assert Dot(a, b, i, j, 4) == Dot(a, b, i, j, 3) + a[i * 4 + 3] * b[12 + j];
  }

  /** Multiplying on the right by the identity changes nothing. */
  lemma ProductIdentityRight(a: seq<real>)
    requires |a| == 16
    ensures Product(a, IDENTITY) == a
  {
    var r := Product(a, IDENTITY);
    forall n | 0 <= n < 16
      ensures r[n] == a[n]
    {
      var i, j := n / 4, n % 4;
      assert n == i * 4 + j;
      EntryTerms(a, IDENTITY, i, j);
    }
  }

  /** Multiplying on the left by the identity changes nothing. */
  lemma ProductIdentityLeft(b: seq<real>)
    requires |b| == 16
    ensures Product(IDENTITY, b) == b
  {
    var r := Product(IDENTITY, b);
    forall n | 0 <= n < 16
      ensures r[n] == b[n]
    {
      var i, j := n / 4, n % 4;
      assert n == i * 4 + j;
      EntryTerms(IDENTITY, b, i, j);
    }
  }

  /** The entries `perspective` writes, with `f` (the cotangent of half the field of view)
      given: a scale on the first two axes, a depth mapping in entries 10 and 14, -1 at entry 11
      so that the fourth coordinate of a projected point is minus its depth, and zero
      everywhere else. */
  ghost predicate IsPerspective(m: seq<real>, f: real, aspect: real, near: real, far: real)
    requires aspect != 0.0 && near != far
  {
    |m| == 16
    && m[0] == f / aspect && m[1] == 0.0 && m[2] == 0.0 && m[3] == 0.0
    && m[4] == 0.0 && m[5] == f && m[6] == 0.0 && m[7] == 0.0
    && m[8] == 0.0 && m[9] == 0.0 && m[10] == (far + near) * (1.0 / (near - far)) && m[11] == -1.0
    && m[12] == 0.0 && m[13] == 0.0 && m[14] == 2.0 * far * near * (1.0 / (near - far)) && m[15] == 0.0
  }

  /** A point `v` transformed by `m` read column by column, as WebGL reads the array. */
  function Transform(m: seq<real>, v: seq<real>): (r: seq<real>)
    requires |m| == 16 && |v| == 4
    ensures |r| == 4
  {
    seq(4, row requires 0 <= row < 4 =>
      m[row] * v[0] + m[4 + row] * v[1] + m[8 + row] * v[2] + m[12 + row] * v[3])
  }

  /** What the layout does to a point (x, y, z, 1): x and y are scaled by `f / aspect` and `f`,
      and the fourth coordinate becomes `-z`, the depth the perspective divide uses. */
  lemma PerspectiveProjects(m: seq<real>, f: real, aspect: real, near: real, far: real, v: seq<real>)
    requires aspect != 0.0 && near != far && IsPerspective(m, f, aspect, near, far)
    requires |v| == 4 && v[3] == 1.0
    ensures Transform(m, v)[0] == f / aspect * v[0]
    ensures Transform(m, v)[1] == f * v[1]
    ensures Transform(m, v)[3] == -v[2]
  {}

  class Matrix4 {
    var elements: array<real>

    ghost predicate Valid()
      reads this
    {
      elements.Length == 16
    }

    /** `new Matrix4()`: the identity. */
    constructor ()
      ensures Valid() && fresh(elements) && elements[..] == IDENTITY
    {
      elements := new real[16] [1.0, 0.0, 0.0, 0.0,
                                0.0, 1.0, 0.0, 0.0,
                                0.0, 0.0, 1.0, 0.0,
                                0.0, 0.0, 0.0, 1.0];
    }

    /** `perspective(fovy, aspect, near, far)` with `f` in place of `1 / tan(fovy / 2)`: the
        entries are overwritten one by one in the same array. */
    method Perspective(f: real, aspect: real, near: real, far: real) returns (r: Matrix4)
      requires Valid() && aspect != 0.0 && near != far
      modifies elements
      ensures r == this && Valid()
      ensures elements == old(elements) && IsPerspective(elements[..], f, aspect, near, far)
    {
      var nf := 1.0 / (near - far);
      elements[0] := f / aspect;
      elements[1] := 0.0;
      elements[2] := 0.0;
      elements[3] := 0.0;
      elements[4] := 0.0;
      elements[5] := f;
      elements[6] := 0.0;
      elements[7] := 0.0;
      elements[8] := 0.0;
      elements[9] := 0.0;
      elements[10] := (far + near) * nf;
      elements[11] := -1.0;
      elements[12] := 0.0;
      elements[13] := 0.0;
      elements[14] := 2.0 * far * near * nf;
      elements[15] := 0.0;
      r := this;
    }

    /** `multiply(b)`: `this * b` is computed into a new array, which then replaces `elements`;
        `b` is any array of sixteen numbers (it may be `elements` itself). */
    method Multiply(b: array<real>) returns (r: Matrix4)
      requires Valid() && b.Length == 16
      modifies this
      ensures r == this && Valid() && fresh(elements)
      ensures elements[..] == Product(old(elements[..]), old(b[..]))
    {
      var a := elements;
      var out := new real[16];
      var i := 0;
      while i < 4
        invariant 0 <= i <= 4
        invariant forall i': nat, j': nat :: i' < i && j' < 4 ==>
          out[i' * 4 + j'] == Entry(a[..], b[..], i', j')
      {
        var j := 0;
        while j < 4
          invariant 0 <= j <= 4
          invariant forall i': nat, j': nat :: i' < i && j' < 4 ==>
            out[i' * 4 + j'] == Entry(a[..], b[..], i', j')
          invariant forall j': nat :: j' < j ==> out[i * 4 + j'] == Entry(a[..], b[..], i, j')
        {
          var sum := 0.0;
          var k := 0;
          while k < 4
            invariant 0 <= k <= 4
            invariant sum == Dot(a[..], b[..], i, j, k)
          {
            sum := sum + a[i * 4 + k] * b[k * 4 + j];
            k := k + 1;
          }
          out[i * 4 + j] := sum;
          j := j + 1;
        }
        i := i + 1;
      }
      elements := out;
      r := this;
      assert elements[..] == Product(a[..], b[..]);
    }
  }
}
