/** JavaScript value semantics that the firework code relies on: missing values, the `%`
    operator on numbers, `||` defaults for falsy values, and the insertion-ordered `Set`. */
module Js {
  import opened RealArith

  /** `undefined` / `null` versus a present value. */
  datatype Option<T> = None | Some(value: T)

  /** A JavaScript string as it is stored: its UTF-16 code units. `split('')` yields one entry
      per code unit, so a character outside the Basic Multilingual Plane counts twice. */
  type Utf16 = seq<bv16>

  /** `Math.trunc`: rounds toward zero. */
  function Trunc(x: real): int {
    if x >= 0.0 then x.Floor else -((-x).Floor)
  }

  /** The `%` operator on numbers: `a` less a whole multiple of `b`, with the sign of `a`, and
      `a` itself below the divisor. A dividend in [b, 2b), such as a hue in [360, 390), wraps
      to `a - b`. */
  function Rem(a: real, b: real): (r: real)
    requires b != 0.0
    ensures ((a - r) / b).Floor as real == (a - r) / b
    ensures 0.0 <= a ==> 0.0 <= r
    ensures a <= 0.0 ==> r <= 0.0
    ensures 0.0 <= a && 0.0 < b ==> r < b
    ensures 0.0 <= a < b ==> r == a
    ensures 0.0 < b <= a < b + b ==> r == a - b
  {
    var q := Trunc(a / b);
    RemSign(a, b, q);
    RemWhole(a, b, q);
    if 0.0 <= a && 0.0 < b then
      RemBounds(a, b, q);
      if b <= a < b + b then
        RemWrap(a, b, q);
        a - b * q as real
      else
        a - b * q as real
    else
      a - b * q as real
  }

  /** Taking `q` divisors off `a` leaves a remainder whose difference from `a` is `q` divisors. */
  lemma RemWhole(a: real, b: real, q: int)
    requires b != 0.0
    ensures ((a - (a - b * q as real)) / b).Floor as real == (a - (a - b * q as real)) / b
  {
    var m := a - (a - b * q as real);
    assert m == b * q as real;
    assert m / b == q as real;
  }

  /** Truncation keeps the remainder on the dividend's side of zero. */
  lemma RemSign(a: real, b: real, q: int)
    requires b != 0.0 && q == Trunc(a / b)
    ensures 0.0 <= a ==> 0.0 <= a - b * q as real
    ensures a <= 0.0 ==> a - b * q as real <= 0.0
  {
    var t := a / b;
    var qr := q as real;
    assert b * t == a;
    if 0.0 < b {
      if 0.0 <= a {
        assert 0.0 <= t;
        MulMono(b, qr, t);
      } else {
        assert t < 0.0 && t <= qr;
        MulMono(b, t, qr);
      }
    } else {
      if 0.0 <= a {
        assert t <= 0.0 && t <= qr;
        MulMono(-b, t, qr);
      } else {
        assert 0.0 < t && qr <= t;
        MulMono(-b, qr, t);
      }
    }
  }

  /** A dividend in [b, 2b) is one divisor past the first multiple: the quotient is 1. */
  lemma RemWrap(a: real, b: real, q: int)
    requires 0.0 < b <= a < b + b && q == Trunc(a / b)
    ensures q == 1
  {
    var t := a / b;
    DivLower(a, b, 1.0);
    DivUpper(a, b, 2.0);
    assert 1.0 <= t < 2.0;
    assert q == t.Floor;
  }

  lemma RemBounds(a: real, b: real, q: int)
    requires 0.0 <= a && 0.0 < b && q == Trunc(a / b)
    ensures 0.0 <= a - b * q as real < b
    ensures a < b ==> q == 0
  {
    var t := a / b;
    var qr := q as real;
    assert qr <= t < qr + 1.0;
    calc {
      b * qr;
    <= { MulMono(b, qr, t); }
      b * t;
    ==
      a;
    }
    calc {
      a;
    ==
      b * t;
    < { MulStrict(b, t, qr + 1.0); }
      b * (qr + 1.0);
    ==
      b * qr + b;
    }
    if a < b {
      DivBelowOne(a, b);
    }
  }

  lemma DivBelowOne(a: real, b: real)
    requires 0.0 <= a < b
    ensures a / b < 1.0
  {}

  /** `n || fallback` for a number that may be missing: `undefined` and `0` are falsy. */
  function NumberOr(n: Option<real>, fallback: real): (r: real)
    ensures n.Some? && n.value != 0.0 ==> r == n.value
    ensures n.None? || n.value == 0.0 ==> r == fallback
  {
    if n.Some? && n.value != 0.0 then n.value else fallback
  }

  /** `s || null` for a string that may be missing: the empty string is falsy. */
  function StringOrNull(s: Option<string>): (r: Option<string>)
    ensures r.None? <==> s.None? || s.value == ""
    ensures r.Some? ==> r == s
  {
    if s.Some? && s.value != "" then s else None
  }

  /** A sequence in which no element occurs twice: how a JavaScript `Set` is modelled. */
  ghost predicate Distinct<T>(s: seq<T>) {
    forall i, j :: 0 <= i < j < |s| ==> s[i] != s[j]
  }

  /** `push` of an element the sequence lacks keeps it duplicate-free. */
  lemma DistinctAppend<T>(s: seq<T>, x: T)
    requires Distinct(s) && x !in s
    ensures Distinct(s + [x])
  {}

  /** Appending a duplicate-free sequence none of whose elements `s` holds keeps it duplicate-free. */
  lemma DistinctConcat<T>(s: seq<T>, t: seq<T>)
    requires Distinct(s) && Distinct(t) && forall k :: 0 <= k < |t| ==> t[k] !in s
    ensures Distinct(s + t)
  {}

  /** `splice(i, 1)` keeps a sequence duplicate-free. */
  lemma DistinctRemove<T>(s: seq<T>, i: nat)
    requires Distinct(s) && i < |s|
    ensures Distinct(s[..i] + s[i + 1..])
  {
    var t := s[..i] + s[i + 1..];
    assert forall k :: 0 <= k < |t| ==> t[k] == s[if k < i then k else k + 1];
  }

  /** Removing element `i` of `s[..i + 1] + t` leaves `s[..i] + t`; keeping it, the list is
      `s[..i]`, then `s[i]`, then `t`. */
  lemma SpliceLast<T>(s: seq<T>, t: seq<T>, i: nat)
    requires i < |s|
    ensures (s[..i + 1] + t)[..i] + (s[..i + 1] + t)[i + 1..] == s[..i] + t
    ensures s[..i + 1] + t == s[..i] + ([s[i]] + t)
  {
    assert (s[..i + 1] + t)[..i] == s[..i];
    assert (s[..i + 1] + t)[i + 1..] == t;
  }

  /** The tail of a duplicate-free sequence is duplicate-free. */
  lemma DistinctSuffix<T>(s: seq<T>, t: seq<T>)
    requires Distinct(s + t)
    ensures Distinct(t)
  {
    assert forall i :: 0 <= i < |t| ==> t[i] == (s + t)[|s| + i];
  }

  /** `Math.min` on integers. */
  function Min(a: int, b: int): int {
    if a <= b then a else b
  }

  /** `Set.prototype.add` on a set kept in insertion order. */
  function SetAdd<T(==)>(s: seq<T>, x: T): (r: seq<T>)
    ensures x in s ==> r == s
    ensures x !in s ==> r == s + [x]
    ensures Distinct(s) ==> Distinct(r)
  {
    if x in s then s else s + [x]
  }

  /** How many times `for (let i = 0; i < n; i++)` runs its body for an integer `n`. */
  function Iterations(n: int): (r: nat)
    ensures n <= 0 ==> r == 0
    ensures 0 <= n ==> r == n
  {
    if n < 0 then 0 else n
  }

  /** `Set.prototype.delete` on a set kept in insertion order. */
  function SetDelete<T(==)>(s: seq<T>, x: T): (r: seq<T>)
    ensures forall i :: 0 <= i < |r| ==> r[i] in s && r[i] != x
    ensures forall i :: 0 <= i < |s| && s[i] != x ==> s[i] in r
    ensures x !in s ==> r == s
    ensures Distinct(s) ==> Distinct(r) && (x in s ==> |r| == |s| - 1)
  {
    if s == [] then []
    else if s[0] == x then SetDelete(s[1..], x)
    else [s[0]] + SetDelete(s[1..], x)
  }
}
