/** Python numeric semantics the pipeline relies on: `int()` of a float
    truncates toward zero, and `range(lo, hi, step)` is half-open.
    Floats are modelled as exact reals; every float the pipeline computes
    is a small integer or half-integer, which a double holds exactly. */
module PyNum {

  /** Python's `int(r)` for a float `r`: truncation toward zero. */
  function Trunc(r: real): (n: int)
    ensures r >= 0.0 ==> 0 <= n && n as real <= r < n as real + 1.0
    ensures r < 0.0 ==> n <= 0 && n as real - 1.0 < r <= n as real
  {
    if r >= 0.0 then r.Floor else -((-r).Floor)
  }

  /** Integer division by two rounding toward zero (not Dafny's Euclidean `/`). */
  function HalfTowardZero(n: int): int
  {
    if n >= 0 then n / 2 else -((-n) / 2)
  }

  /** `int(n / 2)` in Python equals the integer halving toward zero. */
  lemma TruncHalf(n: int)
    ensures Trunc(n as real / 2.0) == HalfTowardZero(n)
  {
    if n >= 0 {
      var q, r := n / 2, n % 2;
      assert n as real / 2.0 == q as real + r as real / 2.0;
    } else {
      var q, r := (-n) / 2, (-n) % 2;
      assert -(n as real / 2.0) == q as real + r as real / 2.0;
    }
  }

  /** Truncation never decreases when its argument grows. */
  lemma TruncMonotone(a: real, b: real)
    requires a <= b
    ensures Trunc(a) <= Trunc(b)
  {
    if a < 0.0 && b >= 0.0 {
    } else if a >= 0.0 {
      assert a.Floor <= b.Floor;
    } else {
      assert (-b).Floor <= (-a).Floor;
    }
  }

  /** Truncation leaves an integer-valued float unchanged. */
  lemma TruncOfInt(k: int)
    ensures Trunc(k as real) == k
  {
  }

  /** Halving toward zero never decreases when its argument grows. */
  lemma HalfTowardZeroMonotone(a: int, b: int)
    requires a <= b
    ensures HalfTowardZero(a) <= HalfTowardZero(b)
  {
  }

  /** On non-negative arguments, halving toward zero is the floor. */
  lemma HalfTowardZeroOfNonNegative(n: int)
    requires n >= 0
    ensures HalfTowardZero(n) == n / 2
    ensures 2 * HalfTowardZero(n) <= n <= 2 * HalfTowardZero(n) + 1
  {
  }

  /** Every element is smaller than every later one (so none repeats). */
  predicate StrictlyIncreasing(s: seq<int>)
  {
    forall i, j | 0 <= i < j < |s| :: s[i] < s[j]
  }

  /** Python's `range(lo, hi, step)` for a positive step: its length is
      `ceil((hi - lo) / step)` when `lo < hi` and 0 otherwise, and its
      `i`-th element is `lo + i * step`. */
  function Range(lo: int, hi: int, step: int): seq<int>
    requires step > 0
  {
    seq(if lo < hi then (hi - lo + step - 1) / step else 0, i => lo + i * step)
  }

  /** With step 1 the range holds every integer of [lo, hi) once, ascending. */
  lemma RangeOne(lo: int, hi: int)
    ensures |Range(lo, hi, 1)| == if lo < hi then hi - lo else 0
    ensures forall i :: 0 <= i < |Range(lo, hi, 1)| ==> Range(lo, hi, 1)[i] == lo + i
    ensures forall x :: x in Range(lo, hi, 1) <==> lo <= x < hi
  {
    var r := Range(lo, hi, 1);
    forall x | lo <= x < hi ensures x in r {
      assert r[x - lo] == x;
    }
  }

  /** With step 2 the range holds exactly the integers of [lo, hi) of the
      same parity as `lo`, each once and in ascending order. */
  lemma RangeTwo(lo: int, hi: int)
    ensures |Range(lo, hi, 2)| == if lo < hi then (hi - lo + 1) / 2 else 0
    ensures StrictlyIncreasing(Range(lo, hi, 2))
    ensures forall x :: x in Range(lo, hi, 2) <==> lo <= x < hi && (x - lo) % 2 == 0
  {
    var r := Range(lo, hi, 2);
    forall x | lo <= x < hi && (x - lo) % 2 == 0 ensures x in r {
      var i := (x - lo) / 2;
      assert r[i] == x;
    }
  }
}
