/** Optional values: JavaScript's `undefined`/`null` for a field that may be absent. */
module Wrappers {

  datatype Option<+T> = None | Some(value: T) {

    /** The value, or `default` when absent (the `?? default` operator). */
    function GetOr(default: T): T {
      match this
      case Some(v) => v
      case None => default
    }
  }

  /** JavaScript truthiness of an optional string: present and non-empty. */
  predicate Truthy(s: Option<string>) {
    s.Some? && s.value != ""
  }

  /** `s || fallback` on an optional string. */
  function OrElse(s: Option<string>, fallback: string): (r: string)
    ensures Truthy(s) ==> r == s.value
    ensures !Truthy(s) ==> r == fallback
  {
    if Truthy(s) then s.value else fallback
  }

  function Min(a: int, b: int): (m: int)
    ensures m <= a && m <= b && (m == a || m == b)
  {
    if a <= b then a else b
  }

  function Max(a: int, b: int): (m: int)
    ensures m >= a && m >= b && (m == a || m == b)
  {
    if a >= b then a else b
  }

  /** `Math.round(a / n)`: the integer nearest to `a / n`, halves rounded up. */
  function RoundDiv(a: int, n: int): (q: int)
    requires n > 0
    ensures 2 * n * q - n <= 2 * a < 2 * n * q + n
  {
    var q := (2 * a + n) / (2 * n);
    var r := (2 * a + n) % (2 * n);
    assert 2 * a + n == 2 * n * q + r && 0 <= r < 2 * n;
    q
  }

  /** A rounded average of values between `lo` and `hi` is between them too. */
  lemma RoundDivBounds(a: int, n: int, lo: int, hi: int)
    requires n > 0 && n * lo <= a <= n * hi
    ensures lo <= RoundDiv(a, n) <= hi
  {
    var q := RoundDiv(a, n);
    var nq := n * q;
    assert 2 * n * q == 2 * nq;
    assert 2 * nq - n <= 2 * a < 2 * nq + n;
    if q > hi {
      MulMonotone(n, hi + 1, q);
      assert false;
    }
    if q < lo {
      MulMonotone(n, q, lo - 1);
      assert false;
    }
  }

  lemma MulMonotone(n: int, x: int, y: int)
    requires n >= 0 && x <= y
    ensures n * x <= n * y
  {
    assert n * y - n * x == n * (y - x);
  }
}
