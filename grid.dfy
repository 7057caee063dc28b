/**
 * Flat storage of a square grid: point (x, z) of a grid whose rows hold `n`
 * points is stored at `z * n + x`.
 */
module Grid {

  function Index(x: int, z: int, n: int): (k: int)
    ensures 0 <= x < n && 0 <= z < n ==> 0 <= k < n * n
  {
    IndexBound(x, z, n);
    z * n + x
  }

  lemma IndexBound(x: int, z: int, n: int)
    ensures 0 <= x < n && 0 <= z < n ==> 0 <= z * n + x < n * n
  {
    if 0 <= x < n && 0 <= z < n {
      MulMono(z, n - 1, n);
      assert (n - 1) * n + n == n * n;
    }
  }

  lemma MulMono(a: int, b: int, n: int)
    requires 0 <= a <= b && 0 <= n
    ensures 0 <= a * n <= b * n
  {
  }

  /** The flat index determines the grid point: row and column are recovered by division. */
  lemma {:induction false} IndexCoords(x: int, z: int, n: int)
    requires 0 <= x < n && 0 <= z
    ensures Index(x, z, n) / n == z && Index(x, z, n) % n == x
  {
    var k := z * n + x;
    var q, r := k / n, k % n;
    assert k == q * n + r && 0 <= r < n;
    assert (q - z) * n == x - r;
    if q - z >= 1 {
      MulMono(1, q - z, n);
      assert false;
    } else if q - z <= -1 {
      MulMono(1, z - q, n);
      assert false;
    }
  }

  /** Every flat index of the grid is the index of some point. */
  lemma IndexOf(k: int, n: int) returns (x: int, z: int)
    requires 0 <= n && 0 <= k < n * n
    ensures 0 <= x < n && 0 <= z < n && Index(x, z, n) == k
  {
    z := k / n;
    x := k % n;
    assert k == z * n + x && 0 <= x < n;
    if z >= n {
      MulMono(n, z, n);
    }
  }

  /** A point of an earlier row, or earlier in the same row, is stored earlier. */
  lemma {:induction false} IndexOrder(x0: int, z0: int, x: int, z: int, n: int)
    requires 0 <= x0 < n && 0 <= x < n && 0 <= z0 && 0 <= z
    requires z0 < z || (z0 == z && x0 < x)
    ensures Index(x0, z0, n) < Index(x, z, n)
  {
    if z0 < z {
      MulMono(z0 + 1, z, n);
      assert (z0 + 1) * n == z0 * n + n;
    }
  }

  /** Distinct grid points are stored at distinct indices. */
  lemma IndexInjective(x0: int, z0: int, x: int, z: int, n: int)
    requires 0 <= x0 < n && 0 <= x < n && 0 <= z0 && 0 <= z
    requires x0 != x || z0 != z
    ensures Index(x0, z0, n) != Index(x, z, n)
  {
    if z0 < z || (z0 == z && x0 < x) {
      IndexOrder(x0, z0, x, z, n);
    } else {
      IndexOrder(x, z, x0, z0, n);
    }
  }
}
