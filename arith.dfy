/** Facts about integer multiplication, division and remainder that the
    solver does not find on its own. */
module Arith {

  lemma DivMod(a: int, b: int)
    requires b > 0
    ensures a == b * (a / b) + a % b && 0 <= a % b < b
  {
  }

  lemma MulAtLeast(x: int, y: int)
    requires y > 0 && x >= 1
    ensures x * y >= y
  {
  }

  lemma MulSub(x: int, y: int, z: int)
    ensures (x - y) * z == x * z - y * z
  {
  }

  lemma MulMono(x: int, y: int, z: int)
    requires x <= y && z > 0
    ensures x * z <= y * z
  {
    MulSub(y, x, z);
    if y - x >= 1 {
      MulAtLeast(y - x, z);
    }
  }

  lemma ModShift(k: int, m: int)
    requires 0 < m <= k
    ensures (k - m) % m == k % m
  {
    var q, r := (k - m) / m, (k - m) % m;
    DivMod(k - m, m);
    assert k == m * (q + 1) + r;
    ModUnique(k, m, q + 1, r);
  }

  /** The remainder is the only one in [0, m). */
  lemma ModUnique(a: int, m: int, d: int, r: int)
    requires 0 <= r < m && a == m * d + r
    ensures a % m == r
  {
    var d', r' := a / m, a % m;
    DivMod(a, m);
    MulSub(d, d', m);
    if d - d' >= 1 {
      MulAtLeast(d - d', m);
    } else if d' - d >= 1 {
      MulSub(d', d, m);
      MulAtLeast(d' - d, m);
    }
  }
}
