/** Facts about multiplication and division by a variable. */
module Arithmetic {

  lemma TimesLess(a: int, b: int, k: nat)
    requires a < b
    ensures b * k - a * k >= k
  {
    assert b * k - a * k == (b - a - 1) * k + k;
  }

  lemma DivUnique(x: nat, k: nat, q: nat, r: nat)
    requires r < k && x == q * k + r
    ensures x % k == r && x / k == q
  {
    if x / k > q {
      TimesLess(q, x / k, k);
    } else if x / k < q {
      TimesLess(x / k, q, k);
    }
    assert x / k == q;
  }

  lemma ModNext(x: nat, k: nat)
    requires k > 0
    ensures (x + 1) % k == if x % k == k - 1 then 0 else x % k + 1
  {
    var q, r := x / k, x % k;
    assert x == q * k + r;
    if r == k - 1 {
      assert x + 1 == (q + 1) * k;
      DivUnique(x + 1, k, q + 1, 0);
    } else {
      DivUnique(x + 1, k, q, r + 1);
    }
  }

  lemma DivFits(x: nat, k: nat)
    requires k > 0
    ensures x / k * k <= x < x / k * k + k
    ensures x >= k ==> x / k > 0
  {
    assert x == x / k * k + x % k;
  }

  lemma MultiplesAdd(x: nat, y: nat, k: nat)
    requires k > 0 && x % k == 0 && y % k == 0
    ensures (x + y) % k == 0
  {
    var p, q := x / k, y / k;
    assert x + y == p * k + q * k == (p + q) * k;
    MultipleOf(p + q, k);
  }

  lemma MultipleTimes(b: nat, x: nat, k: nat)
    requires k > 0 && x % k == 0
    ensures (b * x) % k == 0
  {
    var q := x / k;
    assert b * x == b * (q * k) == (b * q) * k;
    MultipleOf(b * q, k);
  }

  lemma MultipleOf(q: nat, k: nat)
    requires k > 0
    ensures (q * k) % k == 0
  {
    DivUnique(q * k, k, q, 0);
  }
}
