// The few facts about numbers that several modules share.
module Arithmetic {
  function Min(a: nat, b: nat): nat {
    if a <= b then a else b
  }

  lemma MultiplesGrow(a: nat, b: nat, d: nat)
    requires a <= b
    ensures a * d <= b * d
  {
    assert (b - a) * d >= 0;
  }

  lemma CeilingDivision(n: nat, d: nat, k: nat)
    requires d > 0
    ensures k * d >= n <==> k >= (n + d - 1) / d
  {
    var q, r := (n + d - 1) / d, (n + d - 1) % d;
    assert n + d - 1 == q * d + r;
    if k >= q {
      MultiplesGrow(q, k, d);
    } else {
      MultiplesGrow(k, q - 1, d);
      assert (q - 1) * d == q * d - d;
    }
  }

  // One step around a circle of n places.
  lemma ModStep(x: nat, n: nat)
    requires x < 2 * n
    ensures x % n == if x < n then x else x - n
  {
    var q, r := x / n, x % n;
    assert x == q * n + r;
    assert q < 2 by {
      assert q >= 2 ==> (q - 2) * n >= 0;
    }
    assert q == 0 || q == 1;
  }
}
