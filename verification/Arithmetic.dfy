/** Facts about integer division that several components share. */
module Arithmetic {

  /** Quotient and remainder are determined by the equation that defines them. */
  lemma DivModUnique(x: int, p: int, q: int, r: int)
    requires p > 0 && x == p * q + r && 0 <= r < p
    ensures x / p == q && x % p == r
  {
    var d := q - x / p;
    assert p * d == x % p - r by {
      assert x == p * (x / p) + x % p;
      assert p * d == p * q - p * (x / p);
    }
    if d >= 1 {
      MulMono(p, 1, d);
      assert false;
    } else if d <= -1 {
      MulMono(p, d, -1);
      assert false;
    }
  }

  lemma MulMono(p: int, a: int, b: int)
    requires p >= 0 && a <= b
    ensures p * a <= p * b
  {
    assert p * (b - a) >= 0;
  }

  lemma Distribute(a: int, b: int, w: int)
    ensures (a + b) * w == a * w + b * w
  {
  }

  /** One step of a modular counter. */
  lemma ModStep(a: nat, p: int)
    requires p >= 1
    ensures (a + 1) % p == if a % p == p - 1 then 0 else a % p + 1
    ensures (a + 1) / p == if a % p == p - 1 then a / p + 1 else a / p
  {
    if a % p == p - 1 {
      DivModUnique(a + 1, p, a / p + 1, 0);
    } else {
      DivModUnique(a + 1, p, a / p, a % p + 1);
    }
  }

  /** Adding a number keeps a remainder exactly when that number is a multiple. */
  lemma ModShift(a: nat, h: nat, p: int)
    requires p >= 1
    ensures h % p == 0 ==> (a + h) % p == a % p
    ensures a % p == 0 && (a + h) % p == 0 ==> h % p == 0
  {
    if h % p == 0 {
      DivModUnique(a + h, p, a / p + h / p, a % p);
    }
    if a % p == 0 && (a + h) % p == 0 {
      DivModUnique(h, p, (a + h) / p - a / p, 0);
    }
  }

  /** One step of a quotient that is rounded up. */
  lemma CeilStep(a: nat, p: int)
    requires p >= 1
    ensures (a + 1 + p - 1) / p == (a + p - 1) / p + if a % p == 0 then 1 else 0
  {
    DivModUnique(a + p, p, a / p + 1, a % p);
    if a % p == 0 {
      DivModUnique(a + p - 1, p, a / p, p - 1);
    } else {
      DivModUnique(a + p - 1, p, a / p + 1, a % p - 1);
    }
  }

  lemma MulMod(p: int, k: nat)
    requires p >= 1
    ensures (p * k) % p == 0 && (p * k) / p == k
  {
    DivModUnique(p * k, p, k, 0);
  }
}
