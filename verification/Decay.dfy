/** The delay passed on per hop, int(x * 0.75) on non-negative delays. */
module Decay {

  function Passed(x: nat): nat {
    3 * x / 4
  }

  /** The delay left after k hops. */
  function After(k: nat, x: nat): nat {
    if k == 0 then x else Passed(After(k - 1, x))
  }

  function Pow(b: nat, k: nat): nat {
    if k == 0 then 1 else b * Pow(b, k - 1)
  }

  lemma PassedMonotone(x: nat, y: nat)
    requires x <= y
    ensures Passed(x) <= Passed(y) <= y
  {
  }

  /** More hops never leave more delay. */
  lemma {:induction false} AfterAntitone(j: nat, k: nat, x: nat)
    requires j <= k
    ensures After(k, x) <= After(j, x)
  {
    if j < k {
      AfterAntitone(j, k - 1, x);
    }
  }

  lemma {:induction false} PowPositive(b: nat, k: nat)
    requires b > 0
    ensures Pow(b, k) > 0
  {
    if k > 0 {
      PowPositive(b, k - 1);
    }
  }

  lemma TimesMonotone(p: nat, a: int, b: int)
    requires a <= b
    ensures p * a <= p * b
  {
  }

  lemma LossStep(p: nat, q: nat, x: nat, a: nat, b: nat)
    requires 0 <= q * x - p * a <= 3 * (p - q)
    requires 3 * a - 3 <= 4 * b && 4 * b <= 3 * a
    ensures 0 <= 3 * q * x - 4 * p * b <= 3 * (4 * p - 3 * q)
  {
    TimesMonotone(p, 3 * a - 3, 4 * b);
    TimesMonotone(p, 4 * b, 3 * a);
    assert 3 * q * x == 3 * (q * x);
    assert p * (3 * a - 3) == 3 * (p * a) - 3 * p;
    assert p * (3 * a) == 3 * (p * a);
    assert p * (4 * b) == 4 * p * b;
  }

  /** Rounding down at every hop loses less than three minutes in all, however
      many hops: 0 <= x * (3/4)^k - After(k, x) < 3, scaled by 4^k. */
  lemma {:induction false} RoundingLoss(k: nat, x: nat)
    ensures 0 <= Pow(3, k) * x - Pow(4, k) * After(k, x) <= 3 * (Pow(4, k) - Pow(3, k))
    ensures Pow(3, k) * x - Pow(4, k) * After(k, x) < 3 * Pow(4, k)
  {
    PowPositive(3, k);
    if k > 0 {
      RoundingLoss(k - 1, x);
      LossStep(Pow(4, k - 1), Pow(3, k - 1), x, After(k - 1, x), After(k, x));
    }
  }

  /** Once 4^k exceeds x * 3^k nothing is left. */
  lemma {:induction false} DiesOut(k: nat, x: nat)
    requires Pow(4, k) > Pow(3, k) * x
    ensures After(k, x) == 0
  {
    RoundingLoss(k, x);
    BelowOne(Pow(4, k), After(k, x));
  }

  lemma BelowOne(p: nat, a: nat)
    requires p * a < p
    ensures a == 0
  {
  }
}
