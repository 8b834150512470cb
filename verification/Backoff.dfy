/** The retry delays of `_retry_or_abandon_dlq_message`. */
module Backoff {
  datatype Policy = Policy(base: real, cap: real, limit: nat)

  predicate ValidPolicy(p: Policy) {
    p.base > 0.0 && p.cap >= 0.0
  }

  function Power(n: nat): (r: nat)
    ensures r >= 1
  {
    if n == 0 then 1 else 2 * Power(n - 1)
  }

  /** `base * 2 ** (delivered - 1)`; a delivery number of zero halves the base. */
  function Uncapped(p: Policy, delivered: nat): real {
    if delivered == 0 then p.base / 2.0 else p.base * Power(delivered - 1) as real
  }

  function Delay(p: Policy, delivered: nat): real {
    if Uncapped(p, delivered) <= p.cap then Uncapped(p, delivered) else p.cap
  }

  lemma UncappedDoubles(p: Policy, d: nat)
    requires ValidPolicy(p) && d >= 1
    ensures Uncapped(p, d + 1) == 2.0 * Uncapped(p, d) && Uncapped(p, d) > 0.0
  {
    assert Power(d) == 2 * Power(d - 1);
    assert Power(d) as real == 2.0 * Power(d - 1) as real;
  }

  lemma {:induction false} UncappedGrows(p: Policy, d: nat, e: nat)
    requires ValidPolicy(p) && 1 <= d <= e
    ensures 0.0 < Uncapped(p, d) <= Uncapped(p, e)
    decreases e - d
  {
    UncappedDoubles(p, d);
    if d < e {
      UncappedGrows(p, d, e - 1);
      UncappedDoubles(p, e - 1);
    }
  }

  /** Delays never shrink and never exceed the cap. */
  lemma DelaysGrow(p: Policy, d: nat, e: nat)
    requires ValidPolicy(p) && 1 <= d <= e
    ensures Delay(p, d) <= Delay(p, e) <= p.cap
  {
    UncappedGrows(p, d, e);
  }

  /** The delay accumulated by the first `n` failed deliveries. */
  function Total(p: Policy, n: nat): real {
    if n == 0 then 0.0 else Total(p, n - 1) + Delay(p, n)
  }

  function Geometric(p: Policy, n: nat): real {
    p.base * (Power(n) as real - 1.0)
  }

  lemma GeometricStep(p: Policy, n: nat)
    requires n >= 1
    ensures Geometric(p, n) == Geometric(p, n - 1) + Uncapped(p, n)
  {
    var a := Power(n - 1) as real;
    assert Power(n) as real == 2.0 * a;
    assert p.base * (2.0 * a - 1.0) == p.base * (a - 1.0) + p.base * a;
  }

  lemma CapStep(p: Policy, m: int)
    ensures (m + 1) as real * p.cap == m as real * p.cap + p.cap
  {
  }

  /** The exact total: doubling for the first `k` deliveries, whose uncapped delay is below the cap,
      and the cap for the rest. */
  lemma {:induction false} ExactTotal(p: Policy, n: nat) returns (k: nat)
    requires ValidPolicy(p)
    ensures k <= n && (forall d | 1 <= d <= n :: Uncapped(p, d) < p.cap <==> d <= k)
    ensures Total(p, n) == Geometric(p, k) + (n - k) as real * p.cap
  {
    if n == 0 {
      k := 0;
    } else {
      k := ExactTotal(p, n - 1);
      if Uncapped(p, n) < p.cap {
        if k < n - 1 {
          UncappedGrows(p, k + 1, n);
        }
        k := n;
        GeometricStep(p, n);
      } else {
        CapStep(p, n - 1 - k);
      }
    }
  }

  /** Before it gives up at its `limit`-th delivery, a dead letter has waited at most
      `base * (2^(limit-1) - 1)` and at most `(limit-1) * cap`; the first is reached exactly when the
      last delay is not cut by the cap. */
  lemma TotalBounded(p: Policy)
    requires ValidPolicy(p) && p.limit >= 1
    ensures Total(p, p.limit - 1) <= Geometric(p, p.limit - 1)
    ensures Total(p, p.limit - 1) <= (p.limit - 1) as real * p.cap
    ensures p.limit >= 2 ==>
              (Total(p, p.limit - 1) == Geometric(p, p.limit - 1) <==> Uncapped(p, p.limit - 1) <= p.cap)
  {
    TotalAtMost(p, p.limit - 1);
  }

  lemma {:induction false} TotalAtMost(p: Policy, n: nat)
    requires ValidPolicy(p)
    ensures Total(p, n) <= Geometric(p, n) && Total(p, n) <= n as real * p.cap
    ensures n >= 1 ==> (Total(p, n) == Geometric(p, n) <==> Uncapped(p, n) <= p.cap)
  {
    if n >= 1 {
      TotalAtMost(p, n - 1);
      GeometricStep(p, n);
      CapStep(p, n - 1);
      if n >= 2 {
        UncappedGrows(p, n - 1, n);
      }
    }
  }
}
