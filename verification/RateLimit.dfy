/** The fixed-window rate limiter: its check against the store, and what it admits over time. */
module RateLimit {
  import opened TimedStore
  import opened Wire

  /** The store after one check at `now`. */
  function Checked(e: Entries, k: Key, now: real, window: int): Entries {
    if Live(e, k, now) then Incremented(e, k, now) else Put(e, k, Count(1), now, window)
  }

  class RateLimiter {
    const cache: RedisCache
    const max: nat
    const window: int

    constructor (cache: RedisCache, max: nat, window: int)
      requires window >= 1
      ensures this.cache == cache && this.max == max && this.window == window
    {
      this.cache, this.max, this.window := cache, max, window;
    }

    /** `check`, with no other check of the key in between; it raises unless `admitted`. */
    method Check(k: Key) returns (admitted: bool)
      requires window >= 1 && (Live(cache.entries, k, cache.now) ==> cache.entries[k].value.Count?)
      requires Live(cache.entries, k, cache.now) ==> cache.entries[k].value.n >= 1
      modifies cache`entries
      ensures cache.entries == Checked(old(cache.entries), k, cache.now, window)
      ensures admitted <==> cache.entries[k].value.Count? && cache.entries[k].value.n <= max
      ensures Live(cache.entries, k, cache.now)
      ensures var was := Look(old(cache.entries), k, cache.now);
              var count := if was.Some? then was.value.n + 1 else 1;
              && Look(cache.entries, k, cache.now) == Some(Count(count)) && (admitted <==> count <= max)
              && cache.entries[k].expires ==
                 if was.Some? then old(cache.entries)[k].expires else Some(cache.now + window as real)
      ensures forall other, t | other != k :: Look(cache.entries, other, t) == Look(old(cache.entries), other, t)
    {
      var count := cache.Incr(k);
      if count == 1 {
        cache.Set(k, Count(count), window);
      }
      admitted := count <= max;
    }
  }

  /** The store after the first `n` checks of `k`, made at `times`. */
  function After(e: Entries, k: Key, times: seq<real>, window: int, n: nat): Entries
    requires n <= |times|
  {
    if n == 0 then e else Checked(After(e, k, times, window, n - 1), k, times[n - 1], window)
  }

  /** Check `i` is let through. */
  predicate Admitted(e: Entries, k: Key, times: seq<real>, max: nat, window: int, i: nat)
    requires i < |times|
  {
    var after := After(e, k, times, window, i + 1);
    k in after && after[k].value.Count? && after[k].value.n <= max
  }

  predicate InOrder(times: seq<real>) {
    forall i, j | 0 <= i <= j < |times| :: times[i] <= times[j]
  }

  /** The first check of the counter lifetime that check `i` falls in: a lifetime begins with a check
      that finds none, and lasts one window. */
  function Start(times: seq<real>, window: int, i: nat): (s: nat)
    requires i < |times|
    ensures s <= i
  {
    if i == 0 then 0
    else
      var s := Start(times, window, i - 1);
      if times[i] < times[s] + window as real then s else i
  }

  lemma CheckedCounter(e: Entries, k: Key, now: real, window: int)
    ensures k in Checked(e, k, now, window)
    ensures k in e && e[k].value.Count? && e[k].expires.Some? ==>
              Checked(e, k, now, window)[k] ==
              if now < e[k].expires.value then e[k].(value := Count(e[k].value.n + 1))
              else Entry(Count(1), Some(now + window as real))
    ensures k !in e ==> Checked(e, k, now, window)[k] == Entry(Count(1), Some(now + window as real))
    ensures Checked(e, k, now, window) - {k} == e - {k}
  {
    assert Checked(e, k, now, window) - {k} == e - {k};
  }

  /** The counter after check `i` counts the checks of its lifetime and expires with it. */
  lemma {:induction false} CounterCountsLifetime(e: Entries, k: Key, times: seq<real>, window: int, i: nat)
    requires k !in e && window >= 1 && InOrder(times) && i < |times|
    ensures var s := Start(times, window, i);
            var after := After(e, k, times, window, i + 1);
            && k in after && after[k] == Entry(Count(i - s + 1), Some(times[s] + window as real))
            && after - {k} == e - {k}
    ensures Start(times, window, Start(times, window, i)) == Start(times, window, i)
    ensures times[i] < times[Start(times, window, i)] + window as real
  {
    hide Checked;
    var before := After(e, k, times, window, i);
    CheckedCounter(before, k, times[i], window);
    if i == 0 {
      assert before == e;
    } else {
      CounterCountsLifetime(e, k, times, window, i - 1);
    }
  }

  /** Each counter lifetime admits exactly its first `max` checks, all of them if fewer. */
  lemma LifetimeAdmitsFirst(e: Entries, k: Key, times: seq<real>, max: nat, window: int, i: nat)
    requires k !in e && window >= 1 && InOrder(times) && i < |times|
    ensures Admitted(e, k, times, max, window, i) <==> i - Start(times, window, i) < max
  {
    CounterCountsLifetime(e, k, times, window, i);
  }

  lemma {:induction false} StartsMonotone(times: seq<real>, window: int, i: nat, j: nat)
    requires i <= j < |times|
    ensures Start(times, window, i) <= Start(times, window, j)
    ensures Start(times, window, i) == Start(times, window, j) || i < Start(times, window, j)
    decreases j - i
  {
    if i < j {
      StartsMonotone(times, window, i, j - 1);
    }
  }

  /** A lifetime begins at least one window after the one before. */
  lemma {:induction false} StartsApart(times: seq<real>, window: int, j: nat)
    requires window >= 1 && InOrder(times) && 0 < j < |times| && Start(times, window, j) == j
    ensures times[Start(times, window, j - 1)] + window as real <= times[j]
  {
  }

  lemma StartIsStart(e: Entries, k: Key, times: seq<real>, window: int, j: nat)
    requires k !in e && window >= 1 && InOrder(times) && j < |times|
    ensures Start(times, window, Start(times, window, j)) == Start(times, window, j)
  {
    CounterCountsLifetime(e, k, times, window, j);
  }

  /** The admitted checks in the half-open interval of one window from `t`. */
  ghost function AdmittedWithin(e: Entries, k: Key, times: seq<real>, max: nat, window: int, t: real): set<nat> {
    set i: nat | i < |times| && t <= times[i] < t + window as real && Admitted(e, k, times, max, window, i)
  }

  function Range(a: nat, b: nat): (r: set<nat>)
    ensures forall i: nat :: i in r <==> a <= i < b
    ensures |r| == if a <= b then b - a else 0
    decreases b
  {
    if a >= b then {} else Range(a, b - 1) + {b - 1}
  }

  lemma SmallerSet(a: set<nat>, b: set<nat>)
    requires a <= b
    ensures |a| <= |b|
  {
    if a != {} {
      var x :| x in a;
      SmallerSet(a - {x}, b - {x});
    }
  }

  lemma LargestOf(s: set<nat>) returns (k: nat)
    requires s != {}
    ensures k in s && forall i | i in s :: i <= k
    decreases s
  {
    var x: nat :| x in s;
    var larger := set i: nat | i in s && i > x;
    k := x;
    if larger != {} {
      assert x in s && x !in larger;
      k := LargestOf(larger);
      assert k in larger;
    }
    forall i | i in s ensures i <= k {
      if i > x {
        assert i in larger;
      }
    }
  }

  /** Where the admitted checks of an interval lie, if `j` is the last of them. */
  lemma AdmittedLie(e: Entries, k: Key, times: seq<real>, max: nat, window: int, t: real, j: nat, i: nat)
    requires k !in e && window >= 1 && InOrder(times)
    requires i <= j && i in AdmittedWithin(e, k, times, max, window, t)
        && j in AdmittedWithin(e, k, times, max, window, t)
    ensures var s := Start(times, window, j);
            if i >= s then s <= i < s + max
            else s > 0 && var r := Start(times, window, s - 1); r + 1 <= i < r + max
  {
    hide After, Admitted, Start, Checked;
    var s := Start(times, window, j);
    LifetimeAdmitsFirst(e, k, times, max, window, i);
    StartsMonotone(times, window, i, j);
    StartIsStart(e, k, times, window, j);
    if i >= s {
      StartsMonotone(times, window, s, i);
    } else {
      StartsApart(times, window, s);
      StartsMonotone(times, window, i, s - 1);
    }
  }

  /** Any half-open interval of one window length contains at most `2 * max - 1` admitted requests: one
      fewer than two full lifetimes, because the first request of the earlier one lies before it. */
  lemma WindowBound(e: Entries, k: Key, times: seq<real>, max: nat, window: int, t: real)
    requires k !in e && window >= 1 && InOrder(times)
    ensures |AdmittedWithin(e, k, times, max, window, t)| <= if max == 0 then 0 else 2 * max - 1
  {
    var all := AdmittedWithin(e, k, times, max, window, t);
    if all != {} {
      var j := LargestOf(all);
      var s := Start(times, window, j);
      LifetimeAdmitsFirst(e, k, times, max, window, j);
      var r := if s > 0 then Start(times, window, s - 1) else 0;
      forall i | i in all ensures i in Range(s, s + max) + Range(r + 1, r + max) {
        AdmittedLie(e, k, times, max, window, t, j, i);
      }
      SmallerSet(all, Range(s, s + max) + Range(r + 1, r + max));
    }
  }

  /** One check at instant 0, `max - 1` at `t`, and `max` one window after the first. */
  function Burst(max: nat, window: int, t: real): seq<real> {
    seq(2 * max, i requires 0 <= i < 2 * max => if i == 0 then 0.0 else if i < max then t else window as real)
  }

  lemma {:induction false} BurstStarts(max: nat, window: int, t: real, i: nat)
    requires max >= 1 && window >= 1 && 0.0 < t < window as real && i < 2 * max
    ensures Start(Burst(max, window, t), window, i) == if i < max then 0 else max
  {
    if i > 0 {
      BurstStarts(max, window, t, i - 1);
    }
  }

  lemma BurstAdmits(k: Key, max: nat, window: int, t: real, i: nat)
    requires max >= 1 && window >= 1 && 0.0 < t < window as real && i < 2 * max
    ensures InOrder(Burst(max, window, t)) && Admitted(map[], k, Burst(max, window, t), max, window, i)
    ensures t <= Burst(max, window, t)[i] < t + window as real <==> i > 0
  {
    hide Start, Admitted;
    BurstStarts(max, window, t, i);
    LifetimeAdmitsFirst(map[], k, Burst(max, window, t), max, window, i);
  }

  /** The bound is reached for every limit and window, wherever in the window the interval starts. */
  lemma WindowBoundIsReached(k: Key, max: nat, window: int, t: real)
    requires max >= 1 && window >= 1 && 0.0 < t < window as real
    ensures InOrder(Burst(max, window, t))
    ensures |AdmittedWithin(map[], k, Burst(max, window, t), max, window, t)| == 2 * max - 1
  {
    var times := Burst(max, window, t);
    var all := AdmittedWithin(map[], k, times, max, window, t);
    assert |times| == 2 * max;
    hide Start, Admitted, Burst;
    forall i: nat | i < 2 * max
      ensures InOrder(times) && Admitted(map[], k, times, max, window, i)
      ensures t <= times[i] < t + window as real <==> i > 0
    {
      BurstAdmits(k, max, window, t, i);
    }
    BurstAdmits(k, max, window, t, 0);
    assert all == Range(1, 2 * max);
  }
}
