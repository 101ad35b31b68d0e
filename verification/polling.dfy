/**
 * How long the polling loops can go on.
 *
 * Both reconciliation loops of the client start at a base interval, double it
 * after every round and stop doubling at thirty seconds
 * (lez-faucet-ffi/src/client.rs); the worker's inclusion poll keeps one
 * interval (claimd/src/worker.rs). Times are in milliseconds.
 */
module Polling {

  const MAX_INTERVAL: nat := 30_000

  function Min(a: nat, b: nat): nat {
    if a < b then a else b
  }

  // The interval slept after round n, counting rounds from zero.
  function Interval(base: nat, n: nat): nat {
    if n == 0 then base else Min(2 * Interval(base, n - 1), MAX_INTERVAL)
  }

  // The time the first n sleeps add up to.
  function Slept(base: nat, n: nat): nat {
    if n == 0 then 0 else Slept(base, n - 1) + Interval(base, n - 1)
  }

  // How often the base interval doubles before it reaches the cap.
  function Doublings(base: nat): nat
    requires base > 0
    decreases MAX_INTERVAL - base
  {
    if base >= MAX_INTERVAL then 0 else 1 + Doublings(2 * base)
  }

  function Power2(n: nat): nat {
    if n == 0 then 1 else 2 * Power2(n - 1)
  }

  function CeilDiv(a: nat, b: nat): nat
    requires b > 0
  {
    (a + b - 1) / b
  }

  // The most rounds a reconciliation with this policy can take.
  function RoundBound(base: nat, deadline: nat): nat
    requires base > 0
  {
    Doublings(base) + CeilDiv(deadline, MAX_INTERVAL) + 1
  }

  lemma SomeRounds(base: nat, deadline: nat)
    requires base > 0
    ensures RoundBound(base, deadline) == Doublings(base) + (deadline + 29_999) / 30_000 + 1
  {
  }

  lemma NoSleepYet(base: nat)
    ensures Interval(base, 0) == base && Slept(base, 0) == 0
  {
  }

  lemma NextSleep(base: nat, n: nat)
    ensures Interval(base, n + 1) == if Interval(base, n) > 15_000 then 30_000 else 2 * Interval(base, n)
    ensures Slept(base, n + 1) == Slept(base, n) + Interval(base, n)
  {
  }

  lemma {:induction false} PowerScales(base: nat, k: nat)
    ensures base * Power2(k + 1) == (2 * base) * Power2(k)
  {
  }

  // Doublings is the logarithm of cap over base, rounded up: the least k
  // with base * 2^k at the cap.
  lemma {:induction false} DoublingsIsLogarithm(base: nat, k: nat)
    requires base > 0
    ensures base * Power2(k) >= 30_000 <==> k >= Doublings(base)
    decreases k
  {
    if base < MAX_INTERVAL && k > 0 {
      PowerScales(base, k - 1);
      DoublingsIsLogarithm(2 * base, k - 1);
    } else if base >= MAX_INTERVAL {
      AtLeastBase(base, k);
    }
  }

  lemma {:induction false} AtLeastBase(base: nat, k: nat)
    ensures base * Power2(k) >= base
  {
    if k > 0 {
      AtLeastBase(base, k - 1);
      PowerScales(base, k - 1);
      assert (2 * base) * Power2(k - 1) == 2 * (base * Power2(k - 1));
    }
  }

  lemma {:induction false} IntervalShifts(base: nat, n: nat)
    requires 0 < base < MAX_INTERVAL
    ensures Interval(base, n + 1) >= Min(Interval(2 * base, n), MAX_INTERVAL)
    decreases n
  {
    if n > 0 {
      IntervalShifts(base, n - 1);
    }
  }

  lemma {:induction false} IntervalReachesCap(base: nat, n: nat)
    requires base > 0 && n >= Doublings(base)
    ensures Interval(base, n) >= MAX_INTERVAL
    decreases n
  {
    if base < MAX_INTERVAL {
      IntervalReachesCap(2 * base, n - 1);
      IntervalShifts(base, n - 1);
    } else if n > 0 {
      IntervalReachesCap(base, n - 1);
    }
  }

  lemma {:induction false} SleptGrows(base: nat, n: nat)
    requires base > 0 && n >= Doublings(base)
    ensures Slept(base, n) >= (n - Doublings(base)) * MAX_INTERVAL
    decreases n
  {
    if n > Doublings(base) {
      SleptGrows(base, n - 1);
      IntervalReachesCap(base, n - 1);
    }
  }

  // After one round less than the bound the sleeps have used up the deadline.
  lemma BoundSuffices(base: nat, deadline: nat, n: nat)
    requires base > 0 && n + 1 >= RoundBound(base, deadline)
    ensures Slept(base, n) >= deadline
  {
    SleptGrows(base, n);
    var rounds := CeilDiv(deadline, MAX_INTERVAL);
    assert rounds * MAX_INTERVAL >= deadline;
    assert (n - Doublings(base)) * MAX_INTERVAL >= rounds * MAX_INTERVAL;
  }

  // A poll with one fixed interval has used up its window after that many sleeps.
  lemma FixedIntervalSuffices(window: nat, interval: nat, n: nat)
    requires interval > 0 && n >= CeilDiv(window, interval)
    ensures n * interval >= window
  {
    var rounds := CeilDiv(window, interval);
    CeilCovers(window, interval);
    assert n * interval == rounds * interval + (n - rounds) * interval;
  }

  lemma CeilCovers(a: nat, b: nat)
    requires b > 0
    ensures CeilDiv(a, b) * b >= a
  {
    var c := a + b - 1;
    assert c == (c / b) * b + c % b;
  }
}
