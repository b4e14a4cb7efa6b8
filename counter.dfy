/** animateCounter of main.js: a value ramps from 0 to a target in equal
    steps, one step per 16 ms tick, is clamped to the target on the tick
    that reaches it, and each tick writes `Math.floor(current) + '+'`.
    Arithmetic is exact (reals), not IEEE doubles. */
module Counter {

  const DurationMs := 2000
  const TickMs := 16

  /** `duration / 16`: the number of steps in the ramp (125). */
  const StepCount: real := DurationMs as real / TickMs as real

  /** `target / (duration / 16)`. */
  function Step(target: nat): real {
    target as real / StepCount
  }

  /** `current` after `k` executions of `current += step` from 0. */
  function Accumulated(target: nat, k: nat): real {
    if k == 0 then 0.0 else Accumulated(target, k - 1) + Step(target)
  }

  /** With exact arithmetic the accumulated value is `k` steps. */
  lemma {:induction false} AccumulatedIsProduct(target: nat, k: nat)
    ensures Accumulated(target, k) == k as real * Step(target)
  {
    if k > 0 {
      AccumulatedIsProduct(target, k - 1);
      assert k as real * Step(target) == (k - 1) as real * Step(target) + Step(target);
    }
  }

  /** The value of `current` at the end of tick `k` (k >= 1): `k` steps,
      clamped to the target once they reach it. */
  function CurrentAfter(target: nat, k: nat): (c: real)
    ensures 0.0 <= c <= target as real
  {
    var raw := Accumulated(target, k);
    AccumulatedIsProduct(target, k);
    if raw >= target as real then target as real else raw
  }

  /** Decimal notation of a natural number, as JavaScript prints an integer
      below 10^21 (from there JavaScript switches to exponent notation). */
  function Decimal(n: nat): (s: string)
    ensures |s| >= 1
    decreases n
  {
    var digit := "0123456789"[n % 10];
    if n < 10 then [digit] else Decimal(n / 10) + [digit]
  }

  /** The text a tick writes: `Math.floor(current) + '+'`. */
  function Frame(target: nat, k: nat): string {
    Decimal(CurrentAfter(target, k).Floor) + "+"
  }

  /** The texts written by the first `n` ticks, in order. */
  function Frames(target: nat, n: nat): (r: seq<string>)
    ensures |r| == n
    ensures forall k :: 0 <= k < n ==> r[k] == Frame(target, k + 1)
  {
    if n == 0 then [] else Frames(target, n - 1) + [Frame(target, n)]
  }

  /** The number of ticks until the interval is cleared. */
  function TickCount(target: nat): nat {
    if target == 0 then 1 else DurationMs / TickMs
  }

  /** Tick `k` (1-based) reaches the target exactly when it is the last tick:
      tick 1 when the target is 0 (a zero step still satisfies
      `current >= target`), tick 125 otherwise. */
  lemma {:induction false} ReachesTargetExactlyAtLastTick(target: nat, k: nat)
    requires 1 <= k
    ensures k as real * Step(target) >= target as real <==> k >= TickCount(target)
  {
  }

  /** One more tick from the unclamped value after `n` ticks gives the
      value after `n + 1` ticks, and it clamps exactly on the last tick. */
  lemma NextTick(target: nat, n: nat)
    requires n < TickCount(target)
    ensures var next := Accumulated(target, n) + Step(target);
            (next >= target as real <==> n + 1 == TickCount(target))
            && CurrentAfter(target, n + 1) == (if next >= target as real then target as real else next)
  {
    ReachesTargetExactlyAtLastTick(target, n + 1);
    AccumulatedIsProduct(target, n + 1);
  }

  /** `current` never decreases from one tick to a later one. */
  lemma CurrentMonotone(target: nat, j: nat, k: nat)
    requires j <= k
    ensures CurrentAfter(target, j) <= CurrentAfter(target, k)
  {
    var step := Step(target);
    AccumulatedIsProduct(target, j);
    AccumulatedIsProduct(target, k);
    assert step >= 0.0;
    assert k as real * step - j as real * step == (k - j) as real * step;
    assert (k - j) as real * step >= 0.0;
  }

  /** The displayed number never decreases and never exceeds the target. */
  lemma DisplayMonotone(target: nat, j: nat, k: nat)
    requires j <= k
    ensures CurrentAfter(target, j).Floor <= CurrentAfter(target, k).Floor <= target
  {
    CurrentMonotone(target, j, k);
  }

  /** animateCounter(el, target), run to the end: the text written on each
      tick, in order. The interval is cleared on the tick that reaches the
      target, which is tick 1 for target 0 and tick 125 otherwise, and that
      tick writes the target itself. */
  method AnimateCounter(target: nat) returns (frames: seq<string>)
    ensures 1 <= |frames| <= 125
    ensures |frames| == TickCount(target)
    ensures forall k :: 0 <= k < |frames| ==> frames[k] == Frame(target, k + 1)
    ensures frames[|frames| - 1] == Decimal(target) + "+"
  {
    var step := target as real / (DurationMs as real / TickMs as real);
    assert step == Step(target);
    var current := 0.0;
    var running := true;
    frames := [];
    while running
      invariant |frames| <= TickCount(target)
      invariant running ==> |frames| < TickCount(target) && current == Accumulated(target, |frames|)
      invariant !running ==> |frames| == TickCount(target) && current == target as real
      invariant frames == Frames(target, |frames|)
      decreases TickCount(target) - |frames|
    {
      NextTick(target, |frames|);
      current := current + step;
      if current >= target as real {
        current := target as real;
        running := false;
      }
      assert current == CurrentAfter(target, |frames| + 1);
      assert Decimal(current.Floor) + "+" == Frame(target, |frames| + 1);
      frames := frames + [Decimal(current.Floor) + "+"];
    }
    NextTick(target, |frames| - 1);
    assert (target as real).Floor == target;
  }
}
