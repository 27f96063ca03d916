/** The delay before a retry: doubling in 64-bit arithmetic, capped, with jitter on top. */
module Backoff {
  import opened Prelude

  const TWO_63: int := 0x8000_0000_0000_0000
  const TWO_64: int := 0x1_0000_0000_0000_0000

  /** A signed 64-bit product of two in-range values keeps its low 64 bits. */
  function Wrap64(x: int): (w: int)
    ensures -TWO_63 <= w < TWO_63 && (w - x) % TWO_64 == 0
    ensures -TWO_63 <= x < TWO_63 ==> w == x
  {
    (x + TWO_63) % TWO_64 - TWO_63
  }

  function Pow2(n: nat): (p: nat)
    ensures p > 0
  {
    if n == 0 then 1 else 2 * Pow2(n - 1)
  }

  /** `b` after up to `times` doublings, stopping at the cap. */
  function Doubled(b: int, cap: int, times: nat): int
    decreases times
  {
    if times == 0 then b
    else
      var next := Wrap64(b * 2);
      if next >= cap then cap else Doubled(next, cap, times - 1)
  }

  /** What the delay is meant to be before attempt n + 1. */
  function Ideal(base: int, cap: int, n: int): int
  {
    if n <= 1 then base else Min(base * Pow2(n - 1), cap)
  }

  /** `base` doubled n times, without any limit. */
  function Scaled(base: int, n: nat): int
  {
    if n == 0 then base else 2 * Scaled(base, n - 1)
  }

  lemma {:induction false} ScaledIsAPower(base: int, n: nat)
    ensures Scaled(base, n) == base * Pow2(n)
  {
    if n > 0 {
      ScaledIsAPower(base, n - 1);
      assert base * (2 * Pow2(n - 1)) == 2 * (base * Pow2(n - 1));
    }
  }

  lemma {:induction false} ScaledGrows(base: int, m: nat, n: nat)
    requires base > 0 && m <= n
    ensures 0 < base <= Scaled(base, m) <= Scaled(base, n)
    decreases n
  {
    if m < n {
      ScaledGrows(base, m, n - 1);
    } else if n > 0 {
      ScaledGrows(base, n - 1, n - 1);
    }
  }

  /** Some doubling reaches the cap while it still fits in 64 bits. */
  ghost predicate ReachesCap(base: int, cap: int)
  {
    exists m :: ReachesCapAfter(base, cap, m)
  }

  predicate ReachesCapAfter(base: int, cap: int, m: nat)
  {
    m >= 1 && cap <= Scaled(base, m) < TWO_63
  }

  /** Doubling is exact as long as the cap is reached in time. */
  lemma {:induction false} DoubledIsExact(base: int, cap: int, m: nat, done: nat, times: nat)
    requires base > 0 && ReachesCapAfter(base, cap, m) && done < m
    requires done == 0 || Scaled(base, done) < cap
    ensures Doubled(Scaled(base, done), cap, times) == if times == 0 then Scaled(base, done) else Min(Scaled(base, done + times), cap)
    decreases times
  {
    if times > 0 {
      hide Wrap64;
      ScaledGrows(base, done + 1, m);
      ScaledGrows(base, done + 1, done + times);
      var next := Scaled(base, done + 1);
      assert next == Scaled(base, done) * 2 && Wrap64(next) == next;
      if next < cap {
        DoubledIsExact(base, cap, m, done + 1, times - 1);
        assert done + 1 + (times - 1) == done + times;
      }
    }
  }

  /** If no doubling reaches the cap in time, one of them wraps to a negative delay. */
  lemma {:induction false} DoublingWraps(base: int, cap: int, done: nat) returns (times: nat)
    requires 0 < base < TWO_63 && 0 < cap && !ReachesCap(base, cap)
    requires Scaled(base, done) < TWO_63
    ensures times >= 1 && Doubled(Scaled(base, done), cap, times) < 0
    decreases TWO_63 - Scaled(base, done)
  {
    var b := Scaled(base, done);
    ScaledGrows(base, 0, done);
    assert Scaled(base, done + 1) == 2 * b;
    if 2 * b < TWO_63 {
      assert !ReachesCapAfter(base, cap, done + 1);
      times := DoublingWraps(base, cap, done + 1);
      times := times + 1;
    } else {
      WrapsBelowZero(b);
      times := 1;
      assert Doubled(b * 2 - TWO_64, cap, 0) == b * 2 - TWO_64;
    }
  }

  lemma WrapsBelowZero(b: int)
    requires b < TWO_63 <= 2 * b
    ensures Wrap64(b * 2) == b * 2 - TWO_64 < 0
  {}

  /** The loop computes min(base * 2^(n-1), cap) for every attempt exactly when some doubling reaches the cap within 64 bits. */
  lemma BackoffIsRightIff(base: int, cap: int)
    requires 0 < base < TWO_63 && 0 < cap < TWO_63
    ensures (forall n: int :: Doubled(base, cap, if n <= 1 then 0 else n - 1) == Ideal(base, cap, n)) <==> ReachesCap(base, cap)
  {
    hide Wrap64, Pow2;
    assert Scaled(base, 0) == base;
    if ReachesCap(base, cap) {
      var m :| ReachesCapAfter(base, cap, m);
      forall n: int ensures Doubled(base, cap, if n <= 1 then 0 else n - 1) == Ideal(base, cap, n) {
        ScaledIsAPower(base, if n <= 1 then 0 else n - 1);
        DoubledIsExact(base, cap, m, 0, if n <= 1 then 0 else n - 1);
      }
    } else {
      var times := DoublingWraps(base, cap, 0);
      ScaledIsAPower(base, times);
      ScaledGrows(base, 0, times);
      assert Ideal(base, cap, times + 1) >= 0;
      assert Doubled(base, cap, (times + 1) - 1) != Ideal(base, cap, times + 1);
    }
  }

  /** Room for one doubling of the larger setting is enough. */
  lemma RoomToDoubleIsEnough(base: int, cap: int)
    requires 0 < base && 0 < cap && 2 * base < TWO_63 && 2 * cap < TWO_63
    ensures ReachesCap(base, cap)
  {
    var m := FirstReach(base, cap, 1);
  }

  lemma {:induction false} FirstReach(base: int, cap: int, done: nat) returns (m: nat)
    requires 0 < base && 0 < cap && 2 * cap < TWO_63 && done >= 1
    requires Scaled(base, done) < TWO_63
    ensures ReachesCapAfter(base, cap, m)
    decreases cap - Scaled(base, done)
  {
    if Scaled(base, done) >= cap {
      m := done;
    } else {
      ScaledGrows(base, 0, done);
      assert Scaled(base, done + 1) == 2 * Scaled(base, done);
      m := FirstReach(base, cap, done + 1);
    }
  }

  /** Settings too large for 64 bits: the second retry would be due in the past. */
  lemma HugeSettingsWrap()
    ensures var base, cap := 0x4000_0000_0000_0000, TWO_63 - 1;
            0 < base < TWO_63 && 0 < cap < TWO_63 && !ReachesCap(base, cap) && Doubled(base, cap, 1) == -TWO_63
  {
    var base, cap := 0x4000_0000_0000_0000, TWO_63 - 1;
    forall m: nat ensures !ReachesCapAfter(base, cap, m) {
      if m >= 1 {
        ScaledGrows(base, 1, m);
        assert Scaled(base, 1) == 2 * Scaled(base, 0) == TWO_63;
      }
    }
    WrapsBelowZero(base);
    assert Doubled(-TWO_63, cap, 0) == -TWO_63;
  }

  /** Delays never get shorter from one attempt to the next, for a base that does not exceed the cap. */
  lemma IdealGrows(base: int, cap: int, n: int, n': int)
    requires 0 < base <= cap && n <= n'
    ensures Ideal(base, cap, n) <= Ideal(base, cap, n') <= cap
  {
    if n' > 1 {
      ScaledIsAPower(base, n' - 1);
      ScaledGrows(base, 0, n' - 1);
      if n > 1 {
        ScaledIsAPower(base, n - 1);
        ScaledGrows(base, n - 1, n' - 1);
      }
    }
  }

  /** Division as the program does it, toward zero. */
  function Quarter(b: int): int
  {
    if b >= 0 then b / 4 else -(-b / 4)
  }

  /** When the next attempt is due: the doubled delay, plus a draw below a quarter of it. */
  function RetryTime(base: int, cap: int, attempt: int, now: Time, random: nat): Time
  {
    var b := Doubled(base, cap, if attempt <= 1 then 0 else attempt - 1);
    now + b + if Quarter(b) <= 0 then 0 else random % Quarter(b)
  }

  /** With settings that leave room, that is at least the intended delay and less than a quarter more. */
  lemma RetryTimeIsInRange(base: int, cap: int, attempt: int, now: Time, random: nat)
    requires 0 < base < TWO_63 && 0 < cap < TWO_63 && ReachesCap(base, cap)
    ensures var b, at := Ideal(base, cap, attempt), RetryTime(base, cap, attempt, now, random);
            if b < 4 then at == now + b else now + b <= at < now + b + b / 4
  {
    BackoffIsRightIff(base, cap);
    assert Doubled(base, cap, if attempt <= 1 then 0 else attempt - 1) == Ideal(base, cap, attempt);
    if attempt > 1 {
      ScaledIsAPower(base, attempt - 1);
      ScaledGrows(base, 0, attempt - 1);
    }
  }

  lemma SmallModIsItself(x: nat, n: nat)
    requires x < n
    ensures x % n == x
  {}

  /** And every moment from the one to the other can be drawn. */
  lemma EveryDelayCanBeDrawn(base: int, cap: int, attempt: int, now: Time, at: Time) returns (random: nat)
    requires 0 < base < TWO_63 && 0 < cap < TWO_63 && ReachesCap(base, cap)
    requires var b := Ideal(base, cap, attempt); b >= 4 && now + b <= at < now + b + b / 4
    ensures RetryTime(base, cap, attempt, now, random) == at
  {
    BackoffIsRightIff(base, cap);
    var b := Ideal(base, cap, attempt);
    assert Doubled(base, cap, if attempt <= 1 then 0 else attempt - 1) == b;
    random := at - now - b;
    assert Quarter(b) == b / 4 > 0;
    hide Doubled, Ideal, ReachesCap, Quarter;
    SmallModIsItself(random, b / 4);
  }

  method RandomJitter(max: int, random: nat) returns (jitter: int)
    ensures jitter == if max <= 0 then 0 else random % max
  {
    if max <= 0 {
      return 0;
    }
    return random % max;
  }

  method NextRetryTime(base: int, cap: int, attempt: int, now: Time, random: nat) returns (at: Time)
    requires 0 < base < TWO_63 && 0 < cap < TWO_63
    ensures at == RetryTime(base, cap, attempt, now, random)
    ensures ReachesCap(base, cap) ==>
              var b := Ideal(base, cap, attempt);
              if b < 4 then at == now + b else now + b <= at < now + b + b / 4
  {
    var backoff := base;
    var i := 1;
    while i < attempt
      invariant i == 1 || i <= attempt
      invariant Doubled(backoff, cap, if attempt <= i then 0 else attempt - i) == Doubled(base, cap, if attempt <= 1 then 0 else attempt - 1)
    {
      backoff := Wrap64(backoff * 2);
      if backoff >= cap {
        backoff := cap;
        break;
      }
      i := i + 1;
    }
    assert backoff == Doubled(base, cap, if attempt <= 1 then 0 else attempt - 1);
    var jitter := RandomJitter(Quarter(backoff), random);
    at := now + (backoff + jitter);
    if ReachesCap(base, cap) {
      RetryTimeIsInRange(base, cap, attempt, now, random);
    }
  }
}
