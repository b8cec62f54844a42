/** The token-bucket record and the refill-then-consume arithmetic shared by the
    instance-configured limiter (rlm_ratelimit.c) and its global-configuration copy
    (tokenbucket.c). Both files implement `tokens_to_add`, `update_bucket_tokens` and
    `update_used_bucket` with the same C expressions; they are defined once here, on values. */
module TokenBucket {
  import opened Search

  /** An unsigned 32-bit configuration value (`uint32_t`, `uint`). */
  type U32 = x: int | 0 <= x < 0x1_0000_0000

  const Int32Min: int := -0x8000_0000
  const Int32Max: int := 0x7fff_ffff

  /** The record `{id, tokens, latest}`: `tokens` is a C `int`, `latest` a `long` timestamp in
      milliseconds. */
  datatype Bucket = Bucket(id: Id, tokens: int, latest: int)

  /** Conversion of a wider integer to a 32-bit `int` (two's complement wrap-around, which is
      what the C compilers the server is built with do for `(int)` and for assignment). */
  function Int32(x: int): (r: int)
    ensures Int32Min <= r <= Int32Max
    ensures (r - x) % 0x1_0000_0000 == 0
    ensures Int32Min <= x <= Int32Max ==> r == x
  {
    var m := x % 0x1_0000_0000;
    if m <= Int32Max then m else m - 0x1_0000_0000
  }

  /** C's `/` on a signed `long` by a positive divisor: the quotient truncated toward zero,
      so the remainder `a - q * d` has the sign of the dividend and is smaller than the divisor
      in magnitude. On a non-negative dividend it agrees with Dafny's Euclidean division. */
  function CDiv(a: int, d: int): (q: int)
    requires d > 0
    ensures var rem := a - q * d; (a >= 0 ==> 0 <= rem < d) && (a < 0 ==> -d < rem <= 0)
    ensures a >= 0 ==> q == a / d
  {
    if a >= 0 then a / d else -((-a) / d)
  }

  /** `tokens_to_add(elapsed, period)`: whole periods elapsed, as a C `int`. An elapsed
      time under one period gives no token; a clock that stepped back by fewer than 2^31
      periods gives zero or a negative count. Beyond that, and for a forward gap of 2^31
      periods or more, the narrowing to `int` wraps. */
  function TokensToAdd(elapsed: int, period: U32): (n: int)
    requires period > 0
    ensures Int32Min <= n <= Int32Max
    ensures 0 <= elapsed && elapsed / period <= Int32Max ==> n == elapsed / period && n >= 0
  {
    var q := CDiv(elapsed, period);
    if 0 <= elapsed then
      DivNonNegative(elapsed, period);
      Int32(q)
    else
      Int32(q)
  }

  lemma DivNonNegative(a: int, d: int)
    requires 0 <= a && 0 < d
    ensures 0 <= a / d
  {
  }

  /** Fewer than one whole period elapsed, in either direction, gives no token: the
      fractional part is truncated toward zero. */
  lemma TokensToAddWithinPeriod(elapsed: int, period: U32)
    requires period > 0 && -(period as int) < elapsed < period
    ensures TokensToAdd(elapsed, period) == 0
  {
    var q := CDiv(elapsed, period);
    if elapsed >= 0 {
      DivSmall(elapsed, period);
    } else {
      TruncatedSmall(elapsed, period as int, q);
    }
  }

  lemma DivSmall(a: int, d: int)
    requires 0 <= a < d
    ensures a / d == 0
  {
  }

  /** A quotient whose remainder lies in `(-d, 0]`, of a dividend in `(-d, 0)`, is zero. */
  lemma TruncatedSmall(a: int, d: int, q: int)
    requires -d < a < 0 && -d < a - q * d <= 0
    ensures q == 0
  {
  }

  /** `add_bucket`: a fresh bucket for `id` is full (`cap` tokens) and stamped with the
      creation time. */
  function NewBucket(id: Id, cap: int, now: int): (b: Bucket)
    ensures b.id == id && b.tokens == cap && b.latest == now
  {
    Bucket(id, cap, now)
  }

  /** `update_bucket_tokens`: add the whole periods elapsed since `latest`, never above `cap`
      (which is `(int) maxtokens`). `latest` is left as it was. */
  function Refill(b: Bucket, now: int, cap: int, period: U32): (r: Bucket)
    requires period > 0
    ensures r.id == b.id && r.latest == b.latest
    ensures r.tokens <= cap
    ensures r.tokens == cap || r.tokens == b.tokens + TokensToAdd(now - b.latest, period)
    ensures b.tokens + TokensToAdd(now - b.latest, period) <= cap
            ==> r.tokens == b.tokens + TokensToAdd(now - b.latest, period)
  {
    var n := TokensToAdd(now - b.latest, period);
    b.(tokens := if b.tokens + n <= cap then b.tokens + n else cap)
  }

  /** `update_used_bucket`: spend one token and stamp the bucket with the current time. */
  function Consume(b: Bucket, now: int): (r: Bucket)
    ensures r.id == b.id && r.tokens == b.tokens - 1 && r.latest == now
  {
    b.(tokens := b.tokens - 1, latest := now)
  }

  /** The readings of the wall clock one check takes: `add_bucket`, `update_bucket_tokens`
      and `update_used_bucket` each call `current_time_in_ms` on their own. */
  datatype Readings = Readings(created: int, refilled: int, spent: int)

  /** Three readings taken within the same millisecond. */
  function At(now: int): (t: Readings)
    ensures t.created == t.refilled == t.spent == now
  {
    Readings(now, now, now)
  }

  /** A clock that does not step back during the check. */
  predicate Monotone(t: Readings) {
    t.created <= t.refilled <= t.spent
  }

  /** The bucket after one admission check, and whether the request is admitted. */
  datatype Step = Step(bucket: Bucket, ok: bool)

  /** Refill at the refill reading, then deny when no token is left, else consume one and
      stamp the bucket with the spend reading. */
  function Admit(b: Bucket, t: Readings, cap: int, period: U32): (r: Step)
    requires period > 0
    ensures r.bucket.id == b.id && r.bucket.tokens <= cap
    ensures r.ok ==> r.bucket.tokens >= 0 && r.bucket.latest == t.spent
    ensures !r.ok ==> r.bucket.tokens <= 0 && r.bucket.latest == b.latest
  {
    var f := Refill(b, t.refilled, cap, period);
    if f.tokens <= 0 then Step(f, false) else Step(Consume(f, t.spent), true)
  }

  /** A bucket within its budget: between zero and the capacity, stamped no later than `now`,
      and not so far back that the count of elapsed periods overflows a C `int`. */
  ghost predicate Healthy(b: Bucket, now: int, cap: int, period: U32)
    requires period > 0
  {
    0 <= b.tokens <= cap && b.latest <= now && (now - b.latest) / period <= Int32Max
  }

  /** Refilling a healthy bucket never loses tokens and never exceeds the capacity. */
  lemma RefillBounds(b: Bucket, now: int, cap: int, period: U32)
    requires period > 0 && Healthy(b, now, cap, period)
    ensures b.tokens <= Refill(b, now, cap, period).tokens <= cap
    ensures Refill(b, now, cap, period).tokens == b.tokens + (now - b.latest) / period
         || Refill(b, now, cap, period).tokens == cap
    ensures b.tokens + (now - b.latest) / period <= cap
         ==> Refill(b, now, cap, period).tokens == b.tokens + (now - b.latest) / period
  {
    var n := TokensToAdd(now - b.latest, period);
    assert n == (now - b.latest) / period && n >= 0;
  }

  /** The admission decision: denied exactly when the bucket refilled at the refill reading
      holds no token; a denial spends nothing and keeps `latest`; an admission spends exactly
      one token and stamps `latest` with the spend reading. */
  lemma AdmitDecision(b: Bucket, t: Readings, cap: int, period: U32)
    requires period > 0
    ensures var f := Refill(b, t.refilled, cap, period);
      var r := Admit(b, t, cap, period);
      && r.bucket.id == b.id
      && (r.ok <==> f.tokens > 0)
      && (!r.ok ==> r.bucket.tokens == f.tokens && r.bucket.latest == b.latest)
      && (r.ok ==> r.bucket.tokens == f.tokens - 1 && r.bucket.latest == t.spent)
  {
  }

  /** One admission check keeps a bucket healthy at the refill reading within `[0, cap]`,
      and, while the clock does not step back between refill and spend, never moves `latest`
      backwards or past the spend reading. */
  lemma AdmitKeepsBounds(b: Bucket, t: Readings, cap: int, period: U32)
    requires period > 0 && Healthy(b, t.refilled, cap, period)
    ensures var r := Admit(b, t, cap, period).bucket;
      0 <= r.tokens <= cap && (t.refilled <= t.spent ==> b.latest <= r.latest <= t.spent)
  {
    RefillBounds(b, t.refilled, cap, period);
  }

  /** Within one period of the last stamp, a bucket gains nothing. */
  lemma NoTokenWithinPeriod(b: Bucket, now: int, cap: int, period: U32)
    requires period > 0 && b.latest <= now < b.latest + period && b.tokens <= cap
    ensures Refill(b, now, cap, period) == b
  {
    TokensToAddWithinPeriod(now - b.latest, period);
  }

  /** With capacity 3 and a period of 1000 ms, three admissions at t=0 drain a fresh bucket
      and a fourth is denied. */
  lemma ExampleDrain()
    ensures Admit(NewBucket("X", 3, 0), At(0), 3, 1000) == Step(Bucket("X", 2, 0), true)
    ensures Admit(Bucket("X", 2, 0), At(0), 3, 1000) == Step(Bucket("X", 1, 0), true)
    ensures Admit(Bucket("X", 1, 0), At(0), 3, 1000) == Step(Bucket("X", 0, 0), true)
    ensures Admit(Bucket("X", 0, 0), At(0), 3, 1000) == Step(Bucket("X", 0, 0), false)
  {
    TokensToAddWithinPeriod(0, 1000);
    assert Admit(NewBucket("X", 3, 0), At(0), 3, 1000) == Step(Bucket("X", 2, 0), true);
    assert Admit(Bucket("X", 2, 0), At(0), 3, 1000) == Step(Bucket("X", 1, 0), true);
  }

  /** The drained bucket is still denied at t=999 (less than a period), and at t=1000 one
      token has come back and is spent at once. */
  lemma ExampleRefill()
    ensures Admit(Bucket("X", 0, 0), At(999), 3, 1000) == Step(Bucket("X", 0, 0), false)
    ensures Admit(Bucket("X", 0, 0), At(1000), 3, 1000) == Step(Bucket("X", 0, 1000), true)
  {
    TokensToAddWithinPeriod(999, 1000);
    assert TokensToAdd(1000, 1000) == 1;
  }

  /** The narrowing of the quotient to a C `int` wraps: a clock that stepped back by 2^31 + 1
      periods yields a large positive count, and a forward gap of 2^31 periods a negative one. */
  lemma ExampleQuotientWraps()
    ensures TokensToAdd(-0x8000_0001, 1) == Int32Max
    ensures TokensToAdd(0x8000_0000, 1) == Int32Min
  {
  }

  /** Each step reads the clock on its own: a bucket created at 5000 whose refill reading
      is 0 (the clock stepped back by five periods in between) comes out of the refill with
      five tokens fewer, and a bucket of capacity 3 is then refused on its first check. */
  lemma ExampleStepBackWithinCheck()
    ensures Admit(NewBucket("X", 3, 5000), Readings(5000, 0, 0), 3, 1000)
         == Step(Bucket("X", -2, 5000), false)
  {
    assert TokensToAdd(-5000, 1000) == -5;
  }
}
