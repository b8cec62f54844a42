# Per-Calling-Station-Id token-bucket rate limiter (rlm_ratelimit)

This project models the rate limiter of the `rlm_ratelimit` FreeRADIUS module and proves
properties of it in Dafny. The module keeps one token bucket per Calling-Station-Id.
Before a request is proxied, the bucket is found or created, refilled by the whole periods
elapsed since its last stamp (up to `tokenmax`), and then either charged one token or, when
empty, the request is rejected.

The repository holds several draft versions of this logic. Each is modelled as its code
behaves:

- `rlm_ratelimit.c`: the limiter configured per module instance (`tokenmax`, `period`,
  `hashsize`, defaults 10, 5000 ms and 20). It also has the instantiation checks and the
  pre-proxy decision. Modelled in module `RlmRatelimit` by class `Instance`.
- `tokenbucket.c`: a copy of the same algorithm whose configuration sits in the module statics
  `TOKENMAX` and `update_period`. Modelled in module `TokenBucketGlobal` by class `GlobalLimiter`.
- `hashtable.c`: the bucket table both limiters use. Its "hash" ignores the key and returns
  the next free slot, so the table is an append-only array with a first-match linear
  lookup. Modelled in module `HashTable` by class `Table`.
- `tmp/tmp/tokenbucket.c`: the earliest draft. It uses a static array of 10 `{id, tokens}`
  records with no time and no refill, and a new bucket is already charged one token.
  Modelled in module `DraftLimiter` by class `Draft`.

The two later limiters run the same C expressions for `tokens_to_add`,
`update_bucket_tokens`, `update_used_bucket` and `get_bucket`. These are defined once, on
values:

- module `TokenBucket` holds the bucket record and the refill/consume arithmetic;
- module `BucketStore` holds find-or-create and the whole check over the sequence of stored buckets.

Each imperative method is proved to compute exactly those functions. The properties are
lemmas about the functions.

Modelling conventions:

- The wall clock `current_time_in_ms` becomes a parameter, in milliseconds. A single step
  (`add_bucket`, `update_bucket_tokens`, `update_used_bucket`) takes one reading `now`. A whole
  check takes `Readings`: the three separate readings of its creation, refill and spend steps.
  `At(now)` stands for three readings within the same millisecond.
- A bucket reference (a C pointer into the table) is the index of its slot; NULL is `None`.
- C's `/` on the signed elapsed time truncates toward zero (`CDiv`). The quotient is then
  narrowed to a 32-bit `int`, and `(int) tokenmax` is converted the same way; both use `Int32`.
  So a clock that stepped back by fewer than 2^31 periods gives a zero or negative token
  count. Beyond that the narrowing wraps: a step back of 2^31 periods or more can give a
  positive count, and a forward gap of 2^31 periods or more a negative one
  (`ExampleQuotientWraps`).

What the code does, stated plainly where it is easy to expect otherwise:

- The table does no hashing and has no collision chains: `hash` hands out the next slot.
- `latest` is stamped with the spend reading whenever a token is spent. It does not advance by
  whole periods, and a refill leaves it unchanged.
- Nothing keeps `tokens` within `[0, tokenmax]` against a clock that steps back. The bounds
  lemmas therefore assume a clock that does not step back.
- The shared state has no locking; the model runs one caller at a time.

## Model

| member | source | states |
|---|---|---|
| `Search.FirstIndex` | src/modules/rlm_ratelimit/hashtable.c:25-37 | the first index whose id equals the key, with every earlier id different; none exactly when no id matches |
| `TokenBucket.Int32` | src/modules/rlm_ratelimit/rlm_ratelimit.c:106 | the conversion to a 32-bit `int` lands in `[-2^31, 2^31)`, is congruent to its argument modulo 2^32, and is the identity on values that fit |
| `TokenBucket.CDiv` | src/modules/rlm_ratelimit/rlm_ratelimit.c:116 | C's division truncates toward zero: the remainder `a - q * d` lies in `[0, d)` for a non-negative dividend and in `(-d, 0]` for a negative one; on a non-negative dividend it agrees with Euclidean division |
| `TokenBucket.TokensToAdd` | src/modules/rlm_ratelimit/rlm_ratelimit.c:115-117 | `tokens_to_add` is a 32-bit `int`; for a non-negative elapsed time whose quotient fits, it is exactly the number of whole periods elapsed, and is non-negative |
| `TokenBucket.TokensToAddWithinPeriod` | src/modules/rlm_ratelimit/tokenbucket.c:91-95 | less than one period elapsed, forward or backward, yields zero tokens |
| `TokenBucket.NewBucket` | src/modules/rlm_ratelimit/rlm_ratelimit.c:66-69 | a new bucket carries the id, is full (`tokens = (int) tokenmax`) and is stamped with the creation reading |
| `TokenBucket.Refill` | src/modules/rlm_ratelimit/rlm_ratelimit.c:94-109 | a refill keeps the id and `latest` and yields `min(tokens + tokens_to_add, cap)`: never above the capacity, exactly the sum when the sum fits under it, otherwise the capacity |
| `TokenBucket.RefillBounds` | src/modules/rlm_ratelimit/tokenbucket.c:70-85 | for a bucket within `[0, cap]` with `latest <= now`, a refill never loses tokens and equals `min(tokens + elapsed/period, cap)`: the sum when it fits under the capacity, the capacity otherwise |
| `TokenBucket.Consume` | src/modules/rlm_ratelimit/rlm_ratelimit.c:81-87 | spending keeps the id, removes exactly one token and stamps `latest := now` |
| `TokenBucket.Admit` | src/modules/rlm_ratelimit/rlm_ratelimit.c:181-189 | refill-then-consume on one bucket keeps its id and never exceeds the capacity; an admission leaves a non-negative count stamped with the spend reading; a refusal leaves at most zero tokens and the old stamp |
| `TokenBucket.AdmitDecision` | src/modules/rlm_ratelimit/rlm_ratelimit.c:180-189 | a check is refused exactly when the count refilled at the refill reading is `<= 0`; a refusal does not decrement and keeps `latest`; an admission leaves `refilled - 1` tokens and `latest` equal to the spend reading |
| `TokenBucket.AdmitKeepsBounds` | src/modules/rlm_ratelimit/tokenbucket.c:139-150 | one check keeps a bucket with `0 <= tokens <= cap` and `latest` no later than the refill reading within `[0, cap]`, whatever the spend reading; if the spend reading is not earlier than the refill reading, `latest` never moves backwards or past the spend reading |
| `TokenBucket.NoTokenWithinPeriod` | src/modules/rlm_ratelimit/rlm_ratelimit.c:105-108 | less than one period after its stamp a bucket gains nothing from a refill |
| `TokenBucket.ExampleDrain` | src/modules/rlm_ratelimit/rlm_ratelimit.c:174-190 | with capacity 3 and period 1000 ms, a fresh bucket admits three checks at t=0, leaving 2, 1, 0 tokens, and refuses the fourth |
| `TokenBucket.ExampleRefill` | src/modules/rlm_ratelimit/rlm_ratelimit.c:105-108 | a bucket drained at t=0 is still refused at t=999, and at t=1000 it regains one token, which is spent at once |
| `TokenBucket.ExampleQuotientWraps` | src/modules/rlm_ratelimit/rlm_ratelimit.c:115-117 | narrowing the quotient to an `int` wraps: a step back of 2^31 + 1 periods gives `2^31 - 1` tokens, a forward gap of 2^31 periods gives `-2^31` |
| `TokenBucket.ExampleStepBackWithinCheck` | src/modules/rlm_ratelimit/rlm_ratelimit.c:66-108 | each step reads the clock itself: a new bucket of capacity 3 stamped 5000 whose refill reads 0 loses five tokens and is refused on its first check |
| `BucketStore.GetOrCreate` | src/modules/rlm_ratelimit/rlm_ratelimit.c:149-169 | `get_bucket` keeps earlier buckets; it adds a bucket exactly when the id is missing, and then only a full bucket stamped `now`; afterwards the lookup finds the id at the returned slot; it never introduces a duplicate id |
| `BucketStore.Check` | src/modules/rlm_ratelimit/rlm_ratelimit.c:174-190 | a check adds at most one bucket, changes no id beyond what find-or-create adds, and leaves every slot other than the one find-or-create returns unchanged (so every bucket of another id too) |
| `BucketStore.CheckDecision` | src/modules/rlm_ratelimit/rlm_ratelimit.c:180-185 | the check is refused exactly when the found-or-new bucket (new at the creation reading) has no token after the refill at the refill reading; the stored bucket is then the refilled one with its old stamp, or else the refilled one less one token, stamped with the spend reading |
| `BucketStore.CheckFirstCall` | src/modules/rlm_ratelimit/tokenbucket.c:134-151 | with a positive capacity and a clock that does not step back between creation and refill, the first check of an unseen id is admitted and appends a bucket holding `TOKENMAX - 1` tokens stamped with the spend reading |
| `BucketStore.CheckExisting` | src/modules/rlm_ratelimit/tokenbucket.c:114-127 | checking an id already present creates no second bucket |
| `BucketStore.CheckKeepsBounds` | src/modules/rlm_ratelimit/tokenbucket.c:70-151 | on a clock that does not step back during the check, if every bucket is within `[0, cap]` and stamped no later than the refill reading, then afterwards every bucket is within `[0, cap]` and stamped no later than the spend reading, and no stamp moved backwards |
| `BucketStore.CheckKeepsDistinct` | src/modules/rlm_ratelimit/tokenbucket.c:114-127 | a check keeps the ids in the table pairwise distinct (one bucket per id) |
| `HashTable.Table.constructor` | src/modules/rlm_ratelimit/hashtable.c:8 | before initialisation the table has no slots and no buckets |
| `HashTable.Table.Init` | src/modules/rlm_ratelimit/hashtable.c:12-15 | `hashtable_init` allocates `hashmax` slots, all empty; it leaves the counter alone; when the counter is zero the table is valid and empty |
| `HashTable.Table.Hash` | src/modules/rlm_ratelimit/hashtable.c:40-44 | `hash` ignores its key, returns the current count and increments it by exactly one |
| `HashTable.Table.Insert` | src/modules/rlm_ratelimit/hashtable.c:17-22 | `insert` needs a free slot (C does no bounds check); it appends the bucket at the old count, keeps earlier buckets and the empty slots above, and keeps every filled slot non-null |
| `HashTable.Table.Lookup` | src/modules/rlm_ratelimit/hashtable.c:25-37 | `lookup` returns the lowest filled slot whose id equals the key, or none; it changes neither slots nor counter |
| `HashTable.InsertThenLookup` | src/modules/rlm_ratelimit/hashtable.c:17-37 | after inserting a bucket, a lookup of its id succeeds |
| `RlmRatelimit.ConfigOk` | src/modules/rlm_ratelimit/rlm_ratelimit.c:214-216 | the three instantiation asserts; a configuration that passes them has a nonzero divisor and a nonzero capacity |
| `RlmRatelimit.Capacity` | src/modules/rlm_ratelimit/rlm_ratelimit.c:68 | `(int) tokenmax` is `tokenmax` when it fits an `int`; above 2^31 - 1 it wraps to `tokenmax - 2^32`, which is negative |
| `RlmRatelimit.DefaultConfigAccepted` | src/modules/rlm_ratelimit/rlm_ratelimit.h:24-29 | the defaults (10 tokens, 5000 ms, 20 slots) pass the instantiation checks |
| `RlmRatelimit.ModInstantiate` | src/modules/rlm_ratelimit/rlm_ratelimit.c:202-226 | an instance is created exactly when `hashsize`, `tokenmax` and `period` are all positive; it then holds the configuration and an empty table of `hashsize` slots |
| `RlmRatelimit.PreProxy` | src/modules/rlm_ratelimit/rlm_ratelimit.c:297-312 | `mod_pre_proxy`'s decision adds at most one bucket; a request that is not an Access-Request with a Calling-Station-Id gets OK and leaves the table unchanged |
| `RlmRatelimit.PreProxyRejectsOnlyOverLimit` | src/modules/rlm_ratelimit/rlm_ratelimit.c:297-312 | `mod_pre_proxy` rejects exactly an Access-Request with a Calling-Station-Id whose check fails; every other request gets OK and leaves the table unchanged |
| `RlmRatelimit.PreProxyFirstRequest` | src/modules/rlm_ratelimit/rlm_ratelimit.c:288-313 | on a clock that does not step back between creation and refill, the first Access-Request from an unseen Calling-Station-Id is accepted, and its new bucket holds `tokenmax - 1` tokens |
| `RlmRatelimit.Instance.AddBucket` | src/modules/rlm_ratelimit/rlm_ratelimit.c:63-75 | `add_bucket` appends a bucket for the id with `tokens = (int) tokenmax` and `latest = now`, and returns its slot |
| `RlmRatelimit.Instance.UpdateUsedBucket` | src/modules/rlm_ratelimit/rlm_ratelimit.c:81-87 | `update_used_bucket` changes only the referenced bucket: one token less, stamped `now`; the slots above the count keep their contents |
| `RlmRatelimit.Instance.UpdateBucketTokens` | src/modules/rlm_ratelimit/rlm_ratelimit.c:94-109 | `update_bucket_tokens` changes only the referenced bucket, refilling it to `min(tokens + tokens_to_add, (int) maxtokens)`; a NULL reference changes nothing; the slots above the count keep their contents |
| `RlmRatelimit.Instance.GetBucket` | src/modules/rlm_ratelimit/rlm_ratelimit.c:149-169 | `get_bucket` leaves the table and returns the slot as `GetOrCreate` does |
| `RlmRatelimit.Instance.RatelimitOk` | src/modules/rlm_ratelimit/rlm_ratelimit.c:174-190 | `ratelimit_ok` leaves the table and returns the result as `Check` does, with the instance's `tokenmax` and `period` and the readings its three steps take |
| `RlmRatelimit.Instance.ModPreProxy` | src/modules/rlm_ratelimit/rlm_ratelimit.c:288-313 | `mod_pre_proxy` leaves the table and returns the code as `PreProxy` does |
| `TokenBucketGlobal.GlobalLimiter.constructor` | src/modules/rlm_ratelimit/tokenbucket.c:26-27 | before initialisation `TOKENMAX` and `update_period` are zero and the table is empty |
| `TokenBucketGlobal.GlobalLimiter.Init` | src/modules/rlm_ratelimit/tokenbucket.c:30-35 | `rlm_ratelimit_init` records `TOKENMAX := (int) tokenmax` and `update_period := period`, resets the count, and leaves an empty table of `hashmax` slots |
| `TokenBucketGlobal.GlobalLimiter.AddBucket` | src/modules/rlm_ratelimit/tokenbucket.c:41-51 | `add_bucket` appends a bucket with `TOKENMAX` tokens stamped `now` |
| `TokenBucketGlobal.GlobalLimiter.UpdateUsedBucket` | src/modules/rlm_ratelimit/tokenbucket.c:57-63 | only the referenced bucket changes: one token less, stamped `now` |
| `TokenBucketGlobal.GlobalLimiter.UpdateBucketTokens` | src/modules/rlm_ratelimit/tokenbucket.c:70-85 | only the referenced bucket changes, refilled up to `TOKENMAX` with elapsed/`update_period`; a NULL reference changes nothing |
| `TokenBucketGlobal.GlobalLimiter.GetBucket` | src/modules/rlm_ratelimit/tokenbucket.c:114-127 | `get_bucket` leaves the table and returns the slot as `GetOrCreate` does with capacity `TOKENMAX` |
| `TokenBucketGlobal.GlobalLimiter.RlmRatelimitOk` | src/modules/rlm_ratelimit/tokenbucket.c:134-151 | `rlm_ratelimit_ok` leaves the table and returns the result as `Check` does with `TOKENMAX`, `update_period` and the readings its three steps take |
| `DraftLimiter.RateLimit` | src/modules/rlm_ratelimit/tmp/tmp/tokenbucket.c:39-64 | one request adds at most one bucket and never touches a bucket of another id |
| `DraftLimiter.UnseenAdmitted` | src/modules/rlm_ratelimit/tmp/tmp/tokenbucket.c:59-63 | an unseen id is always admitted and appends exactly one bucket holding `TOKENMAX - 1` tokens |
| `DraftLimiter.ExhaustedRefused` | src/modules/rlm_ratelimit/tmp/tmp/tokenbucket.c:45-51 | a found id whose bucket holds no token is refused and nothing changes |
| `DraftLimiter.FoundCharged` | src/modules/rlm_ratelimit/tmp/tmp/tokenbucket.c:52-53 | a found id whose bucket holds a token is admitted; only that bucket changes, losing exactly one token |
| `DraftLimiter.RateLimitKeepsDistinct` | src/modules/rlm_ratelimit/tmp/tmp/tokenbucket.c:43-62 | because buckets are added only on a miss, the ids in the array stay pairwise distinct |
| `DraftLimiter.Run` | src/modules/rlm_ratelimit/tmp/tmp/tokenbucket.c:39-64 | a series of requests grows the array by at most one bucket per request |
| `DraftLimiter.NeverRefills` | src/modules/rlm_ratelimit/tmp/tmp/tokenbucket.c:39-64 | over any series of requests no bucket is removed or renamed and no token count ever increases |
| `DraftLimiter.Draft.constructor` | src/modules/rlm_ratelimit/tmp/tmp/tokenbucket.c:11 | the static array has `BUCKETSIZEMAX` slots and none is in use |
| `DraftLimiter.Draft.RateLimitInit` | src/modules/rlm_ratelimit/tmp/tmp/tokenbucket.c:14-16 | `rate_limit_init` resets the bucket count to 0 |
| `DraftLimiter.Draft.AddBucket` | src/modules/rlm_ratelimit/tmp/tmp/tokenbucket.c:18-26 | `add_bucket` needs a free slot, writes `{id, TOKENMAX - 1}` at index `maxbuckets` and increments the count by one |
| `DraftLimiter.Draft.RateLimitOk` | src/modules/rlm_ratelimit/tmp/tmp/tokenbucket.c:39-64 | the linear scan with early exit leaves the array and returns the result as `RateLimit` does |

## Left out

- The wall clock (`current_time_in_ms`, `CLOCK_REALTIME`) is not modelled; its readings are parameters. A check's three readings are independent, so a clock that steps back between them is allowed. `BucketStore.CheckFirstCall`, `BucketStore.CheckKeepsBounds` and `RlmRatelimit.PreProxyFirstRequest` promise their results only for readings that do not step back.
- `TokenBucket.Refill`: `tokens + tokens_to_add` is taken as an unbounded sum. In C it is a signed `int` addition, which is undefined behaviour above 2^31 - 1. The bounds lemmas assume that the elapsed-period count fits an `int`, but they still include inputs where the sum exceeds 2^31 - 1, where C is undefined; there they promise what the unbounded sum gives.
- Concurrency is not modelled. The module declares itself thread-safe but has no locking; the model runs one caller at a time.
- `RlmRatelimit.Instance.GetBucket`, `RlmRatelimit.Instance.RatelimitOk`, `RlmRatelimit.Instance.ModPreProxy`, `TokenBucketGlobal.GlobalLimiter.GetBucket` and `TokenBucketGlobal.GlobalLimiter.RlmRatelimitOk` require a free slot whenever the id is new. `insert` writes past the array without a bounds check, for example on the 21st distinct id with the default `hashsize` of 20. That write is undefined behaviour and has no model.
- `DraftLimiter.Draft.AddBucket` and `DraftLimiter.Draft.RateLimitOk` likewise require a free slot for a new id. The draft logs "too many rate limit buckets" and then writes past its 10-entry array.
- `TokenBucketGlobal.GlobalLimiter.UpdateBucketTokens` and `TokenBucketGlobal.GlobalLimiter.RlmRatelimitOk` require `update_period > 0`. `rlm_ratelimit_init` checks nothing, so a zero period reaches the division in `tokens_to_add`, which is undefined behaviour and has no model.
- `TokenBucket.CDiv` assumes that `long` is wider than 32 bits, as on the LP64 platforms the server is built for. With a 32-bit `long`, `long / u_int32_t` converts a negative elapsed time to unsigned before dividing, and that conversion is not modelled.
- `update_used_bucket` with a NULL reference logs and then dereferences NULL. The model requires a reference.
- `mod_instantiate`: a failed `rad_assert` stops the server; the model returns no instance instead. Allocation failure of the datastore (the `-1` return) is not modelled: allocation always succeeds.
- Logging macros, `talloc`/`malloc`/`talloc_free`, `mod_detach` and the accounting stubs (`mod_preacct`, `mod_accounting`, `mod_checksimul`) are host plumbing without effect on the decision.
- `src/lib/tls/base.c` is OpenSSL start-up code and is not part of this model. `tmp/tmp/tmp/rlm_ratelimit.c` is module-registration glue around the draft and is not part of this model either. The draft's `TOKENMAX` and `BUCKETSIZEMAX` (both 10) are taken from its header, `tmp/tmp/tmp/rlm_ratelimit.h`.
- The commented-out chained hash table at the end of `hashtable.c` is dead code.
- Several C linkage quirks are not reproduced:
  - `maxbuckets` is `static` in `hashtable.h`, so each including file has its own copy.
  - The array and counter of `hashtable.c` are process globals. Two `ratelimit` instances therefore share one table, and a second `mod_instantiate` reallocates the array while `hashtable.c`'s counter keeps its value. `RlmRatelimit.ModInstantiate` instead gives each instance a fresh, empty table of its own. Likewise `maxbuckets = 0` in `rlm_ratelimit_init` (tokenbucket.c) resets only tokenbucket.c's own copy, not the counter `hash` and `lookup` use in hashtable.c; `TokenBucketGlobal.GlobalLimiter.Init` resets the single counter of the model.
  - The limiters call `lookup`, `insert` and `hashtable_init` with datastore arguments these functions do not take.
  - `rlm_ratelimit_t` has no `datastore` field.
  - `rlm_ratelimit.c` calls `hashtable_init(sizeof(bucket), hashsize)`, the opposite argument order to `tokenbucket.c`'s `hashtable_init(hashmax, sizeof(bucket))`. `hashtable.c`'s own `hashtable_init` takes only the slot count, and the model passes the slot count.

  The model gives one table object its own counter and uses `hashtable.c`'s semantics throughout.
- Identifier comparison: `strcmp` stops at the first NUL byte, so an id with an embedded NUL is compared only up to it; the model compares whole character sequences.
- Identifier storage: `rlm_ratelimit.c` copies the id string, while `tokenbucket.c` and the draft `tmp/tmp/tokenbucket.c` keep the caller's pointer. Ids are values in the model, so the two behave the same, and a caller that later frees or reuses the string is not modelled.
- Bucket references are slot indices. No aliasing other than "the bucket stored in slot k" is modelled.
- `valid_bucket` is the predicate `RlmRatelimit.ValidBucket`, a NULL test; it has no contract of its own. The `tokens_to_add` of `tokenbucket.c` is `TokenBucket.TokensToAdd` applied to `update_period`.
- There is no bucket deletion or expiry in any version, and the model has none.
