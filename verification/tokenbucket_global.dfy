/** The copy of the limiter in tokenbucket.c, whose configuration lives in the module
    statics `TOKENMAX` and `update_period` set by `rlm_ratelimit_init` instead of in a module
    instance. Its refill, consume and find-or-create steps are the same C expressions as in
    rlm_ratelimit.c, so it is proved against the same BucketStore functions, with the capacity
    `TOKENMAX` and the period `update_period`.

    `add_bucket` here stores the caller's id pointer rather than a copy; identifiers are values
    in the model, so the two are the same. */
module TokenBucketGlobal {
  import opened Search
  import opened TokenBucket
  import opened BucketStore
  import opened HashTable

  class GlobalLimiter {
    /** `static int TOKENMAX`. */
    var tokenMax: int
    /** `static uint update_period`, in milliseconds. */
    var updatePeriod: U32
    /** The datastore `rlm_ratelimit_init` returns and every call is given. */
    const store: Table

    ghost predicate Valid()
      reads this, store, store.slots
    {
      store.Valid()
    }

    /** Whether `get_bucket` for `id` stays inside the table. */
    ghost predicate Room(id: Id)
      reads this, store, store.slots
      requires store.Valid()
    {
      FirstIndex(Ids(store.Contents()), id).Some? || store.count < store.slots.Length
    }

    /** The zero-initialised statics, before `rlm_ratelimit_init`. */
    constructor ()
      ensures Valid() && tokenMax == 0 && updatePeriod == 0
      ensures store.count == 0 && store.slots.Length == 0
    {
      tokenMax := 0;
      updatePeriod := 0;
      store := new Table();
    }

    /** `rlm_ratelimit_init`: record `TOKENMAX := (int) tokenmax` and the period, reset the
        bucket count and allocate `hashmax` empty slots. No value is checked here. */
    method Init(tokenmax: U32, period: U32, hashmax: U32)
      modifies this, store
      ensures Valid() && tokenMax == Int32(tokenmax) && updatePeriod == period
      ensures store.Contents() == [] && store.slots.Length == hashmax
    {
      tokenMax := Int32(tokenmax);
      updatePeriod := period;
      store.count := 0;
      store.Init(hashmax);
    }

    /** `add_bucket`: a full bucket (`TOKENMAX` tokens) stamped `now`, appended to the table. */
    method AddBucket(id: Id, now: int) returns (b: nat)
      requires Valid() && store.count < store.slots.Length
      modifies store, store.slots
      ensures Valid() && store.slots == old(store.slots)
      ensures b == old(store.count)
      ensures store.Contents() == old(store.Contents()) + [NewBucket(id, tokenMax, now)]
    {
      var csid := NewBucket(id, tokenMax, now);
      b := store.count;
      store.Insert(csid);
    }

    /** `update_used_bucket`: spend one token and stamp `now`; a NULL reference is reported and
        then dereferenced in C, so one is required. */
    method UpdateUsedBucket(b: Option<nat>, now: int)
      requires Valid() && b.Some? && b.value < store.count
      modifies store.slots
      ensures Valid()
      ensures store.Contents() == old(store.Contents())[b.value := Consume(old(store.Contents())[b.value], now)]
      ensures forall i :: store.count <= i < store.slots.Length ==> store.slots[i] == old(store.slots[i])
    {
      var k := b.value;
      store.slots[k] := Some(Consume(store.slots[k].value, now));
    }

    /** `update_bucket_tokens`: refill up to `TOKENMAX` with `tokens_to_add(elapsed)`, which
        divides by `update_period`; a NULL reference is a no-op. */
    method UpdateBucketTokens(b: Option<nat>, now: int)
      requires Valid() && updatePeriod > 0 && (b.Some? ==> b.value < store.count)
      modifies store.slots
      ensures Valid()
      ensures b.None? ==> store.Contents() == old(store.Contents())
      ensures b.Some? ==> store.Contents() == old(store.Contents())[b.value :=
        Refill(old(store.Contents())[b.value], now, tokenMax, updatePeriod)]
      ensures forall i :: store.count <= i < store.slots.Length ==> store.slots[i] == old(store.slots[i])
    {
      if b.None? {
        return;
      }
      var k := b.value;
      store.slots[k] := Some(Refill(store.slots[k].value, now, tokenMax, updatePeriod));
    }

    /** `get_bucket`: the bucket the lookup finds, or a new one when it finds none. */
    method GetBucket(id: Id, now: int) returns (b: nat)
      requires Valid() && Room(id)
      modifies store, store.slots
      ensures Valid() && store.slots == old(store.slots)
      ensures var g := GetOrCreate(old(store.Contents()), id, tokenMax, now);
        store.Contents() == g.buckets && b == g.index
    {
      var found := store.Lookup(id);
      if found.None? {
        b := AddBucket(id, now);
        IdsAppend(old(store.Contents()), NewBucket(id, tokenMax, now));
      } else {
        b := found.value;
      }
    }

    /** `rlm_ratelimit_ok`: find or create the bucket of `id`, refill it, deny when no token is
        left, otherwise spend one and allow. Each of the three steps reads the clock itself.
        `update_period` must be nonzero: it is a divisor. */
    method RlmRatelimitOk(id: Id, t: Readings) returns (ok: bool)
      requires Valid() && updatePeriod > 0 && Room(id)
      modifies store, store.slots
      ensures Valid() && store.slots == old(store.slots)
      ensures var d := Check(old(store.Contents()), id, t, tokenMax, updatePeriod);
        store.Contents() == d.buckets && ok == d.ok
    {
      var b := GetBucket(id, t.created);
      UpdateBucketTokens(Some(b), t.refilled);
      if store.slots[b].value.tokens <= 0 {
        return false;
      }
      UpdateUsedBucket(Some(b), t.spent);
      return true;
    }
  }
}
