/** The instance-configured rate limiter of rlm_ratelimit.c: configuration checks at
    instantiation, the find-or-create / refill / consume steps on the shared bucket table, and
    the pre-proxy decision that rejects an Access-Request whose Calling-Station-Id is over its
    limit.

    The wall clock (`current_time_in_ms`) is a parameter: `now` for one step, `Readings` for
    the three steps of one check. A bucket reference is the index of its slot in the table;
    NULL is `None`. */
module RlmRatelimit {
  import opened Search
  import opened TokenBucket
  import opened BucketStore
  import opened HashTable

  /** `rlm_ratelimit_t`: the three `uint32_t` options of the module configuration. */
  datatype Config = Config(tokenmax: U32, period: U32, hashsize: U32)

  /** The defaults of the configuration parser: 10 tokens, 5000 ms, 20 slots. */
  const DefaultConfig: Config := Config(10, 5000, 20)

  /** The checks `mod_instantiate` asserts before allocating the table. An accepted
      configuration gives a usable divisor and a capacity that is never zero (though a
      `tokenmax` above 2^31 - 1 makes it negative). */
  function ConfigOk(c: Config): (ok: bool)
    ensures ok ==> c.period > 0 && Capacity(c) != 0
  {
    c.hashsize > 0 && c.tokenmax > 0 && c.period > 0
  }

  /** The defaults pass the instantiation checks and give buckets of 10 tokens refilled one
      every 5 seconds, in a table of 20 slots. */
  lemma DefaultConfigAccepted()
    ensures ConfigOk(DefaultConfig) && Capacity(DefaultConfig) == 10
    ensures DefaultConfig.period == 5000 && DefaultConfig.hashsize == 20
  {
  }

  /** The bucket capacity `(int) inst->tokenmax`: the option itself when it fits an `int`,
      and a negative number (every request of a new id is then refused) when it does not. */
  function Capacity(c: Config): (cap: int)
    ensures c.tokenmax <= Int32Max ==> cap == c.tokenmax
    ensures c.tokenmax > Int32Max ==> cap == c.tokenmax - 0x1_0000_0000 < 0
  {
    Int32(c.tokenmax)
  }

  /** The RADIUS packet code of an Access-Request (`PW_CODE_ACCESS_REQUEST`). */
  const AccessRequestCode: int := 1

  /** What the module reads of a request: its packet code and, when the packet carries one,
      its Calling-Station-Id. */
  datatype Request = Request(code: int, callingStationId: Option<Id>)

  /** The two module return codes `mod_pre_proxy` produces. */
  datatype RCode = ModuleOk | ModuleReject

  /** The table after the pre-proxy step, and the module's return code. */
  datatype Outcome = Outcome(buckets: seq<Bucket>, rcode: RCode)

  /** `mod_pre_proxy` on the table contents: only an Access-Request carrying a
      Calling-Station-Id is checked, and only a failed check rejects. Any request adds at most
      one bucket, and one that is not checked changes nothing and is let through. */
  function PreProxy(s: seq<Bucket>, req: Request, t: Readings, c: Config): (r: Outcome)
    requires c.period > 0
    ensures |s| <= |r.buckets| <= |s| + 1
    ensures !(req.code == AccessRequestCode && req.callingStationId.Some?) ==> r == Outcome(s, ModuleOk)
  {
    if req.code == AccessRequestCode && req.callingStationId.Some? then
      var d := Check(s, req.callingStationId.value, t, Capacity(c), c.period);
      Outcome(d.buckets, if d.ok then ModuleOk else ModuleReject)
    else
      Outcome(s, ModuleOk)
  }

  /** The pre-proxy step rejects exactly the Access-Requests whose Calling-Station-Id fails
      its rate-limit check; every other request is let through and leaves the table as it
      was. */
  lemma PreProxyRejectsOnlyOverLimit(s: seq<Bucket>, req: Request, t: Readings, c: Config)
    requires c.period > 0
    ensures var r := PreProxy(s, req, t, c);
      && (r.rcode == ModuleReject <==>
          req.code == AccessRequestCode && req.callingStationId.Some?
          && !Check(s, req.callingStationId.value, t, Capacity(c), c.period).ok)
      && (!(req.code == AccessRequestCode && req.callingStationId.Some?) ==> r.buckets == s)
  {
  }

  /** The first Access-Request from a Calling-Station-Id not yet seen is let through, and its
      new bucket is left one token short of `tokenmax`, provided the clock does not step back
      between creating and refilling the bucket. */
  lemma PreProxyFirstRequest(s: seq<Bucket>, csid: Id, t: Readings, c: Config)
    requires ConfigOk(c) && c.tokenmax <= Int32Max && FirstIndex(Ids(s), csid).None?
    requires t.created <= t.refilled && (t.refilled - t.created) / c.period <= Int32Max
    ensures PreProxy(s, Request(AccessRequestCode, Some(csid)), t, c)
         == Outcome(s + [Bucket(csid, c.tokenmax - 1, t.spent)], ModuleOk)
  {
    CheckFirstCall(s, csid, t, Capacity(c), c.period);
  }

  /** A module instance: its configuration and its bucket table (`inst->datastore`). */
  class Instance {
    const config: Config
    const datastore: Table

    ghost predicate Valid()
      reads datastore, datastore.slots
    {
      config.period > 0 && datastore.Valid()
    }

    /** Whether `get_bucket` for `id` stays inside the table: either the id is already
        there, or a free slot is left for its new bucket. */
    ghost predicate Room(id: Id)
      reads datastore, datastore.slots
      requires datastore.Valid()
    {
      FirstIndex(Ids(datastore.Contents()), id).Some? || datastore.count < datastore.slots.Length
    }

    constructor (c: Config, store: Table)
      ensures config == c && datastore == store
    {
      config := c;
      datastore := store;
    }

    /** `add_bucket`: a full bucket for (a copy of) `id`, stamped `now`, appended to the table;
        the result refers to it. */
    method AddBucket(id: Id, now: int) returns (b: nat)
      requires Valid() && datastore.count < datastore.slots.Length
      modifies datastore, datastore.slots
      ensures Valid() && datastore.slots == old(datastore.slots)
      ensures b == old(datastore.count)
      ensures datastore.Contents() == old(datastore.Contents()) + [NewBucket(id, Capacity(config), now)]
    {
      var csid := NewBucket(id, Capacity(config), now);
      b := datastore.count;
      datastore.Insert(csid);
    }

    /** `update_used_bucket`: spend one token of the referenced bucket and stamp it `now`.
        A NULL reference is reported and then dereferenced in C, so one is required. */
    method UpdateUsedBucket(b: Option<nat>, now: int)
      requires Valid() && b.Some? && b.value < datastore.count
      modifies datastore.slots
      ensures Valid()
      ensures datastore.Contents()
           == old(datastore.Contents())[b.value := Consume(old(datastore.Contents())[b.value], now)]
      ensures forall i :: datastore.count <= i < datastore.slots.Length ==> datastore.slots[i] == old(datastore.slots[i])
    {
      var k := b.value;
      datastore.slots[k] := Some(Consume(datastore.slots[k].value, now));
    }

    /** `update_bucket_tokens`: refill the referenced bucket up to `(int) maxtokens`; a NULL
        reference is a no-op. */
    method UpdateBucketTokens(b: Option<nat>, maxtokens: U32, period: U32, now: int)
      requires Valid() && period > 0 && (b.Some? ==> b.value < datastore.count)
      modifies datastore.slots
      ensures Valid()
      ensures b.None? ==> datastore.Contents() == old(datastore.Contents())
      ensures b.Some? ==> datastore.Contents() == old(datastore.Contents())[b.value :=
        Refill(old(datastore.Contents())[b.value], now, Int32(maxtokens), period)]
      ensures forall i :: datastore.count <= i < datastore.slots.Length ==> datastore.slots[i] == old(datastore.slots[i])
    {
      if !ValidBucket(b) {
        return;
      }
      var k := b.value;
      datastore.slots[k] := Some(Refill(datastore.slots[k].value, now, Int32(maxtokens), period));
    }

    /** `get_bucket`: the bucket the lookup finds, or a new one when it finds none. (The
        C code also warns when the found bucket's id differs from `id`; the lookup only returns
        equal ids, so that branch is never taken and is not modelled.) */
    method GetBucket(id: Id, now: int) returns (b: nat)
      requires Valid() && Room(id)
      modifies datastore, datastore.slots
      ensures Valid() && datastore.slots == old(datastore.slots)
      ensures var g := GetOrCreate(old(datastore.Contents()), id, Capacity(config), now);
        datastore.Contents() == g.buckets && b == g.index
    {
      var found := datastore.Lookup(id);
      if found.None? {
        b := AddBucket(id, now);
        IdsAppend(old(datastore.Contents()), NewBucket(id, Capacity(config), now));
      } else {
        b := found.value;
      }
    }

    /** `ratelimit_ok`: find or create the bucket of `id`, refill it, and deny when no token is
        left; otherwise spend one and allow. Each of the three steps reads the clock itself. */
    method RatelimitOk(id: Id, t: Readings) returns (ok: bool)
      requires Valid() && Room(id)
      modifies datastore, datastore.slots
      ensures Valid() && datastore.slots == old(datastore.slots)
      ensures var d := Check(old(datastore.Contents()), id, t, Capacity(config), config.period);
        datastore.Contents() == d.buckets && ok == d.ok
    {
      var b := GetBucket(id, t.created);
      UpdateBucketTokens(Some(b), config.tokenmax, config.period, t.refilled);
      if datastore.slots[b].value.tokens <= 0 {
        return false;
      }
      UpdateUsedBucket(Some(b), t.spent);
      return true;
    }

    /** `mod_pre_proxy`: check the Calling-Station-Id of an Access-Request and reject the
        request when it is over its limit; return OK otherwise. */
    method ModPreProxy(req: Request, t: Readings) returns (rcode: RCode)
      requires Valid()
      requires req.code == AccessRequestCode && req.callingStationId.Some?
               ==> Room(req.callingStationId.value)
      modifies datastore, datastore.slots
      ensures Valid() && datastore.slots == old(datastore.slots)
      ensures var r := PreProxy(old(datastore.Contents()), req, t, config);
        datastore.Contents() == r.buckets && rcode == r.rcode
    {
      if req.code == AccessRequestCode {
        match req.callingStationId {
          case Some(csid) =>
            var ok := RatelimitOk(csid, t);
            if !ok {
              return ModuleReject;
            }
          case None =>
        }
      }
      return ModuleOk;
    }
  }

  /** `valid_bucket`: a reference is valid when it is not NULL. */
  predicate ValidBucket(b: Option<nat>) {
    b.Some?
  }

  /** `mod_instantiate`: the three options must be positive (the C code asserts this, which
      stops the server); then an empty table of `hashsize` slots is allocated. */
  method ModInstantiate(c: Config) returns (inst: Option<Instance>)
    ensures inst.Some? <==> ConfigOk(c)
    ensures inst.Some? ==> inst.value.config == c && inst.value.Valid()
    ensures inst.Some? ==> inst.value.datastore.Contents() == []
    ensures inst.Some? ==> inst.value.datastore.slots.Length == c.hashsize
  {
    if !ConfigOk(c) {
      return None;
    }
    var store := new Table();
    store.Init(c.hashsize);
    var i := new Instance(c, store);
    return Some(i);
  }
}
