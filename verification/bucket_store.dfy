/** The bucket table seen as the sequence of buckets in its filled slots, and the two
    operations both limiters perform on it: `get_bucket` (find the bucket of an id or append a
    fresh one) and the rate-limit check (`ratelimit_ok` in rlm_ratelimit.c, `rlm_ratelimit_ok`
    in tokenbucket.c). The imperative versions in RlmRatelimit and TokenBucketGlobal are proved
    to compute exactly these functions. */
module BucketStore {
  import opened Search
  import opened TokenBucket

  /** The identifiers of the buckets, slot by slot. */
  function Ids(s: seq<Bucket>): (ids: seq<Id>)
    ensures |ids| == |s| && forall j :: 0 <= j < |s| ==> ids[j] == s[j].id
  {
    seq(|s|, j requires 0 <= j < |s| => s[j].id)
  }

  lemma IdsAppend(s: seq<Bucket>, b: Bucket)
    ensures Ids(s + [b]) == Ids(s) + [b.id]
  {
  }

  lemma IdsUpdate(s: seq<Bucket>, k: nat, b: Bucket)
    requires k < |s| && b.id == s[k].id
    ensures Ids(s[k := b]) == Ids(s)
  {
  }

  /** The table after `get_bucket`, and the slot of the bucket it returned. */
  datatype Found = Found(buckets: seq<Bucket>, index: nat)

  /** `get_bucket`: the existing bucket of `id` when the lookup finds one, otherwise a new
      full bucket stamped `now`, appended at the end. */
  function GetOrCreate(s: seq<Bucket>, id: Id, cap: int, now: int): (r: Found)
    ensures s <= r.buckets
    ensures |r.buckets| == |s| <==> FirstIndex(Ids(s), id).Some?
    ensures |r.buckets| != |s| ==> r.buckets == s + [NewBucket(id, cap, now)]
    ensures r.index < |r.buckets| && FirstIndex(Ids(r.buckets), id) == Some(r.index)
    ensures Distinct(Ids(s)) ==> Distinct(Ids(r.buckets))
  {
    match FirstIndex(Ids(s), id)
    case Some(k) => Found(s, k)
    case None =>
      IdsAppend(s, NewBucket(id, cap, now));
      AppendMissingFound(Ids(s), id);
      if Distinct(Ids(s)) then AppendMissingDistinct(Ids(s), id); Found(s + [NewBucket(id, cap, now)], |s|)
      else Found(s + [NewBucket(id, cap, now)], |s|)
  }

  /** The table after one rate-limit check, and whether the request is within its limit. */
  datatype Decision = Decision(buckets: seq<Bucket>, ok: bool)

  /** Find or create (at the creation reading) the bucket of `id`, then refill and try to
      consume one of its tokens. */
  function Check(s: seq<Bucket>, id: Id, t: Readings, cap: int, period: U32): (r: Decision)
    requires period > 0
    ensures |s| <= |r.buckets| <= |s| + 1
    ensures Ids(r.buckets) == Ids(GetOrCreate(s, id, cap, t.created).buckets)
    ensures forall j :: 0 <= j < |s| && s[j].id != id ==> r.buckets[j] == s[j]
    ensures forall j :: 0 <= j < |s| && j != GetOrCreate(s, id, cap, t.created).index ==> r.buckets[j] == s[j]
  {
    var g := GetOrCreate(s, id, cap, t.created);
    var st := Admit(g.buckets[g.index], t, cap, period);
    AdmitDecision(g.buckets[g.index], t, cap, period);
    IdsUpdate(g.buckets, g.index, st.bucket);
    Decision(g.buckets[g.index := st.bucket], st.ok)
  }

  /** The bucket a check works on: the one already stored for `id`, or a fresh one. */
  function Current(s: seq<Bucket>, id: Id, cap: int, now: int): (b: Bucket)
    ensures b.id == id
    ensures FirstIndex(Ids(s), id).Some? ==> b == s[FirstIndex(Ids(s), id).value]
    ensures FirstIndex(Ids(s), id).None? ==> b == NewBucket(id, cap, now)
  {
    match FirstIndex(Ids(s), id)
    case Some(k) => s[k]
    case None => NewBucket(id, cap, now)
  }

  /** What a check decides: it is refused exactly when the current bucket (created at the
      creation reading when missing) holds no token after the refill at the refill reading; the
      bucket, stored where the lookup finds it, becomes the refilled bucket on a refusal (its
      stamp kept) and the refilled bucket less one token, stamped with the spend reading, on an
      admission. */
  lemma CheckDecision(s: seq<Bucket>, id: Id, t: Readings, cap: int, period: U32)
    requires period > 0
    ensures var r := Check(s, id, t, cap, period);
      var b := Current(s, id, cap, t.created);
      var f := Refill(b, t.refilled, cap, period);
      var k := FirstIndex(Ids(r.buckets), id);
      && k.Some?
      && (r.ok <==> f.tokens > 0)
      && (!r.ok ==> r.buckets[k.value] == f && f.latest == b.latest)
      && (r.ok ==> r.buckets[k.value] == Consume(f, t.spent) && r.buckets[k.value].tokens == f.tokens - 1)
  {
    var g := GetOrCreate(s, id, cap, t.created);
    AdmitDecision(g.buckets[g.index], t, cap, period);
    var r := Check(s, id, t, cap, period);
    assert Ids(r.buckets) == Ids(g.buckets);
    assert g.buckets[g.index] == Current(s, id, cap, t.created);
  }

  /** The first check of an identifier not yet in the table, on a clock that does not step
      back between creating and refilling the bucket, admits the request and leaves a new bucket
      holding one token less than the capacity, stamped with the spend reading and appended
      after the others. */
  lemma CheckFirstCall(s: seq<Bucket>, id: Id, t: Readings, cap: int, period: U32)
    requires period > 0 && cap > 0 && FirstIndex(Ids(s), id).None?
    requires t.created <= t.refilled && (t.refilled - t.created) / period <= Int32Max
    ensures Check(s, id, t, cap, period) == Decision(s + [Bucket(id, cap - 1, t.spent)], true)
  {
    RefillBounds(NewBucket(id, cap, t.created), t.refilled, cap, period);
  }

  /** Checking an identifier already in the table adds no bucket. */
  lemma CheckExisting(s: seq<Bucket>, id: Id, t: Readings, cap: int, period: U32)
    requires period > 0 && FirstIndex(Ids(s), id).Some?
    ensures |Check(s, id, t, cap, period).buckets| == |s|
  {
  }

  /** Every bucket of the table is within its budget at time `now`. */
  ghost predicate AllHealthy(s: seq<Bucket>, now: int, cap: int, period: U32)
    requires period > 0
  {
    forall j :: 0 <= j < |s| ==> Healthy(s[j], now, cap, period)
  }

  /** On a clock that does not step back during the check, and with every bucket healthy at
      the refill reading, a check keeps every bucket's tokens within `[0, cap]`, never moves a
      stamp backwards and never stamps a bucket later than the spend reading. */
  lemma CheckKeepsBounds(s: seq<Bucket>, id: Id, t: Readings, cap: int, period: U32)
    requires period > 0 && 0 <= cap && Monotone(t) && AllHealthy(s, t.refilled, cap, period)
    requires (t.refilled - t.created) / period <= Int32Max
    ensures var r := Check(s, id, t, cap, period).buckets;
      && (forall j :: 0 <= j < |r| ==> 0 <= r[j].tokens <= cap && r[j].latest <= t.spent)
      && (forall j :: 0 <= j < |s| ==> s[j].latest <= r[j].latest)
  {
    var g := GetOrCreate(s, id, cap, t.created);
    var b := g.buckets[g.index];
    assert Healthy(b, t.refilled, cap, period) by {
      if g.index == |s| {
        assert b == NewBucket(id, cap, t.created);
      } else {
        assert b == s[g.index];
      }
    }
    AdmitKeepsBounds(b, t, cap, period);
    var r := Check(s, id, t, cap, period).buckets;
    forall j | 0 <= j < |r| ensures 0 <= r[j].tokens <= cap && r[j].latest <= t.spent {
      if j != g.index {
        assert r[j] == g.buckets[j];
        if j < |s| { assert Healthy(s[j], t.refilled, cap, period); }
      }
    }
  }

  /** A check leaves the table free of duplicate identifiers. */
  lemma CheckKeepsDistinct(s: seq<Bucket>, id: Id, t: Readings, cap: int, period: U32)
    requires period > 0 && Distinct(Ids(s))
    ensures Distinct(Ids(Check(s, id, t, cap, period).buckets))
  {
  }
}
