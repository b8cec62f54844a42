/** The earliest limiter draft (tmp/tmp/tokenbucket.c): a static array of
    `BUCKETSIZEMAX` records `{id, tokens}` searched linearly. There is no time and no refill:
    a bucket is created on the first request of an id, already charged for it, and loses one
    token per admitted request until it is empty for good. */
module DraftLimiter {
  import opened Search

  /** `BUCKETSIZEMAX` and `TOKENMAX` of the draft's header (tmp/tmp/tmp/rlm_ratelimit.h). */
  const BucketSizeMax: nat := 10
  const TokenMax: int := 10

  /** `struct bucket` of the draft: no timestamp. */
  datatype DraftBucket = DraftBucket(id: Id, tokens: int)

  function DraftIds(s: seq<DraftBucket>): (ids: seq<Id>)
    ensures |ids| == |s| && forall j :: 0 <= j < |s| ==> ids[j] == s[j].id
  {
    seq(|s|, j requires 0 <= j < |s| => s[j].id)
  }

  /** The filled part of the array after one `rate_limit_ok`, and its result. */
  datatype DraftDecision = DraftDecision(buckets: seq<DraftBucket>, ok: bool)

  /** `rate_limit_ok` on the filled part of the array: an unseen id gets a new bucket and is
      admitted; a found id is refused when its bucket is empty and otherwise charged one
      token. */
  function RateLimit(s: seq<DraftBucket>, id: Id): (r: DraftDecision)
    ensures |s| <= |r.buckets| <= |s| + 1
    ensures forall j :: 0 <= j < |s| && s[j].id != id ==> r.buckets[j] == s[j]
  {
    match FirstIndex(DraftIds(s), id)
    case None => DraftDecision(s + [DraftBucket(id, TokenMax - 1)], true)
    case Some(k) =>
      if s[k].tokens <= 0 then DraftDecision(s, false)
      else DraftDecision(s[k := s[k].(tokens := s[k].tokens - 1)], true)
  }

  /** An id not in the array is always admitted and adds exactly one bucket, already
      charged for this request. */
  lemma UnseenAdmitted(s: seq<DraftBucket>, id: Id)
    requires FirstIndex(DraftIds(s), id).None?
    ensures RateLimit(s, id) == DraftDecision(s + [DraftBucket(id, TokenMax - 1)], true)
  {
  }

  /** A found id whose bucket is empty is refused, and nothing changes. */
  lemma ExhaustedRefused(s: seq<DraftBucket>, id: Id, k: nat)
    requires FirstIndex(DraftIds(s), id) == Some(k) && s[k].tokens <= 0
    ensures RateLimit(s, id) == DraftDecision(s, false)
  {
  }

  /** A found id whose bucket holds a token is admitted; only that bucket changes, and it
      loses exactly one token. */
  lemma FoundCharged(s: seq<DraftBucket>, id: Id, k: nat)
    requires FirstIndex(DraftIds(s), id) == Some(k) && s[k].tokens > 0
    ensures var r := RateLimit(s, id);
      && r.ok && |r.buckets| == |s|
      && r.buckets[k] == DraftBucket(id, s[k].tokens - 1)
      && forall j :: 0 <= j < |s| && j != k ==> r.buckets[j] == s[j]
  {
  }

  /** Buckets are added only on a miss, so the ids in the array stay pairwise distinct. */
  lemma RateLimitKeepsDistinct(s: seq<DraftBucket>, id: Id)
    requires Distinct(DraftIds(s))
    ensures Distinct(DraftIds(RateLimit(s, id).buckets))
  {
    var r := RateLimit(s, id);
    if FirstIndex(DraftIds(s), id).None? {
      AppendMissingDistinct(DraftIds(s), id);
      assert DraftIds(r.buckets) == DraftIds(s) + [id];
    } else {
      assert DraftIds(r.buckets) == DraftIds(s);
    }
  }

  /** The array after a series of requests, one id each: it grows by at most one bucket per
      request. */
  function Run(s: seq<DraftBucket>, requests: seq<Id>): (r: seq<DraftBucket>)
    ensures |s| <= |r| <= |s| + |requests|
    decreases |requests|
  {
    if |requests| == 0 then s else Run(RateLimit(s, requests[0]).buckets, requests[1..])
  }

  /** There is no refill: over any series of requests, every existing bucket keeps its id and
      its token count never increases, and no bucket is ever removed. */
  lemma {:induction false} NeverRefills(s: seq<DraftBucket>, requests: seq<Id>)
    ensures |s| <= |Run(s, requests)|
    ensures forall j :: 0 <= j < |s| ==>
      Run(s, requests)[j].id == s[j].id && Run(s, requests)[j].tokens <= s[j].tokens
    decreases |requests|
  {
    if |requests| > 0 {
      var r := RateLimit(s, requests[0]).buckets;
      NeverRefills(r, requests[1..]);
      assert forall j :: 0 <= j < |s| ==> r[j].id == s[j].id && r[j].tokens <= s[j].tokens;
    }
  }

  /** The static `buckets[]` array and its fill counter `maxbuckets`. */
  class Draft {
    const buckets: array<DraftBucket>
    var maxbuckets: int

    ghost predicate Valid()
      reads this
    {
      buckets.Length == BucketSizeMax && 0 <= maxbuckets <= BucketSizeMax
    }

    /** The buckets in use, `buckets[0 .. maxbuckets)`. */
    ghost function Contents(): seq<DraftBucket>
      reads this, buckets
      requires Valid()
    {
      buckets[..maxbuckets]
    }

    /** The zero-initialised static array. */
    constructor ()
      ensures Valid() && Contents() == []
    {
      buckets := new DraftBucket[BucketSizeMax](_ => DraftBucket("", 0));
      maxbuckets := 0;
    }

    /** `rate_limit_init`: forget every bucket. */
    method RateLimitInit()
      requires buckets.Length == BucketSizeMax
      modifies this`maxbuckets
      ensures Valid() && Contents() == []
    {
      maxbuckets := 0;
    }

    /** `add_bucket`: write a bucket holding `TOKENMAX - 1` tokens at index `maxbuckets` and
        bump the counter. A full array is only reported in C before the write goes past its
        end, so a free slot is required. */
    method AddBucket(id: Id)
      requires Valid() && maxbuckets < BucketSizeMax
      modifies this`maxbuckets, buckets
      ensures Valid() && maxbuckets == old(maxbuckets) + 1
      ensures Contents() == old(Contents()) + [DraftBucket(id, TokenMax - 1)]
    {
      buckets[maxbuckets] := DraftBucket(id, TokenMax - 1);
      maxbuckets := maxbuckets + 1;
    }

    /** `rate_limit_ok`: scan `[0, maxbuckets)` for the first bucket of `id`; refuse when it is
        empty, else charge it; add a bucket when none is found. */
    method RateLimitOk(id: Id) returns (ok: bool)
      requires Valid()
      requires FirstIndex(DraftIds(Contents()), id).None? ==> maxbuckets < BucketSizeMax
      modifies this`maxbuckets, buckets
      ensures Valid()
      ensures var r := RateLimit(old(Contents()), id); Contents() == r.buckets && ok == r.ok
    {
      var found := false;
      for i := 0 to maxbuckets
        invariant !found && buckets[..] == old(buckets[..])
        invariant forall j :: 0 <= j < i ==> buckets[j].id != id
      {
        if buckets[i].id == id {
          found := true;
          FirstIndexAt(DraftIds(Contents()), id, i);
          if buckets[i].tokens <= 0 {
            return false;
          }
          buckets[i] := buckets[i].(tokens := buckets[i].tokens - 1);
          break;
        }
      }
      if !found {
        AddBucket(id);
      }
      return true;
    }
  }
}
