/** The bucket table of hashtable.c: a heap array of bucket references filled from slot 0
    upwards. Its "hash" ignores the key and hands out the next free slot, so the table is an
    append-only sequence with a first-match linear lookup.

    In C the array and the slot counter are file-scope globals, and `maxbuckets` is declared
    `static` in hashtable.h, so every file including it gets a copy of its own; and the callers
    in rlm_ratelimit.c and tokenbucket.c pass a datastore argument that these functions do not
    take. The model gives the table one object that owns both the array and the counter, and
    both limiters call it with hashtable.c's own semantics. */
module HashTable {
  import opened Search
  import opened TokenBucket
  import opened BucketStore

  class Table {
    /** `buckets`: `NULL` until `hashtable_init` allocates it; a slot is `None` while NULL. */
    var slots: array<Option<Bucket>>
    /** `maxbuckets`: the number of filled slots (the top of the stack). */
    var count: nat

    /** The slots below the counter are filled (lookup dereferences each of them) and lie
        inside the array (insert writes one slot past them). */
    ghost predicate Valid()
      reads this, slots
    {
      count <= slots.Length && forall i :: 0 <= i < count ==> slots[i].Some?
    }

    /** The buckets in slots `[0, count)`, in slot order. */
    ghost function Contents(): (s: seq<Bucket>)
      reads this, slots
      requires Valid()
      ensures |s| == count && forall i :: 0 <= i < count ==> slots[i] == Some(s[i])
    {
      seq(count, i requires 0 <= i < count && Valid() reads this, slots => slots[i].value)
    }

    /** The zero-initialised globals: no array yet and no bucket. */
    constructor ()
      ensures Valid() && slots.Length == 0 && count == 0 && Contents() == []
    {
      slots := new Option<Bucket>[0];
      count := 0;
    }

    /** `hashtable_init`: allocate `hashmax` empty slots. The counter is not reset here;
        only a table whose counter is zero is then valid and empty. */
    method Init(hashmax: U32)
      modifies this
      ensures fresh(slots) && slots.Length == hashmax && count == old(count)
      ensures forall i :: 0 <= i < slots.Length ==> slots[i] == None
      ensures count == 0 ==> Valid() && Contents() == []
    {
      slots := new Option<Bucket>[hashmax](_ => None);
    }

    /** `hash`: ignores the key, returns the current counter and bumps it by one. */
    method Hash(key: Id) returns (index: nat)
      modifies this`count
      ensures index == old(count) && count == old(count) + 1
    {
      count := count + 1;
      index := count - 1;
    }

    /** `insert`: store the bucket in the slot `hash` hands out. There is no bounds check in
        C, so a free slot is required. The earlier slots and the empty ones above keep their
        contents. */
    method Insert(value: Bucket)
      requires Valid() && count < slots.Length
      modifies this`count, slots
      ensures Valid() && count == old(count) + 1
      ensures Contents() == old(Contents()) + [value]
      ensures forall i :: count <= i < slots.Length ==> slots[i] == old(slots[i])
    {
      var index := Hash(value.id);
      slots[index] := Some(value);
    }

    /** `lookup`: scan the filled slots from 0 and return the first bucket whose id equals
        `key`, or nothing. Reads only: neither the slots nor the counter change. */
    method Lookup(key: Id) returns (b: Option<nat>)
      requires Valid()
      ensures b == FirstIndex(Ids(Contents()), key)
    {
      b := None;
      for i := 0 to count
        invariant forall j :: 0 <= j < i ==> slots[j].value.id != key
      {
        if slots[i].value.id == key {
          b := Some(i);
          break;
        }
      }
    }
  }

  /** After an insert, looking up the inserted id succeeds. */
  lemma InsertThenLookup(s: seq<Bucket>, value: Bucket)
    ensures FirstIndex(Ids(s + [value]), value.id).Some?
  {
    IdsAppend(s, value);
    var ids := Ids(s);
    if FirstIndex(ids, value.id).None? {
      AppendMissingFound(ids, value.id);
    } else {
      AppendKeepsFirst(ids, value.id, value.id);
    }
  }
}
