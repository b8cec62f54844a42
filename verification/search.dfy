/** Option, and the first-match search over identifiers that every bucket table of the
    rate limiter performs (a linear scan from slot 0 that stops at the first equal id). */
module Search {

  /** A value or nothing; `None` stands for the C code's NULL bucket reference. */
  datatype Option<+T> = None | Some(value: T)

  /** Identifiers are C strings compared with `strcmp`: plain character sequences. */
  type Id = string

  /** The index of the first identifier equal to `key`, scanning from index 0. */
  function FirstIndex(ids: seq<Id>, key: Id): (r: Option<nat>)
    ensures r.Some? ==> r.value < |ids| && ids[r.value] == key
    ensures r.Some? ==> forall j :: 0 <= j < r.value ==> ids[j] != key
    ensures r.None? <==> forall j :: 0 <= j < |ids| ==> ids[j] != key
    decreases |ids|
  {
    if |ids| == 0 then None
    else if ids[0] == key then Some(0)
    else match FirstIndex(ids[1..], key)
      case None => None
      case Some(k) => Some(k + 1)
  }

  /** An index holding `key` with no earlier match is the first match. */
  lemma FirstIndexAt(ids: seq<Id>, key: Id, k: nat)
    requires k < |ids| && ids[k] == key
    requires forall j :: 0 <= j < k ==> ids[j] != key
    ensures FirstIndex(ids, key) == Some(k)
  {
  }

  /** No identifier occurs twice. */
  predicate Distinct(ids: seq<Id>) {
    forall i, j :: 0 <= i < j < |ids| ==> ids[i] != ids[j]
  }

  /** Appending an identifier that was missing makes it found at the end. */
  lemma AppendMissingFound(ids: seq<Id>, key: Id)
    requires FirstIndex(ids, key).None?
    ensures FirstIndex(ids + [key], key) == Some(|ids|)
  {
    var t := ids + [key];
    assert t[|ids|] == key;
    assert forall j :: 0 <= j < |ids| ==> t[j] == ids[j];
  }

  /** Appending an identifier that was missing keeps the table free of duplicates. */
  lemma AppendMissingDistinct(ids: seq<Id>, key: Id)
    requires Distinct(ids) && FirstIndex(ids, key).None?
    ensures Distinct(ids + [key])
  {
    var t := ids + [key];
    forall i, j | 0 <= i < j < |t| ensures t[i] != t[j] {
      if j == |ids| { assert t[i] == ids[i]; }
    }
  }

  /** Appending never changes where an identifier already present is found. */
  lemma AppendKeepsFirst(ids: seq<Id>, x: Id, key: Id)
    requires FirstIndex(ids, key).Some?
    ensures FirstIndex(ids + [x], key) == FirstIndex(ids, key)
  {
    var k := FirstIndex(ids, key).value;
    assert (ids + [x])[k] == key;
  }
}
