/** The linear search both registries use: the first position holding an id. */
module Lookup {
  import opened Wrappers

  /** The position of the first `rid` in `ids`, or `|ids|` when there is none. */
  function FirstIndex(ids: seq<string>, rid: string): (k: nat)
    ensures k <= |ids|
    ensures forall j :: 0 <= j < k ==> ids[j] != rid
    ensures k < |ids| ==> ids[k] == rid
    ensures k == |ids| <==> rid !in ids
  {
    if ids == [] then 0
    else if ids[0] == rid then 0
    else 1 + FirstIndex(ids[1..], rid)
  }

  /** The ids of the records `xs` in order, `id` giving the id of one record (`getID()`). */
  function IdsOf<T>(xs: seq<T>, id: T -> string): (ids: seq<string>)
    ensures |ids| == |xs|
    ensures forall i :: 0 <= i < |xs| ==> ids[i] == id(xs[i])
  {
    seq(|xs|, i requires 0 <= i < |xs| => id(xs[i]))
  }

  /** The first record with id `rid`, or null: the early-return loop of both registries' lookups. */
  function FirstWith<T>(xs: seq<T>, id: T -> string, rid: string): (r: Option<T>)
    ensures r.Some? <==> rid in IdsOf(xs, id)
    ensures r.Some? ==> id(r.value) == rid
    ensures r.Some? ==> exists k :: 0 <= k < |xs| && xs[k] == r.value && forall j :: 0 <= j < k ==> id(xs[j]) != rid
  {
    var k := FirstIndex(IdsOf(xs, id), rid);
    if k < |xs| then Some(xs[k]) else None
  }

  /** The three properties above pin the position down: a search that stops at `k` found the first one. */
  lemma FirstIndexIs(ids: seq<string>, rid: string, k: nat)
    requires k <= |ids|
    requires forall j :: 0 <= j < k ==> ids[j] != rid
    requires k < |ids| ==> ids[k] == rid
    ensures FirstIndex(ids, rid) == k
  {
  }

  /** Appending an id leaves every earlier first position where it was. */
  lemma FirstIndexAppend(ids: seq<string>, x: string, rid: string)
    ensures rid in ids ==> FirstIndex(ids + [x], rid) == FirstIndex(ids, rid)
    ensures rid !in ids && x == rid ==> FirstIndex(ids + [x], rid) == |ids|
    ensures rid !in ids && x != rid ==> FirstIndex(ids + [x], rid) == |ids| + 1
  {
    var k := FirstIndex(ids, rid);
    var longer := ids + [x];
    assert forall j :: 0 <= j < k ==> longer[j] != rid;
    if rid in ids {
      FirstIndexIs(longer, rid, k);
    } else if x == rid {
      FirstIndexIs(longer, rid, |ids|);
    } else {
      assert rid !in longer;
    }
  }
}
