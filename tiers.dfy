/**
 * One cache tier, as the coordinator sees it: an external object read by
 * a batched Fetch. Its contents are fixed, since no write is ever executed.
 */
module Tiers {

  type Key = string
  /** Cached values are opaque byte blobs. */
  type Value = seq<bv8>

  /** The entries of `m` whose key is among `keys`. */
  function Restrict(m: map<Key, Value>, keys: seq<Key>): map<Key, Value>
  {
    map k | k in m && k in keys :: m[k]
  }

  class Tier {
    /**
     * What the tier holds. Nothing in this model writes to a tier (scheduled
     * writes are never executed), so it is fixed for the life of the object.
     */
    const contents: map<Key, Value>

    constructor (contents: map<Key, Value>)
      ensures this.contents == contents
    {
      this.contents := contents;
    }

    /**
     * The tier's batched read. This is the contract assumed of every tier:
     * it returns exactly the stored entries whose keys were asked for, and
     * nothing else (a failing tier is one that holds nothing).
     */
    function Fetch(keys: seq<Key>): (r: map<Key, Value>)
      ensures r.Keys <= contents.Keys
      ensures forall k :: k in r ==> k in keys && r[k] == contents[k]
      ensures forall k :: k in contents && k in keys ==> k in r
    {
      Restrict(contents, keys)
    }
  }

  /** The contents of a sequence of tiers, tier by tier. */
  function Snapshot(ts: seq<Tier>): (r: seq<map<Key, Value>>)
    ensures |r| == |ts|
    ensures forall i :: 0 <= i < |ts| ==> r[i] == ts[i].contents
  {
    seq(|ts|, i requires 0 <= i < |ts| => ts[i].contents)
  }
}
