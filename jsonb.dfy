/**
 * The `metadata` column of a transaction: a jsonb object. Every value the
 * handlers write into it (`refund_id`, `stripe_status`, the provider's own
 * metadata) is a string, so an object is a map from keys to strings.
 */
module Jsonb {
  type Object = map<string, string>

  /** PostgreSQL's `object || object`: a shallow merge in which the right operand wins. */
  function Concat(m: Object, delta: Object): (r: Object)
    ensures r.Keys == m.Keys + delta.Keys
    ensures forall k :: k in delta ==> r[k] == delta[k]
    ensures forall k :: k in m && k !in delta ==> r[k] == m[k]
  {
    m + delta
  }

  /** Merging the same delta twice is merging it once. */
  lemma ConcatIdempotent(m: Object, delta: Object)
    ensures Concat(Concat(m, delta), delta) == Concat(m, delta)
  {
  }

  /** Deltas with disjoint keys can be merged in either order. */
  lemma ConcatCommutesOnDisjointKeys(m: Object, a: Object, b: Object)
    requires a.Keys !! b.Keys
    ensures Concat(Concat(m, a), b) == Concat(Concat(m, b), a)
  {
  }

  /**
   * Deltas that agree on every key they share can be merged in either
   * order; only a key given different values makes the order matter.
   */
  lemma ConcatCommutesWhenCompatible(m: Object, a: Object, b: Object)
    requires forall k :: k in a && k in b ==> a[k] == b[k]
    ensures Concat(Concat(m, a), b) == Concat(Concat(m, b), a)
  {
  }

  /** Two merges of the same key: the later value is the one kept. */
  lemma ConcatLastWriteWins(m: Object, k: string, v1: string, v2: string)
    ensures Concat(Concat(m, map[k := v1]), map[k := v2]) == Concat(m, map[k := v2])
  {
  }
}
