/** Python's insertion-ordered dictionary, as the sequence of its items. */
module OrderedDict {
  import opened Wrappers

  type Dict<K, V> = seq<(K, V)>

  function Get<K(==), V>(d: Dict<K, V>, k: K): Option<V> {
    if d == [] then None
    else if d[0].0 == k then Some(d[0].1)
    else Get(d[1..], k)
  }

  function GetOr<K(==), V>(d: Dict<K, V>, k: K, default: V): V {
    if Get(d, k).Some? then Get(d, k).value else default
  }

  /** Replace a key's value in place, or append a new item. */
  function Set<K(==), V>(d: Dict<K, V>, k: K, v: V): Dict<K, V> {
    if d == [] then [(k, v)]
    else if d[0].0 == k then [(k, v)] + d[1..]
    else [d[0]] + Set(d[1..], k, v)
  }

  /** The items whose key satisfies `keep`, in order. */
  function Restrict<K, V>(d: Dict<K, V>, keep: K -> bool): Dict<K, V> {
    if d == [] then []
    else if keep(d[0].0) then [d[0]] + Restrict(d[1..], keep)
    else Restrict(d[1..], keep)
  }

  /** The items whose key does not satisfy `drop`, in order. */
  function Without<K, V>(d: Dict<K, V>, drop: K -> bool): Dict<K, V> {
    if d == [] then []
    else if drop(d[0].0) then Without(d[1..], drop)
    else [d[0]] + Without(d[1..], drop)
  }

  function Remove<K(==), V>(d: Dict<K, V>, k: K): Dict<K, V> {
    if d == [] then []
    else if d[0].0 == k then Remove(d[1..], k)
    else [d[0]] + Remove(d[1..], k)
  }

  function Values<K, V>(d: Dict<K, V>): seq<V> {
    if d == [] then [] else [d[0].1] + Values(d[1..])
  }

  lemma {:induction false} GetOfSet<K, V>(d: Dict<K, V>, k: K, v: V, j: K)
    ensures Get(Set(d, k, v), j) == if j == k then Some(v) else Get(d, j)
  {
    if d != [] && d[0].0 != k {
      GetOfSet(d[1..], k, v, j);
    }
  }

  lemma {:induction false} GetOfRemove<K, V>(d: Dict<K, V>, k: K, j: K)
    ensures Get(Remove(d, k), j) == if j == k then None else Get(d, j)
  {
    if d != [] {
      GetOfRemove(d[1..], k, j);
    }
  }

  lemma {:induction false} GetOfRestrict<K, V>(d: Dict<K, V>, keep: K -> bool, k: K)
    requires keep(k)
    ensures Get(Restrict(d, keep), k) == Get(d, k)
  {
    if d != [] {
      GetOfRestrict(d[1..], keep, k);
    }
  }

  /** Setting a key commutes with keeping it, and vanishes where it is not kept. */
  lemma {:induction false} RestrictOfSet<K, V>(d: Dict<K, V>, keep: K -> bool, k: K, v: V)
    ensures Restrict(Set(d, k, v), keep)
         == if keep(k) then Set(Restrict(d, keep), k, v) else Restrict(d, keep)
  {
    if d != [] && d[0].0 != k {
      RestrictOfSet(d[1..], keep, k, v);
    }
  }

  /** Where no item is kept by both, dropping the one kind leaves the other kind alone. */
  lemma {:induction false} RestrictOfWithout<K, V>(d: Dict<K, V>, keep: K -> bool, drop: K -> bool)
    requires forall i | 0 <= i < |d| :: !(keep(d[i].0) && drop(d[i].0))
    ensures Restrict(Without(d, drop), keep) == Restrict(d, keep)
  {
    if d != [] {
      assert forall i | 0 <= i < |d[1..]| :: d[1..][i] == d[i + 1];
      RestrictOfWithout(d[1..], keep, drop);
    }
  }

  /** Removing a key undoes setting it, and commutes with setting any other. */
  lemma {:induction false} RemoveOfSet<K, V>(d: Dict<K, V>, k: K, v: V, j: K)
    ensures Remove(Set(d, k, v), j) == if j == k then Remove(d, j) else Set(Remove(d, j), k, v)
  {
    if d != [] && d[0].0 != k {
      RemoveOfSet(d[1..], k, v, j);
    }
  }

  lemma {:induction false} RemovesCommute<K, V>(d: Dict<K, V>, j: K, k: K)
    ensures Remove(Remove(d, j), k) == Remove(Remove(d, k), j)
  {
    if d != [] {
      RemovesCommute(d[1..], j, k);
    }
  }

  lemma {:induction false} RemoveTwice<K, V>(d: Dict<K, V>, k: K)
    ensures Remove(Remove(d, k), k) == Remove(d, k)
  {
    if d != [] {
      RemoveTwice(d[1..], k);
    }
  }

  /** Dropping items commutes with setting a key that is not dropped, and undoes setting one
      that is. */
  lemma {:induction false} WithoutOfSet<K, V>(d: Dict<K, V>, drop: K -> bool, k: K, v: V)
    ensures Without(Set(d, k, v), drop) == if drop(k) then Without(d, drop) else Set(Without(d, drop), k, v)
  {
    if d != [] && d[0].0 != k {
      WithoutOfSet(d[1..], drop, k, v);
    }
  }

  lemma {:induction false} WithoutsCommute<K, V>(d: Dict<K, V>, p: K -> bool, q: K -> bool)
    ensures Without(Without(d, p), q) == Without(Without(d, q), p)
  {
    if d != [] {
      WithoutsCommute(d[1..], p, q);
    }
  }

  lemma {:induction false} WithoutTwice<K, V>(d: Dict<K, V>, p: K -> bool)
    ensures Without(Without(d, p), p) == Without(d, p)
  {
    if d != [] {
      WithoutTwice(d[1..], p);
    }
  }
}
