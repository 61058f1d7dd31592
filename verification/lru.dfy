/**
 * A bounded least-recently-used map, the store under both in-memory cache
 * tiers. Keys are kept in recency order, least recently used first; a lookup
 * that hits and an insertion both make their key the most recent one, and an
 * insertion of a new key into a full store evicts the least recent key.
 */
module Lru {
  import opened Wrappers

  datatype Store<K(==,!new), V> = Store(capacity: nat, order: seq<K>, entries: map<K, V>)

  /** The outcome of a lookup: the store with its recency updated, and the value found. */
  datatype Lookup<K(==,!new), V> = Lookup(store: Store<K, V>, value: Option<V>)

  predicate Distinct<K(==)>(xs: seq<K>) {
    forall i, j :: 0 <= i < j < |xs| ==> xs[i] != xs[j]
  }

  /** The recency list names exactly the stored keys, once each, and the size respects the capacity. */
  predicate Valid<K(==,!new), V>(s: Store<K, V>) {
    && s.capacity >= 1
    && Distinct(s.order)
    && (forall k :: k in s.order ==> k in s.entries)
    && (forall k :: k in s.entries ==> k in s.order)
    && |s.order| <= s.capacity
  }

  function New<K(==,!new), V>(capacity: nat): (s: Store<K, V>)
    requires capacity >= 1
    ensures Valid(s) && s.capacity == capacity && s.entries == map[]
  {
    Store(capacity, [], map[])
  }

  const MaxUint64: int := 0x1_0000_0000_0000_0000 - 1

  /**
   * The number of entries a byte budget buys: the budget over the average
   * entry size, rounded down, but at least one. Both cache tiers size their
   * store this way, each with its own average asset size.
   */
  function Slots(budget: nat, averageSize: nat): (n: nat)
    requires budget <= MaxUint64 && averageSize > 0
    ensures n >= 1
    ensures budget < averageSize ==> n == 1
    ensures budget >= averageSize ==> n * averageSize <= budget < (n + 1) * averageSize
  {
    if budget / averageSize > 0 then budget / averageSize else 1
  }

  /** An empty store sized for a byte budget. */
  function Sized<K(==,!new), V>(budget: nat, averageSize: nat): (s: Store<K, V>)
    requires budget <= MaxUint64 && averageSize > 0
    ensures Valid(s) && s.entries == map[] && s.capacity == Slots(budget, averageSize)
  {
    New(Slots(budget, averageSize))
  }

  /** `xs` without the element `k`. */
  function Remove<K(==,!new)>(xs: seq<K>, k: K): (r: seq<K>)
    ensures forall x :: x in r <==> x in xs && x != k
    ensures Distinct(xs) ==> Distinct(r)
    ensures k !in xs ==> r == xs
    ensures Distinct(xs) && k in xs ==> |r| == |xs| - 1
  {
    if |xs| == 0 then []
    else if xs[0] == k then Remove(xs[1..], k)
    else
      var rest := Remove(xs[1..], k);
      DistinctCons(xs, rest);
      [xs[0]] + rest
  }

  /** Putting back the head of a duplicate-free sequence in front of a subset of its tail keeps it duplicate-free. */
  lemma DistinctCons<K>(xs: seq<K>, rest: seq<K>)
    requires |xs| > 0
    ensures Distinct(xs) && Distinct(rest) && (forall x :: x in rest ==> x in xs[1..]) ==> Distinct([xs[0]] + rest)
  {
    if Distinct(xs) && Distinct(rest) && (forall x :: x in rest ==> x in xs[1..]) {
      var ys := [xs[0]] + rest;
      forall i, j | 0 <= i < j < |ys| ensures ys[i] != ys[j] {
        if i == 0 {
          assert ys[j] == rest[j - 1];
          assert rest[j - 1] in xs[1..];
        }
      }
    }
  }

  /** `order` with `k` moved to the most recent end. */
  function Touch<K(==,!new)>(order: seq<K>, k: K): (r: seq<K>)
    ensures forall x :: x in r <==> x in order || x == k
    ensures |r| > 0 && r[|r| - 1] == k
    ensures Distinct(order) ==> Distinct(r)
    ensures Distinct(order) && k in order ==> |r| == |order|
  {
    Remove(order, k) + [k]
  }

  /** Looks `k` up; a hit makes `k` the most recently used key. */
  function Get<K(==,!new), V>(s: Store<K, V>, k: K): (r: Lookup<K, V>)
    ensures r.store.capacity == s.capacity && r.store.entries == s.entries
    ensures r.value.Some? <==> k in s.entries
    ensures k in s.entries ==> r.value.value == s.entries[k] && |r.store.order| > 0 && r.store.order[|r.store.order| - 1] == k
    ensures k !in s.entries ==> r.store == s
    ensures Valid(s) ==> Valid(r.store)
  {
    if k in s.entries then
      Lookup(s.(order := Touch(s.order, k)), Some(s.entries[k]))
    else
      Lookup(s, None)
  }

  /** True when adding `k` to `s` has to make room by evicting the least recently used key. */
  predicate Evicts<K(==,!new), V>(s: Store<K, V>, k: K) {
    k !in s.entries && |s.order| >= s.capacity && |s.order| > 0
  }

  /**
   * Stores `v` under `k` as the most recently used entry. A new key in a full
   * store first evicts the least recently used key.
   */
  function Add<K(==,!new), V>(s: Store<K, V>, k: K, v: V): (r: Store<K, V>)
    requires Valid(s)
    ensures Valid(r) && r.capacity == s.capacity
    ensures k in r.entries && r.entries[k] == v
    ensures r.order[|r.order| - 1] == k
    ensures forall j :: j in r.entries <==>
      j == k || (j in s.entries && !(Evicts(s, k) && j == s.order[0]))
    ensures forall j :: j in r.entries && j != k ==> r.entries[j] == s.entries[j]
    ensures Evicts(s, k) ==> |r.entries| == |s.entries|
  {
    if k in s.entries then
      s.(order := Touch(s.order, k), entries := s.entries[k := v])
    else if |s.order| < s.capacity then
      AddFresh(s, k, v)
    else
      EvictOldest(s, k, v)
  }

  /** Appends a key that is absent from a store with room left. */
  function AddFresh<K(==,!new), V>(s: Store<K, V>, k: K, v: V): (r: Store<K, V>)
    requires Valid(s) && k !in s.entries && |s.order| < s.capacity
    ensures Valid(r) && r.capacity == s.capacity
    ensures r.order == s.order + [k] && r.entries == s.entries[k := v]
  {
    var r := s.(order := s.order + [k], entries := s.entries[k := v]);
    assert k !in s.order;
    r
  }

  /** Drops the least recently used key of a full store and appends an absent key. */
  function EvictOldest<K(==,!new), V>(s: Store<K, V>, k: K, v: V): (r: Store<K, V>)
    requires Valid(s) && k !in s.entries && |s.order| >= s.capacity
    ensures Valid(r) && r.capacity == s.capacity
    ensures r.order == s.order[1..] + [k]
    ensures r.entries == (s.entries - {s.order[0]})[k := v]
  {
    var victim := s.order[0];
    var rest := s.order[1..];
    assert forall x :: x in rest <==> x in s.order && x != victim by {
      forall x ensures x in rest <==> x in s.order && x != victim {
        if x in rest {
          var i :| 0 <= i < |rest| && rest[i] == x;
          assert s.order[i + 1] == x;
        }
        if x in s.order && x != victim {
          var i :| 0 <= i < |s.order| && s.order[i] == x;
          assert rest[i - 1] == x;
        }
      }
    }
    assert k !in s.order;
    s.(order := rest + [k], entries := (s.entries - {victim})[k := v])
  }

  /** What is stored under `k` right after storing it can be read back. */
  lemma AddThenGet<K(!new), V>(s: Store<K, V>, k: K, v: V)
    requires Valid(s)
    ensures Get(Add(s, k, v), k).value == Some(v)
  {
  }

  /** Storing a key already present evicts nothing. */
  lemma ReplaceKeepsOthers<K(!new), V>(s: Store<K, V>, k: K, v: V, j: K)
    requires Valid(s) && k in s.entries && j in s.entries
    ensures j in Add(s, k, v).entries
  {
  }

  /** A store that is not full evicts nothing. */
  lemma RoomKeepsOthers<K(!new), V>(s: Store<K, V>, k: K, v: V, j: K)
    requires Valid(s) && |s.order| < s.capacity && j in s.entries
    ensures j in Add(s, k, v).entries
  {
  }

  /**
   * Of the keys stored before a run of insertions, the most recently used one
   * survives as long as the run is shorter than the capacity.
   */
  lemma MostRecentSurvives<K(!new), V>(s: Store<K, V>, ks: seq<K>, v: V)
    requires Valid(s) && |s.order| > 0 && |ks| < s.capacity
    ensures s.order[|s.order| - 1] in AddAll(s, ks, v).entries
  {
    RecentSurvives(s, ks, v, s.order[|s.order| - 1], |s.order| - 1);
  }

  /** Stores `v` under each key of `ks` in turn. */
  function AddAll<K(==,!new), V>(s: Store<K, V>, ks: seq<K>, v: V): (r: Store<K, V>)
    requires Valid(s)
    ensures Valid(r) && r.capacity == s.capacity
    decreases |ks|
  {
    if |ks| == 0 then s else AddAll(Add(s, ks[0], v), ks[1..], v)
  }

  /**
   * A key at position `pos` of the recency list moves one place towards
   * eviction only when a new key arrives in a full store or an older key is
   * touched, so it survives as many insertions as there are older keys plus
   * free slots.
   */
  lemma {:induction false} RecentSurvives<K(!new), V>(s: Store<K, V>, ks: seq<K>, v: V, x: K, pos: nat)
    requires Valid(s) && pos < |s.order| && s.order[pos] == x
    requires |ks| + |s.order| <= pos + s.capacity
    ensures x in AddAll(s, ks, v).entries
    decreases |ks|
  {
    if |ks| > 0 {
      var p := StepPosition(s, ks[0], v, x, pos);
      RecentSurvives(Add(s, ks[0], v), ks[1..], v, x, p);
    } else {
      assert x in s.order;
    }
  }

  /**
   * One insertion moves a stored key at most one place closer to eviction,
   * measured from the free end of the store.
   */
  lemma StepPosition<K(!new), V>(s: Store<K, V>, k: K, v: V, x: K, pos: nat) returns (p: nat)
    requires Valid(s) && pos < |s.order| && s.order[pos] == x
    requires 1 + |s.order| <= pos + s.capacity
    ensures p < |Add(s, k, v).order| && Add(s, k, v).order[p] == x
    ensures |Add(s, k, v).order| + pos <= |s.order| + p + 1
  {
    var r := Add(s, k, v);
    if x == k {
      p := |r.order| - 1;
    } else if k in s.entries {
      p := RemovePosition(s.order, k, x, pos);
      assert r.order == Remove(s.order, k) + [k];
    } else if |s.order| < s.capacity {
      assert r.order == s.order + [k];
      p := pos;
    } else {
      assert r.order == s.order[1..] + [k];
      p := pos - 1;
      assert r.order[p] == x;
    }
  }

  /** Removing another element of a duplicate-free sequence moves `x` at most one place. */
  lemma {:induction false} RemovePosition<K(!new)>(xs: seq<K>, k: K, x: K, pos: nat) returns (p: nat)
    requires Distinct(xs) && pos < |xs| && xs[pos] == x && x != k
    ensures pos <= p + 1 && p <= pos && p < |Remove(xs, k)| && Remove(xs, k)[p] == x
    decreases |xs|
  {
    if xs[0] == k {
      assert k !in xs[1..];
      p := pos - 1;
    } else if pos == 0 {
      p := 0;
    } else {
      var q := RemovePosition(xs[1..], k, x, pos - 1);
      p := q + 1;
    }
  }
}
