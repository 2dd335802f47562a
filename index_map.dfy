/** The `indexmap::IndexMap<K, V>` the AST and the configuration use: a map
    that remembers the order in which keys were first inserted. It is a
    sequence of entries whose keys are pairwise distinct. */
module IndexMap {
  import opened Util

  type Entries<K, V> = seq<(K, V)>

  predicate DistinctKeys<K(==), V>(m: Entries<K, V>) {
    forall i, j :: 0 <= i < j < |m| ==> m[i].0 != m[j].0
  }

  /** The keys in insertion order (`IndexMap::keys`). */
  function Keys<K, V>(m: Entries<K, V>): (r: seq<K>)
    ensures |r| == |m|
    ensures forall i :: 0 <= i < |m| ==> r[i] == m[i].0
  {
    if m == [] then [] else [m[0].0] + Keys(m[1..])
  }

  /** Position of `k` among the entries, if present (`IndexMap::get_index_of`). */
  function IndexOf<K(==), V>(m: Entries<K, V>, k: K): (r: Option<nat>)
    ensures r.Some? ==> r.value < |m| && m[r.value].0 == k
    ensures r.Some? ==> forall i :: 0 <= i < r.value ==> m[i].0 != k
    ensures r.None? <==> k !in Keys(m)
  {
    if m == [] then None
    else if m[0].0 == k then Some(0)
    else match IndexOf(m[1..], k)
      case None => None
      case Some(i) => Some(i + 1)
  }

  /** `IndexMap::get`. */
  function Get<K(==), V>(m: Entries<K, V>, k: K): (r: Option<V>)
    ensures r.Some? <==> k in Keys(m)
    ensures r.Some? ==> exists i :: 0 <= i < |m| && m[i] == (k, r.value)
  {
    match IndexOf(m, k)
    case None => None
    case Some(i) => Some(m[i].1)
  }

  /** `IndexMap::insert`: an existing key keeps its position and takes the new
      value; a new key is appended at the end. */
  function Insert<K(==), V>(m: Entries<K, V>, k: K, v: V): (r: Entries<K, V>)
  {
    if m == [] then [(k, v)]
    else if m[0].0 == k then [(k, v)] + m[1..]
    else [m[0]] + Insert(m[1..], k, v)
  }

  /** Inserting a key that is not present appends one entry at the end. */
  lemma {:induction false} InsertNew<K, V>(m: Entries<K, V>, k: K, v: V)
    requires k !in Keys(m)
    ensures Insert(m, k, v) == m + [(k, v)]
  {
    if m != [] {
      assert k !in Keys(m[1..]) by {
        assert Keys(m) == [m[0].0] + Keys(m[1..]);
      }
      InsertNew(m[1..], k, v);
      assert m == [m[0]] + m[1..];
    }
  }

  /** Inserting a key that is present replaces its value where it stands:
      the length and every other entry are unchanged. */
  lemma {:induction false} InsertExisting<K, V>(m: Entries<K, V>, k: K, v: V)
    requires DistinctKeys(m)
    requires k in Keys(m)
    ensures IndexOf(m, k).Some?
    ensures Insert(m, k, v) == m[IndexOf(m, k).value := (k, v)]
  {
    if m[0].0 != k {
      assert k in Keys(m[1..]) by {
        assert Keys(m) == [m[0].0] + Keys(m[1..]);
      }
      InsertExisting(m[1..], k, v);
    }
  }

  /** Insertion keeps the keys distinct, so an `IndexMap` built by inserts is well formed. */
  lemma InsertKeepsDistinct<K, V>(m: Entries<K, V>, k: K, v: V)
    requires DistinctKeys(m)
    ensures DistinctKeys(Insert(m, k, v))
    ensures Keys(Insert(m, k, v)) == if k in Keys(m) then Keys(m) else Keys(m) + [k]
  {
    if k in Keys(m) {
      InsertExisting(m, k, v);
      assert Keys(Insert(m, k, v)) == Keys(m);
    } else {
      InsertNew(m, k, v);
      assert Keys(m + [(k, v)]) == Keys(m) + [k];
    }
  }

  /** After an insert, the key maps to the new value and every other key to
      what it mapped to before. */
  lemma InsertGet<K, V>(m: Entries<K, V>, k: K, v: V, k': K)
    requires DistinctKeys(m)
    ensures Get(Insert(m, k, v), k) == Some(v)
    ensures k' != k ==> Get(Insert(m, k, v), k') == Get(m, k')
  {
    InsertKeepsDistinct(m, k, v);
    var r := Insert(m, k, v);
    var i: nat;
    if k in Keys(m) {
      InsertExisting(m, k, v);
      i := IndexOf(m, k).value;
    } else {
      InsertNew(m, k, v);
      i := |m|;
    }
    assert r[i] == (k, v);
    GetAt(r, k, i);
    if k' != k && k' in Keys(m) {
      var j := IndexOf(m, k').value;
      assert r[j] == m[j];
      GetAt(m, k', j);
      GetAt(r, k', j);
    }
  }

  /** In a map with distinct keys, `Get` returns the value stored beside the key. */
  lemma GetAt<K, V>(m: Entries<K, V>, k: K, i: nat)
    requires DistinctKeys(m) && i < |m| && m[i].0 == k
    ensures Get(m, k) == Some(m[i].1)
  {
    GetOfDistinct(m, k);
  }

  /** Everything a caller of `insert` relies on, in one place. */
  lemma InsertFacts<K, V>(m: Entries<K, V>, k: K, v: V)
    requires DistinctKeys(m)
    ensures DistinctKeys(Insert(m, k, v))
    ensures k !in Keys(m) ==> Insert(m, k, v) == m + [(k, v)]
    ensures k in Keys(m) ==> |Insert(m, k, v)| == |m| && Keys(Insert(m, k, v)) == Keys(m)
    ensures Get(Insert(m, k, v), k) == Some(v)
    ensures forall k' :: k' != k ==> Get(Insert(m, k, v), k') == Get(m, k')
  {
    InsertKeepsDistinct(m, k, v);
    if k !in Keys(m) {
      InsertNew(m, k, v);
    }
    forall k' ensures Get(Insert(m, k, v), k) == Some(v) && (k' != k ==> Get(Insert(m, k, v), k') == Get(m, k')) {
      InsertGet(m, k, v, k');
    }
  }

  /** In a map with distinct keys, `Get` returns the value stored beside the key. */
  lemma GetOfDistinct<K, V>(m: Entries<K, V>, k: K)
    requires DistinctKeys(m)
    ensures forall i :: 0 <= i < |m| && m[i].0 == k ==> Get(m, k) == Some(m[i].1)
  {
  }

  /** The first key whose value equals `v`
      (`map.iter().find(|(_, x)| *x == v).map(|(k, _)| k)`). */
  function FindKeyByValue<K, V(==)>(m: Entries<K, V>, v: V): Option<K>
  {
    if m == [] then None
    else if m[0].1 == v then Some(m[0].0)
    else FindKeyByValue(m[1..], v)
  }

  /** The search returns the key of the first entry holding `v`, and nothing
      exactly when no entry holds `v`. */
  lemma {:induction false} FindKeyByValueFirst<K, V>(m: Entries<K, V>, v: V)
    ensures FindKeyByValue(m, v).Some? ==>
      exists i :: 0 <= i < |m| && m[i] == (FindKeyByValue(m, v).value, v) && forall j :: 0 <= j < i ==> m[j].1 != v
    ensures FindKeyByValue(m, v).None? <==> forall i :: 0 <= i < |m| ==> m[i].1 != v
  {
    if m != [] && m[0].1 != v {
      FindKeyByValueFirst(m[1..], v);
      var r := FindKeyByValue(m[1..], v);
      if r.Some? {
        var i :| 0 <= i < |m[1..]| && m[1..][i] == (r.value, v) && forall j :: 0 <= j < i ==> m[1..][j].1 != v;
        assert m[i + 1] == (r.value, v);
        forall j | 0 <= j < i + 1 ensures m[j].1 != v {
          if j > 0 { assert m[j] == m[1..][j - 1]; }
        }
      } else {
        forall i | 0 <= i < |m| ensures m[i].1 != v {
          if i > 0 { assert m[i] == m[1..][i - 1]; }
        }
      }
    }
  }

  /** `IndexMap::first`. */
  function First<K, V>(m: Entries<K, V>): (r: Option<(K, V)>)
    ensures r.Some? <==> |m| > 0
    ensures r.Some? ==> r.value == m[0]
  {
    if m == [] then None else Some(m[0])
  }

  /** Builds a map by inserting the entries in order (the `IndexMap` that a
      sequence of `insert` calls produces). */
  function FromEntries<K(==), V>(entries: Entries<K, V>): Entries<K, V>
  {
    if entries == [] then [] else Insert(FromEntries(entries[..|entries| - 1]), entries[|entries| - 1].0, entries[|entries| - 1].1)
  }

  /** Inserting entries whose keys are pairwise distinct yields exactly those
      entries, in order. */
  lemma {:induction false} FromDistinctEntries<K, V>(entries: Entries<K, V>)
    requires DistinctKeys(entries)
    ensures FromEntries(entries) == entries
  {
    if entries != [] {
      var init := entries[..|entries| - 1];
      var last := entries[|entries| - 1];
      FromDistinctEntries(init);
      assert last.0 !in Keys(init);
      InsertNew(init, last.0, last.1);
    }
  }
}
