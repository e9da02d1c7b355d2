/** An insertion-ordered map with the semantics of a PHP array used as a
    dictionary: iteration follows insertion order, assigning to an existing
    key replaces its value in place, assigning to a new key appends it, and
    `unset` removes the key while the remaining entries keep their order.

    The map is an association list; the well-formedness invariant is that no
    key occurs twice (`UniqueKeys`), and every operation here preserves it. */
module OrderedMap {
  import opened Optional

  datatype Entry<K, V> = Entry(key: K, value: V)

  type OMap<K, V> = seq<Entry<K, V>>

  predicate HasKey<K(==), V>(m: OMap<K, V>, k: K) {
    exists i :: 0 <= i < |m| && m[i].key == k
  }

  /** The invariant of a PHP array: each key appears at most once. */
  predicate UniqueKeys<K(==), V>(m: OMap<K, V>) {
    forall i, j :: 0 <= i < j < |m| ==> m[i].key != m[j].key
  }

  /** The keys in iteration order. */
  function Keys<K, V>(m: OMap<K, V>): (ks: seq<K>)
    ensures |ks| == |m|
    ensures forall i :: 0 <= i < |m| ==> ks[i] == m[i].key
  {
    seq(|m|, i requires 0 <= i < |m| => m[i].key)
  }

  /** Position of the first entry whose key satisfies `p`, scanning in
      iteration order: the shape of a PHP `foreach` that returns on the first
      hit. */
  function FirstKey<K, V>(m: OMap<K, V>, p: K -> bool): (r: Option<nat>)
    ensures r.None? <==> forall i :: 0 <= i < |m| ==> !p(m[i].key)
    ensures r.Some? ==> r.value < |m| && p(m[r.value].key)
    ensures r.Some? ==> forall j :: 0 <= j < r.value ==> !p(m[j].key)
  {
    if |m| == 0 then None
    else if p(m[0].key) then Some(0)
    else match FirstKey(m[1..], p)
      case None => None
      case Some(i) => Some(i + 1)
  }

  /** Position of key `k`, if present. */
  function IndexOf<K(==), V>(m: OMap<K, V>, k: K): (r: Option<nat>)
    ensures r.None? <==> !HasKey(m, k)
    ensures r.Some? ==> r.value < |m| && m[r.value].key == k
    ensures r.Some? ==> forall j :: 0 <= j < r.value ==> m[j].key != k
  {
    FirstKey(m, key => key == k)
  }

  /** `$m[$k]` guarded by `isset`: the value stored under `k`, if any. */
  function Get<K(==), V>(m: OMap<K, V>, k: K): (r: Option<V>)
    ensures r.Some? <==> HasKey(m, k)
    ensures r.Some? ==> Entry(k, r.value) in m
    ensures UniqueKeys(m) ==> forall i :: 0 <= i < |m| && m[i].key == k ==> r == Some(m[i].value)
  {
    match IndexOf(m, k)
    case Some(i) => Some(m[i].value)
    case None => None
  }

  /** `$m[$k] = $v`. */
  function Put<K(==), V>(m: OMap<K, V>, k: K, v: V): (r: OMap<K, V>)
    ensures HasKey(m, k) ==> |r| == |m|
    ensures !HasKey(m, k) ==> |r| == |m| + 1 && r[|m|] == Entry(k, v)
  {
    match IndexOf(m, k)
    case Some(i) => m[i := Entry(k, v)]
    case None => m + [Entry(k, v)]
  }

  /** `unset($m[$k])`; a no-op when `k` is absent. */
  function Remove<K(==), V>(m: OMap<K, V>, k: K): (r: OMap<K, V>)
    ensures !HasKey(r, k)
    ensures forall i :: 0 <= i < |r| ==> r[i] in m && r[i].key != k
    ensures forall i :: 0 <= i < |m| && m[i].key != k ==> m[i] in r
    ensures |r| <= |m|
  {
    if |m| == 0 then []
    else if m[0].key == k then Remove(m[1..], k)
    else [m[0]] + Remove(m[1..], k)
  }

  // ---------------------------------------------------------------------
  // Put: the stored key reads back, every other key reads as before, and
  // iteration order keeps the old key's position or appends a new key.
  // ---------------------------------------------------------------------

  lemma PutGet<K, V>(m: OMap<K, V>, k: K, v: V)
    ensures Get(Put(m, k, v), k) == Some(v)
  {
    var r := Put(m, k, v);
    match IndexOf(m, k)
    case Some(i) =>
      assert r[i] == Entry(k, v);
      assert forall j :: 0 <= j < i ==> r[j].key != k;
    case None =>
      assert r[|m|] == Entry(k, v);
      assert forall j :: 0 <= j < |m| ==> r[j].key != k;
  }

  lemma PutOther<K, V>(m: OMap<K, V>, k: K, v: V, k': K)
    requires k' != k
    ensures Get(Put(m, k, v), k') == Get(m, k')
  {
    var r := Put(m, k, v);
    PutFrame(m, k, v);
    match IndexOf(m, k')
    case Some(i) =>
      assert IndexOf(r, k') == Some(i);
    case None =>
      assert !HasKey(r, k');
  }

  /** `Put` touches only entries stored under `k`, and anything it appends
      is stored under `k`. */
  lemma PutFrame<K, V>(m: OMap<K, V>, k: K, v: V)
    ensures |m| <= |Put(m, k, v)|
    ensures forall j :: 0 <= j < |m| && m[j].key != k ==> Put(m, k, v)[j] == m[j]
    ensures forall j :: 0 <= j < |Put(m, k, v)| && Put(m, k, v)[j].key != k ==> j < |m| && Put(m, k, v)[j] == m[j]
  {
  }

  lemma PutKeys<K, V>(m: OMap<K, V>, k: K, v: V)
    ensures HasKey(m, k) ==> Keys(Put(m, k, v)) == Keys(m)
    ensures !HasKey(m, k) ==> Keys(Put(m, k, v)) == Keys(m) + [k]
  {
    var r := Put(m, k, v);
    if HasKey(m, k) {
      assert forall j :: 0 <= j < |m| ==> r[j].key == m[j].key;
    } else {
      assert forall j :: 0 <= j < |m| ==> r[j] == m[j];
    }
  }

  lemma PutUnique<K, V>(m: OMap<K, V>, k: K, v: V)
    requires UniqueKeys(m)
    ensures UniqueKeys(Put(m, k, v))
  {
    PutKeys(m, k, v);
    var r := Put(m, k, v);
    forall i, j | 0 <= i < j < |r|
      ensures r[i].key != r[j].key
    {
      assert Keys(r)[i] == r[i].key && Keys(r)[j] == r[j].key;
      if j == |m| {
        assert !HasKey(m, k);
        assert Keys(r)[i] == m[i].key;
      }
    }
  }

  // ---------------------------------------------------------------------
  // Remove: the key is gone, every other key reads as before, removing an
  // absent key changes nothing, and so removing twice equals removing once.
  // ---------------------------------------------------------------------

  lemma {:induction false} RemoveAbsent<K, V>(m: OMap<K, V>, k: K)
    requires !HasKey(m, k)
    ensures Remove(m, k) == m
  {
    if |m| > 0 {
      assert m[0].key != k;
      assert !HasKey(m[1..], k) by {
        forall i | 0 <= i < |m[1..]| ensures m[1..][i].key != k {
          assert m[1..][i] == m[i + 1];
        }
      }
      RemoveAbsent(m[1..], k);
      assert m == [m[0]] + m[1..];
    }
  }

  lemma RemoveIdempotent<K, V>(m: OMap<K, V>, k: K)
    ensures Remove(Remove(m, k), k) == Remove(m, k)
  {
    RemoveAbsent(Remove(m, k), k);
  }

  lemma {:induction false} RemoveOther<K, V>(m: OMap<K, V>, k: K, k': K)
    requires k' != k
    ensures Get(Remove(m, k), k') == Get(m, k')
  {
    if |m| > 0 {
      RemoveOther(m[1..], k, k');
      var r := Remove(m, k);
      var tail := Remove(m[1..], k);
      if m[0].key == k {
        assert r == tail;
        assert Get(m, k') == Get(m[1..], k') by {
          GetCons(m, k');
        }
      } else {
        assert r == [m[0]] + tail;
        assert r[1..] == tail;
        GetCons(r, k');
        GetCons(m, k');
      }
    }
  }

  /** Looking up in a non-empty map: the head entry, or else the tail. */
  lemma GetCons<K, V>(m: OMap<K, V>, k: K)
    requires |m| > 0
    ensures Get(m, k) == if m[0].key == k then Some(m[0].value) else Get(m[1..], k)
  {
    if m[0].key != k {
      match IndexOf(m[1..], k)
      case Some(i) =>
        assert m[i + 1] == m[1..][i];
        assert forall j :: 1 <= j < i + 1 ==> m[j] == m[1..][j - 1];
        assert IndexOf(m, k) == Some(i + 1);
      case None =>
        assert forall j :: 1 <= j < |m| ==> m[j] == m[1..][j - 1];
        assert IndexOf(m, k) == None;
    }
  }

  /** In a well-formed map, `unset` takes out exactly the one entry stored
      under `k` and leaves the others in their original order. */
  lemma {:induction false} RemoveSplices<K, V>(m: OMap<K, V>, k: K, i: nat)
    requires UniqueKeys(m)
    requires i < |m| && m[i].key == k
    ensures Remove(m, k) == m[..i] + m[i + 1..]
  {
    var tail := m[1..];
    TailUnique(m);
    if i == 0 {
      assert !HasKey(tail, k) by {
        forall a | 0 <= a < |tail| ensures tail[a].key != k {
          assert tail[a] == m[a + 1];
        }
      }
      RemoveAbsent(tail, k);
    } else {
      assert m[0].key != k;
      assert tail[i - 1] == m[i];
      RemoveSplices(tail, k, i - 1);
      assert m[..i] == [m[0]] + tail[..i - 1];
      assert m[i + 1..] == tail[i..];
    }
  }

  lemma RemoveUnique<K, V>(m: OMap<K, V>, k: K)
    requires UniqueKeys(m)
    ensures UniqueKeys(Remove(m, k))
  {
    if HasKey(m, k) {
      var i :| 0 <= i < |m| && m[i].key == k;
      RemoveSplices(m, k, i);
      SpliceUnique(m, i);
    } else {
      RemoveAbsent(m, k);
    }
  }

  lemma TailUnique<K, V>(m: OMap<K, V>)
    requires UniqueKeys(m) && |m| > 0
    ensures UniqueKeys(m[1..])
  {
    var tail := m[1..];
    forall a, b | 0 <= a < b < |tail| ensures tail[a].key != tail[b].key {
      assert tail[a] == m[a + 1] && tail[b] == m[b + 1];
    }
  }

  /** Taking one entry out of a map without repeated keys leaves none. */
  lemma SpliceUnique<K, V>(m: OMap<K, V>, i: nat)
    requires UniqueKeys(m) && i < |m|
    ensures UniqueKeys(m[..i] + m[i + 1..])
  {
    var r := m[..i] + m[i + 1..];
    assert |r| == |m| - 1;
    forall a | 0 <= a < |r| ensures r[a] == m[if a < i then a else a + 1] {
    }
    forall a, b | 0 <= a < b < |r| ensures r[a].key != r[b].key {
      assert r[a] == m[if a < i then a else a + 1];
      assert r[b] == m[if b < i then b else b + 1];
    }
  }

  // ---------------------------------------------------------------------
  // Put and Remove undo each other.
  // ---------------------------------------------------------------------

  /** Storing the value a key already holds changes nothing. */
  lemma PutSame<K, V>(m: OMap<K, V>, k: K)
    requires HasKey(m, k)
    ensures Put(m, k, Get(m, k).value) == m
  {
    var i := IndexOf(m, k).value;
    assert m[i] == Entry(k, Get(m, k).value);
  }

  /** Removing a key that was just appended gives back the original map. */
  lemma RemoveAppended<K, V>(m: OMap<K, V>, k: K, v: V)
    requires !HasKey(m, k)
    ensures Remove(Put(m, k, v), k) == m
  {
    RemoveAbsent(m, k);
    RemoveLast(m, k, v);
  }

  lemma {:induction false} RemoveLast<K, V>(m: OMap<K, V>, k: K, v: V)
    ensures Remove(m + [Entry(k, v)], k) == Remove(m, k)
  {
    if |m| == 0 {
      assert Remove([Entry(k, v)], k) == Remove([Entry(k, v)][1..], k);
    } else {
      assert (m + [Entry(k, v)])[1..] == m[1..] + [Entry(k, v)];
      RemoveLast(m[1..], k, v);
    }
  }
  /** A second store under the same key overrides the first. */
  lemma PutPut<K, V>(m: OMap<K, V>, k: K, v: V, w: V)
    ensures Put(Put(m, k, v), k, w) == Put(m, k, w)
  {
    var r := Put(m, k, v);
    match IndexOf(m, k)
    case Some(i) =>
      assert forall j :: 0 <= j < |m| ==> r[j].key == m[j].key;
      assert IndexOf(r, k) == Some(i);
    case None =>
      assert forall j :: 0 <= j < |m| ==> r[j] == m[j];
      assert IndexOf(r, k) == Some(|m|);
  }

  /** Looking up in a one-entry map. */
  lemma GetSingleton<K, V>(k: K, v: V, k': K)
    ensures Get([Entry(k, v)], k') == if k' == k then Some(v) else None
  {
    if k' != k {
      assert !HasKey([Entry(k, v)], k');
    }
  }
}
