/**
 * A JavaScript object used as a dictionary (`Record<string, V>`), modelled as its entries in
 * `Object.keys` order. Reading `obj[k]` of an own key, the spread update `{ ...obj, [k]: v }`,
 * `delete obj[k]` on a copy and `Object.keys(obj).find(f => f !== k)` are the operations the
 * file-system handlers use.
 */
module Records {
  import opened Wrappers

  type Record<V> = seq<(string, V)>

  /**
   * The properties every plain object inherits from `Object.prototype`. Reading `obj[k]` for
   * one of these names yields the inherited member (a function or an object, so truthy) when
   * `obj` has no own key `k`.
   */
  const ObjectPrototypeMembers: set<string> := {
    "constructor", "hasOwnProperty", "isPrototypeOf", "propertyIsEnumerable", "toLocaleString",
    "toString", "valueOf", "__proto__", "__defineGetter__", "__defineSetter__",
    "__lookupGetter__", "__lookupSetter__" }

  /** `Object.keys(obj)` */
  function Keys<V(==)>(r: Record<V>): (ks: seq<string>)
    ensures |ks| == |r|
    ensures forall i :: 0 <= i < |r| ==> ks[i] == r[i].0
  {
    if r == [] then [] else [r[0].0] + Keys(r[1..])
  }

  /** A JavaScript object never holds a key twice. */
  predicate UniqueKeys<V(==)>(r: Record<V>) {
    forall i, j :: 0 <= i < j < |r| ==> r[i].0 != r[j].0
  }

  /** `obj[k]` for an own key: present exactly for the keys of `obj`, with that key's value. */
  function Get<V(==)>(r: Record<V>, k: string): (v: Option<V>)
    ensures v.Some? <==> k in Keys(r)
    ensures v.Some? ==> exists i :: 0 <= i < |r| && r[i] == (k, v.value)
  {
    if r == [] then None
    else if r[0].0 == k then Some(r[0].1)
    else
      var v := Get(r[1..], k);
      if v.Some? then
        var i :| 0 <= i < |r[1..]| && r[1..][i] == (k, v.value);
        assert r[i + 1] == (k, v.value);
        v
      else v
  }

  /**
   * `{ ...obj, [k]: v }`: `k` now holds `v` and every other key keeps its value.
   */
  function Put<V(==)>(r: Record<V>, k: string, v: V): (r': Record<V>)
    ensures Get(r', k) == Some(v)
    ensures forall k' :: k' != k ==> Get(r', k') == Get(r, k')
  {
    if r == [] then [(k, v)]
    else if r[0].0 == k then [(k, v)] + r[1..]
    else
      var tail := Put(r[1..], k, v);
      assert ([r[0]] + tail)[1..] == tail;
      [r[0]] + tail
  }

  /** An existing key keeps its place in `Object.keys`; a new key goes last. */
  lemma {:induction false} PutKeys<V>(r: Record<V>, k: string, v: V)
    ensures Keys(Put(r, k, v)) == if k in Keys(r) then Keys(r) else Keys(r) + [k]
    decreases |r|
  {
    if r != [] && r[0].0 != k {
      PutKeys(r[1..], k, v);
      assert Keys(r) == [r[0].0] + Keys(r[1..]);
    }
  }

  lemma {:induction false} PutKeepsKeysUnique<V>(r: Record<V>, k: string, v: V)
    requires UniqueKeys(r)
    ensures UniqueKeys(Put(r, k, v))
  {
    var r' := Put(r, k, v);
    PutKeys(r, k, v);
    var ks, ks' := Keys(r), Keys(r');
    forall i, j | 0 <= i < j < |r'| ensures r'[i].0 != r'[j].0 {
      assert ks'[i] == r'[i].0 && ks'[j] == r'[j].0;
      if j < |r| {
        assert ks'[i] == ks[i] == r[i].0 && ks'[j] == ks[j] == r[j].0;
      } else {
        assert k !in ks && ks'[j] == k && ks'[i] == ks[i];
      }
    }
  }

  /** `delete copy[k]`: `k` is gone, every other key keeps its value, nothing changes when `k` was absent. */
  function Delete<V(==)>(r: Record<V>, k: string): (r': Record<V>)
    ensures Get(r', k) == None
    ensures forall k' :: k' != k ==> Get(r', k') == Get(r, k')
    ensures k !in Keys(r) ==> r' == r
  {
    if r == [] then []
    else
      var tail := Delete(r[1..], k);
      if r[0].0 == k then tail
      else
        assert ([r[0]] + tail)[1..] == tail;
        [r[0]] + tail
  }

  /** With unique keys, deleting a present key removes exactly one entry and keeps the keys unique. */
  lemma {:induction false} DeleteOneEntry<V>(r: Record<V>, k: string)
    requires UniqueKeys(r)
    ensures UniqueKeys(Delete(r, k))
    ensures |Delete(r, k)| == if k in Keys(r) then |r| - 1 else |r|
    ensures forall e :: e in Delete(r, k) ==> e in r
    decreases |r|
  {
    if r != [] {
      DeleteOneEntry(r[1..], k);
      var tail := Delete(r[1..], k);
      if r[0].0 == k {
        assert k !in Keys(r[1..]);
      } else {
        assert Keys(r) == [r[0].0] + Keys(r[1..]);
        forall j | 0 <= j < |tail| ensures tail[j].0 != r[0].0 {
          assert tail[j] in r[1..];
        }
      }
    }
  }

  /** `Object.keys(obj).find(f => f !== k)`: the first key that is not `k`, if any. */
  function FirstKeyOtherThan<V(==)>(r: Record<V>, k: string): (f: Option<string>)
    ensures f.Some? ==> exists i :: 0 <= i < |r| && r[i].0 == f.value && f.value != k
                                  && forall j :: 0 <= j < i ==> r[j].0 == k
    ensures f.None? <==> forall i :: 0 <= i < |r| ==> r[i].0 == k
  {
    if r == [] then None
    else if r[0].0 != k then Some(r[0].0)
    else
      var f := FirstKeyOtherThan(r[1..], k);
      assert forall i :: 1 <= i < |r| ==> r[i] == r[1..][i - 1];
      if f.Some? then
        var i :| 0 <= i < |r[1..]| && r[1..][i].0 == f.value && f.value != k
                 && forall j :: 0 <= j < i ==> r[1..][j].0 == k;
        assert r[i + 1].0 == f.value && forall j :: 0 <= j < i + 1 ==> r[j].0 == k;
        f
      else f
  }
}
