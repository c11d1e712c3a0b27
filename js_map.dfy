/**
 * A JavaScript `Map` with string keys, as a value: its entries and the order in which their
 * keys were first inserted. The job manager's `jobs` map and the adapter registry both rely
 * on that order (`[...map.values()]`, `[...map.keys()]`).
 */
module JsMap {
  import opened Wrappers

  datatype OMap<V> = OMap(keys: seq<string>, entries: map<string, V>)

  ghost predicate Distinct(s: seq<string>)
  {
    forall i, j :: 0 <= i < j < |s| ==> s[i] != s[j]
  }

  /** The key order lists each key of the map exactly once. */
  ghost predicate Valid<V>(m: OMap<V>)
  {
    Distinct(m.keys) && forall k :: k in m.entries <==> k in m.keys
  }

  function Empty<V>(): (r: OMap<V>)
    ensures Valid(r) && r.keys == [] && r.entries == map[]
  {
    OMap([], map[])
  }

  /** `m.get(k)`; None is `undefined`. */
  function Get<V>(m: OMap<V>, k: string): (r: Option<V>)
    ensures r.Some? <==> k in m.entries
    ensures r.Some? ==> r.value == m.entries[k]
  {
    if k in m.entries then Some(m.entries[k]) else None
  }

  /** `m.set(k, v)`: a new key goes last, a key already present keeps its place. */
  function Set<V>(m: OMap<V>, k: string, v: V): (r: OMap<V>)
    ensures Valid(m) ==> Valid(r)
    ensures Get(r, k) == Some(v)
    ensures forall k' :: k' != k ==> Get(r, k') == Get(m, k')
    ensures r.keys == if k in m.entries then m.keys else m.keys + [k]
  {
    OMap(if k in m.entries then m.keys else m.keys + [k], m.entries[k := v])
  }

  /** `s` without the occurrences of `k`, the rest in order. */
  function Without(s: seq<string>, k: string): (r: seq<string>)
    ensures forall x :: x in r <==> x in s && x != k
    ensures |r| <= |s|
  {
    if s == [] then [] else (if s[0] == k then [] else [s[0]]) + Without(s[1..], k)
  }

  lemma {:induction false} WithoutDistinct(s: seq<string>, k: string)
    ensures Distinct(s) ==> Distinct(Without(s, k))
  {
    if s != [] && Distinct(s) {
      WithoutDistinct(s[1..], k);
      assert forall j :: 0 <= j < |s[1..]| ==> s[1..][j] == s[j + 1];
      var rest := Without(s[1..], k);
      var r := Without(s, k);
      assert r == (if s[0] == k then [] else [s[0]]) + rest;
      forall i, j | 0 <= i < j < |r| ensures r[i] != r[j] {
        if s[0] != k && i == 0 {
          assert r[j] == rest[j - 1] && rest[j - 1] in rest;
        }
      }
    }
  }

  /** `m.delete(k)`: the key leaves both the entries and the order; the other keys keep theirs. */
  function Delete<V>(m: OMap<V>, k: string): (r: OMap<V>)
    ensures Valid(m) ==> Valid(r)
    ensures Get(r, k) == None
    ensures forall k' :: k' != k ==> Get(r, k') == Get(m, k')
    ensures r.keys == Without(m.keys, k)
  {
    WithoutDistinct(m.keys, k);
    OMap(Without(m.keys, k), m.entries - {k})
  }

  function ValuesOf<V>(keys: seq<string>, entries: map<string, V>): (r: seq<V>)
    ensures (forall k :: k in keys ==> k in entries) ==>
      |r| == |keys| && forall i :: 0 <= i < |keys| ==> r[i] == entries[keys[i]]
  {
    if keys == [] then []
    else (if keys[0] in entries then [entries[keys[0]]] else []) + ValuesOf(keys[1..], entries)
  }

  /** `[...m.values()]`: one value per key, in key order. */
  function Values<V>(m: OMap<V>): (r: seq<V>)
    ensures Valid(m) ==> |r| == |m.keys| && forall i :: 0 <= i < |m.keys| ==> r[i] == m.entries[m.keys[i]]
  {
    ValuesOf(m.keys, m.entries)
  }
}
