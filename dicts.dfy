/**
 * Python's `dict` with string keys: a map for lookup plus the insertion order
 * that iteration (`.keys()`, `.values()`, `min(...)`) follows.
 */
module Dicts {

  datatype Dict<V> = Dict(keys: seq<string>, items: map<string, V>)

  /** Every key listed once, and the listed keys are exactly the stored ones. */
  ghost predicate Valid<V>(d: Dict<V>) {
    && (forall i, j :: 0 <= i < j < |d.keys| ==> d.keys[i] != d.keys[j])
    && (forall k :: k in d.items <==> k in d.keys)
  }

  function Empty<V>(): (d: Dict<V>)
    ensures Valid(d) && d.items == map[] && |d.keys| == 0
  {
    Dict([], map[])
  }

  /** `d[k] = v`: a new key goes to the end, an existing key keeps its place. */
  function Set<V>(d: Dict<V>, k: string, v: V): (r: Dict<V>)
    requires Valid(d)
    ensures Valid(r)
    ensures r.items == d.items[k := v]
    ensures k in d.items ==> r.keys == d.keys
    ensures k !in d.items ==> r.keys == d.keys + [k]
  {
    if k in d.items then Dict(d.keys, d.items[k := v]) else Dict(d.keys + [k], d.items[k := v])
  }

  /** `del d[d.keys[i]]`: the key at position `i` leaves; the others keep their order. */
  function RemoveAt<V>(d: Dict<V>, i: nat): (r: Dict<V>)
    requires Valid(d) && i < |d.keys|
    ensures Valid(r)
    ensures r.items == d.items - {d.keys[i]}
    ensures r.keys == d.keys[..i] + d.keys[i + 1..]
    ensures |r.keys| == |d.keys| - 1
  {
    var r := Dict(d.keys[..i] + d.keys[i + 1..], d.items - {d.keys[i]});
    assert forall k :: k in r.keys <==> k in d.keys && k != d.keys[i] by {
      forall k ensures k in r.keys <==> k in d.keys && k != d.keys[i] {
        if k in d.keys && k != d.keys[i] {
          var j :| 0 <= j < |d.keys| && d.keys[j] == k;
          if j < i { assert r.keys[j] == k; } else { assert r.keys[j - 1] == k; }
        }
      }
    }
    r
  }

  /** Position of a stored key. */
  function IndexOf<V>(d: Dict<V>, k: string): (i: nat)
    requires Valid(d) && k in d.items
    ensures i < |d.keys| && d.keys[i] == k
  {
    IndexIn(d.keys, k)
  }

  function IndexIn(s: seq<string>, k: string): (i: nat)
    requires k in s
    ensures i < |s| && s[i] == k
    ensures forall j :: 0 <= j < i ==> s[j] != k
  {
    if s[0] == k then 0 else 1 + IndexIn(s[1..], k)
  }

  /** `del d[k]` for a stored key. */
  function Remove<V>(d: Dict<V>, k: string): (r: Dict<V>)
    requires Valid(d) && k in d.items
    ensures Valid(r)
    ensures r.items == d.items - {k}
    ensures |r.keys| == |d.keys| - 1
  {
    RemoveAt(d, IndexOf(d, k))
  }

  /** `list(d.values())`, in iteration order. */
  function Values<V>(d: Dict<V>): (vs: seq<V>)
    requires Valid(d)
    ensures |vs| == |d.keys|
    ensures forall i :: 0 <= i < |d.keys| ==> vs[i] == d.items[d.keys[i]]
  {
    seq(|d.keys|, i requires 0 <= i < |d.keys| && d.keys[i] in d.items => d.items[d.keys[i]])
  }

  /** `len(d)` counts the listed keys. */
  lemma {:induction false} LenIsSize<V>(d: Dict<V>)
    requires Valid(d)
    ensures |d.items| == |d.keys|
    decreases |d.keys|
  {
    if d.keys == [] {
      assert d.items.Keys == {};
    } else {
      var last := |d.keys| - 1;
      var smaller := RemoveAt(d, last);
      LenIsSize(smaller);
      assert d.items.Keys == smaller.items.Keys + {d.keys[last]};
    }
  }
}
