/**
 * A JavaScript object with string keys, as an ordered list of entries.
 * The order is the insertion order that `Object.entries` reports, and
 * `{ ...prev, [key]: value }` replaces an existing entry in place or
 * appends a new one at the end.
 */
module Records {
  import opened Wrappers

  type Record<V> = seq<(string, V)>

  /** The keys in order, as `Object.keys` lists them. */
  function Keys<V>(r: Record<V>): (ks: seq<string>)
    ensures |ks| == |r|
    ensures forall i :: 0 <= i < |r| ==> ks[i] == r[i].0
  {
    if r == [] then [] else [r[0].0] + Keys(r[1..])
  }

  /** No key occurs twice, as in every JavaScript object. */
  predicate DistinctKeys<V>(r: Record<V>) {
    forall i, j :: 0 <= i < j < |r| ==> r[i].0 != r[j].0
  }

  /** Property lookup `r[key]`; `None` is `undefined`. */
  function Get<V>(r: Record<V>, key: string): (v: Option<V>)
    ensures v.Some? <==> key in Keys(r)
  {
    if r == [] then None
    else if r[0].0 == key then Some(r[0].1)
    else Get(r[1..], key)
  }

  /** In an object, the i-th entry's key looks up the i-th entry's value. */
  lemma {:induction false} GetAt<V>(r: Record<V>, i: nat)
    requires DistinctKeys(r) && i < |r|
    ensures Get(r, r[i].0) == Some(r[i].1)
  {
    if i > 0 {
      assert r[0].0 != r[i].0;
      assert r[1..][i - 1] == r[i];
      assert DistinctKeys(r[1..]) by {
        forall a, b | 0 <= a < b < |r| - 1 ensures r[1..][a].0 != r[1..][b].0 {
          assert r[1..][a] == r[a + 1] && r[1..][b] == r[b + 1];
        }
      }
      GetAt(r[1..], i - 1);
    }
  }

  /** `{ ...r, [key]: value }`. */
  function Set<V>(r: Record<V>, key: string, value: V): (r': Record<V>)
  {
    if r == [] then [(key, value)]
    else if r[0].0 == key then [(key, value)] + r[1..]
    else [r[0]] + Set(r[1..], key, value)
  }

  lemma {:induction false} GetSetSame<V>(r: Record<V>, key: string, value: V)
    ensures Get(Set(r, key, value), key) == Some(value)
  {
    if r != [] && r[0].0 != key {
      GetSetSame(r[1..], key, value);
      assert Set(r, key, value)[1..] == Set(r[1..], key, value);
    }
  }

  lemma {:induction false} GetSetOther<V>(r: Record<V>, key: string, value: V, other: string)
    requires other != key
    ensures Get(Set(r, key, value), other) == Get(r, other)
  {
    if r == [] {
    } else if r[0].0 == key {
      assert Set(r, key, value)[1..] == r[1..];
    } else {
      GetSetOther(r[1..], key, value, other);
      assert Set(r, key, value)[1..] == Set(r[1..], key, value);
    }
  }

  /** An existing key keeps its position; a new key is appended. */
  lemma {:induction false} KeysSet<V>(r: Record<V>, key: string, value: V)
    ensures key in Keys(r) ==> Keys(Set(r, key, value)) == Keys(r)
    ensures key !in Keys(r) ==> Keys(Set(r, key, value)) == Keys(r) + [key]
  {
    if r == [] {
    } else if r[0].0 == key {
      assert Keys(Set(r, key, value)) == [key] + Keys(r[1..]);
    } else {
      KeysSet(r[1..], key, value);
      assert Keys(Set(r, key, value)) == [r[0].0] + Keys(Set(r[1..], key, value));
      assert Keys(r) == [r[0].0] + Keys(r[1..]);
    }
  }

  lemma SetKeepsDistinctKeys<V>(r: Record<V>, key: string, value: V)
    requires DistinctKeys(r)
    ensures DistinctKeys(Set(r, key, value))
  {
    KeysSet(r, key, value);
    var r' := Set(r, key, value);
    forall i, j | 0 <= i < j < |r'| ensures r'[i].0 != r'[j].0 {
      assert Keys(r')[i] == r'[i].0 && Keys(r')[j] == r'[j].0;
      if key !in Keys(r) && j == |r| {
        assert Keys(r')[i] == Keys(r)[i];
      } else {
        assert Keys(r')[i] == Keys(r)[i] && Keys(r')[j] == Keys(r)[j];
      }
    }
  }
}
