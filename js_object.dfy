/**
 * A plain JavaScript object used as a dictionary (`{}`, `obj[key] = v`, `{ ...obj, [key]: v }`,
 * `Object.entries`): a sequence of (key, value) entries in insertion order with no key twice.
 * Own keys that look like array indices are ordered first by JavaScript; the modelled code
 * only uses names such as regions, categories and field names, so insertion order is kept.
 */
module JsObject {
  import opened Wrappers

  type Entries<V> = seq<(string, V)>

  /** `Object.keys(o)` */
  function Keys<V>(o: Entries<V>): (ks: seq<string>)
    ensures |ks| == |o| && forall i :: 0 <= i < |o| ==> ks[i] == o[i].0
  {
    if o == [] then [] else [o[0].0] + Keys(o[1..])
  }

  /** No key occurs twice. */
  predicate Valid<V>(o: Entries<V>) {
    forall i, j :: 0 <= i < j < |o| ==> o[i].0 != o[j].0
  }

  predicate HasKey<V>(o: Entries<V>, k: string) {
    k in Keys(o)
  }

  /** `o[k]`, which is `undefined` for a missing key. */
  function Get<V>(o: Entries<V>, k: string): Option<V> {
    if o == [] then None
    else if o[0].0 == k then Some(o[0].1)
    else Get(o[1..], k)
  }

  /** Reading past a first entry with another key. */
  lemma GetCons<V>(o: Entries<V>, k: string)
    requires o != [] && o[0].0 != k
    ensures Get(o, k) == Get(o[1..], k)
  {
  }

  /** `o[k]` is `undefined` exactly for a missing key. */
  lemma {:induction false} GetNone<V>(o: Entries<V>, k: string)
    ensures Get(o, k).None? <==> !HasKey(o, k)
  {
    if o != [] {
      assert Keys(o) == [o[0].0] + Keys(o[1..]);
      if o[0].0 != k {
        GetNone(o[1..], k);
      }
    }
  }

  /** What `Get` finds is an entry of the object. */
  lemma {:induction false} GetFound<V>(o: Entries<V>, k: string)
    requires HasKey(o, k)
    ensures Get(o, k).Some? && exists i :: 0 <= i < |o| && o[i] == (k, Get(o, k).value)
  {
    GetNone(o, k);
    if o[0].0 != k {
      assert Keys(o) == [o[0].0] + Keys(o[1..]);
      GetFound(o[1..], k);
      var i :| 0 <= i < |o[1..]| && o[1..][i] == (k, Get(o[1..], k).value);
      assert o[i + 1] == o[1..][i];
    }
  }

  /** In a valid object the entry at index i is what `Get` finds for its key. */
  lemma {:induction false} GetAt<V>(o: Entries<V>, i: int)
    requires Valid(o) && 0 <= i < |o|
    ensures Get(o, o[i].0) == Some(o[i].1)
  {
    if i > 0 {
      GetAt(o[1..], i - 1);
    }
  }

  /** `o[k] = v` (or `{ ...o, [k]: v }`): an existing key keeps its place, a new one goes last. */
  function Set<V>(o: Entries<V>, k: string, v: V): Entries<V> {
    if o == [] then [(k, v)]
    else if o[0].0 == k then [(k, v)] + o[1..]
    else [o[0]] + Set(o[1..], k, v)
  }

  /** An existing key keeps its place, a new one goes last, and every other entry stays where it was. */
  lemma {:induction false} SetKeys<V>(o: Entries<V>, k: string, v: V)
    ensures HasKey(o, k) ==> Keys(Set(o, k, v)) == Keys(o)
    ensures !HasKey(o, k) ==> Keys(Set(o, k, v)) == Keys(o) + [k]
    ensures |Set(o, k, v)| >= |o|
    ensures forall i :: 0 <= i < |o| && o[i].0 != k ==> Set(o, k, v)[i] == o[i]
  {
    if o != [] {
      assert Keys(o) == [o[0].0] + Keys(o[1..]);
      if o[0].0 != k {
        SetKeys(o[1..], k, v);
        assert Keys(Set(o, k, v)) == [o[0].0] + Keys(Set(o[1..], k, v));
      }
    }
  }

  /** Setting past a first entry with another key. */
  lemma SetCons<V>(o: Entries<V>, k: string, v: V)
    requires o != [] && o[0].0 != k
    ensures Set(o, k, v) == [o[0]] + Set(o[1..], k, v)
  {
  }

  /** Setting the key of the first entry replaces that entry. */
  lemma SetHead<V>(o: Entries<V>, k: string, v: V)
    requires o != [] && o[0].0 == k
    ensures Set(o, k, v) == [(k, v)] + o[1..]
  {
  }

  lemma SetValid<V>(o: Entries<V>, k: string, v: V)
    requires Valid(o)
    ensures Valid(Set(o, k, v))
  {
    var r := Set(o, k, v);
    SetKeys(o, k, v);
    assert forall i :: 0 <= i < |r| ==> r[i].0 == Keys(r)[i];
    assert forall i :: 0 <= i < |o| ==> o[i].0 == Keys(o)[i];
  }

  /** Reading back: the key just set has the new value, every other key is untouched. */
  lemma {:induction false} GetSet<V>(o: Entries<V>, k: string, v: V, k': string)
    ensures Get(Set(o, k, v), k') == if k' == k then Some(v) else Get(o, k')
  {
    if o != [] && o[0].0 != k {
      GetSet(o[1..], k, v, k');
    }
  }

  /** `Set` on a valid object: still valid, not empty, and only the key set changes value. */
  lemma SetFacts<V>(o: Entries<V>, k: string, v: V)
    requires Valid(o)
    ensures Valid(Set(o, k, v)) && |Set(o, k, v)| > 0
    ensures Get(Set(o, k, v), k) == Some(v)
    ensures forall k' :: k' != k ==> Get(Set(o, k, v), k') == Get(o, k')
  {
    SetValid(o, k, v);
    GetSet(o, k, v, k);
    forall k' | k' != k
      ensures Get(Set(o, k, v), k') == Get(o, k')
    {
      GetSet(o, k, v, k');
    }
  }

  /** `{ ...o, [k1]: v1, [k2]: v2 }` for two different keys. */
  lemma SetPair<V>(o: Entries<V>, k1: string, v1: V, k2: string, v2: V)
    requires k1 != k2
    ensures Get(Set(Set(o, k1, v1), k2, v2), k1) == Some(v1)
    ensures Get(Set(Set(o, k1, v1), k2, v2), k2) == Some(v2)
    ensures forall k :: k != k1 && k != k2 ==> Get(Set(Set(o, k1, v1), k2, v2), k) == Get(o, k)
    ensures Valid(o) ==> Valid(Set(Set(o, k1, v1), k2, v2))
  {
    var o1 := Set(o, k1, v1);
    GetSet(o1, k2, v2, k1);
    GetSet(o, k1, v1, k1);
    GetSet(o1, k2, v2, k2);
    forall k | k != k1 && k != k2
      ensures Get(Set(o1, k2, v2), k) == Get(o, k)
    {
      GetSet(o1, k2, v2, k);
      GetSet(o, k1, v1, k);
    }
    if Valid(o) {
      SetValid(o, k1, v1);
      SetValid(o1, k2, v2);
    }
  }

  /** The set of keys, for statements that do not care about order. */
  function KeySet<V>(o: Entries<V>): set<string> {
    set i | 0 <= i < |o| :: o[i].0
  }

  lemma KeySetIsKeys<V>(o: Entries<V>, k: string)
    ensures k in KeySet(o) <==> HasKey(o, k)
  {
    if HasKey(o, k) {
      var i :| 0 <= i < |o| && Keys(o)[i] == k;
      assert o[i].0 == k;
    }
  }
}
