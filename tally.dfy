/**
 * Totals per key in a plain object, as the report pages build them: every (key, amount) pair
 * adds its amount to `obj[key] || 0`, a key seen for the first time is appended, and
 * `Object.entries` then lists the keys in the order they first appeared.
 */
module Tally {
  import opened Wrappers
  import JsObject

  type Pairs = seq<(string, int)>

  /**
   * `obj[k] = (obj[k] || 0) + n`: the entry of k grows by n in place, or a new entry (k, n) is
   * appended. A stored 0 and a missing key both count as 0.
   */
  function AddTo(o: JsObject.Entries<int>, k: string, n: int): JsObject.Entries<int> {
    if o == [] then [(k, n)]
    else if o[0].0 == k then [(k, o[0].1 + n)] + o[1..]
    else [o[0]] + AddTo(o[1..], k, n)
  }

  lemma AddToCons(o: JsObject.Entries<int>, k: string, n: int)
    requires o != [] && o[0].0 != k
    ensures AddTo(o, k, n) == [o[0]] + AddTo(o[1..], k, n)
  {
  }

  /** An existing key keeps its place; a new key is appended. */
  lemma {:induction false} AddToKeys(o: JsObject.Entries<int>, k: string, n: int)
    ensures JsObject.HasKey(o, k) ==> JsObject.Keys(AddTo(o, k, n)) == JsObject.Keys(o)
    ensures !JsObject.HasKey(o, k) ==> JsObject.Keys(AddTo(o, k, n)) == JsObject.Keys(o) + [k]
  {
    if o != [] && o[0].0 != k {
      assert JsObject.Keys(o) == [o[0].0] + JsObject.Keys(o[1..]);
      AddToKeys(o[1..], k, n);
      assert JsObject.Keys(AddTo(o, k, n)) == [o[0].0] + JsObject.Keys(AddTo(o[1..], k, n));
    }
  }

  lemma {:induction false} AddToGet(o: JsObject.Entries<int>, k: string, n: int, k': string)
    ensures JsObject.Get(AddTo(o, k, n), k') == if k' == k then Some(JsObject.Get(o, k).GetOr(0) + n) else JsObject.Get(o, k')
  {
    var r := AddTo(o, k, n);
    if o == [] {
      assert r == [(k, n)] && r[1..] == [];
    } else if o[0].0 == k {
      assert r[0] == (k, o[0].1 + n) && r[1..] == o[1..];
    } else {
      AddToGet(o[1..], k, n, k');
      assert r[0] == o[0] && r[1..] == AddTo(o[1..], k, n);
    }
  }

  /** The same update written as the report page writes it: read `obj[k] || 0`, then spread. */
  lemma {:induction false} AddToIsSet(o: JsObject.Entries<int>, k: string, n: int)
    ensures AddTo(o, k, n) == JsObject.Set(o, k, JsObject.Get(o, k).GetOr(0) + n)
  {
    if o == [] {
      assert JsObject.Get(o, k) == None;
    } else if o[0].0 == k {
      var v := o[0].1 + n;
      assert JsObject.Get(o, k) == Some(o[0].1);
      assert AddTo(o, k, n) == [(k, v)] + o[1..];
      JsObject.SetHead(o, k, v);
    } else {
      JsObject.GetCons(o, k);
      AddToIsSet(o[1..], k, n);
      AddToCons(o, k, n);
      JsObject.SetCons(o, k, JsObject.Get(o, k).GetOr(0) + n);
    }
  }

  lemma {:induction false} AddToSum(o: JsObject.Entries<int>, k: string, n: int)
    ensures SumValues(AddTo(o, k, n)) == SumValues(o) + n
  {
    if o != [] && o[0].0 != k {
      AddToSum(o[1..], k, n);
      assert AddTo(o, k, n)[1..] == AddTo(o[1..], k, n);
    }
  }

  lemma AddToValid(o: JsObject.Entries<int>, k: string, n: int)
    requires JsObject.Valid(o)
    ensures JsObject.Valid(AddTo(o, k, n))
  {
    var r := AddTo(o, k, n);
    AddToKeys(o, k, n);
    assert forall i :: 0 <= i < |r| ==> r[i].0 == JsObject.Keys(r)[i];
    assert forall i :: 0 <= i < |o| ==> o[i].0 == JsObject.Keys(o)[i];
  }

  /** The object after adding every pair in order, starting from `{}`. */
  function Totals(ps: Pairs): JsObject.Entries<int>
    decreases |ps|
  {
    if ps == [] then [] else AddTo(Totals(ps[..|ps| - 1]), ps[|ps| - 1].0, ps[|ps| - 1].1)
  }

  /** One more pair is one more `AddTo`. */
  lemma TotalsLast(ps: Pairs, last: (string, int))
    ensures Totals(ps + [last]) == AddTo(Totals(ps), last.0, last.1)
  {
    assert (ps + [last])[..|ps|] == ps;
  }

  /** The keys of the pairs, repeats included. */
  function PairKeys(ps: Pairs): (ks: seq<string>)
    ensures |ks| == |ps| && forall i :: 0 <= i < |ps| ==> ks[i] == ps[i].0
  {
    seq(|ps|, i requires 0 <= i < |ps| => ps[i].0)
  }

  /** The sum of the amounts paired with key k. */
  function SumFor(ps: Pairs, k: string): int
    decreases |ps|
  {
    if ps == [] then 0 else SumFor(ps[..|ps| - 1], k) + (if ps[|ps| - 1].0 == k then ps[|ps| - 1].1 else 0)
  }

  /** The sum of all amounts. */
  function SumAll(ps: Pairs): int
    decreases |ps|
  {
    if ps == [] then 0 else SumAll(ps[..|ps| - 1]) + ps[|ps| - 1].1
  }

  /** The sum of the values of an object. */
  function SumValues(o: JsObject.Entries<int>): int {
    if o == [] then 0 else o[0].1 + SumValues(o[1..])
  }

  /** The distinct elements of s in the order of their first occurrence. */
  function Distinct(s: seq<string>): (d: seq<string>)
    ensures forall x :: x in d <==> x in s
    decreases |s|
  {
    if s == [] then []
    else
      var d := Distinct(s[..|s| - 1]);
      assert forall x :: x in s <==> x in s[..|s| - 1] || x == s[|s| - 1] by {
        assert s == s[..|s| - 1] + [s[|s| - 1]];
      }
      if s[|s| - 1] in d then d else d + [s[|s| - 1]]
  }

  lemma DistinctLast(s: seq<string>)
    requires s != []
    ensures Distinct(s) == if s[|s| - 1] in Distinct(s[..|s| - 1]) then Distinct(s[..|s| - 1])
      else Distinct(s[..|s| - 1]) + [s[|s| - 1]]
  {
  }

  /** A sequence without repeats is its own `Distinct`. */
  lemma {:induction false} DistinctOfDistinct(t: seq<string>)
    requires forall i, j :: 0 <= i < j < |t| ==> t[i] != t[j]
    ensures Distinct(t) == t
    decreases |t|
  {
    if t != [] {
      var prefix := t[..|t| - 1];
      DistinctOfDistinct(prefix);
      DistinctLast(t);
      assert t == prefix + [t[|t| - 1]];
    }
  }

  /** Elements seen before add nothing to `Distinct`. */
  lemma {:induction false} DistinctAbsorb(s: seq<string>, e: seq<string>)
    requires forall i :: 0 <= i < |e| ==> e[i] in s
    ensures Distinct(s + e) == Distinct(s)
    decreases |e|
  {
    if e != [] {
      var t := s + e;
      var prefix := e[..|e| - 1];
      assert t[..|t| - 1] == s + prefix;
      DistinctAbsorb(s, prefix);
      DistinctLast(t);
      assert t[|t| - 1] == e[|e| - 1];
      assert e[|e| - 1] in s + prefix;
      assert e[|e| - 1] in Distinct(s + prefix);
    } else {
      assert s + e == s;
    }
  }

  lemma PairKeysPrefix(ps: Pairs)
    requires ps != []
    ensures PairKeys(ps) == PairKeys(ps[..|ps| - 1]) + [ps[|ps| - 1].0]
  {
  }

  lemma {:induction false} SumForAbsent(ps: Pairs, k: string)
    requires k !in PairKeys(ps)
    ensures SumFor(ps, k) == 0
    decreases |ps|
  {
    if ps != [] {
      PairKeysPrefix(ps);
      SumForAbsent(ps[..|ps| - 1], k);
    }
  }

  /** One more pair keeps the reading of every key right. */
  lemma TallyStep(before: JsObject.Entries<int>, prefix: Pairs, last: (string, int), k: string)
    requires JsObject.Get(before, k) == if k in PairKeys(prefix) then Some(SumFor(prefix, k)) else None
    ensures JsObject.Get(AddTo(before, last.0, last.1), k) ==
      if k in PairKeys(prefix + [last]) then Some(SumFor(prefix + [last], k)) else None
  {
    var ps := prefix + [last];
    assert ps[..|ps| - 1] == prefix;
    PairKeysPrefix(ps);
    AddToGet(before, last.0, last.1, k);
    if k == last.0 && k !in PairKeys(prefix) {
      SumForAbsent(prefix, k);
    }
  }

  /** Reading a key of the totals gives the sum of its amounts; keys never paired are absent. */
  lemma {:induction false} TotalsGet(ps: Pairs, k: string)
    ensures JsObject.Get(Totals(ps), k) == if k in PairKeys(ps) then Some(SumFor(ps, k)) else None
    decreases |ps|
  {
    if ps != [] {
      var prefix := ps[..|ps| - 1];
      assert ps == prefix + [ps[|ps| - 1]];
      TotalsGet(prefix, k);
      TallyStep(Totals(prefix), prefix, ps[|ps| - 1], k);
    }
  }

  /** No key appears twice, and the keys come in the order of their first pair. */
  lemma {:induction false} TotalsKeys(ps: Pairs)
    ensures JsObject.Valid(Totals(ps))
    ensures JsObject.Keys(Totals(ps)) == Distinct(PairKeys(ps))
    decreases |ps|
  {
    if ps != [] {
      var prefix := ps[..|ps| - 1];
      var (key, n) := ps[|ps| - 1];
      PairKeysPrefix(ps);
      TotalsKeys(prefix);
      AddToValid(Totals(prefix), key, n);
      AddToKeys(Totals(prefix), key, n);
    }
  }

  /** Nothing is lost or counted twice: the values add up to the sum of all amounts. */
  lemma {:induction false} TotalsSum(ps: Pairs)
    ensures SumValues(Totals(ps)) == SumAll(ps)
    decreases |ps|
  {
    if ps != [] {
      var prefix := ps[..|ps| - 1];
      var last := ps[|ps| - 1];
      TotalsSum(prefix);
      AddToSum(Totals(prefix), last.0, last.1);
    }
  }
}
