/**
 * `mergeGenericObjects(obj1, obj2)` of the generics exercise, `{ ...obj1, ...obj2 }`: a fresh
 * object holding obj1's entries overwritten and extended by obj2's, in spread order.
 */
module GenericMerge {
  import opened Wrappers
  import JsObject
  import JsValue

  type Obj = JsObject.Entries<JsValue.Value>

  /** Spreading entries into an object: each entry is assigned in turn. */
  function Spread(acc: Obj, entries: Obj): Obj
    decreases |entries|
  {
    if entries == [] then acc else Spread(JsObject.Set(acc, entries[0].0, entries[0].1), entries[1..])
  }

  /** `{ ...obj1, ...obj2 }` */
  function MergeGenericObjects(obj1: Obj, obj2: Obj): Obj {
    Spread(Spread([], obj1), obj2)
  }

  lemma FirstKeyNotInRest(es: Obj)
    requires es != [] && JsObject.Valid(es)
    ensures !JsObject.HasKey(es[1..], es[0].0)
    ensures JsObject.Valid(es[1..])
  {
    assert forall i :: 0 <= i < |es[1..]| ==> es[1..][i] == es[i + 1];
  }

  /** A spread key reads as the entry's value; every other key as before. */
  lemma {:induction false} SpreadGet(acc: Obj, es: Obj, k: string)
    requires JsObject.Valid(es)
    ensures JsObject.Get(Spread(acc, es), k) == if JsObject.HasKey(es, k) then JsObject.Get(es, k) else JsObject.Get(acc, k)
    decreases |es|
  {
    if es != [] {
      var next := JsObject.Set(acc, es[0].0, es[0].1);
      FirstKeyNotInRest(es);
      SpreadGet(next, es[1..], k);
      JsObject.GetSet(acc, es[0].0, es[0].1, k);
      assert JsObject.Keys(es) == [es[0].0] + JsObject.Keys(es[1..]);
    }
  }

  /** Spreading keeps an object valid and never moves a key that was already there. */
  lemma {:induction false} SpreadKeepsOrder(acc: Obj, es: Obj)
    requires JsObject.Valid(acc)
    ensures JsObject.Valid(Spread(acc, es))
    ensures |Spread(acc, es)| >= |acc| && JsObject.Keys(Spread(acc, es))[..|acc|] == JsObject.Keys(acc)
    decreases |es|
  {
    if es != [] {
      var next := JsObject.Set(acc, es[0].0, es[0].1);
      JsObject.SetValid(acc, es[0].0, es[0].1);
      JsObject.SetKeys(acc, es[0].0, es[0].1);
      SpreadKeepsOrder(next, es[1..]);
      assert JsObject.Keys(next)[..|acc|] == JsObject.Keys(acc);
    }
  }

  /** On a shared key the second object wins; a key of only the first keeps its value; no other key appears. */
  lemma MergeGet(obj1: Obj, obj2: Obj, k: string)
    requires JsObject.Valid(obj1) && JsObject.Valid(obj2)
    ensures JsObject.Get(MergeGenericObjects(obj1, obj2), k) ==
      if JsObject.HasKey(obj2, k) then JsObject.Get(obj2, k) else JsObject.Get(obj1, k)
  {
    SpreadGet([], obj1, k);
    SpreadGet(Spread([], obj1), obj2, k);
    JsObject.GetNone(obj1, k);
  }

  /** The merged keys are the union of both key sets, with no key twice. */
  lemma MergeKeys(obj1: Obj, obj2: Obj, k: string)
    requires JsObject.Valid(obj1) && JsObject.Valid(obj2)
    ensures JsObject.Valid(MergeGenericObjects(obj1, obj2))
    ensures JsObject.HasKey(MergeGenericObjects(obj1, obj2), k) <==> JsObject.HasKey(obj1, k) || JsObject.HasKey(obj2, k)
  {
    MergeGet(obj1, obj2, k);
    JsObject.GetNone(MergeGenericObjects(obj1, obj2), k);
    JsObject.GetNone(obj1, k);
    JsObject.GetNone(obj2, k);
    SpreadKeepsOrder([], obj1);
    SpreadKeepsOrder(Spread([], obj1), obj2);
  }

  /** The first object's keys come first, in their own order. */
  lemma MergeOrder(obj1: Obj, obj2: Obj)
    requires JsObject.Valid(obj1)
    ensures |MergeGenericObjects(obj1, obj2)| >= |obj1|
    ensures JsObject.Keys(MergeGenericObjects(obj1, obj2))[..|obj1|] == JsObject.Keys(obj1)
  {
    SpreadIntoEmpty(obj1);
    SpreadKeepsOrder(Spread([], obj1), obj2);
  }

  /** Spreading a valid object into `{}` copies it. */
  lemma {:induction false} SpreadIntoEmpty(o: Obj)
    requires JsObject.Valid(o)
    ensures Spread([], o) == o
  {
    SpreadAppends([], o);
    assert [] + o == o;
  }

  /** Spreading entries whose keys are all new appends them. */
  lemma {:induction false} SpreadAppends(acc: Obj, es: Obj)
    requires JsObject.Valid(acc + es)
    ensures Spread(acc, es) == acc + es
    decreases |es|
  {
    if es != [] {
      var e := es[0];
      assert (acc + es)[|acc|] == e;
      assert !JsObject.HasKey(acc, e.0) by {
        forall i | 0 <= i < |acc|
          ensures acc[i].0 != e.0
        {
          assert (acc + es)[i] == acc[i];
        }
      }
      SetAppends(acc, e.0, e.1);
      assert acc + [e] + es[1..] == acc + es;
      SpreadAppends(acc + [e], es[1..]);
    }
  }

  /** Setting a missing key appends its entry. */
  lemma {:induction false} SetAppends(o: Obj, k: string, v: JsValue.Value)
    requires !JsObject.HasKey(o, k)
    ensures JsObject.Set(o, k, v) == o + [(k, v)]
  {
    if o != [] {
      assert JsObject.Keys(o) == [o[0].0] + JsObject.Keys(o[1..]);
      assert o[0].0 != k && !JsObject.HasKey(o[1..], k);
      SetAppends(o[1..], k, v);
      assert JsObject.Set(o, k, v) == [o[0]] + JsObject.Set(o[1..], k, v);
      assert [o[0]] + (o[1..] + [(k, v)]) == o + [(k, v)];
    }
  }

  const Company1: Obj := [("name", JsValue.Str("TechCorp")), ("employees", JsValue.Num(150)), ("location", JsValue.Str("New York"))]
  const Company2: Obj := [("name", JsValue.Str("HealthSolutions")), ("revenue", JsValue.Num(5000000)), ("industry", JsValue.Str("Healthcare"))]

  /** The second company's name wins. */
  lemma MergedName(company1: Obj, company2: Obj, name: string)
    requires company1 == Company1 && company2 == Company2 && name == "name"
    ensures JsObject.Get(MergeGenericObjects(company1, company2), name) == Some(JsValue.Str("HealthSolutions"))
  {
    CompaniesValid(company1, company2);
    MergeGet(company1, company2, name);
    assert JsObject.Keys(company2)[0] == name;
  }

  lemma CompaniesValid(company1: Obj, company2: Obj)
    requires company1 == Company1 && company2 == Company2
    ensures JsObject.Valid(company1) && JsObject.Valid(company2)
  {
  }

  lemma NoStaffInCompany2(company2: Obj, employees: string)
    requires company2 == Company2 && employees == "employees"
    ensures !JsObject.HasKey(company2, employees)
  {
    assert JsObject.Keys(company2) == ["name", "revenue", "industry"];
  }

  lemma StaffOfCompany1(company1: Obj, employees: string)
    requires company1 == Company1 && employees == "employees"
    ensures JsObject.Get(company1, employees) == Some(JsValue.Num(150))
  {
    assert JsObject.Get(company1, employees) == JsObject.Get(company1[1..], employees);
  }

  /** The first company's staff count survives, since the second has none. */
  lemma MergedStaff(company1: Obj, company2: Obj, employees: string)
    requires company1 == Company1 && company2 == Company2 && employees == "employees"
    ensures JsObject.Get(MergeGenericObjects(company1, company2), employees) == Some(JsValue.Num(150))
  {
    CompaniesValid(company1, company2);
    NoStaffInCompany2(company2, employees);
    StaffOfCompany1(company1, employees);
    MergeGet(company1, company2, employees);
  }

  /** Merging the two companies keeps the second one's name and the first one's staff count. */
  lemma CompaniesMerged(company1: Obj, company2: Obj, name: string, employees: string)
    requires company1 == Company1 && company2 == Company2
    requires name == "name" && employees == "employees"
    ensures JsObject.Get(MergeGenericObjects(company1, company2), name) == Some(JsValue.Str("HealthSolutions"))
    ensures JsObject.Get(MergeGenericObjects(company1, company2), employees) == Some(JsValue.Num(150))
  {
    MergedName(company1, company2, name);
    MergedStaff(company1, company2, employees);
  }
}
