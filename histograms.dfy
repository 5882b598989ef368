/**
 * The reports page of the web-vitals demo: two loops count products per category and users per
 * job into a plain object (`map[k] = (map[k] || 0) + 1`), and `Object.entries` turns the object
 * into chart rows.
 */
module Histograms {
  import JsObject
  import Tally
  import Users

  /** A product of the demo catalogue; the report reads only its category. */
  datatype Product = Product(category: string)

  /** A row of the pie chart, `{ name, value }`. */
  datatype CategorySlice = CategorySlice(name: string, value: int)

  /** A row of the bar chart, `{ job, count }`. */
  datatype JobBar = JobBar(job: string, count: int)

  /** Every key paired with 1. */
  function Ones(keys: seq<string>): (ps: Tally.Pairs)
    ensures |ps| == |keys| && forall i :: 0 <= i < |keys| ==> ps[i] == (keys[i], 1)
  {
    seq(|keys|, i requires 0 <= i < |keys| => (keys[i], 1))
  }

  /** The object the loop leaves behind after counting keys. */
  function CountsOf(keys: seq<string>): JsObject.Entries<int> {
    Tally.Totals(Ones(keys))
  }

  lemma OnesLast(keys: seq<string>)
    requires keys != []
    ensures Ones(keys) == Ones(keys[..|keys| - 1]) + [(keys[|keys| - 1], 1)]
  {
  }

  /** Counting with ones gives the number of occurrences. */
  lemma {:induction false} OnesSumFor(keys: seq<string>, k: string)
    ensures Tally.SumFor(Ones(keys), k) == multiset(keys)[k]
    decreases |keys|
  {
    if keys != [] {
      var prefix := keys[..|keys| - 1];
      OnesSumFor(prefix, k);
      OnesLast(keys);
      var ps := Ones(keys);
      assert ps[..|ps| - 1] == Ones(prefix);
      assert keys == prefix + [keys[|keys| - 1]];
    }
  }

  lemma {:induction false} OnesSumAll(keys: seq<string>)
    ensures Tally.SumAll(Ones(keys)) == |keys|
    decreases |keys|
  {
    if keys != [] {
      var prefix := keys[..|keys| - 1];
      OnesSumAll(prefix);
      OnesLast(keys);
      var ps := Ones(keys);
      assert ps[..|ps| - 1] == Ones(prefix);
    }
  }

  /**
   * The counts object: one key per distinct key in first-occurrence order, each holding its
   * number of occurrences, and the counts add up to the number of keys.
   */
  lemma CountsMeaning(keys: seq<string>)
    ensures JsObject.Valid(CountsOf(keys))
    ensures JsObject.Keys(CountsOf(keys)) == Tally.Distinct(keys)
    ensures forall i :: 0 <= i < |CountsOf(keys)| ==> CountsOf(keys)[i].1 == multiset(keys)[CountsOf(keys)[i].0]
    ensures Tally.SumValues(CountsOf(keys)) == |keys|
  {
    var counts := CountsOf(keys);
    Tally.TotalsKeys(Ones(keys));
    assert Tally.PairKeys(Ones(keys)) == keys;
    forall i | 0 <= i < |counts|
      ensures counts[i].1 == multiset(keys)[counts[i].0]
    {
      JsObject.GetAt(counts, i);
      assert counts[i].0 in Tally.Distinct(keys) by {
        assert JsObject.Keys(counts)[i] == counts[i].0;
      }
      Tally.TotalsGet(Ones(keys), counts[i].0);
      OnesSumFor(keys, counts[i].0);
    }
    Tally.TotalsSum(Ones(keys));
    OnesSumAll(keys);
  }

  /** The `for…of` loop that fills `map`. */
  method CountBy(keys: seq<string>) returns (counts: JsObject.Entries<int>)
    ensures counts == CountsOf(keys)
  {
    counts := [];
    for i := 0 to |keys|
      invariant counts == CountsOf(keys[..i])
    {
      assert keys[..i + 1][..i] == keys[..i];
      OnesLast(keys[..i + 1]);
      Tally.TotalsLast(Ones(keys[..i]), (keys[i], 1));
      counts := Tally.AddTo(counts, keys[i], 1);
    }
    assert keys[..|keys|] == keys;
  }

  /** The categories of the products, in order. */
  function CategoriesOf(products: seq<Product>): (cs: seq<string>)
    ensures |cs| == |products| && forall i :: 0 <= i < |products| ==> cs[i] == products[i].category
  {
    seq(|products|, i requires 0 <= i < |products| => products[i].category)
  }

  /** The sum of the slice values. */
  function SliceTotal(slices: seq<CategorySlice>): int {
    if slices == [] then 0 else slices[0].value + SliceTotal(slices[1..])
  }

  /** `Object.entries(map).map(([name, value]) => ({ name, value }))` */
  function ToSlices(counts: JsObject.Entries<int>): (r: seq<CategorySlice>)
    ensures |r| == |counts| && forall i :: 0 <= i < |counts| ==> r[i] == CategorySlice(counts[i].0, counts[i].1)
    ensures SliceTotal(r) == Tally.SumValues(counts)
  {
    if counts == [] then [] else [CategorySlice(counts[0].0, counts[0].1)] + ToSlices(counts[1..])
  }

  /** `productsByCategory`. */
  method ProductsByCategory(products: seq<Product>) returns (r: seq<CategorySlice>)
    ensures |r| == |Tally.Distinct(CategoriesOf(products))|
    ensures forall i :: 0 <= i < |r| ==> r[i].name == Tally.Distinct(CategoriesOf(products))[i]
    ensures forall i :: 0 <= i < |r| ==> r[i].value == multiset(CategoriesOf(products))[r[i].name]
    ensures SliceTotal(r) == |products|
  {
    var counts := CountBy(CategoriesOf(products));
    CountsMeaning(CategoriesOf(products));
    r := ToSlices(counts);
  }

  /** The sum of the bar counts. */
  function BarTotal(bars: seq<JobBar>): int {
    if bars == [] then 0 else bars[0].count + BarTotal(bars[1..])
  }

  /** `Object.entries(map).map(([job, count]) => ({ job, count }))` */
  function ToBars(counts: JsObject.Entries<int>): (r: seq<JobBar>)
    ensures |r| == |counts| && forall i :: 0 <= i < |counts| ==> r[i] == JobBar(counts[i].0, counts[i].1)
    ensures BarTotal(r) == Tally.SumValues(counts)
  {
    if counts == [] then [] else [JobBar(counts[0].0, counts[0].1)] + ToBars(counts[1..])
  }

  /** `usersByJob`. */
  method UsersByJob(users: seq<Users.User>) returns (r: seq<JobBar>)
    ensures r == ToBars(CountsOf(Users.JobsOf(users)))
    ensures |r| == |Tally.Distinct(Users.JobsOf(users))|
    ensures forall i :: 0 <= i < |r| ==> r[i].job == Tally.Distinct(Users.JobsOf(users))[i]
    ensures forall i :: 0 <= i < |r| ==> r[i].count == multiset(Users.JobsOf(users))[r[i].job]
    ensures BarTotal(r) == |users|
  {
    var counts := CountBy(Users.JobsOf(users));
    CountsMeaning(Users.JobsOf(users));
    r := ToBars(counts);
  }

  /** The first n users bring the jobs in list order, each once, until all six are seen. */
  lemma JobCycleDistinct(n: nat)
    requires n >= 6
    ensures Tally.Distinct(Users.JobCycle(n)) == Users.Jobs
  {
    var s := Users.JobCycle(n);
    var first := Users.JobCycle(6);
    assert first == Users.Jobs;
    assert s == first + s[6..];
    Users.JobsDistinct();
    Tally.DistinctOfDistinct(first);
    assert forall i :: 0 <= i < |s[6..]| ==> s[6..][i] == Users.Jobs[(i + 6) % 6];
    Tally.DistinctAbsorb(first, s[6..]);
  }

  /** On the 120 generated users the chart shows each of the six jobs, in list order, with 20 users. */
  lemma UsersByJobOnFixture()
    ensures ToBars(CountsOf(Users.JobsOf(Users.AllUsers()))) ==
      [JobBar("Engineer", 20), JobBar("Designer", 20), JobBar("Manager", 20),
       JobBar("Marketing", 20), JobBar("Sales", 20), JobBar("Support", 20)]
  {
    var counts := CountsOf(Users.JobsOf(Users.AllUsers()));
    FixtureCounts(counts);
    UniformBars(counts, Users.Jobs,
      [JobBar("Engineer", 20), JobBar("Designer", 20), JobBar("Manager", 20),
       JobBar("Marketing", 20), JobBar("Sales", 20), JobBar("Support", 20)]);
  }

  /** The tally of the 120 generated users: the six jobs in list order, 20 each. */
  lemma FixtureCounts(counts: JsObject.Entries<int>)
    requires counts == CountsOf(Users.JobsOf(Users.AllUsers()))
    ensures |counts| == |Users.Jobs| && forall j :: 0 <= j < |Users.Jobs| ==> counts[j] == (Users.Jobs[j], 20)
  {
    var jobs := Users.JobsOf(Users.AllUsers());
    Users.JobsOfUsers();
    JobCycleDistinct(Users.UserCount);
    CountsMeaning(jobs);
    assert JsObject.Keys(counts) == Users.Jobs;
    forall j | 0 <= j < 6
      ensures counts[j] == (Users.Jobs[j], 20)
    {
      assert counts[j].0 == JsObject.Keys(counts)[j];
      Users.TwentyPerJob(j);
    }
  }

  lemma UniformBars(counts: JsObject.Entries<int>, jobs: seq<string>, bars: seq<JobBar>)
    requires |counts| == |jobs| == |bars|
    requires forall j :: 0 <= j < |jobs| ==> counts[j] == (jobs[j], 20) && bars[j] == JobBar(jobs[j], 20)
    ensures ToBars(counts) == bars
  {
  }
}
