/**
 * The countries report page: `calcPopulationPerRegion` folds the fetched countries into an object
 * from region name to total population, and `adaptDataPieChart` turns that object into the
 * `{ name, value }` slices of the pie chart.
 */
module PopulationReport {
  import opened Wrappers
  import JsObject
  import Tally

  /** The two fields the report reads from a country of the API; either may be missing. */
  datatype CountryRecord = CountryRecord(region: Option<string>, population: Option<int>)

  /** `if (!region || !population) return regionsObj`: an empty region or a zero population is skipped. */
  predicate Counted(c: CountryRecord) {
    c.region.Some? && c.region.value != "" && c.population.Some? && c.population.value != 0
  }

  /** One step of the reduce, with the same branch on whether `regionsObj[region]` is truthy. */
  function Step(acc: JsObject.Entries<int>, c: CountryRecord): (r: JsObject.Entries<int>)
    ensures r == if Counted(c) then Tally.AddTo(acc, c.region.value, c.population.value) else acc
  {
    if !Counted(c) then acc
    else
      var region := c.region.value;
      var population := c.population.value;
      var current := JsObject.Get(acc, region);
      Tally.AddToIsSet(acc, region, population);
      if current.Some? && current.value != 0 then JsObject.Set(acc, region, current.value + population)
      else JsObject.Set(acc, region, population)
  }

  /** `countries.reduce(step, {})`. */
  function CalcPopulationPerRegion(cs: seq<CountryRecord>): JsObject.Entries<int>
    decreases |cs|
  {
    if cs == [] then [] else Step(CalcPopulationPerRegion(cs[..|cs| - 1]), cs[|cs| - 1])
  }

  /** The (region, population) pairs of the countries that are counted, in order. */
  function CountedPairs(cs: seq<CountryRecord>): Tally.Pairs
    decreases |cs|
  {
    if cs == [] then []
    else
      var c := cs[|cs| - 1];
      CountedPairs(cs[..|cs| - 1]) + if Counted(c) then [(c.region.value, c.population.value)] else []
  }

  /** The regions of the counted countries, repeats included. */
  function CountedRegions(cs: seq<CountryRecord>): seq<string> {
    Tally.PairKeys(CountedPairs(cs))
  }

  /** Country c is counted towards region r. */
  predicate InRegion(c: CountryRecord, r: string) {
    Counted(c) && c.region.value == r
  }

  /** The population of the countries counted towards region r. */
  function RegionPopulation(cs: seq<CountryRecord>, r: string): int
    decreases |cs|
  {
    if cs == [] then 0
    else RegionPopulation(cs[..|cs| - 1], r) + if InRegion(cs[|cs| - 1], r) then cs[|cs| - 1].population.value else 0
  }

  /** The population of all counted countries. */
  function TotalPopulation(cs: seq<CountryRecord>): int
    decreases |cs|
  {
    if cs == [] then 0
    else TotalPopulation(cs[..|cs| - 1]) + if Counted(cs[|cs| - 1]) then cs[|cs| - 1].population.value else 0
  }

  /** The last country adds its pair, if it is counted, after those of the others. */
  lemma CountedPairsLast(cs: seq<CountryRecord>)
    requires cs != []
    ensures var c := cs[|cs| - 1];
      CountedPairs(cs) == CountedPairs(cs[..|cs| - 1]) + if Counted(c) then [(c.region.value, c.population.value)] else []
  {
  }

  /** The reduce is the running tally of the counted pairs. */
  lemma {:induction false} CalcIsTotals(cs: seq<CountryRecord>)
    ensures CalcPopulationPerRegion(cs) == Tally.Totals(CountedPairs(cs))
    decreases |cs|
  {
    if cs != [] {
      var prefix := cs[..|cs| - 1];
      var c := cs[|cs| - 1];
      CalcIsTotals(prefix);
      CountedPairsLast(cs);
      assert CalcPopulationPerRegion(cs) == Step(CalcPopulationPerRegion(prefix), c);
      if Counted(c) {
        var pair := (c.region.value, c.population.value);
        assert CountedPairs(cs) == CountedPairs(prefix) + [pair];
        Tally.TotalsLast(CountedPairs(prefix), pair);
        assert Step(CalcPopulationPerRegion(prefix), c) == Tally.AddTo(CalcPopulationPerRegion(prefix), pair.0, pair.1);
      } else {
        assert CountedPairs(cs) == CountedPairs(prefix);
      }
    }
  }

  /** Some country of cs is counted towards region r. */
  predicate HasRegion(cs: seq<CountryRecord>, r: string) {
    exists i :: 0 <= i < |cs| && InRegion(cs[i], r)
  }

  lemma HasRegionLast(cs: seq<CountryRecord>, r: string)
    requires cs != []
    ensures HasRegion(cs, r) <==> HasRegion(cs[..|cs| - 1], r) || InRegion(cs[|cs| - 1], r)
  {
    var prefix := cs[..|cs| - 1];
    if HasRegion(cs, r) {
      var i :| 0 <= i < |cs| && InRegion(cs[i], r);
      if i < |prefix| {
        assert prefix[i] == cs[i];
      }
    }
    if HasRegion(prefix, r) {
      var i :| 0 <= i < |prefix| && InRegion(prefix[i], r);
      assert cs[i] == prefix[i];
    }
  }

  /** A region is among the counted regions exactly when some counted country lies in it. */
  lemma {:induction false} CountedRegionsIff(cs: seq<CountryRecord>, r: string)
    ensures r in CountedRegions(cs) <==> HasRegion(cs, r)
    decreases |cs|
  {
    if cs != [] {
      var prefix := cs[..|cs| - 1];
      var c := cs[|cs| - 1];
      CountedRegionsIff(prefix, r);
      HasRegionLast(cs, r);
      CountedPairsLast(cs);
      var ps := CountedPairs(cs);
      if Counted(c) {
        assert ps[..|ps| - 1] == CountedPairs(prefix);
        Tally.PairKeysPrefix(ps);
      } else {
        assert ps == CountedPairs(prefix);
      }
    }
  }

  /** The amounts paired with r add up to the population counted towards r. */
  lemma {:induction false} CountedSumFor(cs: seq<CountryRecord>, r: string)
    ensures Tally.SumFor(CountedPairs(cs), r) == RegionPopulation(cs, r)
    decreases |cs|
  {
    if cs != [] {
      var prefix := cs[..|cs| - 1];
      CountedSumFor(prefix, r);
      CountedPairsLast(cs);
      var ps := CountedPairs(cs);
      var c := cs[|cs| - 1];
      if Counted(c) {
        assert ps == CountedPairs(prefix) + [(c.region.value, c.population.value)];
        assert ps[..|ps| - 1] == CountedPairs(prefix);
      } else {
        assert ps == CountedPairs(prefix);
      }
    }
  }

  /** All paired amounts add up to the counted population. */
  lemma {:induction false} CountedSumAll(cs: seq<CountryRecord>)
    ensures Tally.SumAll(CountedPairs(cs)) == TotalPopulation(cs)
    decreases |cs|
  {
    if cs != [] {
      var prefix := cs[..|cs| - 1];
      CountedSumAll(prefix);
      CountedPairsLast(cs);
      var ps := CountedPairs(cs);
      var c := cs[|cs| - 1];
      if Counted(c) {
        assert ps == CountedPairs(prefix) + [(c.region.value, c.population.value)];
        assert ps[..|ps| - 1] == CountedPairs(prefix);
      } else {
        assert ps == CountedPairs(prefix);
      }
    }
  }

  /** Every region of a counted country maps to its total population; no other key is present. */
  lemma RegionTotals(cs: seq<CountryRecord>, r: string)
    ensures JsObject.Get(CalcPopulationPerRegion(cs), r) ==
      if HasRegion(cs, r) then Some(RegionPopulation(cs, r)) else None
  {
    CalcIsTotals(cs);
    Tally.TotalsGet(CountedPairs(cs), r);
    CountedRegionsIff(cs, r);
    CountedSumFor(cs, r);
  }

  /** Each region appears once, in the order its first counted country came. */
  lemma RegionOrder(cs: seq<CountryRecord>)
    ensures JsObject.Valid(CalcPopulationPerRegion(cs))
    ensures JsObject.Keys(CalcPopulationPerRegion(cs)) == Tally.Distinct(CountedRegions(cs))
  {
    CalcIsTotals(cs);
    Tally.TotalsKeys(CountedPairs(cs));
  }

  /** The regions together hold the population of every counted country. */
  lemma PopulationPreserved(cs: seq<CountryRecord>)
    ensures Tally.SumValues(CalcPopulationPerRegion(cs)) == TotalPopulation(cs)
  {
    CalcIsTotals(cs);
    Tally.TotalsSum(CountedPairs(cs));
    CountedSumAll(cs);
  }

  /** One slice of the pie chart. */
  datatype PieSlice = PieSlice(name: string, value: int)

  /** `Object.entries(obj).map(([key, value]) => ({ name: key, value }))`. */
  function AdaptDataPieChart(obj: JsObject.Entries<int>): (r: seq<PieSlice>)
    ensures |r| == |obj|
    ensures forall i :: 0 <= i < |obj| ==> r[i].name == JsObject.Keys(obj)[i] && r[i].value == obj[i].1
    ensures SumSlices(r) == Tally.SumValues(obj)
  {
    if obj == [] then [] else [PieSlice(obj[0].0, obj[0].1)] + AdaptDataPieChart(obj[1..])
  }

  /** The sum of the slice values. */
  function SumSlices(slices: seq<PieSlice>): int {
    if slices == [] then 0 else slices[0].value + SumSlices(slices[1..])
  }

  /** A slice's value is the object's value under the slice's name. */
  lemma SliceValues(obj: JsObject.Entries<int>, i: int)
    requires JsObject.Valid(obj) && 0 <= i < |obj|
    ensures JsObject.Get(obj, AdaptDataPieChart(obj)[i].name) == Some(AdaptDataPieChart(obj)[i].value)
  {
    JsObject.GetAt(obj, i);
  }

  /** The chart of the fetched countries: one slice per region, each its region's population. */
  lemma PieChartOfCountries(cs: seq<CountryRecord>, i: int)
    requires 0 <= i < |AdaptDataPieChart(CalcPopulationPerRegion(cs))|
    ensures AdaptDataPieChart(CalcPopulationPerRegion(cs))[i].name in CountedRegions(cs)
    ensures AdaptDataPieChart(CalcPopulationPerRegion(cs))[i].value ==
      RegionPopulation(cs, AdaptDataPieChart(CalcPopulationPerRegion(cs))[i].name)
    ensures SumSlices(AdaptDataPieChart(CalcPopulationPerRegion(cs))) == TotalPopulation(cs)
  {
    var obj := CalcPopulationPerRegion(cs);
    var name := AdaptDataPieChart(obj)[i].name;
    RegionOrder(cs);
    assert name == JsObject.Keys(obj)[i];
    SliceValues(obj, i);
    RegionTotals(cs, name);
    PopulationPreserved(cs);
  }
}
