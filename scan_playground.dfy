/**
 * The second `keyof` exercise: reading one field of an optional scan, filtering scans by
 * strict equality on a field, and a `searchScan` over `string | number` values. Its scan type
 * has no `isHandled` field; the samples are the same two scans.
 */
module ScanPlayground {
  import opened Wrappers
  import JsString
  import JsValue
  import Seqs
  import opened ScanRecords
  import ScanSearch

  /** The keys of this exercise's `ScanResult`, which has no `isHandled`. */
  predicate PlaygroundKey(key: ScanKey) {
    key != IsHandled
  }

  /** `getScanResultStats(scan, key)`: `scan?.[key]`. */
  function GetScanResultStats(scan: Option<ScanResult>, key: ScanKey): (r: JsValue.Value)
    requires PlaygroundKey(key)
    ensures scan.None? ==> r == JsValue.Undefined
    ensures scan.Some? ==> r == Field(scan.value, key)
    ensures scan.Some? ==> !r.Undefined? && !r.Bool?
  {
    if scan.None? then JsValue.Undefined else Field(scan.value, key)
  }

  /** `filterScans(scans, key, value)`: the scans whose field is `===` to `value`, in order. */
  function FilterScans(scans: seq<ScanResult>, key: ScanKey, value: JsValue.Value): (r: seq<ScanResult>)
    requires PlaygroundKey(key)
    ensures Seqs.IsSubsequence(r, scans)
    ensures forall item :: item in r <==> item in scans && Field(item, key) == value
    ensures forall item :: multiset(r)[item] == if Field(item, key) == value then multiset(scans)[item] else 0
  {
    var keep := (item: ScanResult) => Field(item, key) == value;
    Seqs.FilterIsSubsequence(scans, keep);
    forall item ensures item in Seqs.Filter(scans, keep) <==> item in scans && keep(item) {
      Seqs.FilterMembers(scans, keep, item);
    }
    forall item ensures multiset(Seqs.Filter(scans, keep))[item] == if keep(item) then multiset(scans)[item] else 0 {
      Seqs.FilterCounts(scans, keep, item);
    }
    Seqs.Filter(scans, keep)
  }

  /** `filterScans(scanErrors, "userScannerId", "aa")` finds nothing. */
  lemma UnknownScannerFiltersNothing(value: string)
    requires value == "aa"
    ensures FilterScans(ScanErrors, UserScannerId, JsValue.Str(value)) == []
  {
    assert forall i :: 0 <= i < |ScanErrors| ==> |ScanErrors[i].userScannerId| != |value|;
    Seqs.FilterNone(ScanErrors, (item: ScanResult) => Field(item, UserScannerId) == JsValue.Str(value));
  }

  /** `filterScans(scanErrors, "numberOfVulnerabilities", 1)` keeps both scans. */
  lemma OneVulnerabilityKeepsBoth()
    ensures FilterScans(ScanErrors, NumberOfVulnerabilities, JsValue.Num(1)) == ScanErrors
  {
    Seqs.FilterAll(ScanErrors, (item: ScanResult) => Field(item, NumberOfVulnerabilities) == JsValue.Num(1));
  }

  /** The values this `searchScan` accepts: `string | number`. */
  datatype Needle = Text(s: string) | Number(n: int)

  /** `searchScan(data, key, value)`: case-insensitive on strings, strict on numbers. */
  function SearchScan(data: SearchInput, key: ScanKey, value: Needle): (r: Result<Option<seq<ScanResult>>, string>)
    requires PlaygroundKey(key) && SearchKey(key)
    ensures data.NotAnArray? ==> r == Ok(None)
    ensures data.ArrayInput? && value.Number? ==> r == Ok(Some(FilterScans(data.items, key, JsValue.Num(value.n))))
    ensures data.ArrayInput? && value.Text? ==>
      (r.Throws? <==> exists i :: 0 <= i < |data.items| && !Field(data.items[i], key).Str?)
  {
    if data.NotAnArray? then Ok(None)
    else
      match value
      case Number(n) => Ok(Some(Seqs.Filter(data.items, (item: ScanResult) => Field(item, key) == JsValue.Num(n))))
      case Text(s) =>
        var found := ScanSearch.FilterIgnoringCase(data.items, key, s);
        if found.Throws? then Throws(found.error) else Ok(Some(found.value))
  }

  /** On the values both accept, this search is the first exercise's search. */
  lemma SameAsFirstSearch(data: SearchInput, key: ScanKey, value: Needle)
    requires PlaygroundKey(key) && SearchKey(key)
    ensures SearchScan(data, key, value) ==
      ScanSearch.SearchScan(data, key, if value.Text? then ScanSearch.ByString(value.s) else ScanSearch.ByNumber(value.n))
  {
  }

  /** `searchScan(scanErrors, "id", 1)` finds nothing: ids are strings, never `=== 1`. */
  lemma NumericIdFindsNothing(n: int)
    ensures SearchScan(ArrayInput(ScanErrors), Id, Number(n)) == Ok(Some([]))
  {
    Seqs.FilterNone(ScanErrors, (item: ScanResult) => Field(item, Id) == JsValue.Num(n));
  }
}
