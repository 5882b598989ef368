/**
 * `searchScan` and `searchScan2` of the first `keyof` exercise. `searchScan` dispatches on the
 * runtime type of the searched value; its boolean branch only logs, so its callback returns
 * `undefined` and keeps nothing. Its string branch calls `toLowerCase` on the field, which
 * throws a TypeError when the field is not a string (the `as string` cast only silences the
 * compiler).
 */
module ScanSearch {
  import opened Wrappers
  import JsString
  import JsValue
  import Seqs
  import opened ScanRecords

  /** The values `searchScan` accepts: `string | number | boolean`. */
  datatype Searched = ByString(s: string) | ByNumber(n: int) | ByBoolean(b: bool)

  /** The string branch: case-insensitive comparison, or a TypeError at the first non-string field. */
  function FilterIgnoringCase(items: seq<ScanResult>, key: ScanKey, value: string): (r: Result<seq<ScanResult>, string>)
    ensures r.Throws? <==> exists i :: 0 <= i < |items| && !Field(items[i], key).Str?
    ensures r.Ok? ==> r.value == Seqs.Filter(items, (item: ScanResult) => Field(item, key).Str? &&
      JsString.Lower(Field(item, key).s) == JsString.Lower(value))
  {
    if items == [] then Ok([])
    else
      var field := Field(items[0], key);
      if !field.Str? then Throws("TypeError")
      else
        var rest := FilterIgnoringCase(items[1..], key, value);
        assert forall i :: 0 <= i < |items[1..]| ==> items[1..][i] == items[i + 1];
        if rest.Throws? then rest
        else if JsString.Lower(field.s) == JsString.Lower(value) then Ok([items[0]] + rest.value)
        else Ok(rest.value)
  }

  /** `searchScan(data, key, value)` */
  function SearchScan(data: SearchInput, key: ScanKey, value: Searched): (r: Result<Option<seq<ScanResult>>, string>)
    requires SearchKey(key)
    ensures data.NotAnArray? ==> r == Ok(None)
    ensures data.ArrayInput? && value.ByNumber? ==>
      r == Ok(Some(Seqs.Filter(data.items, (item: ScanResult) => Field(item, key) == JsValue.Num(value.n))))
    ensures data.ArrayInput? && value.ByBoolean? ==> r == Ok(Some([]))
    ensures data.ArrayInput? && value.ByString? ==>
      (r.Throws? <==> exists i :: 0 <= i < |data.items| && !Field(data.items[i], key).Str?)
  {
    if data.NotAnArray? then Ok(None)
    else
      match value
      case ByNumber(n) => Ok(Some(Seqs.Filter(data.items, (item: ScanResult) => Field(item, key) == JsValue.Num(n))))
      case ByBoolean(_) =>
        Seqs.FilterNone(data.items, (item: ScanResult) => false);
        Ok(Some(Seqs.Filter(data.items, (item: ScanResult) => false)))
      case ByString(s) =>
        var found := FilterIgnoringCase(data.items, key, s);
        if found.Throws? then Throws(found.error) else Ok(Some(found.value))
  }

  /** The call at the top of the file, `searchScan(scanErrors, "isHandled", true)`, finds nothing. */
  lemma BooleanSearchFindsNothing()
    ensures SearchScan(ArrayInput(ScanErrors), IsHandled, ByBoolean(true)) == Ok(Some([]))
  {
  }

  /** A string field that does not match is passed over. */
  lemma SkipsOtherString(items: seq<ScanResult>, key: ScanKey, value: string)
    requires items != [] && Field(items[0], key).Str?
    requires |Field(items[0], key).s| != |value|
    ensures FilterIgnoringCase(items, key, value) == FilterIgnoringCase(items[1..], key, value)
  {
    assert |JsString.Lower(Field(items[0], key).s)| != |JsString.Lower(value)|;
  }

  /** `searchScan(scanErrors, "userScannerId", "aa")` finds nothing: both ids are "2024_12_12". */
  lemma UnknownScannerFindsNothing(value: string)
    requires value == "aa"
    ensures SearchScan(ArrayInput(ScanErrors), UserScannerId, ByString(value)) == Ok(Some([]))
  {
    var items := ScanErrors;
    SkipsOtherString(items, UserScannerId, value);
    SkipsOtherString(items[1..], UserScannerId, value);
    assert items[1..][1..] == [];
  }

  /** Searching a string on the numeric field throws, since `(1).toLowerCase` is not a function. */
  lemma StringOnNumberThrows(value: string)
    ensures SearchScan(ArrayInput(ScanErrors), NumberOfVulnerabilities, ByString(value)).Throws?
  {
    assert !Field(ScanErrors[0], NumberOfVulnerabilities).Str?;
  }

  /** `searchScan2`'s comparison: lower-cased when both are strings, strict equality otherwise. */
  predicate Matches2(itemValue: JsValue.Value, value: JsValue.Value) {
    if value.Str? && itemValue.Str? then JsString.Lower(itemValue.s) == JsString.Lower(value.s)
    else itemValue == value
  }

  /** `searchScan2(data, key, value)` */
  function SearchScan2(data: seq<ScanResult>, key: ScanKey, value: JsValue.Value): (r: seq<ScanResult>)
    requires SearchKey(key)
    ensures Seqs.IsSubsequence(r, data)
    ensures forall item :: item in r <==> item in data && Matches2(Field(item, key), value)
    ensures forall item :: multiset(r)[item] == if Matches2(Field(item, key), value) then multiset(data)[item] else 0
  {
    var keep := (item: ScanResult) => Matches2(Field(item, key), value);
    Seqs.FilterIsSubsequence(data, keep);
    forall item ensures item in Seqs.Filter(data, keep) <==> item in data && keep(item) {
      Seqs.FilterMembers(data, keep, item);
    }
    forall item ensures multiset(Seqs.Filter(data, keep))[item] == if keep(item) then multiset(data)[item] else 0 {
      Seqs.FilterCounts(data, keep, item);
    }
    Seqs.Filter(data, keep)
  }

  /** On strings the two searches agree whenever the first one does not throw. */
  lemma SearchesAgreeOnStrings(data: seq<ScanResult>, key: ScanKey, value: string)
    requires SearchKey(key)
    requires SearchScan(ArrayInput(data), key, ByString(value)).Ok?
    ensures SearchScan(ArrayInput(data), key, ByString(value)).value == Some(SearchScan2(data, key, JsValue.Str(value)))
  {
    Seqs.FilterCongruent(data, (item: ScanResult) => Field(item, key).Str? &&
      JsString.Lower(Field(item, key).s) == JsString.Lower(value),
      (item: ScanResult) => Matches2(Field(item, key), JsValue.Str(value)));
  }
}
