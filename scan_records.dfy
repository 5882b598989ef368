/**
 * The scan-result records of the two `keyof` exercises, read field by field through a key
 * (`item[key]`). The `packages` and `priorities` arrays are only ever compared by identity, so
 * they are kept as addresses.
 */
module ScanRecords {
  import opened Wrappers
  import JsValue

  datatype ScanResult = ScanResult(numberOfVulnerabilities: int, packages: int, priorities: int,
                                   id: string, userScannerId: string, isHandled: Option<bool>)

  datatype ScanKey = NumberOfVulnerabilities | Packages | Priorities | Id | UserScannerId | IsHandled

  /** `item[key]`; a missing optional field reads as `undefined`. */
  function Field(item: ScanResult, key: ScanKey): JsValue.Value {
    match key
    case NumberOfVulnerabilities => JsValue.Num(item.numberOfVulnerabilities)
    case Packages => JsValue.Ref(item.packages)
    case Priorities => JsValue.Ref(item.priorities)
    case Id => JsValue.Str(item.id)
    case UserScannerId => JsValue.Str(item.userScannerId)
    case IsHandled => if item.isHandled.Some? then JsValue.Bool(item.isHandled.value) else JsValue.Undefined
  }

  /** The keys of `Omit<ScanResult, "priorities" | "packages">`. */
  predicate SearchKey(key: ScanKey) {
    key != Packages && key != Priorities
  }

  /** The two sample scans; their arrays live at addresses 1 to 4. */
  const ScanErrors: seq<ScanResult> := [
    ScanResult(1, 1, 2, "id_1", "2024_12_12", None),
    ScanResult(1, 3, 4, "id_2", "2024_12_12", None)
  ]

  /** What a search receives; `Array.isArray` tells the two apart. */
  datatype SearchInput = ArrayInput(items: seq<ScanResult>) | NotAnArray
}
