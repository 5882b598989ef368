/**
 * A JavaScript value as the record searches and the object merge see it. Arrays and objects
 * are compared by identity, so they are represented by an address; strict equality `===` is
 * then equality of these values (numbers are integers here, so there is no NaN).
 */
module JsValue {
  datatype Value = Num(n: int) | Str(s: string) | Bool(b: bool) | Undefined | Ref(address: int)
}
