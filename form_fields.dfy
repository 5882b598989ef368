/**
 * The `FormData` a form action receives: a map from field names to the submitted text. A field
 * that was not submitted is absent, which `formData.get` reports as `null`.
 */
module FormFields {
  import opened Wrappers

  type FormData = map<string, string>

  /** `formData.get(key)`: None for null. */
  function Field(form: FormData, key: string): Option<string> {
    if key in form then Some(form[key]) else None
  }

  /** JavaScript truthiness of a field: present and not the empty string. */
  predicate Truthy(v: Option<string>) {
    v.Some? && v.value != ""
  }

  /** A field in a template literal: `null` prints as "null". */
  function Interpolate(v: Option<string>): (s: string)
    ensures v.Some? ==> s == v.value
    ensures v.None? ==> s == "null"
  {
    if v.Some? then v.value else "null"
  }

  /** A field as a JSX child: `null` renders nothing. */
  function Rendered(v: Option<string>): (s: string)
    ensures v.Some? ==> s == v.value
    ensures v.None? ==> s == ""
  {
    v.GetOr("")
  }
}
