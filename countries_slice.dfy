/**
 * The countries slice of the Redux store: `setFilter` and `clearError`, the pending, fulfilled
 * and rejected cases of the two async thunks, and the thunks' mapping of a thrown value to the
 * rejection payload. The API calls themselves are not modelled: their outcome is a parameter.
 */
module CountriesSlice {
  import opened Wrappers

  /** A country record from the API; only the name is needed here, the other fields are carried along. */
  datatype Country = Country(name: string)

  /** What the state holds: `countries`, `loading`, `error` (None for null) and `filter`. */
  datatype CountriesState = CountriesState(countries: seq<Country>, loading: bool, error: Option<string>, filter: string)

  /** `initialState` */
  const InitialState := CountriesState([], false, None, "")

  datatype CountriesAction =
    | SetFilter(filter: string)
    | ClearError
    | FetchPending
    | FetchFulfilled(countries: seq<Country>)
    | FetchRejected(payload: string)
    | SearchPending
    | SearchFulfilled(countries: seq<Country>, filter: string)
    | SearchRejected(payload: string)
    | OtherAction(kind: string)

  /** The fulfilled and rejected cases: the request has finished. */
  predicate Settles(action: CountriesAction) {
    action.FetchFulfilled? || action.FetchRejected? || action.SearchFulfilled? || action.SearchRejected?
  }

  /** The state the slice reducer produces for an action, field by field. */
  function Reduce(s: CountriesState, action: CountriesAction): (r: CountriesState)
    ensures r.countries == if action.FetchFulfilled? || action.SearchFulfilled? then action.countries else s.countries
    ensures r.loading == (if action.FetchPending? || action.SearchPending? then true
                          else if Settles(action) then false
                          else s.loading)
    ensures r.error == (if action.ClearError? || action.FetchPending? || action.SearchPending? then None
                        else if action.FetchRejected? || action.SearchRejected? then Some(action.payload)
                        else s.error)
    ensures r.filter == (if action.SetFilter? || action.SearchFulfilled? then action.filter
                         else if action.FetchFulfilled? then ""
                         else s.filter)
  {
    match action
    case SetFilter(f) => s.(filter := f)
    case ClearError => s.(error := None)
    case FetchPending => s.(loading := true, error := None)
    case FetchFulfilled(cs) => s.(loading := false, countries := cs, filter := "")
    case FetchRejected(p) => s.(loading := false, error := Some(p))
    case SearchPending => s.(loading := true, error := None)
    case SearchFulfilled(cs, f) => s.(loading := false, countries := cs, filter := f)
    case SearchRejected(p) => s.(loading := false, error := Some(p))
    case OtherAction(_) => s
  }

  /** While a request is loading there is no error on display. */
  predicate LoadingHasNoError(s: CountriesState) {
    s.loading ==> s.error.None?
  }

  /** Every action keeps that rule. */
  lemma ReducePreservesLoadingRule(s: CountriesState, action: CountriesAction)
    requires LoadingHasNoError(s)
    ensures LoadingHasNoError(Reduce(s, action))
  {
  }

  /** A failed request keeps the countries already shown. */
  lemma RejectionKeepsCountries(s: CountriesState, payload: string)
    ensures Reduce(s, FetchRejected(payload)).countries == s.countries
    ensures Reduce(s, SearchRejected(payload)).countries == s.countries
  {
  }

  /** A value thrown by an API call: an `Error` object with its message, or anything else. */
  datatype Thrown = ErrorObject(message: string) | OtherValue

  /** The thunks' `catch`: `rejectWithValue(error.message)` or the unknown-error text. */
  function RejectPayload(t: Thrown): (p: string)
    ensures t.ErrorObject? ==> p == t.message
    ensures t.OtherValue? ==> p == "An unknown error occurred"
  {
    match t
    case ErrorObject(m) => m
    case OtherValue => "An unknown error occurred"
  }

  /** The action `fetchCountries` settles with, given what the API call did. */
  function FetchOutcome(api: Result<seq<Country>, Thrown>): (a: CountriesAction)
    ensures api.Ok? ==> a == FetchFulfilled(api.value)
    ensures api.Throws? ==> a == FetchRejected(RejectPayload(api.error))
  {
    match api
    case Ok(cs) => FetchFulfilled(cs)
    case Throws(t) => FetchRejected(RejectPayload(t))
  }

  /** The action `searchCountriesByName(name)` settles with: the payload carries `name` as the filter. */
  function SearchOutcome(name: string, api: Result<seq<Country>, Thrown>): (a: CountriesAction)
    ensures api.Ok? ==> a == SearchFulfilled(api.value, name)
    ensures api.Throws? ==> a == SearchRejected(RejectPayload(api.error))
  {
    match api
    case Ok(cs) => SearchFulfilled(cs, name)
    case Throws(t) => SearchRejected(RejectPayload(t))
  }

  /** A whole search: pending, then its outcome. A successful one shows the results filtered by `name`. */
  lemma SearchRoundTrip(s: CountriesState, name: string, api: Result<seq<Country>, Thrown>)
    ensures var r := Reduce(Reduce(s, SearchPending), SearchOutcome(name, api));
      !r.loading &&
      (api.Ok? ==> r.countries == api.value && r.filter == name && r.error.None?) &&
      (api.Throws? ==> r.countries == s.countries && r.filter == s.filter && r.error == Some(RejectPayload(api.error)))
  {
  }

  class CountriesStore {
    var countries: seq<Country>
    var loading: bool
    var error: Option<string>
    var filter: string

    function State(): CountriesState
      reads this
    {
      CountriesState(countries, loading, error, filter)
    }

    constructor()
      ensures State() == InitialState
    {
      countries := [];
      loading := false;
      error := None;
      filter := "";
    }

    /** `dispatch(action)`: the case reducer assigns fields of the draft in place. */
    method Dispatch(action: CountriesAction)
      modifies this
      ensures State() == Reduce(old(State()), action)
    {
      match action {
        case SetFilter(f) =>
          filter := f;
        case ClearError =>
          error := None;
        case FetchPending =>
          loading := true;
          error := None;
        case FetchFulfilled(cs) =>
          loading := false;
          countries := cs;
          filter := "";
        case FetchRejected(p) =>
          loading := false;
          error := Some(p);
        case SearchPending =>
          loading := true;
          error := None;
        case SearchFulfilled(cs, f) =>
          loading := false;
          countries := cs;
          filter := f;
        case SearchRejected(p) =>
          loading := false;
          error := Some(p);
        case OtherAction(_) =>
      }
    }
  }
}
