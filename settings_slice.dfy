/**
 * The settings slice of the Redux store: three case reducers that assign one field of the state
 * draft each. The store is a class whose fields the dispatched actions update.
 */
module SettingsSlice {
  import opened Settings

  /** `setTimezone`, `setDateFormat`, `setExpenseLimit`, and any action of another slice. */
  datatype SettingsSliceAction =
    | SetTimezone(timezone: Timezone)
    | SetDateFormat(dateFormat: string)
    | SetExpenseLimit(expenseLimit: int)
    | OtherAction(kind: string)

  /** `initialState` */
  const InitialState := SettingsState(UTC, "MM/DD/YYYY", 10)

  /** The state the slice reducer produces: exactly the named field takes the payload. */
  function Reduce(state: SettingsState, action: SettingsSliceAction): (r: SettingsState)
    ensures r.timezone == if action.SetTimezone? then action.timezone else state.timezone
    ensures r.dateFormat == if action.SetDateFormat? then action.dateFormat else state.dateFormat
    ensures r.expenseLimit == if action.SetExpenseLimit? then action.expenseLimit else state.expenseLimit
  {
    match action
    case SetTimezone(tz) => state.(timezone := tz)
    case SetDateFormat(f) => state.(dateFormat := f)
    case SetExpenseLimit(n) => state.(expenseLimit := n)
    case OtherAction(_) => state
  }

  /** Each case reducer is idempotent. */
  lemma ReduceIdempotent(state: SettingsState, action: SettingsSliceAction)
    ensures Reduce(Reduce(state, action), action) == Reduce(state, action)
  {
  }

  /** Reducers of different fields can be dispatched in either order. */
  lemma DifferentFieldsCommute(state: SettingsState, a: SettingsSliceAction, b: SettingsSliceAction)
    requires !a.OtherAction? && !b.OtherAction?
    requires a.SetTimezone? != b.SetTimezone? && a.SetDateFormat? != b.SetDateFormat?
    ensures Reduce(Reduce(state, a), b) == Reduce(Reduce(state, b), a)
  {
  }

  class SettingsStore {
    var timezone: Timezone
    var dateFormat: string
    var expenseLimit: int

    function State(): SettingsState
      reads this
    {
      SettingsState(timezone, dateFormat, expenseLimit)
    }

    constructor()
      ensures State() == InitialState
    {
      timezone := UTC;
      dateFormat := "MM/DD/YYYY";
      expenseLimit := 10;
    }

    /** `dispatch(action)`: the case reducer assigns its field on the draft. */
    method Dispatch(action: SettingsSliceAction)
      modifies this
      ensures State() == Reduce(old(State()), action)
    {
      match action
      case SetTimezone(tz) => timezone := tz;
      case SetDateFormat(f) => dateFormat := f;
      case SetExpenseLimit(n) => expenseLimit := n;
      case OtherAction(_) =>
    }
  }
}
