/**
 * The settings context of the expenses app: an immutable reducer that `useReducer` applies to
 * each dispatched action in turn.
 */
module SettingsContext {
  import opened Settings

  /** `SettingsAction`, plus any other `type` string, which the `default` case handles. */
  datatype SettingsAction =
    | SetTimezone(timezone: Timezone)
    | SetDateFormat(dateFormat: string)
    | OtherAction(kind: string)

  /** `initialSettingsState` */
  const InitialSettingsState := SettingsState(UTC, "MM/DD/YYYY", 5)

  /** `settingsReducer(state, action)` */
  function SettingsReducer(state: SettingsState, action: SettingsAction): (r: SettingsState)
    ensures r.expenseLimit == state.expenseLimit
    ensures r.timezone == if action.SetTimezone? then action.timezone else state.timezone
    ensures r.dateFormat == if action.SetDateFormat? then action.dateFormat else state.dateFormat
  {
    match action
    case SetTimezone(tz) => state.(timezone := tz)
    case SetDateFormat(f) => state.(dateFormat := f)
    case OtherAction(_) => state
  }

  /** The state after the actions have been dispatched in order. */
  function DispatchAll(state: SettingsState, actions: seq<SettingsAction>): SettingsState
    decreases |actions|
  {
    if actions == [] then state
    else DispatchAll(SettingsReducer(state, actions[0]), actions[1..])
  }

  /** The same action twice has the effect of one. */
  lemma ReducerIdempotent(state: SettingsState, action: SettingsAction)
    ensures SettingsReducer(SettingsReducer(state, action), action) == SettingsReducer(state, action)
  {
  }

  /** Changing the timezone and the date format are independent of each other. */
  lemma TimezoneAndFormatCommute(state: SettingsState, tz: Timezone, f: string)
    ensures SettingsReducer(SettingsReducer(state, SetTimezone(tz)), SetDateFormat(f)) ==
            SettingsReducer(SettingsReducer(state, SetDateFormat(f)), SetTimezone(tz))
  {
  }

  /** No sequence of actions changes the expense limit. */
  lemma {:induction false} ExpenseLimitNeverChanges(state: SettingsState, actions: seq<SettingsAction>)
    ensures DispatchAll(state, actions).expenseLimit == state.expenseLimit
    decreases |actions|
  {
    if actions != [] {
      ExpenseLimitNeverChanges(SettingsReducer(state, actions[0]), actions[1..]);
    }
  }

  /** The date format of the last `SET_DATE_FORMAT` among the actions, or `current` if none. */
  function LastDateFormat(current: string, actions: seq<SettingsAction>): string
    decreases |actions|
  {
    if actions == [] then current
    else LastDateFormat(if actions[0].SetDateFormat? then actions[0].dateFormat else current, actions[1..])
  }

  /** The date format shown is the one chosen last; every other action leaves it alone. */
  lemma {:induction false} LastDateFormatWins(state: SettingsState, actions: seq<SettingsAction>)
    ensures DispatchAll(state, actions).dateFormat == LastDateFormat(state.dateFormat, actions)
    decreases |actions|
  {
    if actions != [] {
      LastDateFormatWins(SettingsReducer(state, actions[0]), actions[1..]);
    }
  }

  /** From the initial state, the limit is always 5. */
  lemma LimitStaysFive(actions: seq<SettingsAction>)
    ensures DispatchAll(InitialSettingsState, actions).expenseLimit == 5
  {
    ExpenseLimitNeverChanges(InitialSettingsState, actions);
  }
}
