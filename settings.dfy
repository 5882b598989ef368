/** The settings record shared by the context reducer and the Redux slice. */
module Settings {
  datatype Timezone = UTC | Local

  datatype SettingsState = SettingsState(timezone: Timezone, dateFormat: string, expenseLimit: int)
}
