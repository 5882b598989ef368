/**
 * The settings page of the Redux app: it dispatches timezone and date-format updates to the
 * settings slice and keeps its own `customFormat` text and `isCustom` flag.
 */
module SettingsPage {
  import opened Settings
  import opened JsString
  import SettingsSlice

  /** `dateFormatPresets`, by value. */
  const Presets: seq<string> := ["MM/DD/YYYY", "DD/MM/YYYY", "YYYY-MM-DD"]

  class SettingsPageState {
    const store: SettingsSlice.SettingsStore
    var customFormat: string
    var isCustom: bool

    constructor(store: SettingsSlice.SettingsStore)
      ensures this.store == store && customFormat == "" && !isCustom
    {
      this.store := store;
      customFormat := "";
      isCustom := false;
    }

    /** A preset button is highlighted: it is the stored format and no custom format was applied. */
    predicate PresetActive(preset: string)
      reads this, store
    {
      store.dateFormat == preset && !isCustom
    }

    /** `disabled={!customFormat.trim()}` on the Apply button. */
    predicate ApplyDisabled(): (b: bool)
      reads this
      ensures b <==> forall i :: 0 <= i < |customFormat| ==> IsWhitespace(customFormat[i])
    {
      TrimEmptyIff(customFormat);
      Trim(customFormat) == ""
    }

    /** `handleTimezoneChange`: only the timezone is dispatched. */
    method HandleTimezoneChange(timezone: Timezone)
      modifies store
      ensures store.State() == old(store.State()).(timezone := timezone)
      ensures customFormat == old(customFormat) && isCustom == old(isCustom)
    {
      store.Dispatch(SettingsSlice.SetTimezone(timezone));
    }

    /** `handleDateFormatChange(format)`: a preset becomes the format and the custom input is cleared. */
    method HandleDateFormatChange(format: string)
      modifies this, store
      ensures store.State() == old(store.State()).(dateFormat := format)
      ensures !isCustom && customFormat == ""
      ensures forall p :: p in Presets ==> (PresetActive(p) <==> p == format)
    {
      store.Dispatch(SettingsSlice.SetDateFormat(format));
      isCustom := false;
      customFormat := "";
    }

    /** The custom input's `onChange`. */
    method SetCustomFormat(text: string)
      modifies this
      ensures customFormat == text && isCustom == old(isCustom)
    {
      customFormat := text;
    }

    /**
     * `handleCustomFormatSubmit`: a blank input does nothing; otherwise the trimmed text becomes
     * the format and is marked custom, and the input keeps what was typed.
     */
    method HandleCustomFormatSubmit()
      modifies this, store
      ensures old(ApplyDisabled()) ==> store.State() == old(store.State()) && isCustom == old(isCustom)
      ensures !old(ApplyDisabled()) ==> store.State() == old(store.State()).(dateFormat := Trim(old(customFormat)))
      ensures !old(ApplyDisabled()) ==> isCustom && forall p :: !PresetActive(p)
      ensures customFormat == old(customFormat)
    {
      if Trim(customFormat) != "" {
        store.Dispatch(SettingsSlice.SetDateFormat(Trim(customFormat)));
        isCustom := true;
      }
    }
  }
}
