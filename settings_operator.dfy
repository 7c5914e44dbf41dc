/**
 * The settings record kept in the JSON store, and the two ways it is updated:
 * a shallow merge of the fields given, and the run flag, which also switches
 * the task manager on or off.
 */
module SettingsOperator {
  import opened Common
  import opened Entities
  import opened TaskManager

  /** The fields a caller passes to `updateSettings`; an absent key is None. */
  datatype SettingsPatch = SettingsPatch(chromeExecutablePath: Option<string>, runFlag: Option<bool>)

  /** `{ ...oldSettings, ...settings }`: the given fields overwrite, the absent ones are kept. */
  function Merge(current: Settings, p: SettingsPatch): (r: Settings)
    ensures p.chromeExecutablePath.Some? ==> r.chromeExecutablePath == p.chromeExecutablePath.value
    ensures p.chromeExecutablePath.None? ==> r.chromeExecutablePath == current.chromeExecutablePath
    ensures p.runFlag.Some? ==> r.runFlag == p.runFlag.value
    ensures p.runFlag.None? ==> r.runFlag == current.runFlag
  {
    Settings(
      if p.chromeExecutablePath.Some? then p.chromeExecutablePath.value else current.chromeExecutablePath,
      if p.runFlag.Some? then p.runFlag.value else current.runFlag)
  }

  /** Merging the same fields twice is merging them once, and merging nothing changes nothing. */
  lemma MergeSettles(current: Settings, p: SettingsPatch)
    ensures Merge(Merge(current, p), p) == Merge(current, p)
    ensures Merge(current, SettingsPatch(None, None)) == current
  {
  }

  class SettingsStore {
    var settings: Settings

    /** The store starts from its defaults: no executable path and the run flag off. */
    constructor ()
      ensures settings == DefaultSettings
    {
      settings := DefaultSettings;
    }

    /** `getSettings()` */
    method GetSettings() returns (s: Settings)
      ensures s == settings
    {
      s := settings;
    }

    /** `updateSettings(patch)` */
    method UpdateSettings(p: SettingsPatch)
      modifies this
      ensures settings == Merge(old(settings), p)
    {
      settings := Merge(settings, p);
    }

    /**
     * `updateRunFlag(runFlag)`: only the flag is written; turning it on enables
     * the task manager, turning it off disables it, which still cleans up (not completely).
     */
    method UpdateRunFlag(runFlag: bool, tasks: TaskManager)
      requires tasks.Valid()
      modifies this, tasks
      ensures settings == Merge(old(settings), SettingsPatch(None, Some(runFlag)))
      ensures settings.chromeExecutablePath == old(settings.chromeExecutablePath) && settings.runFlag == runFlag
      ensures tasks.Valid() && tasks.isEnabled == runFlag
      ensures tasks.checkInterval == runFlag && tasks.statusUpdateInterval == runFlag
      ensures tasks.lastFlushed == old(tasks.lastFlushed)
      ensures runFlag ==> tasks.accountMap == old(tasks.accountMap) && tasks.effects == old(tasks.effects)
      ensures !runFlag ==>
                var r := CleanAll(Cleaning(Book(old(tasks.accountMap), old(tasks.effects)), false), old(tasks.accountMap).Values(), false);
                tasks.accountMap == r.book.jobs && tasks.effects == r.book.effects
    {
      settings := settings.(runFlag := runFlag);
      if runFlag {
        tasks.Enable();
      } else {
        tasks.Disable(false);
      }
    }
  }
}
