/**
  The settings singleton, after src/backend/services/settings.ts: reading the
  first settings row and patching it in place.
 */
module SettingsService {
  import opened Types
  import opened Schema

  /** The partial patch of updateSettings: None is an absent (or null) field. */
  datatype SettingsPatch = SettingsPatch(
    currency: Option<string>,
    scanDefaultQty: Option<int>,
    lowStockThreshold: Option<int>,
    dataPath: Option<string>,
    backupPath: Option<string>,
    theme: Option<Theme>)

  /** getSettings: the first settings row (`LIMIT 1`). The source maps an absent
      row by reading fields of `undefined`, which throws; here that is None. */
  function GetSettings(settings: seq<Settings>): (r: Option<Settings>)
    ensures r.None? <==> settings == []
    ensures r.Some? ==> r.value == settings[0]
  {
    if settings == [] then None else Some(settings[0])
  }

  /** The row updateSettings writes over `existing`. */
  function Patched(existing: Settings, patch: SettingsPatch, now: nat): Settings {
    existing.(
      currency := patch.currency.GetOr(existing.currency),
      scanDefaultQty := patch.scanDefaultQty.GetOr(existing.scanDefaultQty),
      lowStockThreshold := patch.lowStockThreshold.GetOr(existing.lowStockThreshold),
      dataPath := patch.dataPath.GetOr(existing.dataPath),
      backupPath := Or(patch.backupPath, existing.backupPath),
      theme := patch.theme.GetOr(existing.theme),
      updatedAt := now)
  }

  /** updateSettings: overwrites the first settings row (`WHERE id = existing.id`,
      a primary key) and fails when there is none. */
  method UpdateSettings(db: Database, patch: SettingsPatch, now: nat) returns (r: Outcome)
    requires db.Valid()
    modifies db`settings
    ensures db.Valid()
    ensures old(db.settings) == [] ==> r == Failed(SettingsMissing) && db.settings == []
    ensures old(db.settings) != [] ==>
      r == Done && db.settings == old(db.settings)[0 := Patched(old(db.settings)[0], patch, now)]
  {
    var existing := GetSettings(db.settings);
    if existing.None? {
      return Failed(SettingsMissing);
    }
    db.settings := db.settings[0 := Patched(existing.value, patch, now)];
    r := Done;
  }

  /** After an update, getSettings reports every patched field with its new
      value and every other field as it was; id and created_at stay, and
      updated_at is the time of the update. */
  lemma UpdateThenGet(settings: seq<Settings>, patch: SettingsPatch, now: nat)
    requires settings != []
    ensures var s := GetSettings(settings[0 := Patched(settings[0], patch, now)]);
      && s.Some?
      && s.value.id == settings[0].id
      && s.value.createdAt == settings[0].createdAt
      && s.value.updatedAt == now
      && s.value.currency == patch.currency.GetOr(settings[0].currency)
      && s.value.scanDefaultQty == patch.scanDefaultQty.GetOr(settings[0].scanDefaultQty)
      && s.value.lowStockThreshold == patch.lowStockThreshold.GetOr(settings[0].lowStockThreshold)
      && s.value.dataPath == patch.dataPath.GetOr(settings[0].dataPath)
      && s.value.backupPath == (if patch.backupPath.Some? then patch.backupPath else settings[0].backupPath)
      && s.value.theme == patch.theme.GetOr(settings[0].theme)
  {
  }

  /** An empty patch only moves updated_at. */
  lemma EmptyPatchOnlyTouches(existing: Settings, now: nat)
    ensures Patched(existing, SettingsPatch(None, None, None, None, None, None), now)
            == existing.(updatedAt := now)
  {
  }
}
