/** The preferences dialog's read-modify-write handlers over the settings
    store: the position dropdown's `notify::selected` handler and the usable
    inputs check buttons' `setChecked`. Each reloads the stored list and, when
    it finds the record, changes that one record and writes the whole list
    back; otherwise nothing is written. */
module Prefs {
  import opened Wrappers
  import opened MonitorRecords
  import opened Positions
  import opened UsableInputs

  /** The extension's settings object, reduced to its `monitors` string list. */
  class Settings {
    var monitors: seq<string>

    constructor (monitors: seq<string>)
      ensures this.monitors == monitors
    {
      this.monitors := monitors;
    }
  }

  /** `loadMonitors`: parse each stored string in turn, keeping those that parse. */
  method LoadMonitors(settings: Settings, json: Json) returns (list: seq<Entry>)
    ensures list == Loaded(json, settings.monitors)
  {
    var arr := settings.monitors;
    list := [];
    for i := 0 to |arr|
      invariant list == Loaded(json, arr[..i])
    {
      assert arr[..i + 1][..i] == arr[..i];
      match json.parse(arr[i]) {
        case Some(o) => list := list + [o];
        case None =>
      }
    }
    assert arr[..|arr|] == arr;
  }

  /** `saveMonitors`: write every entry back, one string each, in order. */
  method SaveMonitors(settings: Settings, json: Json, list: seq<Entry>)
    modifies settings
    ensures settings.monitors == Saved(json, list)
  {
    settings.monitors := Saved(json, list);
  }

  // ---------------------------------------------------------------------------
  // The position handler.

  /** The entry list the position handler saves after reloading `list`, or None
      when it finds no record for `mon` and returns without saving. Only the
      target's position changes: it becomes the string stored for entry `sel`,
      so the target shows `sel` again. */
  function PositionUpdate(list: seq<Entry>, mon: MonitorRecord, sel: int): (r: Option<seq<Entry>>)
    ensures r.None? <==> Lookup(list, mon.id, mon.serial).None?
    ensures r.Some? ==> |r.value| == |list|
    ensures r.Some? ==> var i := Lookup(list, mon.id, mon.serial).value;
      (forall j :: 0 <= j < |list| && j != i ==> r.value[j] == list[j]) &&
      r.value[i].Monitor? &&
      r.value[i].rec.(position := list[i].rec.position) == list[i].rec &&
      (0 <= sel <= 3 ==> r.value[i].rec.position == StoredPosition(sel).value) &&
      (0 <= sel <= 3 ==> PositionIndex(r.value[i].rec.position) == sel) &&
      (!(0 <= sel <= 3) ==> r.value[i] == list[i])
  {
    match Lookup(list, mon.id, mon.serial)
    case None => None
    case Some(i) =>
      match StoredPosition(sel)
      case None => Some(list)
      case Some(p) => Some(list[i := Monitor(list[i].rec.(position := p))])
  }

  /** `notify::selected`: reload, find the record by id (then by serial), set
      its position from the selected entry and save the whole list; when no
      record is found, nothing is saved. */
  method OnPositionSelected(settings: Settings, json: Json, mon: MonitorRecord, sel: int)
    modifies settings
    ensures var update := PositionUpdate(Loaded(json, old(settings.monitors)), mon, sel);
      settings.monitors == if update.None? then old(settings.monitors) else Saved(json, update.value)
  {
    var monitors := LoadMonitors(settings, json);
    var target := Lookup(monitors, mon.id, mon.serial);
    if target.None? {
      return;
    }
    var i := target.value;
    var rec := monitors[i].rec;
    if sel == 0 {
      rec := rec.(position := "");
    } else if sel == 1 {
      rec := rec.(position := "left");
    } else if sel == 2 {
      rec := rec.(position := "center");
    } else if sel == 3 {
      rec := rec.(position := "right");
    }
    monitors := monitors[i := Monitor(rec)];
    SaveMonitors(settings, json, monitors);
  }

  // ---------------------------------------------------------------------------
  // The usable-inputs handler.

  /** The list `getUsable` reads for a found record: a copy of its
      `usableInputs` when that is an array, otherwise empty. */
  function UsableList(rec: MonitorRecord): seq<string>
  {
    match rec.usableInputs
    case Some(l) => l
    case None => []
  }

  /** `getUsable` (its `fresh` list): reload the entries, find the record for `mon`, and read its list. */
  method GetUsable(settings: Settings, json: Json, mon: MonitorRecord)
    returns (reloaded: seq<Entry>, target: Option<nat>, list: seq<string>)
    ensures reloaded == Loaded(json, settings.monitors)
    ensures target == Lookup(reloaded, mon.id, mon.serial)
    ensures target.Some? ==>
      target.value < |reloaded| && reloaded[target.value].Monitor? &&
      list == UsableList(reloaded[target.value].rec)
    ensures target.None? ==> list == []
  {
    reloaded := LoadMonitors(settings, json);
    target := Lookup(reloaded, mon.id, mon.serial);
    if target.None? {
      list := [];
      return;
    }
    var rec := reloaded[target.value].rec;
    list := if rec.usableInputs.Some? then rec.usableInputs.value else [];
  }

  /** The entry list `setChecked(code, checked)` saves after reloading `list`,
      or None when no record for `mon` is found. Only the target's
      `usableInputs` changes, and it becomes an array holding the toggled list. */
  function UsableUpdate(list: seq<Entry>, mon: MonitorRecord, code: string, checked: bool): (r: Option<seq<Entry>>)
    ensures r.None? <==> Lookup(list, mon.id, mon.serial).None?
    ensures r.Some? ==> |r.value| == |list|
    ensures r.Some? ==> var i := Lookup(list, mon.id, mon.serial).value;
      (forall j :: 0 <= j < |list| && j != i ==> r.value[j] == list[j]) &&
      r.value[i].Monitor? &&
      r.value[i].rec.(usableInputs := list[i].rec.usableInputs) == list[i].rec &&
      r.value[i].rec.usableInputs == Some(Toggle(UsableList(list[i].rec), code, checked))
  {
    match Lookup(list, mon.id, mon.serial)
    case None => None
    case Some(i) =>
      var rec := list[i].rec;
      Some(list[i := Monitor(rec.(usableInputs := Some(Toggle(UsableList(rec), code, checked))))])
  }

  /** `setChecked`: reload, find the record, add the lowered code if no element
      matches it (checking) or remove the first match (unchecking), store the
      list on the record and save the whole list; nothing is saved when no
      record is found. */
  method SetChecked(settings: Settings, json: Json, mon: MonitorRecord, code: string, checked: bool)
    modifies settings
    ensures var update := UsableUpdate(Loaded(json, old(settings.monitors)), mon, code, checked);
      settings.monitors == if update.None? then old(settings.monitors) else Saved(json, update.value)
  {
    var reloaded, target, list := GetUsable(settings, json, mon);
    if target.None? {
      return;
    }
    var norm := Text.Lower(code);
    var idx := IndexOfLowered(list, norm);
    if checked && idx == -1 {
      list := list + [norm];
    }
    if !checked && idx != -1 {
      list := list[..idx] + list[idx + 1..];
    }
    var i := target.value;
    var rec := reloaded[i].rec;
    assert list == Toggle(UsableList(rec), code, checked);
    reloaded := reloaded[i := Monitor(rec.(usableInputs := Some(list)))];
    assert UsableUpdate(Loaded(json, old(settings.monitors)), mon, code, checked) == Some(reloaded);
    SaveMonitors(settings, json, reloaded);
  }

  // ---------------------------------------------------------------------------
  // Properties of the handlers across saves.

  /** After choosing dropdown entry `sel` and saving, reloading the store finds
      the same record, and its position shows `sel`. */
  lemma ReloadShowsSelection(json: Json, list: seq<Entry>, mon: MonitorRecord, sel: int)
    requires RoundTrips(json)
    requires Lookup(list, mon.id, mon.serial).Some?
    requires 0 <= sel <= 3
    ensures var saved := Saved(json, PositionUpdate(list, mon, sel).value);
      var reloaded := Loaded(json, saved);
      Lookup(reloaded, mon.id, mon.serial) == Lookup(list, mon.id, mon.serial) &&
      PositionIndex(reloaded[Lookup(list, mon.id, mon.serial).value].rec.position) == sel
  {
    var i := Lookup(list, mon.id, mon.serial).value;
    var updated := PositionUpdate(list, mon, sel).value;
    LoadedSaved(json, updated);
    LookupStable(list, i, updated[i].rec, mon.id, mon.serial);
    assert updated == list[i := Monitor(updated[i].rec)];
  }

  /** Selecting the same entry twice saves the same list as selecting it once. */
  lemma PositionUpdateIdempotent(json: Json, list: seq<Entry>, mon: MonitorRecord, sel: int)
    requires RoundTrips(json)
    requires Lookup(list, mon.id, mon.serial).Some?
    ensures var once := PositionUpdate(list, mon, sel).value;
      PositionUpdate(Loaded(json, Saved(json, once)), mon, sel) == Some(once)
  {
    var i := Lookup(list, mon.id, mon.serial).value;
    var once := PositionUpdate(list, mon, sel).value;
    LoadedSaved(json, once);
    assert once == list[i := Monitor(once[i].rec)];
    LookupStable(list, i, once[i].rec, mon.id, mon.serial);
    PositionUpdateAlreadySet(once, mon, sel, i);
  }

  /** A list whose target already holds the position for `sel` is saved unchanged. */
  lemma PositionUpdateAlreadySet(list: seq<Entry>, mon: MonitorRecord, sel: int, i: nat)
    requires Lookup(list, mon.id, mon.serial) == Some(i)
    requires StoredPosition(sel).Some? ==> list[i].rec.position == StoredPosition(sel).value
    ensures PositionUpdate(list, mon, sel) == Some(list)
  {
    if StoredPosition(sel).Some? {
      assert list[i := Monitor(list[i].rec.(position := StoredPosition(sel).value))] == list;
    }
  }

  /** After checking a code and saving, reloading finds the same record and its
      check button for that code starts checked. */
  lemma ReloadShowsChecked(json: Json, list: seq<Entry>, mon: MonitorRecord, code: string)
    requires RoundTrips(json)
    requires Lookup(list, mon.id, mon.serial).Some?
    ensures var reloaded := Loaded(json, Saved(json, UsableUpdate(list, mon, code, true).value));
      Lookup(reloaded, mon.id, mon.serial) == Lookup(list, mon.id, mon.serial) &&
      IsInitiallyChecked(reloaded[Lookup(list, mon.id, mon.serial).value].rec.usableInputs, code)
  {
    var i := Lookup(list, mon.id, mon.serial).value;
    var updated := UsableUpdate(list, mon, code, true).value;
    LoadedSaved(json, updated);
    LookupStable(list, i, updated[i].rec, mon.id, mon.serial);
    assert updated == list[i := Monitor(updated[i].rec)];
  }

  /** Toggling the same code the same way twice saves the same list as toggling
      it once, provided the record's list has no case-insensitive duplicates. */
  lemma UsableUpdateIdempotent(json: Json, list: seq<Entry>, mon: MonitorRecord, code: string, checked: bool)
    requires RoundTrips(json)
    requires Lookup(list, mon.id, mon.serial).Some?
    requires !checked ==> NoDuplicates(UsableList(list[Lookup(list, mon.id, mon.serial).value].rec))
    ensures var once := UsableUpdate(list, mon, code, checked).value;
      UsableUpdate(Loaded(json, Saved(json, once)), mon, code, checked) == Some(once)
  {
    var i := Lookup(list, mon.id, mon.serial).value;
    var once := UsableUpdate(list, mon, code, checked).value;
    LoadedSaved(json, once);
    assert Loaded(json, Saved(json, once)) == once;
    assert once == list[i := Monitor(once[i].rec)];
    LookupStable(list, i, once[i].rec, mon.id, mon.serial);
    assert Lookup(once, mon.id, mon.serial) == Some(i);
    var toggled := Toggle(UsableList(list[i].rec), code, checked);
    assert once[i].rec.usableInputs == Some(toggled);
    ToggleIdempotent(UsableList(list[i].rec), code, checked);
    assert UsableList(once[i].rec) == toggled;
    UsableUpdateAlreadySet(once, mon, code, checked, i);
  }

  /** A list whose target already holds its toggled list is saved unchanged. */
  lemma UsableUpdateAlreadySet(list: seq<Entry>, mon: MonitorRecord, code: string, checked: bool, i: nat)
    requires Lookup(list, mon.id, mon.serial) == Some(i)
    requires list[i].rec.usableInputs == Some(Toggle(UsableList(list[i].rec), code, checked))
    ensures UsableUpdate(list, mon, code, checked) == Some(list)
  {
    assert list[i := Monitor(list[i].rec)] == list;
  }

  /** A record whose list has no case-insensitive duplicates keeps none. */
  lemma UsableUpdateKeepsNoDuplicates(list: seq<Entry>, mon: MonitorRecord, code: string, checked: bool)
    requires Lookup(list, mon.id, mon.serial).Some?
    requires NoDuplicates(UsableList(list[Lookup(list, mon.id, mon.serial).value].rec))
    ensures var i := Lookup(list, mon.id, mon.serial).value;
      NoDuplicates(UsableList(UsableUpdate(list, mon, code, checked).value[i].rec))
  {
    var i := Lookup(list, mon.id, mon.serial).value;
    ToggleKeepsNoDuplicates(UsableList(list[i].rec), code, checked);
  }

  /** Unchecking an input while the record allows every input (no list, or an
      empty one) stores an empty list, which still allows every input. */
  lemma UncheckOnAllowAllAllowsAll(list: seq<Entry>, mon: MonitorRecord, code: string, other: string)
    requires Lookup(list, mon.id, mon.serial).Some?
    requires UsableList(list[Lookup(list, mon.id, mon.serial).value].rec) == []
    ensures var i := Lookup(list, mon.id, mon.serial).value;
      var after := UsableUpdate(list, mon, code, false).value[i].rec.usableInputs;
      after == Some([]) && IsInitiallyChecked(after, other)
  {
  }

  /** Whenever a handler saves, every stored string parses again: strings that
      did not parse before the reload are gone from the store. */
  lemma SavedAllParse(json: Json, list: seq<Entry>)
    requires RoundTrips(json)
    ensures forall k :: 0 <= k < |Saved(json, list)| ==> json.parse(Saved(json, list)[k]).Some?
  {
  }
}
