# Display Switcher preferences: monitor records

This project models the monitor-record logic of the Display Switcher GNOME Shell
extension's preferences dialog (`prefs.js`). The extension keeps a list of
monitor records in its settings. Each record is one JSON string holding an id,
a model, a serial, a screen position and an optional "usable inputs" list.
The dialog shows two rows per record, in two groups. The first group's row
has a position dropdown (Unknown, Left, Center, Right). The second group's row
has three input check buttons (HDMI-1 `0x11`, DisplayPort-1 `0x0f`, USB-C
`0x1b`). Each change reloads the list from the settings and looks up the
record. When the record is found, it changes that one record and writes the
whole list back. When it is not found, nothing is written.

Modules:

- `Wrappers` (`wrappers.dfy`): `Option`.
- `Text` (`text.dfy`): ASCII `toLowerCase`, and the decimal form of an id in
  `` `Display ${id}` `` together with a parser that reads it back.
- `MonitorRecords` (`records.dfy`): the `MonitorRecord` and `Entry`
  datatypes, and the JSON codec as a pair of functions (`Json`) with the
  round-trip predicate `RoundTrips`. It also holds `loadMonitors`/`saveMonitors`
  as functions (`Loaded`, `Saved`), `Array.prototype.find` (`FindFirst`), the
  id-then-serial `Lookup` and the row `Title`.
- `Positions` (`positions.dfy`): the position-string to dropdown-index map and back.
- `UsableInputs` (`usable_inputs.dfy`): the case-insensitive toggle behind
  `setChecked`, and the default-allow `isInitiallyChecked`.
- `Prefs` (`prefs.dfy`): the settings store as the class `Settings`. Its
  `monitors: seq<string>` field is reassigned by `SaveMonitors`. This module
  also holds the imperative `LoadMonitors` loop, the two handlers
  (`OnPositionSelected`, `SetChecked`, with `GetUsable`), the functions that
  specify what each handler saves (`PositionUpdate`, `UsableUpdate`), and
  lemmas about saving and reloading.

`JSON.parse` may succeed without giving an object (`"null"`, `"5"`, an array).
Such a value stays in the loaded list and is written back on save. It is kept
as `Entry.Other`. A lookup for a record's numeric id, or for its non-empty
serial, never matches such a value. Strings that fail to parse are skipped by
`loadMonitors`. So the next save by either handler removes them from the store
(`SavedAllParse`).

Each handler receives the record `mon` captured when the dialog was built. It
looks the record up by that `mon`'s id and serial, in the freshly reloaded list.

Facts about the code that the model follows:

- The lookup is by id first. The serial is used only when no id matches and
  the serial is non-empty (prefs.js:84-86).
- The dropdown indices are Unknown=0, Left=1, Center=2, Right=3.
- The usable inputs are an array. Checking appends the lowered code only when
  no element matches it case-insensitively; unchecking removes only the first
  case-insensitive match, if any.

## Model

| member | source | states |
|---|---|---|
| MonitorRecords.Loaded | prefs.js:7-19 | the loaded list is no longer than the stored one, and every loaded entry is what some stored string parses to |
| Prefs.LoadMonitors | prefs.js:7-19 | the loop over the stored strings returns exactly `Loaded` of the store (the strings that parse, in order) |
| MonitorRecords.LoadedAppend | prefs.js:10-17 | loading keeps order: loading `a + b` is loading `a` followed by loading `b` |
| MonitorRecords.LoadedAllParse | prefs.js:10-17 | when every stored string parses, the loaded list has one entry per string, each the parse of the string at the same index |
| MonitorRecords.Saved | prefs.js:21-28 | saving writes one string per entry, in order, each the stringified entry |
| Prefs.SaveMonitors | prefs.js:21-28 | the store afterwards holds exactly `Saved` of the list |
| MonitorRecords.LoadedSaved | prefs.js:7-28 | with a round-tripping codec, loading what was saved gives back the saved list |
| Prefs.SavedAllParse | prefs.js:7-28 | with a round-tripping codec, every string a handler saves parses, so malformed strings do not survive a save |
| MonitorRecords.FindFirst | prefs.js:84 | `find` returns the first index whose entry matches, and None exactly when no entry matches |
| MonitorRecords.Lookup | prefs.js:84-86 | returns the first record with the id when one exists; otherwise, only for a non-empty serial, the first record with that serial; otherwise None |
| MonitorRecords.LookupStable | prefs.js:84-86 | replacing a record by one with the same id and serial leaves the lookup result unchanged |
| MonitorRecords.Title | prefs.js:59 | the title is never empty; it is the model when the model is non-empty, and otherwise "Display " followed by `IntDecimal` of the id, which reads back as the id |
| Text.IntDecimal | prefs.js:59 | the decimal spelling of an integer id: a minus sign exactly for negative ids, then digits with no leading zero (0 is "0"), and it parses back to the id |
| Text.LowerIdempotent | prefs.js:135 | a lowered code is lower case, and lowering it again changes nothing |
| Positions.PositionIndex | prefs.js:71-77 | the index is 1, 2 or 3 exactly when the lowered position is `left`, `center`/`centre` or `right`; every other value (including "") gives 0 |
| Positions.StoredPosition | prefs.js:89-97 | entry 0 stores "" and entries 1, 2, 3 store exactly `left`, `center`, `right`; each stored string maps back to the same index; any other selection stores nothing |
| Positions.StoredPositionCanonical | prefs.js:71-97 | re-selecting the shown entry stores the canonical spelling of the position: lower case, `centre` as `center`, unknown as "" |
| Prefs.PositionUpdate | prefs.js:82-98 | None exactly when no record is found; otherwise the same length, every other entry unchanged, and only the target's position changed; for entries 0..3 it becomes the string `StoredPosition` gives ("", `left`, `center`, `right`), so the target shows `sel` |
| Prefs.OnPositionSelected | prefs.js:79-99 | the store is unchanged when no record is found, and otherwise holds the saved `PositionUpdate` of the reloaded list |
| Prefs.ReloadShowsSelection | prefs.js:71-98 | after a selection is saved, reloading finds the same record and its dropdown shows the selected entry |
| Prefs.PositionUpdateIdempotent | prefs.js:82-98 | selecting the same entry again after a save stores the same list |
| Prefs.GetUsable | prefs.js:120-129 | returns the reloaded list, the lookup result, and the target's list (empty when there is no target) |
| UsableInputs.IndexOfLowered | prefs.js:136 | `findIndex` returns the first index whose lowered element equals the lowered code, and -1 exactly when none does |
| UsableInputs.Toggle | prefs.js:135-138 | checking leaves the code present and appends the lowered code only when no element matched; unchecking changes the list exactly when it held a match, and then removes the first match |
| UsableInputs.ToggleKeepsNoDuplicates | prefs.js:131-141 | a list without case-insensitive duplicates has none after a toggle |
| UsableInputs.UncheckRemovesCode | prefs.js:136-138 | unchecking a code in a list without duplicates leaves no matching element |
| UsableInputs.ToggleIdempotent | prefs.js:131-141 | the same toggle applied twice equals applying it once (for unchecking, given no duplicates) |
| UsableInputs.UncheckEmptyStaysEmpty | prefs.js:127-138 | unchecking on an empty list leaves it empty |
| Prefs.UsableUpdate | prefs.js:131-141 | None exactly when no record is found; otherwise every other entry is unchanged and the target differs only in `usableInputs`, which becomes the toggled list |
| Prefs.SetChecked | prefs.js:131-141 | the store is unchanged when no record is found, and otherwise holds the saved `UsableUpdate` of the reloaded list |
| Prefs.ReloadShowsChecked | prefs.js:131-149 | after checking a code and saving, reloading finds the same record and its check button for the code starts checked |
| Prefs.UsableUpdateIdempotent | prefs.js:131-141 | toggling the same code the same way again after a save stores the same list (for unchecking, when the target's list has no duplicates) |
| Prefs.UsableUpdateKeepsNoDuplicates | prefs.js:131-141 | the target's list stays free of case-insensitive duplicates |
| Prefs.UncheckOnAllowAllAllowsAll | prefs.js:127-149 | unchecking on a record that allows every input stores an empty array, and every check button still starts checked |
| UsableInputs.IsInitiallyChecked | prefs.js:144-149 | true for every code when the list is absent, not an array, or empty; otherwise true exactly when the code is in the list case-insensitively |

## Left out

- extension.js: a panel menu whose items start `ddcutil setvcp 60 …` processes. It has no state or parsing.
- Widget construction: rows, dropdowns, check buttons, signal wiring, window size and the empty-list status page (prefs.js:31-69, 101-117, 151-173). The handlers are modelled as methods that take the captured record and the selected value.
- gettext translation. The title uses the untranslated word "Display".
- `settings.get_strv`/`set_strv`: the store is modelled as one `seq<string>` field.
- `JSON.parse`/`JSON.stringify` are not implemented. They are a pair of functions in `Json`. Lemmas about reloading what was saved assume `RoundTrips`.
- The exception swallowed in `saveMonitors` (prefs.js:22-27): a save always succeeds.
- MonitorRecords.Loaded: a value that parses but is not an object is kept as `Other`, which no lookup for a record's numeric id or non-empty serial matches. The model does not capture a non-numeric `id`, nor an object whose fields have unexpected types.
- MonitorRecords.MonitorRecord: fields other than the five modelled ones (for example `lastInput`) are not represented. The source carries them through a save unchanged.
- MonitorRecords.MonitorRecord: an absent string field and "" are the same value. A `usableInputs` that is present but not an array is `None`. So the model does not capture that a position save writes such a value back verbatim.
- Text.Lower: lowercases ASCII letters only. JavaScript's `toLowerCase` also maps non-ASCII letters. The input codes and position names involved are ASCII.
- UsableInputs.IndexOfLowered: `String(v)` on non-string array elements is not modelled. Elements are strings.
- A null entry in the loaded list makes the dialog throw while building rows (`mon.model`). Row building is not modelled.
- Handlers of rows built from non-object entries are not modelled. The dialog also builds rows for a number, string or array entry; their title is "Display undefined". In such a row's handler, `m.id === mon.id` compares `undefined` with `undefined` and matches. The handler then throws when it assigns `target.position` or `target.usableInputs` on a primitive value. The model's handlers take a captured record with a numeric id.
- Text.IntDecimal: ids are assumed to be small integers. JavaScript writes integers of 1e21 and above in exponent form (`1e+21`), and a JSON number above 2^53 is not exact. A non-integral id and its rendering are not modelled either.
