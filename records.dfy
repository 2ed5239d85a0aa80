/** The persisted monitor records of the preferences dialog: the record shape,
    the abstract JSON codec between a stored string and an entry, the list
    load/save translation, the id-then-serial lookup and the row title. */
module MonitorRecords {
  import opened Wrappers
  import opened Text

  /** One stored monitor object. Absent string fields read as "". `usableInputs`
      is `None` when the field is absent or not an array. */
  datatype MonitorRecord = MonitorRecord(
    id: int,
    model: string,
    serial: string,
    position: string,
    usableInputs: Option<seq<string>>)

  /** What `JSON.parse` yields for one stored string that is well-formed JSON:
      a monitor object, or some other JSON value (`null`, a number, an array, ...)
      that the dialog keeps in the list and that no lookup for a record's
      numeric id or non-empty serial matches. */
  datatype Entry = Monitor(rec: MonitorRecord) | Other(text: string)

  /** `JSON.parse` (None: the string is malformed and the parse throws) and
      `JSON.stringify`, both foreign to the model. */
  datatype Json = Json(parse: string -> Option<Entry>, stringify: Entry -> string)

  /** Parsing what was stringified gives the entry back. */
  ghost predicate RoundTrips(json: Json) {
    forall e: Entry :: json.parse(json.stringify(e)) == Some(e)
  }

  // ---------------------------------------------------------------------------
  // loadMonitors / saveMonitors as functions on the stored string list.

  /** The entries `loadMonitors` builds: every stored string that parses, in
      stored order; strings that do not parse are skipped. */
  function Loaded(json: Json, stored: seq<string>): (list: seq<Entry>)
    ensures |list| <= |stored|
    ensures forall e :: e in list ==> exists s :: s in stored && json.parse(s) == Some(e)
  {
    if stored == [] then []
    else
      var init := Loaded(json, stored[..|stored| - 1]);
      match json.parse(stored[|stored| - 1])
      case Some(e) => init + [e]
      case None => init
  }

  /** The string list `saveMonitors` writes: one string per entry, in order. */
  function Saved(json: Json, list: seq<Entry>): (stored: seq<string>)
    ensures |stored| == |list|
    ensures forall i :: 0 <= i < |list| ==> stored[i] == json.stringify(list[i])
  {
    if list == [] then [] else Saved(json, list[..|list| - 1]) + [json.stringify(list[|list| - 1])]
  }

  /** Loading keeps order: loading two stored lists one after the other is
      loading their concatenation. */
  lemma {:induction false} LoadedAppend(json: Json, a: seq<string>, b: seq<string>)
    ensures Loaded(json, a + b) == Loaded(json, a) + Loaded(json, b)
    decreases |b|
  {
    if b != [] {
      var b' := b[..|b| - 1];
      assert (a + b)[..|a + b| - 1] == a + b';
      assert (a + b)[|a + b| - 1] == b[|b| - 1];
      LoadedAppend(json, a, b');
    } else {
      assert a + b == a;
    }
  }

  /** A stored list in which every string parses loads to exactly as many entries. */
  lemma {:induction false} LoadedAllParse(json: Json, stored: seq<string>)
    requires forall i :: 0 <= i < |stored| ==> json.parse(stored[i]).Some?
    ensures |Loaded(json, stored)| == |stored|
    ensures forall i :: 0 <= i < |stored| ==> Some(Loaded(json, stored)[i]) == json.parse(stored[i])
  {
    if stored != [] {
      LoadedAllParse(json, stored[..|stored| - 1]);
    }
  }

  /** Saving and loading again gives back the saved entries, in order. */
  lemma {:induction false} LoadedSaved(json: Json, list: seq<Entry>)
    requires RoundTrips(json)
    ensures Loaded(json, Saved(json, list)) == list
  {
    if list != [] {
      var s := Saved(json, list);
      assert s[..|s| - 1] == Saved(json, list[..|list| - 1]);
      assert json.parse(s[|s| - 1]) == Some(list[|list| - 1]);
      LoadedSaved(json, list[..|list| - 1]);
    }
  }

  // ---------------------------------------------------------------------------
  // Array.prototype.find, and the dialog's id-then-serial lookup.

  /** The index `list.find(matches)` would stop at: the first entry satisfying
      `matches`, or None when there is none. */
  function FindFirst(list: seq<Entry>, matches: Entry -> bool): (r: Option<nat>)
    ensures r.Some? ==> r.value < |list| && matches(list[r.value])
    ensures r.Some? ==> forall j :: 0 <= j < r.value ==> !matches(list[j])
    ensures r.None? ==> forall j :: 0 <= j < |list| ==> !matches(list[j])
  {
    if list == [] then None
    else if matches(list[0]) then Some(0)
    else match FindFirst(list[1..], matches)
      case None => None
      case Some(k) => Some(k + 1)
  }

  /** `m && m.id === id` for a record's numeric `id`: non-record entries do not match. */
  predicate HasId(e: Entry, id: int) { e.Monitor? && e.rec.id == id }

  /** `m && m.serial === serial`. */
  predicate HasSerial(e: Entry, serial: string) { e.Monitor? && e.rec.serial == serial }

  /** The record the handlers update: the first entry with the captured id;
      only when there is none and the captured serial is non-empty, the first
      entry with that serial. */
  function Lookup(list: seq<Entry>, id: int, serial: string): (r: Option<nat>)
    ensures r.Some? ==> r.value < |list| && list[r.value].Monitor?
    ensures (exists j :: 0 <= j < |list| && HasId(list[j], id)) ==>
      r.Some? && HasId(list[r.value], id) && forall j :: 0 <= j < r.value ==> !HasId(list[j], id)
    ensures (forall j :: 0 <= j < |list| ==> !HasId(list[j], id)) ==>
      (r.Some? <==> serial != "" && exists j :: 0 <= j < |list| && HasSerial(list[j], serial))
    ensures (forall j :: 0 <= j < |list| ==> !HasId(list[j], id)) && r.Some? ==>
      HasSerial(list[r.value], serial) && forall j :: 0 <= j < r.value ==> !HasSerial(list[j], serial)
  {
    var byId := FindFirst(list, e => HasId(e, id));
    if byId.None? && serial != "" then FindFirst(list, e => HasSerial(e, serial)) else byId
  }

  /** Replacing a record by one with the same id and serial does not move the lookup. */
  lemma LookupStable(list: seq<Entry>, i: nat, r: MonitorRecord, id: int, serial: string)
    requires i < |list| && list[i].Monitor?
    requires r.id == list[i].rec.id && r.serial == list[i].rec.serial
    ensures Lookup(list[i := Monitor(r)], id, serial) == Lookup(list, id, serial)
  {
    var list' := list[i := Monitor(r)];
    assert forall j :: 0 <= j < |list| ==> HasId(list'[j], id) == HasId(list[j], id);
    assert forall j :: 0 <= j < |list| ==> HasSerial(list'[j], serial) == HasSerial(list[j], serial);
    FindFirstUnique(list, list', e => HasId(e, id));
    FindFirstUnique(list, list', e => HasSerial(e, serial));
  }

  lemma FindFirstUnique(a: seq<Entry>, b: seq<Entry>, matches: Entry -> bool)
    requires |a| == |b|
    requires forall j :: 0 <= j < |a| ==> matches(a[j]) == matches(b[j])
    ensures FindFirst(a, matches) == FindFirst(b, matches)
  {
  }

  // ---------------------------------------------------------------------------
  // Row title.

  /** The row title: the model when it is non-empty, otherwise "Display "
      followed by the id's decimal spelling, which reads back as the id. */
  function Title(r: MonitorRecord): (t: string)
    ensures |t| > 0
    ensures |r.model| > 0 ==> t == r.model
    ensures |r.model| == 0 ==> t == "Display " + IntDecimal(r.id)
    ensures |r.model| == 0 ==> |t| > 8 && t[..8] == "Display " && ParseInt(t[8..]) == Some(r.id)
  {
    if |r.model| > 0 then r.model
    else
      var t := "Display " + IntDecimal(r.id);
      assert t[8..] == IntDecimal(r.id);
      t
  }
}
