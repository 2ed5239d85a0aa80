/** The per-monitor "usable inputs" allow-list: the toggle applied when a
    check button changes, and the initial state of each check button. Input
    codes are compared case-insensitively; an absent or empty list allows
    every input. */
module UsableInputs {
  import opened Wrappers
  import opened Text

  /** Some element of `list` equals `code` once both are lowered. */
  predicate Contains(list: seq<string>, code: string) {
    exists k :: 0 <= k < |list| && Lower(list[k]) == Lower(code)
  }

  /** No two elements of `list` are equal once lowered. */
  predicate NoDuplicates(list: seq<string>) {
    forall i, j :: 0 <= i < j < |list| ==> Lower(list[i]) != Lower(list[j])
  }

  /** `list.findIndex(v => String(v).toLowerCase() === norm)`: the first index
      whose lowered element is `norm`, or -1. */
  function IndexOfLowered(list: seq<string>, norm: string): (idx: int)
    ensures -1 <= idx < |list|
    ensures idx >= 0 ==> Lower(list[idx]) == norm && forall j :: 0 <= j < idx ==> Lower(list[j]) != norm
    ensures idx == -1 <==> forall j :: 0 <= j < |list| ==> Lower(list[j]) != norm
  {
    if list == [] then -1
    else if Lower(list[0]) == norm then 0
    else
      var k := IndexOfLowered(list[1..], norm);
      if k == -1 then -1 else k + 1
  }

  /** The list `setChecked(code, checked)` stores. Checking appends the lowered
      code unless some element already matches; unchecking removes the first
      matching element, if any. */
  function Toggle(list: seq<string>, code: string, checked: bool): (r: seq<string>)
    ensures checked ==> Contains(r, code)
    ensures checked ==> (r == list <==> Contains(list, code))
    ensures checked && r != list ==> r == list + [Lower(code)]
    ensures !checked ==> (r == list <==> !Contains(list, code))
    ensures !checked && r != list ==>
      var i := IndexOfLowered(list, Lower(code));
      0 <= i && r == list[..i] + list[i + 1..]
  {
    var norm := Lower(code);
    var idx := IndexOfLowered(list, norm);
    if checked then
      if idx == -1 then
        LowerIdempotent(code);
        var r := list + [norm];
        assert Lower(r[|list|]) == norm;
        r
      else list
    else if idx == -1 then list
    else
      var r := list[..idx] + list[idx + 1..];
      assert |r| < |list|;
      r
  }

  /** A list without case-insensitive duplicates keeps none after a toggle. */
  lemma ToggleKeepsNoDuplicates(list: seq<string>, code: string, checked: bool)
    requires NoDuplicates(list)
    ensures NoDuplicates(Toggle(list, code, checked))
  {
    var r := Toggle(list, code, checked);
    if checked && !Contains(list, code) {
      LowerIdempotent(code);
      forall i, j | 0 <= i < j < |r| ensures Lower(r[i]) != Lower(r[j]) {
        if j == |list| {
          assert r[i] == list[i];
        }
      }
    } else if !checked && Contains(list, code) {
      var k := IndexOfLowered(list, Lower(code));
      forall i, j | 0 <= i < j < |r| ensures Lower(r[i]) != Lower(r[j]) {
        var i' := if i < k then i else i + 1;
        var j' := if j < k then j else j + 1;
        assert r[i] == list[i'] && r[j] == list[j'];
      }
    }
  }

  /** Unchecking a code in a list without duplicates leaves no element matching it. */
  lemma UncheckRemovesCode(list: seq<string>, code: string)
    requires NoDuplicates(list)
    ensures !Contains(Toggle(list, code, false), code)
  {
    var r := Toggle(list, code, false);
    if Contains(list, code) {
      var k := IndexOfLowered(list, Lower(code));
      forall m | 0 <= m < |r| ensures Lower(r[m]) != Lower(code) {
        var m' := if m < k then m else m + 1;
        assert r[m] == list[m'];
      }
    }
  }

  /** Toggling the same code the same way twice is toggling it once; for
      unchecking this needs a list without duplicates, since otherwise the
      second toggle removes the next match. */
  lemma ToggleIdempotent(list: seq<string>, code: string, checked: bool)
    requires !checked ==> NoDuplicates(list)
    ensures Toggle(Toggle(list, code, checked), code, checked) == Toggle(list, code, checked)
  {
    if !checked {
      UncheckRemovesCode(list, code);
    }
  }

  /** Unchecking the code of an allow-all (empty) list keeps it empty: every
      input stays allowed. */
  lemma UncheckEmptyStaysEmpty(code: string)
    ensures Toggle([], code, false) == []
  {
  }

  // ---------------------------------------------------------------------------
  // Initial state of a check button.

  /** `usableInputs` lowered, when it is an array (`initial` in the dialog). */
  function Lowered(list: seq<string>): (r: seq<string>)
    ensures |r| == |list|
    ensures forall i :: 0 <= i < |list| ==> r[i] == Lower(list[i])
  {
    seq(|list|, i requires 0 <= i < |list| => Lower(list[i]))
  }

  /** Whether the check button for `code` starts checked: always when the list
      is absent or empty (default allow), otherwise exactly when the code is in
      the list case-insensitively. */
  function IsInitiallyChecked(usable: Option<seq<string>>, code: string): (b: bool)
    ensures usable.None? ==> b
    ensures usable.Some? && |usable.value| == 0 ==> b
    ensures usable.Some? && |usable.value| > 0 ==> (b <==> Contains(usable.value, code))
  {
    var initial := match usable case None => None case Some(l) => Some(Lowered(l));
    if initial.None? || |initial.value| == 0 then true
    else
      var b := Lower(code) in initial.value;
      assert b ==> Contains(usable.value, code);
      b
  }
}
