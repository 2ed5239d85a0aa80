/** The position dropdown: Unknown (0), Left (1), Center (2), Right (3), and
    the stored `position` string behind each entry. */
module Positions {
  import opened Wrappers
  import opened Text

  /** The dropdown index shown for a stored position: matched after lowering,
      with the British spelling `centre` accepted; anything else shows Unknown. */
  function PositionIndex(position: string): (idx: nat)
    ensures idx <= 3
    ensures idx == 1 <==> Lower(position) == "left"
    ensures idx == 2 <==> Lower(position) == "center" || Lower(position) == "centre"
    ensures idx == 3 <==> Lower(position) == "right"
    ensures idx == 0 <==> Lower(position) !in {"left", "center", "centre", "right"}
  {
    var lowered := Lower(position);
    var current := if lowered == "centre" then "center" else lowered;
    if current == "left" then 1
    else if current == "center" then 2
    else if current == "right" then 3
    else 0
  }

  /** The position string stored when dropdown entry `sel` is chosen: Unknown
      clears it to "", Left, Center and Right store `left`, `center`, `right`.
      None for any other selection, which leaves the stored position as it
      was. Every stored string shows the chosen entry again. */
  function StoredPosition(sel: int): (r: Option<string>)
    ensures r.Some? <==> 0 <= sel <= 3
    ensures sel == 0 ==> r == Some("")
    ensures sel == 1 ==> r == Some("left")
    ensures sel == 2 ==> r == Some("center")
    ensures sel == 3 ==> r == Some("right")
    ensures r.Some? ==> PositionIndex(r.value) == sel
    ensures r.Some? ==> IsLowerCase(r.value)
  {
    if sel == 0 then Some("")
    else if sel == 1 then Some("left")
    else if sel == 2 then Some("center")
    else if sel == 3 then Some("right")
    else None
  }

  /** Re-selecting the entry that a stored position shows stores that
      position's canonical spelling: lower case, `centre` written `center`,
      and anything unrecognised cleared to "". */
  lemma StoredPositionCanonical(position: string)
    ensures var stored := StoredPosition(PositionIndex(position));
      stored.Some? && PositionIndex(stored.value) == PositionIndex(position) &&
      stored.value == (if Lower(position) == "centre" then "center"
                       else if Lower(position) in {"left", "center", "right"} then Lower(position)
                       else "")
  {
  }
}
