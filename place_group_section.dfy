/** The group list's row menus: at most one row's dropdown is open, and the
    open row is remembered by its id. */
module PlaceGroupSection {
  import opened Js

  /** `openDropdownId === itemId ? null : itemId`: toggling the open row
      closes it, toggling any other row opens that one instead. */
  function Toggled(open: Option<int>, itemId: int): (r: Option<int>)
    ensures r.None? <==> open == Some(itemId)
    ensures r.Some? ==> r.value == itemId
  {
    if open == Some(itemId) then None else Some(itemId)
  }

  /** A row's `isOpen`: `openDropdownId === item.id`. */
  predicate IsOpen(open: Option<int>, itemId: int) {
    open == Some(itemId)
  }

  /** Toggling a row twice from a closed menu closes it again. */
  lemma ToggleTwiceCloses(itemId: int)
    ensures Toggled(Toggled(None, itemId), itemId) == None
  {
  }

  /** After a toggle, the toggled row is open exactly when it was closed,
      and no other row is open. */
  lemma ToggleOpensOnlyThatRow(open: Option<int>, itemId: int, other: int)
    requires other != itemId
    ensures IsOpen(Toggled(open, itemId), itemId) <==> !IsOpen(open, itemId)
    ensures !IsOpen(Toggled(open, itemId), other)
  {
  }

  /** However the rows are listed, at most one of them is open: two open
      rows are the same row. */
  lemma AtMostOneOpen(open: Option<int>, items: seq<int>, i: int, j: int)
    requires 0 <= i < |items| && 0 <= j < |items|
    requires IsOpen(open, items[i]) && IsOpen(open, items[j])
    ensures items[i] == items[j]
  {
  }

  /** The section's `openDropdownId`. */
  class DropdownState {
    var openId: Option<int>

    constructor ()
      ensures openId == None
    {
      openId := None;
    }

    function IsOpenRow(itemId: int): bool
      reads this
    {
      IsOpen(openId, itemId)
    }

    /** `handleDropdownToggle(itemId)`. */
    method Toggle(itemId: int)
      modifies this
      ensures openId == Toggled(old(openId), itemId)
    {
      openId := if openId == Some(itemId) then None else Some(itemId);
    }

    /** `handleDropdownClose`. */
    method Close()
      modifies this
      ensures openId == None
      ensures forall itemId :: !IsOpenRow(itemId)
    {
      openId := None;
    }
  }
}
