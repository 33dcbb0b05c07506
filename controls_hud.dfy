/**
 * `ControlsHUD`: the help panel, hidden at first and shown or hidden by the "h" key in
 * either case; its opacity and pointer events follow its visibility.
 */
module ControlsHud {
  import opened Text

  /** What the keydown handler makes of the visibility: a key that lower-cases to "h" flips it. */
  function AfterKey(visible: bool, key: string): (r: bool)
    ensures r != visible <==> key == "h" || key == "H"
  {
    LowersToH(key);
    if ToLower(key) == "h" then !visible else visible
  }

  /** Any key pressed twice leaves the visibility as it was; so do "h" and "H" in a row. */
  lemma TwoPressesRestore(visible: bool, key: string)
    ensures AfterKey(AfterKey(visible, key), key) == visible
    ensures AfterKey(AfterKey(visible, "h"), "H") == visible
  {
  }

  /** The CSS `pointer-events` value. */
  datatype PointerEvents = Auto | NoEvents

  function Opacity(visible: bool): real
  {
    if visible then 1.0 else 0.0
  }

  function PointerEventsOf(visible: bool): PointerEvents
  {
    if visible then Auto else NoEvents
  }

  /** The panel is opaque, and takes pointer events, exactly while it is visible; else it is transparent and inert. */
  lemma StyleFollowsVisibility(visible: bool)
    ensures Opacity(visible) == 1.0 <==> visible
    ensures PointerEventsOf(visible) == Auto <==> visible
    ensures !visible ==> Opacity(visible) == 0.0 && PointerEventsOf(visible) == NoEvents
  {
  }

  class Hud {
    var isVisible: bool

    constructor ()
      ensures !isVisible
    {
      isVisible := false;
    }

    method HandleKeyPress(key: string)
      modifies this
      ensures isVisible == AfterKey(old(isVisible), key)
    {
      if ToLower(key) == "h" {
        isVisible := !isVisible;
      }
    }
  }
}
