/**
 * The shared alert modal store: one record that every page overwrites to
 * show an alert and resets to close it. There is no queue; a second alert
 * replaces the first.
 */
module AlertStore {
  import opened Wrappers

  /** `AlertButton`; its `onClick` callback is not modelled. */
  datatype Button = Button(text: Option<string>, isGreen: Option<bool>, autoFocus: Option<bool>, target: Option<int>)

  /**
   * The store's data fields. The focus targets are the page's input refs,
   * identified here by number.
   */
  datatype AlertState = AlertState(
    isOpen: bool, title: Option<string>, message: Option<string>, buttons: seq<Button>, targetRefs: seq<nat>)

  /** The store as created: closed, no title or message, no buttons, no refs. */
  const INITIAL := AlertState(false, None, None, [], [])

  /** `openAlert(message, buttons = [], title, targetRefs = [])`: every field is overwritten. */
  function Open(s: AlertState, message: string, buttons: Option<seq<Button>>, title: Option<string>,
                targetRefs: Option<seq<nat>>): (r: AlertState)
    ensures r.isOpen && r.message == Some(message) && r.title == title
    ensures r.buttons == buttons.GetOr([]) && r.targetRefs == targetRefs.GetOr([])
  {
    AlertState(true, title, Some(message), buttons.GetOr([]), targetRefs.GetOr([]))
  }

  /** `closeAlert`: back to the initial record. */
  function Close(s: AlertState): (r: AlertState)
    ensures r == INITIAL
  {
    AlertState(false, None, None, [], [])
  }

  /** A second alert replaces the first completely: the result does not depend on what was open. */
  lemma OpenReplaces(s: AlertState, t: AlertState, message: string, buttons: Option<seq<Button>>,
                     title: Option<string>, targetRefs: Option<seq<nat>>)
    ensures Open(s, message, buttons, title, targetRefs) == Open(t, message, buttons, title, targetRefs)
  {
  }

  /** Closing twice is the same as closing once. */
  lemma CloseIdempotent(s: AlertState)
    ensures Close(Close(s)) == Close(s)
  {
  }

  /** Opening and then closing leaves the store as it was created. */
  lemma OpenThenClose(s: AlertState, message: string, buttons: Option<seq<Button>>,
                      title: Option<string>, targetRefs: Option<seq<nat>>)
    ensures Close(Open(s, message, buttons, title, targetRefs)) == INITIAL
    ensures !Close(Open(s, message, buttons, title, targetRefs)).isOpen
  {
  }

  /** The store object that the pages share. */
  class Store {
    var isOpen: bool
    var title: Option<string>
    var message: Option<string>
    var buttons: seq<Button>
    var targetRefs: seq<nat>

    function State(): AlertState
      reads this
    {
      AlertState(isOpen, title, message, buttons, targetRefs)
    }

    constructor ()
      ensures State() == INITIAL
    {
      isOpen, title, message, buttons, targetRefs := false, None, None, [], [];
    }

    method OpenAlert(msg: string, btns: Option<seq<Button>>, ttl: Option<string>, refs: Option<seq<nat>>)
      modifies this
      ensures State() == Open(old(State()), msg, btns, ttl, refs)
    {
      isOpen := true;
      message := Some(msg);
      buttons := btns.GetOr([]);
      title := ttl;
      targetRefs := refs.GetOr([]);
    }

    method CloseAlert()
      modifies this
      ensures State() == Close(old(State()))
    {
      isOpen := false;
      message := None;
      buttons := [];
      title := None;
      targetRefs := [];
    }
  }
}
