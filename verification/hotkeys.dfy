/** The keyboard shortcut handler: which action a key press triggers and whether the
    browser's default is suppressed. */
module Hotkeys {
  import opened Wrappers
  import opened Text

  datatype Action = FocusSearch | Open | Refresh | Pin | MarkRead | MarkUnread | GotoCritical | GotoUnread

  datatype KeyEvent = KeyEvent(key: string, ctrl: bool, meta: bool, shift: bool)

  /** What handling one event did: how many times the default was prevented and which
      handlers ran, in order. */
  datatype Dispatch = Dispatch(prevented: nat, fired: seq<Action>)

  /** One `if` of the handler: when it matches, prevent the default and call the handler if
      the caller supplied it. */
  function Branch(d: Dispatch, matched: bool, a: Action, handlers: set<Action>): (r: Dispatch)
    ensures !matched ==> r == d
    ensures matched ==> r.prevented == d.prevented + 1
                        && r.fired == d.fired + (if a in handlers then [a] else [])
  {
    if matched then Dispatch(d.prevented + 1, d.fired + (if a in handlers then [a] else [])) else d
  }

  /** `onKey`: eight independent tests of the lower-cased key, in source order. */
  function OnKey(e: KeyEvent, handlers: set<Action>): Dispatch {
    var k := Lower(e.key);
    var d := Dispatch(0, []);
    var d := Branch(d, (e.ctrl || e.meta) && k == "/", FocusSearch, handlers);
    var d := Branch(d, k == "o", Open, handlers);
    var d := Branch(d, k == "r", Refresh, handlers);
    var d := Branch(d, k == "p", Pin, handlers);
    var d := Branch(d, k == "]", MarkRead, handlers);
    var d := Branch(d, k == "[", MarkUnread, handlers);
    var d := Branch(d, k == "k" && e.shift, GotoCritical, handlers);
    Branch(d, k == "u" && e.shift, GotoUnread, handlers)
  }

  /** The decision table: the one action a key event selects, if any. */
  function Decide(e: KeyEvent): (r: Option<Action>)
    ensures r == Some(FocusSearch) <==> (e.ctrl || e.meta) && Lower(e.key) == "/"
    ensures r == Some(GotoCritical) <==> Lower(e.key) == "k" && e.shift
    ensures r == Some(GotoUnread) <==> Lower(e.key) == "u" && e.shift
    ensures r == Some(Open) <==> Lower(e.key) == "o"
    ensures r == Some(Refresh) <==> Lower(e.key) == "r"
    ensures r == Some(Pin) <==> Lower(e.key) == "p"
    ensures r == Some(MarkRead) <==> Lower(e.key) == "]"
    ensures r == Some(MarkUnread) <==> Lower(e.key) == "["
  {
    var k := Lower(e.key);
    if k == "/" then (if e.ctrl || e.meta then Some(FocusSearch) else None)
    else if k == "o" then Some(Open)
    else if k == "r" then Some(Refresh)
    else if k == "p" then Some(Pin)
    else if k == "]" then Some(MarkRead)
    else if k == "[" then Some(MarkUnread)
    else if k == "k" then (if e.shift then Some(GotoCritical) else None)
    else if k == "u" then (if e.shift then Some(GotoUnread) else None)
    else None
  }

  /** The handler follows the table: the default is prevented exactly once when some row
      matches (even with no handler supplied) and never otherwise, and at most the selected
      action runs. */
  lemma OnKeyFollowsTable(e: KeyEvent, handlers: set<Action>)
    ensures var d := OnKey(e, handlers);
      && d.prevented == (if Decide(e).Some? then 1 else 0)
      && d.fired == (if Decide(e).Some? && Decide(e).value in handlers then [Decide(e).value] else [])
      && |d.fired| <= 1
  {
  }

  /** A plain '/' does nothing; with Ctrl or Meta it focuses the search. */
  lemma SlashNeedsModifier(handlers: set<Action>, shift: bool)
    ensures OnKey(KeyEvent("/", false, false, shift), handlers) == Dispatch(0, [])
    ensures FocusSearch in handlers ==> OnKey(KeyEvent("/", true, false, shift), handlers) == Dispatch(1, [FocusSearch])
  {
    assert Lower("/") == "/";
  }

  /** 'O' and 'o' open the record whatever modifiers are held; 'k' without Shift does nothing. */
  lemma CaseAndModifiers(ctrl: bool, meta: bool, shift: bool, handlers: set<Action>)
    requires Open in handlers
    ensures OnKey(KeyEvent("O", ctrl, meta, shift), handlers) == Dispatch(1, [Open])
    ensures OnKey(KeyEvent("o", ctrl, meta, shift), handlers) == Dispatch(1, [Open])
    ensures OnKey(KeyEvent("k", ctrl, meta, false), handlers) == Dispatch(0, [])
    ensures GotoCritical in handlers ==> OnKey(KeyEvent("K", ctrl, meta, true), handlers) == Dispatch(1, [GotoCritical])
  {
    assert Lower("O") == "o" && Lower("o") == "o";
    assert Lower("k") == "k" && Lower("K") == "k";
  }
}
