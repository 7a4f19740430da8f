/** The selection store: the set of record ids the user has ticked. */
module Selection {

  /** `toggle`: removes a selected id, adds an unselected one; no other id changes. */
  function Toggle(sel: set<string>, id: string): (r: set<string>)
    ensures id in r <==> id !in sel
    ensures forall x :: x != id ==> (x in r <==> x in sel)
  {
    if id in sel then sel - {id} else sel + {id}
  }

  /** `clear`. */
  function Clear(): (r: set<string>)
    ensures forall x :: x !in r
  {
    {}
  }

  /** `selectMany`: exactly the given ids, duplicates collapsed, the old selection dropped. */
  function SelectMany(ids: seq<string>): (r: set<string>)
    ensures forall x :: x in r <==> x in ids
    ensures |r| <= |ids|
  {
    if |ids| == 0 then {}
    else
      var rest := SelectMany(ids[..|ids| - 1]);
      assert forall x :: x in ids <==> x in ids[..|ids| - 1] || x == ids[|ids| - 1];
      rest + {ids[|ids| - 1]}
  }

  /** Toggling the same id twice restores the selection. */
  lemma ToggleTwice(sel: set<string>, id: string)
    ensures Toggle(Toggle(sel, id), id) == sel
  {
  }

  /** Toggles of different ids commute. */
  lemma TogglesCommute(sel: set<string>, a: string, b: string)
    ensures Toggle(Toggle(sel, a), b) == Toggle(Toggle(sel, b), a)
  {
  }
}
