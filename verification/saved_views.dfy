/** The saved-views store: the views in memory and their persisted copy under the storage key
    `nc.views` (`None` while the key is unset). JSON encoding of the copy is abstracted. */
module SavedViewsStore {
  import opened Wrappers
  import opened Seqs
  import opened Contracts
  import MockAdapter

  datatype State = State(views: seq<SavedView>, stored: Option<seq<SavedView>>)

  /** The persisted copy equals the views in memory. */
  predicate Persisted(st: State) {
    st.stored == Some(st.views)
  }

  /** `load`: the stored list, or no views when nothing is stored. Storage is not written. */
  function Load(st: State): (r: State)
    ensures r.stored == st.stored
    ensures st.stored.None? ==> r.views == []
    ensures st.stored.Some? ==> Persisted(r)
  {
    st.(views := st.stored.GetOr([]))
  }

  /** `save`: appends at the end, without looking at names, and writes the result through. */
  function Save(st: State, v: SavedView): (r: State)
    ensures Persisted(r)
    ensures |r.views| == |st.views| + 1 && r.views[..|st.views|] == st.views && r.views[|st.views|] == v
  {
    var all := st.views + [v];
    State(all, Some(all))
  }

  /** `remove`: drops every view with the id, keeps the rest in order, and writes through. */
  function Remove(st: State, id: string): (r: State)
    ensures Persisted(r)
    ensures r.views == MockAdapter.WithoutId(st.views, id)
    ensures forall w :: w in r.views <==> w in st.views && w.id != id
    ensures (forall w :: w in st.views ==> w.id != id) ==> r.views == st.views
  {
    MockAdapter.WithoutIdAbsent(st.views, id);
    var all := MockAdapter.WithoutId(st.views, id);
    State(all, Some(all))
  }

  /** Removing the id of a view just saved under a fresh id gives back the earlier views. */
  lemma RemoveUndoesSave(st: State, v: SavedView)
    requires forall w :: w in st.views ==> w.id != v.id
    ensures Remove(Save(st, v), v.id).views == st.views
  {
    MockAdapter.WithoutIdAppend(st.views, [v], v.id);
    MockAdapter.WithoutIdSingle(v, v.id);
    MockAdapter.WithoutIdAbsent(st.views, v.id);
    assert st.views + [] == st.views;
  }

  /** `apply`: the view's query, with the state untouched. */
  function Apply(st: State, v: SavedView): (r: (State, string))
    ensures r.0 == st && r.1 == v.query
  {
    (st, v.query)
  }

  /** Reloading after a write gives back what was written. */
  lemma ReloadAfterWrite(st: State, v: SavedView, id: string)
    ensures Load(Save(st, v)) == Save(st, v)
    ensures Load(Remove(st, id)) == Remove(st, id)
  {
  }

  /** Unlike the collaborator's `saveView`, this store keeps two views of the same name. */
  lemma SaveKeepsDuplicateNames(st: State, v: SavedView, w: SavedView)
    requires MockAdapter.SameName(v, w)
    ensures var r := Save(Save(st, v), w);
      v in r.views && w in r.views
      && MockAdapter.SaveView(MockAdapter.Db([], Some(Save(st, v).views)), w).1.Fail?
  {
    var db := MockAdapter.Db([], Some(Save(st, v).views));
    assert v in MockAdapter.ListSavedViews(db);
  }
}
