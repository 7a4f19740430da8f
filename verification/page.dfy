/** The notifications page's glue: the records it hands to the list, when it writes the filter
    criteria back into the address bar, and what it asks the listing for. The location's query
    is held as its decoded key/value pairs, without the leading '?'. This is an abstraction:
    distinct search texts can decode to the same pairs (`q=a%20b` and `q=a+b`), and the code
    compares the texts, so a comparison of pairs here can see equality where the code does not. */
module Page {
  import opened Wrappers
  import opened Seqs
  import opened Contracts
  import opened Query
  import opened Filters
  import NotificationStore

  datatype Location = Location(pathname: string, search: QueryString)

  /** A router navigation; `replace` rewrites the current history entry instead of pushing. */
  datatype Navigation = Navigation(to: Location, replace: bool)

  const NotificationsPath := "/notifications"

  // ---------------------------------------------------------------------------
  // Records handed to the list

  /** `listItems`: the records of `order`, in that order, skipping ids with no record. */
  function ListItems(items: map<string, Notification>, order: seq<string>): (r: seq<Notification>)
    ensures |r| <= |order|
    ensures forall n :: n in r <==> exists i :: 0 <= i < |order| && order[i] in items && items[order[i]] == n
  {
    if |order| == 0 then []
    else
      var prefix := order[..|order| - 1];
      var id := order[|order| - 1];
      var r := ListItems(items, prefix) + (if id in items then [items[id]] else []);
      assert forall i :: 0 <= i < |prefix| ==> prefix[i] == order[i];
      r
  }

  /** The list is built id by id: it distributes over concatenation of the order, so records
      appear in the order of their ids, once per occurrence of an id that has a record. */
  lemma {:induction false} ListItemsAppend(items: map<string, Notification>, a: seq<string>, b: seq<string>)
    ensures ListItems(items, a + b) == ListItems(items, a) + ListItems(items, b)
    decreases |b|
  {
    if |b| == 0 {
      assert a + b == a;
    } else {
      var b' := b[..|b| - 1];
      var id := b[|b| - 1];
      assert (a + b)[..|a + b| - 1] == a + b';
      assert (a + b)[|a + b| - 1] == id;
      ListItemsAppend(items, a, b');
    }
  }

  /** A single id contributes its record, or nothing when it has none. */
  lemma ListItemsSingle(items: map<string, Notification>, id: string)
    ensures ListItems(items, [id]) == if id in items then [items[id]] else []
  {
    assert [id][..0] == [];
  }

  /** When every id has a record, the list is exactly the records of `order`, position by
      position. */
  lemma {:induction false} ListItemsFollowsOrder(items: map<string, Notification>, order: seq<string>)
    requires forall i :: 0 <= i < |order| ==> order[i] in items
    ensures |ListItems(items, order)| == |order|
    ensures forall i :: 0 <= i < |order| ==> ListItems(items, order)[i] == items[order[i]]
    decreases |order|
  {
    if |order| > 0 {
      var prefix := order[..|order| - 1];
      assert forall i :: 0 <= i < |prefix| ==> prefix[i] == order[i];
      ListItemsFollowsOrder(items, prefix);
    }
  }

  /** For the store's own states every listed id has its record, so nothing is dropped. */
  lemma StoreItemsAllShown(s: NotificationStore.State)
    requires NotificationStore.Consistent(s)
    ensures |ListItems(s.items, s.order)| == |s.order|
    ensures forall i :: 0 <= i < |s.order| ==> ListItems(s.items, s.order)[i] == s.items[s.order[i]]
  {
    assert forall i :: 0 <= i < |s.order| ==> s.order[i] in Elems(s.order);
    ListItemsFollowsOrder(s.items, s.order);
  }

  // ---------------------------------------------------------------------------
  // Store to URL

  /** The sync effect: when the criteria's query differs from the current one, replace the
      location with the notifications path and that query; otherwise leave it. */
  function SyncDecision(f: FilterState, loc: Location): (r: Option<Navigation>)
    ensures r.Some? <==> ToSearch(f) != loc.search
    ensures r.Some? ==> r.value.replace && r.value.to == Location(NotificationsPath, ToSearch(f))
  {
    var search := ToSearch(f);
    if search != loc.search then Some(Navigation(Location(NotificationsPath, search), true)) else None
  }

  /** Running the effect again after its own write, with the criteria unchanged, writes nothing. */
  lemma SyncSettles(f: FilterState, loc: Location)
    ensures var nav := SyncDecision(f, loc);
      nav.Some? ==> SyncDecision(f, nav.value.to).None?
  {
  }

  /** A key the codec does not know (such as `n`) in the address bar forces a rewrite, and the
      rewritten query holds only known keys: the unknown parameter is dropped. */
  lemma SyncDropsUnknownKeys(f: FilterState, loc: Location, i: nat)
    requires i < |loc.search| && !IsKnownPair(loc.search[i])
    ensures var nav := SyncDecision(f, loc);
      nav.Some? && forall j :: 0 <= j < |nav.value.to.search| ==> IsKnownPair(nav.value.to.search[j])
  {
    var t := ToSearch(f);
    assert forall j :: 0 <= j < |t| ==> IsKnownPair(t[j]);
    assert t != loc.search by {
      if i < |t| { assert IsKnownPair(t[i]); }
    }
  }

  /** The fields the sync effect depends on; page and page size are not among them. */
  function SyncDeps(f: FilterState): (Option<string>, Option<bool>, seq<string>, seq<string>, Option<string>, Option<string>) {
    (f.q, f.unread, f.severities, f.workflowIds, f.sort, f.range)
  }

  predicate SyncRuns(before: FilterState, after: FilterState) {
    SyncDeps(before) != SyncDeps(after)
  }

  /** Changing only page or page size does not re-run the sync, so the address bar keeps the
      old page; toggling a workflow does re-run it. */
  lemma PagingDoesNotSync(f: FilterState, page: Option<int>, pageSize: Option<int>, id: string)
    ensures !SyncRuns(f, f.(page := page, pageSize := pageSize))
    ensures SyncRuns(f, ToggleWorkflow(f, id))
  {
    var g := ToggleWorkflow(f, id);
    assert (id in f.workflowIds) != (id in g.workflowIds);
  }

  // ---------------------------------------------------------------------------
  // URL to listing

  /** The listing request is parsed from the address bar, not taken from the filter store. */
  function FetchCriteria(loc: Location): ListParams {
    ParseQuery(loc.search)
  }

  /** The listing is requested again whenever the search changes. */
  predicate FetchRuns(before: Location, after: Location) {
    before.search != after.search
  }

  /** After a rewrite the listing is requested again, with the canonical form of the criteria
      the store serialised. */
  lemma FetchAfterSync(f: FilterState, loc: Location)
    ensures var nav := SyncDecision(f, loc);
      nav.Some? ==> FetchRuns(loc, nav.value.to) && FetchCriteria(nav.value.to) == Canonical(SearchParams(f))
  {
    RoundTrip(SearchParams(f));
  }

  /** Mounting: the store takes its criteria from the address bar once, the listing is
      requested with the parsed query, and the sync effect compares the store's query with
      the address bar. */
  datatype MountResult = MountResult(filters: FilterState, fetch: ListParams, nav: Option<Navigation>)

  function Mount(loc: Location): (r: MountResult)
    ensures Normal(r.filters)
    ensures r.fetch == ParseQuery(loc.search)
    ensures r.filters.q == r.fetch.q && r.filters.unread == r.fetch.unread
    ensures r.filters.sort == r.fetch.sort && r.filters.range == r.fetch.range
    ensures r.filters.page == Some(r.fetch.page.GetOr(DefaultPage))
    ensures r.nav.Some? <==> ToSearch(r.filters) != loc.search
  {
    var f := FromSearch(loc.search);
    MountResult(f, FetchCriteria(loc), SyncDecision(f, loc))
  }

  /** An address bar already in the store's canonical form is left alone on mount. */
  lemma MountKeepsCanonicalUrl(g: FilterState, path: string)
    requires Normal(g)
    ensures Mount(Location(path, ToSearch(g))).nav.None?
  {
    SearchStable(g);
  }

  /** An address bar carrying a parameter the codec does not know is rewritten on mount. */
  lemma MountRewritesUnknownKeys(loc: Location, i: nat)
    requires i < |loc.search| && !IsKnownPair(loc.search[i])
    ensures Mount(loc).nav.Some?
  {
    SyncDropsUnknownKeys(FromSearch(loc.search), loc, i);
  }
}
