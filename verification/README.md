# Notification centre: a Dafny model of the feed viewer's state logic

The feed viewer lists monitoring notifications produced by scraping workflows. Users filter
them by text, unread state, severity and workflow, sort them by creation time, page through
them, mark them read or pinned, save named views, and open a details drawer. The filter
criteria are mirrored in the address bar's query string.

This project models that behaviour with immutable datatypes and pure functions. It leaves out
the React components, the DOM and the network. It covers:

- **Query codec** (`query.dfy`, module `Query`). `parseQuery` and `buildQuery` work over a
  query string held as a sequence of key/value pairs. The module proves the round trip and the
  fixed-point law.
- **Filter store** (`filters.dfy`, `Filters`). The criteria record and its transitions:
  shallow-merge `set`, the severity and workflow toggles, `clearWorkflows`, `fromSearch` and
  `toSearch`.
- **Notification store** (`notifications.dfy`, `NotificationStore`). It holds an id→record map
  and the display order of ids. It covers `list` (loading flag, success and failure branches),
  the live merge, and the forwarding mark/pin operations.
- **Listing collaborator** (`adapter.dfy`, `MockAdapter`). It covers `matches`, and `list`
  (filter, then sort, then slice one page). It also covers `markRead`/`markUnread`,
  `pin`/`unpin`, `listWorkflows`, and the saved views under the storage key `nc.views`.
- **Page glue** (`page.dfy`, `Page`). The records handed to the list, the store→URL sync
  decision, its dependencies, the fetch trigger, and mounting.
- **Pager** (`pagination.dfy`), **selection** (`selection.dfy`), **saved-views store**
  (`saved_views.dfy`).
- **Date grouping and list rendering** (`notification_list.dfy`).
- **Drawer** (`details_drawer.dfy`). The visible/snapshot choice, the body key and diff
  normalisation.
- **Hotkeys** (`hotkeys.dfy`). The key dispatch table.

Some supporting modules hold shared pieces:

- `wrappers.dfy`: `Option`, `Result`, `Outcome`.
- `seqs.dfy`: `Filter`, `Dedup`, `Remove`, `Reverse` and their lemmas.
- `text.dfy`: ASCII lower-casing, substring search, decimal conversion (`Number`/`String` on
  integers), lexicographic order, and `Math.max`/`Math.min`.
- `sorting.dfy`: the listing order and a stable insertion sort.
- `contracts.dfy`: the record types.

Clock readings are parameters. So are the start-of-day bounds and the parsing of a record's
creation text into a timestamp.

### Behaviour of the code worth knowing

- The live merge does not remove an id already in `order`. It also keeps no `total`.
  `MergeDuplicates` shows the repeated id.
- There is no request-sequence guard, no debounce of URL writes and no page clamp.
- `markRead`/`pin` do not update the store's copy optimistically. `ForwardingLeavesStore`
  shows this.
- The URL write rebuilds the whole query from the criteria. Any other parameter, such as an
  open-record `n`, is dropped. `SyncDropsUnknownKeys` and `MountRewritesUnknownKeys` show
  this.
- Clearing the search box stores `q: ""`. `buildQuery` omits an empty text, so the round
  trip through the address bar brings it back as absent, not as `""` (`SearchRoundTrip`).
- The sync effect does not react to page or page-size changes (`PagingDoesNotSync`).
- The store iterates the collaborator's reply as an array of records. The reply is really an
  object with `items`, `total`, `page` and `pageSize` (see Findings). The store's `List`
  takes an abstract success payload of records. `ListWithReply` models the code as written.

## Model

| member | source | states |
|---|---|---|
| Query.ParseQuery | src/url/query.ts:14-27 | `q`, `sort` and `range` are the first value under their key, and absent when it is missing or empty. `unread` is `true` exactly for `unread=1` and never `false`. `sev`/`wf` are all values in occurrence order, and absent when there are none. `page`/`ps` follow the count rule with defaults 1 and 10: absent exactly when missing or empty, at least 1 otherwise. |
| Query.CountParam | src/url/query.ts:22-25 | Nothing exactly for missing or empty text. A nonzero number `k` gives `max(1,k)`. Text that is not a number, or is zero, gives the default. |
| Query.ParseCountDefaults | src/url/query.ts:22-25 | Non-numeric or zero `page` gives 1 and `ps` gives 10. A negative `ps` (or `page`) gives 1. |
| Query.ParseIgnoresUnknownKeys | src/url/query.ts:14-27 | Deleting every pair whose key is not one of the eight known keys leaves the parse unchanged. |
| Query.BuildQuery | src/url/query.ts:29-40 | Keys are emitted in the order q, unread, sev, wf, sort, range, page, ps, and only known keys. Per key: `q`/`sort`/`range` when non-empty, `unread=1` when true, every `sev`/`wf` value in input order, `page` only above 1, `ps` only when set and not 10. |
| Query.BuildNothing | src/url/query.ts:29-40 | All-absent parameters give the empty string. |
| Query.RoundTrip | src/url/query.ts:14-40 | `parseQuery(buildQuery(p))` is `p` with falsy values dropped, page 1 and size 10 made absent, and a negative size read back as 1. |
| Query.ParsedRoundTrip | src/url/query.ts:14-40 | For parsed parameters the round trip is exact, except page 1 and size 10 come back absent. |
| Query.CanonicalParsed | src/url/query.ts:14-27 | A parsed criteria record is canonical apart from the default page 1 and page size 10. |
| Query.BuildDropDefaults | src/url/query.ts:37-38 | Making page 1 and size 10 absent does not change the emitted string. |
| Query.CanonicalStringIsFixedPoint | src/url/query.ts:14-40 | `buildQuery ∘ parseQuery` is idempotent: a string it built is a fixed point. |
| Text.IntStringRoundTrip | src/url/query.ts:37-38 | `Number(String(n))` is `n` for every integer, so a written page or size reads back unchanged. |
| Text.Contains | src/api/mockAdapter.ts:63 | `includes` holds exactly when some suffix of the text starts with the needle. |
| Filters.Set | src/store/useFilters.ts:27 | A shallow merge keeps the sets duplicate-free, and an empty patch changes nothing. |
| Filters.SetQueryKeepsPage | src/store/useFilters.ts:27 | Patching only `q` overwrites `q` and nothing else. The page is not reset. |
| Filters.SetPageOnly | src/store/useFilters.ts:27 | Patching only `page` changes only `page`. |
| Filters.Toggle | src/store/useFilters.ts:56-57 | Membership of the toggled value flips and nothing else changes membership. The set stays duplicate-free. |
| Filters.ToggleTwice | src/store/useFilters.ts:56-57 | Toggling twice restores membership. When the value was absent it restores the exact sequence. |
| Filters.ToggleSeverity | src/store/useFilters.ts:55-60 | Flips one severity, sets page 1, and leaves every other field unchanged. |
| Filters.ToggleWorkflow | src/store/useFilters.ts:61-66 | Flips one workflow id, sets page 1, and leaves every other field unchanged. |
| Filters.ClearWorkflows | src/store/useFilters.ts:67 | Empties the workflow ids, sets page 1, and leaves the rest unchanged. |
| Filters.ToggleSeverityTwice | src/store/useFilters.ts:55-60 | Toggling a severity twice restores the severity set. Only the page becomes 1. |
| Filters.ToggleWorkflowTwice | src/store/useFilters.ts:61-66 | Toggling a workflow twice restores the workflow set. Only the page becomes 1. |
| Filters.FromSearch | src/store/useFilters.ts:28-40 | Every field is replaced from the parse. Page and size default to 1 and 10. Repeated `sev`/`wf` values collapse to sets with the same members. |
| Filters.ToSearch | src/store/useFilters.ts:41-54 | No `sev=info` pair is ever written. The `sev` values are the severities minus `info`, and the `wf` values are the workflow set, in order. |
| Filters.InitialToSearch | src/store/useFilters.ts:22-26 | The initial state serialises to the empty string. |
| Filters.TransitionsKeepNormal | src/store/useFilters.ts:55-67 | The toggles and `clearWorkflows` keep the state normal: sets duplicate-free, no explicit `unread: false`, no empty sort or range, page and size present and positive. |
| Filters.HeaderEditsKeepNormal | src/components/HeaderBar.tsx:43-52 | Any search text, including the empty one, and the All/Unread switch keep the state normal. |
| Filters.PageChangeKeepsNormal | src/store/useFilters.ts:27 | Setting a positive page keeps the state normal. |
| Filters.SearchRoundTrip | src/store/useFilters.ts:28-54 | For a normal state, reading back what `toSearch` wrote restores every field, except that `info` has left the severities and an empty search text comes back absent. |
| Filters.RewriteWritesSame | src/store/useFilters.ts:41-54 | Dropping `info` again and making an empty search text absent do not change what `toSearch` writes. |
| Filters.SearchStable | src/store/useFilters.ts:28-54 | For a normal state, including one with an empty search text, write, read, write gives the same string as the first write. |
| Sorting.Sort | src/api/mockAdapter.ts:76 | The result is ordered by creation text (ascending for `oldest`, else descending) and is a permutation of the input. |
| MockAdapter.Matches | src/api/mockAdapter.ts:60-69 | A record matches exactly when: a non-empty `q` occurs case-insensitively in title or domain; a truthy `unread` sees an unread record; a non-empty severity list contains the record's severity; a non-empty workflow list contains its workflow. |
| MockAdapter.Selected | src/api/mockAdapter.ts:73-75 | A record is selected exactly when it is stored, not snoozed past the clock, and matches. |
| MockAdapter.Ranked | src/api/mockAdapter.ts:73-76 | The selected records in listing order, as a permutation of the selection. |
| MockAdapter.Slice | src/api/mockAdapter.ts:80-82 | `slice(start, end)` keeps the elements from `start`, stops at `end` or the end, and is empty past the end. |
| MockAdapter.List | src/api/mockAdapter.ts:77-88 | `total` is the number of selected records. `page` and `pageSize` are the request's values (default 1 and 10) raised to at least 1. |
| MockAdapter.ListPage | src/api/mockAdapter.ts:73-82 | Every returned item matches and is not snoozed. Items are in listing order, and there are at most `pageSize` of them. |
| MockAdapter.ListPageWindow | src/api/mockAdapter.ts:76-82 | The page is exactly the ranked records from `(page-1)*pageSize` on. Its length is `min(pageSize, total-start)`, and 0 when the start is at or beyond `total`. |
| MockAdapter.TotalIgnoresPaging | src/api/mockAdapter.ts:77 | `total` does not depend on the page or page size asked for. |
| MockAdapter.RangeIgnored | src/api/mockAdapter.ts:72-89 | The result does not depend on `range`: no step of the listing reads it. |
| MockAdapter.SelectionIgnoresRange | src/api/mockAdapter.ts:73-75 | The records selected before sorting do not depend on `range`. |
| MockAdapter.MarkRead | src/api/mockAdapter.ts:90-93 | A record becomes read exactly when its id is listed. No other field or record changes, and saved views are untouched. |
| MockAdapter.MarkUnread | src/api/mockAdapter.ts:94-97 | A record becomes unread exactly when its id is listed. No other field or record changes. |
| MockAdapter.FirstIndex | src/api/mockAdapter.ts:98-99 | `find` returns the first position with the id, or nothing when no record has it. |
| MockAdapter.SetPinned | src/api/mockAdapter.ts:98-99 | `pin`/`unpin` change `pinned` on the first record with the id only. An unknown id changes nothing. |
| MockAdapter.Counts | src/api/mockAdapter.ts:101-102 | The count table has an entry for exactly the workflow ids that occur. |
| MockAdapter.ListWorkflows | src/api/mockAdapter.ts:100-104 | One entry per known workflow, in the fixed order, each with a count. |
| MockAdapter.CountsAreBits | src/api/mockAdapter.ts:101-102 | When no record id equals a workflow id, every count as written is 0 or 1. |
| MockAdapter.CountsLastBit | src/api/mockAdapter.ts:101-102 | When no record id is also a workflow id, a workflow's entry in the table as written is the unread bit (1 or 0) of its last record. |
| MockAdapter.ListWorkflowCountsAreBits | src/api/mockAdapter.ts:100-104 | When no record id is also a workflow id, the listed counts as written are 0 or 1. |
| MockAdapter.CountUndercounts | src/api/mockAdapter.ts:102 | Two unread "hn" records give "hn" a count of 1 as written, where the unread count is 2. |
| MockAdapter.UnreadCounts | src/api/mockAdapter.ts:101-102 | The intended table maps each workflow id to its number of unread records. An absent id has none. |
| MockAdapter.ListWorkflowsIntended | src/api/mockAdapter.ts:100-104 | The intended listing gives each known workflow, in order, with its unread count. |
| MockAdapter.SaveView | src/api/mockAdapter.ts:109-115 | Fails with "Name already exists" exactly when a stored view has the same name ignoring case, and then leaves storage unchanged. Otherwise it appends the view. |
| MockAdapter.WithoutId | src/api/mockAdapter.ts:118 | The kept views are exactly those whose id differs, and there are no more of them than before. |
| MockAdapter.WithoutIdAppend | src/api/mockAdapter.ts:118 | Removal distributes over concatenation: the kept views keep their order and multiplicity. |
| MockAdapter.WithoutIdSingle | src/api/mockAdapter.ts:118 | A single view is kept exactly when its id differs from the one removed. |
| MockAdapter.WithoutIdAbsent | src/api/mockAdapter.ts:118 | When no view has the id, the list is unchanged. |
| MockAdapter.DeleteView | src/api/mockAdapter.ts:116-119 | The stored list is the previous one without the views carrying the id. It always writes the key. |
| MockAdapter.DeleteUndoesSave | src/api/mockAdapter.ts:109-119 | Deleting the id of a view just saved under a fresh id restores the earlier list. |
| MockAdapter.DeleteTwice | src/api/mockAdapter.ts:116-119 | Deleting the same id twice is deleting it once. |
| MockAdapter.SaveTwice | src/api/mockAdapter.ts:109-115 | Saving the same fresh name twice succeeds once, is rejected once, and stores exactly one view of that name. |
| NotificationStore.Index | src/store/useNotifications.ts:26-27 | The map's keys are exactly the response ids. |
| NotificationStore.IndexLast | src/store/useNotifications.ts:26-27 | A repeated id keeps its last record. |
| NotificationStore.BeginList | src/store/useNotifications.ts:23 | Loading is raised and the error cleared before awaiting. The collection is untouched. |
| NotificationStore.Settle | src/store/useNotifications.ts:25-29 | Loading ends. Success installs the response ids in response order and their index, which is consistent. Failure records the message and keeps the collection. |
| NotificationStore.List | src/store/useNotifications.ts:22-30 | After `list`, loading is false. Success clears the error, the order is the response ids and the map holds each id's last record. Failure keeps `items`/`order` exactly. |
| NotificationStore.ListWithReply | src/store/useNotifications.ts:25-29 | As written, fed the collaborator's reply object, the store always fails and keeps its collection. |
| NotificationStore.ReplyNeverShown | src/store/useNotifications.ts:25-29 | Even when the collaborator finds records, the store as written shows none and reports an error. |
| NotificationStore.ListWithReplyIntended | src/store/useNotifications.ts:25-28 | Iterating the reply's `items` gives a consistent store whose order is the page's ids. |
| NotificationStore.IntendedShowsPage | src/store/useNotifications.ts:25-28 | With the intended `list`, every shown record matches the criteria and is not snoozed. |
| NotificationStore.Merge | src/store/useNotifications.ts:35-40 | The merge keeps loading and error. The order grows by the batch size, and the keys become the old keys plus the batch ids. |
| NotificationStore.MergeShape | src/store/useNotifications.ts:36-39 | The new order is the batch ids, last first, in front of the old order. The new map is the old map overridden by the batch's index. |
| NotificationStore.MergeKeepsConsistent | src/store/useNotifications.ts:36-39 | The keys of the map equal the ids in the order after every merge. |
| NotificationStore.MergeKeepsOthers | src/store/useNotifications.ts:36-39 | Records outside the batch keep their entry. Each batch id holds its last delivered record. |
| NotificationStore.MergeDuplicates | src/store/useNotifications.ts:37-38 | Merging a record already listed leaves its id twice in the order. |
| NotificationStore.ForwardingLeavesStore | src/store/useNotifications.ts:31-34 | `markRead`/`markUnread`/`pin`/`unpin` leave the store's map, order and flags unchanged. |
| Page.ListItems | src/routes/NotificationsPage.tsx:50 | The list holds exactly the records of ids in `order` that have one, and is no longer than `order`. |
| Page.ListItemsAppend | src/routes/NotificationsPage.tsx:50 | The list distributes over concatenation of the order: records appear in the order of their ids, once per occurrence. |
| Page.ListItemsSingle | src/routes/NotificationsPage.tsx:50 | One id contributes its record, or nothing when it has none. |
| Page.ListItemsFollowsOrder | src/routes/NotificationsPage.tsx:50 | When every id has a record, position `i` holds the record of `order[i]`. |
| Page.StoreItemsAllShown | src/routes/NotificationsPage.tsx:50 | For a consistent store nothing is dropped and the list follows `order` exactly. |
| Page.SyncDecision | src/routes/NotificationsPage.tsx:44-47 | A write happens exactly when the criteria's query differs from the current one. It is a replace to `/notifications` with that query. |
| Page.SyncSettles | src/routes/NotificationsPage.tsx:45-47 | Re-running the sync after its own write, with unchanged criteria, writes nothing. |
| Page.SyncDropsUnknownKeys | src/routes/NotificationsPage.tsx:44-47 | An unknown key in the address bar forces a write, and the written query holds only known keys. |
| Page.PagingDoesNotSync | src/routes/NotificationsPage.tsx:48 | A page or size change does not re-run the sync. A workflow toggle does. |
| Page.FetchAfterSync | src/routes/NotificationsPage.tsx:37 | After a write the listing is requested again, with the canonical form of the store's criteria parsed from the new query. |
| Page.Mount | src/routes/NotificationsPage.tsx:36-37 | On mount the store is normal and agrees with the fetch criteria on text, unread, sort, range and page. A write is decided against the address bar. |
| Page.MountKeepsCanonicalUrl | src/routes/NotificationsPage.tsx:36-47 | An address bar already in the store's canonical form is not rewritten on mount. |
| Page.MountRewritesUnknownKeys | src/routes/NotificationsPage.tsx:36-47 | An address bar with an unknown parameter is rewritten on mount. |
| Pagination.CeilDiv | src/components/Pagination.tsx:2 | `ceil(a/d)` is the `c` with `(c-1)·d < a ≤ c·d`. |
| Pagination.TotalPages | src/components/Pagination.tsx:2 | The page count is at least 1. It is 1 when the total fits one page, else the least `c` with `c·size ≥ total`. |
| Pagination.TotalPagesExample | src/components/Pagination.tsx:2 | 25 records at size 10 make 3 pages, 30 make 3, and 0 make 1. |
| Pagination.Render | src/components/Pagination.tsx:3-27 | Nothing is rendered exactly when there is at most one page. Otherwise: Prev requests page−1 and is disabled unless page>1. Next requests page+1 and is disabled unless page<totalPages. The buttons are 1..min(4,totalPages), each requesting its number and marking the current page. |
| Pagination.EnabledTargetsInRange | src/components/Pagination.tsx:13-27 | For a current page with 1 ≤ page ≤ totalPages: every enabled control, and every numbered button, requests a page between 1 and the last page. |
| Pagination.StalePage | src/components/Pagination.tsx:13-27 | For a page past the last, nothing clamps it: Prev stays enabled and requests a page at or past the last, Next is disabled, and no numbered button is current. |
| Pagination.StalePageExample | src/components/Pagination.tsx:13-27 | Page 10 of 25 records at size 10: three pages, and Prev is enabled requesting page 9. |
| Selection.Toggle | src/store/useSelection.ts:12-16 | Adds an absent id or removes a present one. Other ids are untouched. |
| Selection.Clear | src/store/useSelection.ts:17 | The selection becomes empty. |
| Selection.SelectMany | src/store/useSelection.ts:18 | The selection becomes exactly the given ids, with duplicates collapsed. |
| Selection.ToggleTwice | src/store/useSelection.ts:12-16 | Toggling twice restores the selection. |
| Selection.TogglesCommute | src/store/useSelection.ts:12-16 | Toggles of two ids commute. |
| SavedViewsStore.Load | src/store/useSavedViews.ts:14-17 | With nothing stored the views are empty. Otherwise they equal the stored list. Storage is not written. |
| SavedViewsStore.Save | src/store/useSavedViews.ts:18-22 | The view is appended at the end without a name check, and the stored copy equals the views. |
| SavedViewsStore.Remove | src/store/useSavedViews.ts:23-27 | The views are the previous ones without those carrying the id, as the collaborator's removal keeps them (unchanged when none has it). The stored copy equals the views. |
| SavedViewsStore.RemoveUndoesSave | src/store/useSavedViews.ts:18-27 | Removing the id of a view just saved under a fresh id restores the earlier views. |
| SavedViewsStore.Apply | src/store/useSavedViews.ts:28 | Returns the view's query unchanged and leaves the state alone. |
| SavedViewsStore.ReloadAfterWrite | src/store/useSavedViews.ts:14-27 | Loading after `save` or `remove` gives back exactly the state they produced. |
| SavedViewsStore.SaveKeepsDuplicateNames | src/store/useSavedViews.ts:18-22 | This store keeps two views of the same name, which the collaborator's `saveView` would reject. |
| NotificationList.BucketOf | src/components/NotificationList.tsx:29-32 | Today exactly for a timestamp at or after the start of today. Yesterday exactly for one between the start of yesterday and the start of today. Earlier otherwise, including invalid dates. |
| NotificationList.GroupByDate | src/components/NotificationList.tsx:22-35 | The one-pass loop gives, per bucket, the input filtered to that bucket in input order. |
| NotificationList.GroupsPartition | src/components/NotificationList.tsx:27-33 | Every record lands in the group of its bucket and in no other, and the group sizes add up to the input size. |
| NotificationList.Sections | src/components/NotificationList.tsx:58-66 | Sections come in the order Today, Yesterday, Earlier. A section appears exactly when its group is non-empty, and holds that group. |
| NotificationList.Render | src/components/NotificationList.tsx:37-68 | Loading renders exactly 4 skeleton rows. Otherwise no items renders the empty state. Otherwise the ordered non-empty groups are rendered. |
| NotificationList.RenderShowsEachItem | src/components/NotificationList.tsx:55-68 | Each record appears in the section of its bucket. A bucket is shown exactly when some record falls in it, and at least one section is shown. |
| DetailsDrawer.Visible | src/components/DetailsDrawer.tsx:29 | While open the current record is shown, or the snapshot when there is none. While closed the snapshot is shown. |
| DetailsDrawer.TakeSnapshot | src/components/DetailsDrawer.tsx:26-28 | The snapshot changes only when the drawer is open with a record, and then becomes that record. |
| DetailsDrawer.BodyKey | src/components/DetailsDrawer.tsx:43 | The key is the shown record's id, or "closed". |
| DetailsDrawer.ClosingKeepsContent | src/components/DetailsDrawer.tsx:26-29 | After closing, the last record stays visible until the leave transition clears the snapshot (line 75). Then nothing is shown and the key is "closed". |
| DetailsDrawer.RawDiff | src/components/DetailsDrawer.tsx:127 | The payload is `diff` unless it is undefined or null, in which case it is `changes`. |
| DetailsDrawer.Lookup | src/components/DetailsDrawer.tsx:132-133 | A key is found exactly when the object has it, and the value found is an entry's value under that key. |
| DetailsDrawer.EntryRow | src/components/DetailsDrawer.tsx:131-136 | A value with both `before` and `after` gives those two. Any other value gives `before` undefined and `after` the value. The field is the entry's key. |
| DetailsDrawer.Entries | src/components/DetailsDrawer.tsx:131 | `Object.entries`: an object's entries, a string's characters under their indices, nothing for numbers and booleans. |
| DetailsDrawer.DiffOf | src/components/DetailsDrawer.tsx:127-137 | No payload means no diff. A non-empty array passes through unchanged. An object gives one row per entry in entry order. Empty rows mean no diff. |
| DetailsDrawer.DiffPreferred | src/components/DetailsDrawer.tsx:127 | A present `diff` makes `changes` irrelevant. |
| DetailsDrawer.ChangesFallback | src/components/DetailsDrawer.tsx:127 | With `diff` undefined or null the result is what `changes` alone gives. |
| DetailsDrawer.StringPayloadRows | src/components/DetailsDrawer.tsx:131-136 | A string payload gives one row per character, with fields "0", "1", … and no `before`. |
| DetailsDrawer.ScalarsShowNoDiff | src/components/DetailsDrawer.tsx:128-137 | A number or boolean payload shows no diff. |
| Hotkeys.Decide | src/hooks/useHotkeys.ts:17-25 | The table selects focusSearch exactly for Ctrl/Meta with '/'. It selects open, refresh, pin, markRead and markUnread exactly for o, r, p, ']' and '[' (any case, any modifiers). It selects gotoCritical/gotoUnread exactly for Shift with k/u. |
| Hotkeys.OnKeyFollowsTable | src/hooks/useHotkeys.ts:16-26 | The default is prevented exactly once when a row matches, even with no handler, and never otherwise. At most the selected action fires. |
| Hotkeys.SlashNeedsModifier | src/hooks/useHotkeys.ts:18 | A plain '/' does nothing. With Ctrl it focuses the search. |
| Hotkeys.CaseAndModifiers | src/hooks/useHotkeys.ts:17-25 | 'o' and 'O' open under any modifiers. 'k' without Shift does nothing. 'K' with Shift goes to critical. |

## Left out

- Rendering, layout, focus management, scroll locking, transitions and markup are left out. The
  model keeps only the decisions they depend on.
- Seeding the collaborator, record ids (`nanoid`, `Math.random`), `date-fns` and the timer that
  invents live records are left out. They are randomness and clock. The live merge takes the
  delivered batch as a parameter.
- The clock is a parameter (`now`, the start-of-day bounds). A record's `snoozedUntil` is
  modelled as an already-parsed timestamp; an invalid snooze date (which the code treats as
  still snoozed) is not modelled.
- Query strings are sequences of decoded key/value pairs. Percent-encoding and the leading '?'
  are abstracted.
- Page.SyncDecision: compares decoded pairs, while the code compares the raw search text. The
  code therefore rewrites, for example, `?q=a%20b` to `?q=a+b`, where the model writes nothing.
- Pagination.EnabledTargetsInRange: holds only for a page between 1 and the last page. Nothing
  clamps a stale page; `StalePage` states what the pager shows then.
- `Number()` is modelled on optionally signed decimal integers only. Fractions, exponents,
  blanks, hexadecimal and `Infinity` are floating-point or lexical details left out. Numbers
  are exact unbounded integers, so the precision loss of doubles is not modelled either:
  `Number("9007199254740993")` is 9007199254740992 in the code but exact here.
- Query.CountParam: exact for any integer text; the code's value differs once the magnitude
  passes 2^53, where doubles lose precision.
- Query.BuildQuery: writes page and page size as plain decimal digits. `String(n)` in the
  code switches to exponent form from 1e21 on (`"1e+21"`), which is not modelled.
- `toLowerCase` is ASCII lower-casing. `localeCompare` is plain lexicographic order on
  characters. Locale collation is outside Dafny's string model.
- `Object.entries` is read in the entry order the value carries. JavaScript's reordering of
  integer-like keys and duplicate keys in parsed JSON are not modelled. A string is iterated
  by character, not by UTF-16 code unit.
- The storage key `nc.views` holds the view list itself. JSON encoding and corrupt stored text
  are left out.
- Overlapping `list` calls and their interleaving are a concurrency race. Each `list` is one
  atomic step.
- React effect scheduling is left out. Effect dependencies are compared by value. The source
  compares the filter sets by identity, and every toggle creates a new set.
- NotificationStore.MarkRead, NotificationStore.MarkUnread, NotificationStore.Pin and
  NotificationStore.Unpin carry no contract of their own. What they do is stated by
  `ForwardingLeavesStore` and the collaborator's operations.
- MockAdapter.Pin and MockAdapter.Unpin are stated through `SetPinned`.
- Sorting.Sort: states sortedness and permutation but not stability. `Array.prototype.sort`
  promises stability and the insertion sort keeps it.
- NotificationStore.ListWithReply: the error text is the usual engine message for iterating a
  plain object. The exact wording varies by engine.

## Findings

| source | as written | input that shows it | evidently intended | confidence | as-written member | corrected member |
|---|---|---|---|---|---|---|
| src/api/mockAdapter.ts:102 | The running count is read with `counts.get(i.id)` and stored under `i.workflowId`. Each workflow's count is therefore the unread bit of its last record (`CountsLastBit`). | Two unread records with workflow "hn" and ids "a1", "b2" give "hn" a count of 1. | `counts.get(i.workflowId)`: the number of unread records per workflow, here 2. | high; not executed | MockAdapter.CountUndercounts | MockAdapter.ListWorkflowsIntended |
| src/store/useNotifications.ts:25-28 | `for (const n of data)` iterates the collaborator's reply. `list` returns an object `{items,total,page,pageSize}`, which is not iterable, so the catch branch always runs. | Any request for which the collaborator finds at least one record: the store shows nothing and sets an error. | Iterate `data.items` and take the ids from it. | medium (the result type's declaration is not part of this model); not executed | NotificationStore.ReplyNeverShown | NotificationStore.ListWithReplyIntended |
