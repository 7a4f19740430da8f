/** The in-memory listing and mutation collaborator: a record array plus the saved views
    kept in the browser's key/value storage under `nc.views`. Seeding, id generation and the
    timer that invents live records are not part of this model; the clock is a parameter. */
module MockAdapter {
  import opened Wrappers
  import opened Seqs
  import opened Text
  import opened Contracts
  import opened Query
  import opened Sorting

  /** The collaborator's state: its records and the stored saved views (`None` when the
      storage key is unset). */
  datatype Db = Db(items: seq<Notification>, stored: Option<seq<SavedView>>)

  /** The five known workflows, in display order. */
  const Workflows: seq<Workflow> := [
    Workflow("hn", "Hacker News", None),
    Workflow("pricing", "Pricing", None),
    Workflow("reg", "Regulatory", None),
    Workflow("blog", "Blog", None),
    Workflow("social", "Social", None)]

  // ---------------------------------------------------------------------------
  // Filtering

  /** A non-empty `q` must occur, ignoring case, in the title or the source domain. */
  predicate TextOk(n: Notification, p: ListParams) {
    p.q.None? || p.q.value == ""
    || Contains(Lower(n.title), Lower(p.q.value))
    || Contains(Lower(n.sourceDomain), Lower(p.q.value))
  }

  /** Only a truthy `unread` restricts, and then to unread records. */
  predicate UnreadOk(n: Notification, p: ListParams) {
    p.unread == Some(true) ==> n.unread
  }

  /** A missing or empty severity list imposes nothing. */
  predicate SeverityOk(n: Notification, p: ListParams) {
    p.severity.None? || |p.severity.value| == 0 || SeverityName(n.severity) in p.severity.value
  }

  /** A missing or empty workflow list imposes nothing. */
  predicate WorkflowOk(n: Notification, p: ListParams) {
    p.workflowIds.None? || |p.workflowIds.value| == 0 || n.workflowId in p.workflowIds.value
  }

  /** `matches`, written as its sequence of early rejections. */
  function Matches(n: Notification, p: ListParams): (r: bool)
    ensures r <==> TextOk(n, p) && UnreadOk(n, p) && SeverityOk(n, p) && WorkflowOk(n, p)
  {
    if p.q.Some? && p.q.value != ""
       && !Contains(Lower(n.title), Lower(p.q.value))
       && !Contains(Lower(n.sourceDomain), Lower(p.q.value)) then false
    else if p.unread == Some(true) && !n.unread then false
    else if p.severity.Some? && |p.severity.value| > 0 && SeverityName(n.severity) !in p.severity.value then false
    else if p.workflowIds.Some? && |p.workflowIds.value| > 0 && n.workflowId !in p.workflowIds.value then false
    else true
  }

  /** A record is listed unless it is snoozed until a moment not yet past. */
  predicate NotSnoozed(n: Notification, now: int) {
    n.snoozedUntil.None? || n.snoozedUntil.value < now
  }

  function Keep(p: ListParams, now: int): Notification -> bool {
    n => NotSnoozed(n, now) && Matches(n, p)
  }

  /** The records a listing selects, before sorting. */
  function Selected(db: Db, p: ListParams, now: int): (r: seq<Notification>)
    ensures forall n :: n in r <==> n in db.items && NotSnoozed(n, now) && Matches(n, p)
  {
    FilterMembers(db.items, Keep(p, now));
    Filter(db.items, Keep(p, now))
  }

  /** The selected records in listing order: newest first unless `sort` is "oldest". */
  function Ranked(db: Db, p: ListParams, now: int): (r: seq<Notification>)
    ensures Sorted(p.sort == Some("oldest"), r)
    ensures multiset(r) == multiset(Selected(db, p, now))
    ensures |r| == |Selected(db, p, now)|
  {
    Sort(p.sort == Some("oldest"), Selected(db, p, now))
  }

  datatype ListResult = ListResult(items: seq<Notification>, total: int, page: int, pageSize: int)

  /** `Array.prototype.slice(start, end)` for `0 <= start <= end`. */
  function Slice<T>(s: seq<T>, start: nat, end: nat): (r: seq<T>)
    requires start <= end
    ensures |r| == if start >= |s| then 0 else Min(end, |s|) - start
    ensures forall i :: 0 <= i < |r| ==> r[i] == s[start + i]
  {
    if start >= |s| then [] else s[start..Min(end, |s|)]
  }

  /** `list`: filter, sort, then cut out one page. `range` is accepted and ignored. What the
      page holds is stated by `ListPage`. */
  function List(db: Db, p: ListParams, now: int): (r: ListResult)
    ensures r.total == |Selected(db, p, now)|
    ensures r.page == Max(1, p.page.GetOr(DefaultPage)) && r.page >= 1
    ensures r.pageSize == Max(1, p.pageSize.GetOr(DefaultPageSize)) && r.pageSize >= 1
  {
    var pageSize := Max(1, p.pageSize.GetOr(DefaultPageSize));
    var page := Max(1, p.page.GetOr(DefaultPage));
    var start: nat := (page - 1) * pageSize;
    ListResult(Slice(Ranked(db, p, now), start, start + pageSize), |Selected(db, p, now)|, page, pageSize)
  }

  /** The page holds only listed records, in listing order, at most `pageSize` of them. */
  lemma ListPage(db: Db, p: ListParams, now: int)
    ensures var r := List(db, p, now);
      && (forall n :: n in r.items ==> Matches(n, p) && NotSnoozed(n, now))
      && Sorted(p.sort == Some("oldest"), r.items)
      && |r.items| <= r.pageSize
  {
    PageListed(db, p, now);
    PageSorted(db, p, now);
    var r := List(db, p, now);
    WindowShape(Ranked(db, p, now), PageStart(r), r.pageSize);
  }

  lemma PageListed(db: Db, p: ListParams, now: int)
    ensures forall n :: n in List(db, p, now).items ==> n in Selected(db, p, now)
  {
    var r := List(db, p, now);
    forall n | n in r.items ensures n in Selected(db, p, now) {
      WindowMember(Ranked(db, p, now), Selected(db, p, now), PageStart(r), r.pageSize, n);
    }
  }

  lemma PageSorted(db: Db, p: ListParams, now: int)
    ensures Sorted(p.sort == Some("oldest"), List(db, p, now).items)
  {
    var r := List(db, p, now);
    WindowSorted(p.sort == Some("oldest"), Ranked(db, p, now), PageStart(r), r.pageSize);
  }

  /** The page is exactly the ranked records from `PageStart` on, as many as fit in a page and
      remain; a page past the end is empty. */
  lemma ListPageWindow(db: Db, p: ListParams, now: int)
    ensures var r := List(db, p, now);
      && |r.items| == (if PageStart(r) >= r.total then 0 else Min(r.pageSize, r.total - PageStart(r)))
      && (PageStart(r) >= r.total ==> r.items == [])
      && (PageStart(r) + |r.items| <= r.total || r.items == [])
      && (forall i :: 0 <= i < |r.items| ==> r.items[i] == Ranked(db, p, now)[PageStart(r) + i])
  {
    var r := List(db, p, now);
    var ranked := Ranked(db, p, now);
    assert r.items == Slice(ranked, PageStart(r), PageStart(r) + r.pageSize);
    ResultWindow(r, ranked);
  }

  /** A result cut out of `ranked` has the window's shape. */
  lemma ResultWindow(r: ListResult, ranked: seq<Notification>)
    requires r.page >= 1 && r.pageSize >= 1 && |ranked| == r.total
    requires r.items == Slice(ranked, PageStart(r), PageStart(r) + r.pageSize)
    ensures |r.items| == (if PageStart(r) >= r.total then 0 else Min(r.pageSize, r.total - PageStart(r)))
    ensures PageStart(r) >= r.total ==> r.items == []
    ensures PageStart(r) + |r.items| <= r.total || r.items == []
    ensures forall i :: 0 <= i < |r.items| ==> r.items[i] == ranked[PageStart(r) + i]
  {
    WindowShape(ranked, PageStart(r), r.pageSize);
  }

  /** The index, in listing order, of the first record of the page. */
  function PageStart(r: ListResult): nat
    requires r.page >= 1 && r.pageSize >= 1
  {
    (r.page - 1) * r.pageSize
  }

  lemma WindowShape(ranked: seq<Notification>, start: nat, size: nat)
    ensures var items := Slice(ranked, start, start + size);
      && |items| == (if start >= |ranked| then 0 else Min(size, |ranked| - start))
      && |items| <= size
      && (start >= |ranked| ==> items == [])
      && (start + |items| <= |ranked| || items == [])
      && forall i :: 0 <= i < |items| ==> start + i < |ranked| && items[i] == ranked[start + i]
  {
  }

  /** A window of a permutation of `sel` holds only members of `sel`. */
  lemma WindowMember(ranked: seq<Notification>, sel: seq<Notification>, start: nat, size: nat, n: Notification)
    requires multiset(ranked) == multiset(sel)
    requires n in Slice(ranked, start, start + size)
    ensures n in sel
  {
    var items := Slice(ranked, start, start + size);
    var i :| 0 <= i < |items| && items[i] == n;
    assert ranked[start + i] in multiset(ranked);
  }

  /** A window of a sorted sequence is sorted. */
  lemma WindowSorted(oldest: bool, ranked: seq<Notification>, start: nat, size: nat)
    requires Sorted(oldest, ranked)
    ensures Sorted(oldest, Slice(ranked, start, start + size))
  {
    var items := Slice(ranked, start, start + size);
    forall i | 0 <= i < |items| - 1 ensures InOrderAt(oldest, items, i) {
      assert items[i] == ranked[start + i] && items[i + 1] == ranked[start + i + 1];
      assert InOrderAt(oldest, ranked, start + i);
    }
  }

  /** The total does not depend on the page asked for. */
  lemma TotalIgnoresPaging(db: Db, p: ListParams, now: int, page: Option<int>, pageSize: Option<int>)
    ensures List(db, p.(page := page, pageSize := pageSize), now).total == List(db, p, now).total
  {
    FilterExt(db.items, Keep(p.(page := page, pageSize := pageSize), now), Keep(p, now));
  }

  /** `range` is accepted but plays no part in the listing. */
  lemma RangeIgnored(db: Db, p: ListParams, now: int, range: Option<string>)
    ensures List(db, p.(range := range), now) == List(db, p, now)
  {
    SelectionIgnoresRange(db, p, now, range);
    assert Ranked(db, p.(range := range), now) == Ranked(db, p, now);
  }

  lemma SelectionIgnoresRange(db: Db, p: ListParams, now: int, range: Option<string>)
    ensures Selected(db, p.(range := range), now) == Selected(db, p, now)
  {
    FilterExt(db.items, Keep(p.(range := range), now), Keep(p, now));
  }

  // ---------------------------------------------------------------------------
  // Mutations

  /** `markRead`/`markUnread` take one id or an array of ids. */
  datatype IdArg = One(id: string) | Many(ids: seq<string>)

  function IdList(a: IdArg): seq<string> {
    match a
    case One(id) => [id]
    case Many(ids) => ids
  }

  /** Sets `unread` to `flag` on every record whose id is listed. */
  function SetUnread(items: seq<Notification>, ids: seq<string>, flag: bool): (r: seq<Notification>)
    ensures |r| == |items|
    ensures forall i :: 0 <= i < |r| ==>
      r[i].unread == (if items[i].id in ids then flag else items[i].unread)
      && r[i].(unread := items[i].unread) == items[i]
  {
    seq(|items|, i requires 0 <= i < |items| =>
      if items[i].id in ids then items[i].(unread := flag) else items[i])
  }

  function MarkRead(db: Db, a: IdArg): (r: Db)
    ensures r.stored == db.stored
    ensures |r.items| == |db.items|
    ensures forall i :: 0 <= i < |r.items| ==>
      r.items[i].unread == (db.items[i].unread && db.items[i].id !in IdList(a))
      && r.items[i].(unread := db.items[i].unread) == db.items[i]
  {
    db.(items := SetUnread(db.items, IdList(a), false))
  }

  function MarkUnread(db: Db, a: IdArg): (r: Db)
    ensures r.stored == db.stored
    ensures |r.items| == |db.items|
    ensures forall i :: 0 <= i < |r.items| ==>
      r.items[i].unread == (db.items[i].unread || db.items[i].id in IdList(a))
      && r.items[i].(unread := db.items[i].unread) == db.items[i]
  {
    db.(items := SetUnread(db.items, IdList(a), true))
  }

  /** `Array.prototype.find`'s position: the first record with this id. */
  function FirstIndex(items: seq<Notification>, id: string): (r: Option<nat>)
    ensures r.Some? ==> r.value < |items| && items[r.value].id == id
                        && forall j :: 0 <= j < r.value ==> items[j].id != id
    ensures r.None? ==> forall j :: 0 <= j < |items| ==> items[j].id != id
  {
    if |items| == 0 then None
    else if items[0].id == id then Some(0)
    else match FirstIndex(items[1..], id)
      case None => None
      case Some(k) => Some(k + 1)
  }

  /** Sets `pinned` on the first record with this id; an unknown id changes nothing. */
  function SetPinned(db: Db, id: string, flag: bool): (r: Db)
    ensures r.stored == db.stored && |r.items| == |db.items|
    ensures (forall j :: 0 <= j < |db.items| ==> db.items[j].id != id) ==> r == db
    ensures forall k :: 0 <= k < |db.items| && db.items[k].id == id
                        && (forall j :: 0 <= j < k ==> db.items[j].id != id) ==>
      r.items == db.items[k := db.items[k].(pinned := flag)]
  {
    match FirstIndex(db.items, id)
    case None => db
    case Some(k) => db.(items := db.items[k := db.items[k].(pinned := flag)])
  }

  function Pin(db: Db, id: string): Db {
    SetPinned(db, id, true)
  }

  function Unpin(db: Db, id: string): Db {
    SetPinned(db, id, false)
  }

  // ---------------------------------------------------------------------------
  // Workflows

  /** The count table `listWorkflows` builds: for each record in turn it stores, under the
      record's workflow id, the value found under the record's own id (or 0) plus one if the
      record is unread. */
  function Counts(items: seq<Notification>): (r: map<string, int>)
    ensures forall k :: k in r <==> exists i :: 0 <= i < |items| && items[i].workflowId == k
  {
    if |items| == 0 then map[]
    else
      var c := Counts(items[..|items| - 1]);
      var n := items[|items| - 1];
      var r := c[n.workflowId := (if n.id in c then c[n.id] else 0) + (if n.unread then 1 else 0)];
      assert forall k :: k in r <==> exists i :: 0 <= i < |items| && items[i].workflowId == k by {
        forall k | k in r ensures exists i :: 0 <= i < |items| && items[i].workflowId == k {
          if k != n.workflowId {
            var i :| 0 <= i < |items| - 1 && items[..|items| - 1][i].workflowId == k;
            assert items[i].workflowId == k;
          }
        }
        forall k | exists i :: 0 <= i < |items| && items[i].workflowId == k ensures k in r {
          var i :| 0 <= i < |items| && items[i].workflowId == k;
          if i < |items| - 1 { assert items[..|items| - 1][i].workflowId == k; }
        }
      }
      r
  }

  function CountOr0(c: map<string, int>, k: string): int {
    if k in c && c[k] != 0 then c[k] else 0
  }

  /** `listWorkflows`: every known workflow, in order, with its count. */
  function ListWorkflows(db: Db): (r: seq<Workflow>)
    ensures |r| == |Workflows|
    ensures forall i :: 0 <= i < |r| ==>
      r[i].id == Workflows[i].id && r[i].name == Workflows[i].name && r[i].count.Some?
  {
    var c := Counts(db.items);
    seq(|Workflows|, i requires 0 <= i < |Workflows| =>
      Workflows[i].(count := Some(CountOr0(c, Workflows[i].id))))
  }

  /** No record id doubles as a workflow id (record ids are random tokens). */
  predicate IdsApartFromWorkflows(items: seq<Notification>) {
    forall i, j :: 0 <= i < |items| && 0 <= j < |items| ==> items[i].id != items[j].workflowId
  }

  /** As written, the table never exceeds 1: each record overwrites its workflow's entry with
      its own unread bit, because the lookup uses the record id. */
  lemma {:induction false} CountsAreBits(items: seq<Notification>)
    requires IdsApartFromWorkflows(items)
    ensures forall k :: k in Counts(items) ==> Counts(items)[k] in {0, 1}
    decreases |items|
  {
    if |items| > 0 {
      var s := items[..|items| - 1];
      assert IdsApartFromWorkflows(s) by {
        forall i, j | 0 <= i < |s| && 0 <= j < |s| ensures s[i].id != s[j].workflowId {
          assert s[i] == items[i] && s[j] == items[j];
        }
      }
      CountsAreBits(s);
      var n := items[|items| - 1];
      forall i | 0 <= i < |s| ensures s[i].workflowId != n.id {
        assert s[i] == items[i];
      }
      assert n.id !in Counts(s);
    }
  }

  /** More precisely, a workflow's entry is the unread bit of its last record. */
  lemma {:induction false} CountsLastBit(items: seq<Notification>, i: nat)
    requires IdsApartFromWorkflows(items)
    requires i < |items|
    requires forall j :: i < j < |items| ==> items[j].workflowId != items[i].workflowId
    ensures items[i].workflowId in Counts(items)
    ensures Counts(items)[items[i].workflowId] == if items[i].unread then 1 else 0
    decreases |items|
  {
    var s := items[..|items| - 1];
    var n := items[|items| - 1];
    if i == |items| - 1 {
      forall j | 0 <= j < |s| ensures s[j].workflowId != n.id {
        assert s[j] == items[j];
      }
      assert n.id !in Counts(s);
    } else {
      assert IdsApartFromWorkflows(s) by {
        forall a, b | 0 <= a < |s| && 0 <= b < |s| ensures s[a].id != s[b].workflowId {
          assert s[a] == items[a] && s[b] == items[b];
        }
      }
      assert s[i] == items[i];
      forall j | i < j < |s| ensures s[j].workflowId != s[i].workflowId {
        assert s[j] == items[j];
      }
      CountsLastBit(s, i);
    }
  }

  lemma ListWorkflowCountsAreBits(db: Db)
    requires IdsApartFromWorkflows(db.items)
    ensures forall w :: w in ListWorkflows(db) ==> w.count == Some(0) || w.count == Some(1)
  {
    CountsAreBits(db.items);
  }

  /** Two unread records in workflow "hn" give "hn" a count of 1, not 2. */
  lemma CountUndercounts()
    ensures var a := Notification("a1", "t", "u", "d", "hn", "Hacker News", Info, "2024-01-01", true, false, None, None, None);
            var b := a.(id := "b2");
            ListWorkflows(Db([a, b], None))[0].count == Some(1)
            && UnreadCounts([a, b])["hn"] == 2
  {
    var a := Notification("a1", "t", "u", "d", "hn", "Hacker News", Info, "2024-01-01", true, false, None, None, None);
    var b := a.(id := "b2");
    assert [a, b][..1] == [a];
    assert [a][..0] == [];
    assert Counts([a]) == map["hn" := 1];
    assert "b2" !in Counts([a]);
    assert Counts([a, b]) == map["hn" := 1];
    assert UnreadCounts([a]) == map["hn" := 1];
  }

  /** The evidently intended table: per workflow id, the number of unread records so far. */
  function UnreadCounts(items: seq<Notification>): (r: map<string, int>)
    ensures forall k :: k in r ==> r[k] == UnreadIn(items, k)
    ensures forall k :: k !in r ==> UnreadIn(items, k) == 0
  {
    if |items| == 0 then map[]
    else
      var s := items[..|items| - 1];
      var c := UnreadCounts(s);
      var n := items[|items| - 1];
      var r := c[n.workflowId := (if n.workflowId in c then c[n.workflowId] else 0) + (if n.unread then 1 else 0)];
      assert items == s + [n];
      UnreadCountsStep(s, n, c);
      r
  }

  lemma UnreadCountsStep(s: seq<Notification>, n: Notification, c: map<string, int>)
    requires forall k :: k in c ==> c[k] == UnreadIn(s, k)
    requires forall k :: k !in c ==> UnreadIn(s, k) == 0
    ensures var r := c[n.workflowId := (if n.workflowId in c then c[n.workflowId] else 0) + (if n.unread then 1 else 0)];
      && (forall k :: k in r ==> r[k] == UnreadIn(s + [n], k))
      && (forall k :: k !in r ==> UnreadIn(s + [n], k) == 0)
  {
    assert (s + [n])[..|s|] == s;
  }

  /** The number of unread records of workflow `k`. */
  function UnreadIn(items: seq<Notification>, k: string): nat {
    if |items| == 0 then 0
    else UnreadIn(items[..|items| - 1], k) + (if items[|items| - 1].workflowId == k && items[|items| - 1].unread then 1 else 0)
  }

  /** `listWorkflows` as evidently intended: each known workflow with its unread count. */
  function ListWorkflowsIntended(db: Db): (r: seq<Workflow>)
    ensures |r| == |Workflows|
    ensures forall i :: 0 <= i < |r| ==>
      r[i].id == Workflows[i].id && r[i].name == Workflows[i].name
      && r[i].count == Some(UnreadIn(db.items, Workflows[i].id))
  {
    var c := UnreadCounts(db.items);
    forall i | 0 <= i < |Workflows| ensures CountOr0(c, Workflows[i].id) == UnreadIn(db.items, Workflows[i].id) {
    }
    seq(|Workflows|, i requires 0 <= i < |Workflows| =>
      Workflows[i].(count := Some(CountOr0(c, Workflows[i].id))))
  }

  // ---------------------------------------------------------------------------
  // Saved views

  /** `listSavedViews`: the stored list, or nothing when the key is unset. */
  function ListSavedViews(db: Db): seq<SavedView> {
    db.stored.GetOr([])
  }

  predicate SameName(a: SavedView, b: SavedView) {
    Lower(a.name) == Lower(b.name)
  }

  const DuplicateName := "Name already exists"

  /** `saveView`: rejects a name already taken (ignoring case) and leaves storage alone;
      otherwise appends the view. */
  function SaveView(db: Db, v: SavedView): (r: (Db, Outcome<string>))
    ensures r.1.Fail? <==> exists w :: w in ListSavedViews(db) && SameName(w, v)
    ensures r.1.Fail? ==> r.0 == db && r.1.error == DuplicateName
    ensures r.1.Pass? ==> r.0.items == db.items && ListSavedViews(r.0) == ListSavedViews(db) + [v]
  {
    var all := ListSavedViews(db);
    if exists w :: w in all && SameName(w, v) then (db, Fail(DuplicateName))
    else (db.(stored := Some(all + [v])), Pass)
  }

  function OtherId(id: string): SavedView -> bool {
    (w: SavedView) => w.id != id
  }

  /** `views.filter(v => v.id !== id)`: the views not carrying `id`. How the kept views are
      arranged is stated by `WithoutIdAppend` and `WithoutIdSingle`. */
  function WithoutId(views: seq<SavedView>, id: string): (r: seq<SavedView>)
    ensures forall w :: w in r <==> w in views && w.id != id
    ensures |r| <= |views|
  {
    FilterMembers(views, OtherId(id));
    Filter(views, OtherId(id))
  }

  /** Removal works view by view: it distributes over concatenation, so the kept views stay
      in their order and repeated views stay repeated. */
  lemma WithoutIdAppend(a: seq<SavedView>, b: seq<SavedView>, id: string)
    ensures WithoutId(a + b, id) == WithoutId(a, id) + WithoutId(b, id)
  {
    FilterAppend(a, b, OtherId(id));
  }

  /** A single view is kept exactly when its id differs. */
  lemma WithoutIdSingle(v: SavedView, id: string)
    ensures WithoutId([v], id) == if v.id == id then [] else [v]
  {
    assert [v][..0] == [];
  }

  /** With no view carrying the id, nothing changes. */
  lemma WithoutIdAbsent(views: seq<SavedView>, id: string)
    ensures (forall w :: w in views ==> w.id != id) ==> WithoutId(views, id) == views
  {
    if forall w :: w in views ==> w.id != id {
      FilterAll(views, OtherId(id));
    }
  }

  /** `deleteView`: drops every view with the id, keeps the rest in order, and always writes. */
  function DeleteView(db: Db, id: string): (r: Db)
    ensures r.items == db.items && r.stored.Some?
    ensures ListSavedViews(r) == WithoutId(ListSavedViews(db), id)
    ensures forall w :: w in ListSavedViews(r) <==> w in ListSavedViews(db) && w.id != id
  {
    db.(stored := Some(WithoutId(ListSavedViews(db), id)))
  }

  /** Deleting the id of a view just saved under a fresh id gives back the earlier list. */
  lemma DeleteUndoesSave(db: Db, v: SavedView)
    requires SaveView(db, v).1.Pass?
    requires forall w :: w in ListSavedViews(db) ==> w.id != v.id
    ensures ListSavedViews(DeleteView(SaveView(db, v).0, v.id)) == ListSavedViews(db)
  {
    var all := ListSavedViews(db);
    WithoutIdAppend(all, [v], v.id);
    WithoutIdSingle(v, v.id);
    WithoutIdAbsent(all, v.id);
    assert all + [] == all;
  }

  /** Deleting twice is deleting once. */
  lemma DeleteTwice(db: Db, id: string)
    ensures DeleteView(DeleteView(db, id), id) == DeleteView(db, id)
  {
    WithoutIdAbsent(ListSavedViews(DeleteView(db, id)), id);
  }

  /** Saving the same name twice: the first call succeeds, the second is rejected, and
      exactly one view of that name is stored. */
  lemma SaveTwice(db: Db, v: SavedView)
    requires forall w :: w in ListSavedViews(db) ==> !SameName(w, v)
    ensures var (db1, out1) := SaveView(db, v);
            var (db2, out2) := SaveView(db1, v);
            out1 == Pass && out2 == Fail(DuplicateName) && db2 == db1
            && |Filter(ListSavedViews(db2), (w: SavedView) => SameName(w, v))| == 1
  {
    var all := ListSavedViews(db);
    var (db1, _) := SaveView(db, v);
    assert v in ListSavedViews(db1);
    FilterNone(all, (w: SavedView) => SameName(w, v));
    FilterAppend(all, [v], (w: SavedView) => SameName(w, v));
    assert [v][..0] == [];
  }
}
