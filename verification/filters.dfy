/** The filter store: the user's current filter, sort and pagination criteria. */
module Filters {
  import opened Wrappers
  import opened Seqs
  import opened Query
  import opened Contracts

  /** The criteria. `severities` and `workflowIds` are JavaScript `Set`s, modelled as
      duplicate-free sequences in insertion order (the order `Array.from` reads them in). */
  datatype FilterState = FilterState(
    q: Option<string>,
    unread: Option<bool>,
    severities: seq<string>,
    workflowIds: seq<string>,
    sort: Option<string>,
    range: Option<string>,
    page: Option<int>,
    pageSize: Option<int>)

  predicate Valid(f: FilterState) {
    NoDup(f.severities) && NoDup(f.workflowIds)
  }

  /** The store's initial state: empty sets, page 1, page size 10, nothing else set. */
  const Initial := FilterState(None, None, [], [], None, None, Some(DefaultPage), Some(DefaultPageSize))

  /** A shallow-merge patch: `None` leaves a field alone, `Some(v)` overwrites it with `v`
      (for optional fields `v` may itself be absent, i.e. an explicit `undefined`). */
  datatype Patch = Patch(
    q: Option<Option<string>>,
    unread: Option<Option<bool>>,
    severities: Option<seq<string>>,
    workflowIds: Option<seq<string>>,
    sort: Option<Option<string>>,
    range: Option<Option<string>>,
    page: Option<Option<int>>,
    pageSize: Option<Option<int>>)

  const NoPatch := Patch(None, None, None, None, None, None, None, None)

  predicate ValidPatch(p: Patch) {
    (p.severities.Some? ==> NoDup(p.severities.value)) && (p.workflowIds.Some? ==> NoDup(p.workflowIds.value))
  }

  /** `set(patch)`: `{ ...state, ...patch }`. */
  function Set(f: FilterState, p: Patch): (r: FilterState)
    ensures Valid(f) && ValidPatch(p) ==> Valid(r)
    ensures p == NoPatch ==> r == f
  {
    FilterState(
      p.q.GetOr(f.q),
      p.unread.GetOr(f.unread),
      p.severities.GetOr(f.severities),
      p.workflowIds.GetOr(f.workflowIds),
      p.sort.GetOr(f.sort),
      p.range.GetOr(f.range),
      p.page.GetOr(f.page),
      p.pageSize.GetOr(f.pageSize))
  }

  /** A text-only patch overwrites the query and nothing else: in particular it does not
      reset the page. */
  lemma SetQueryKeepsPage(f: FilterState, q: Option<string>)
    ensures Set(f, NoPatch.(q := Some(q))) == f.(q := q)
    ensures Set(f, NoPatch.(q := Some(q))).page == f.page
  {
  }

  /** A pagination-only patch changes the page and nothing else. */
  lemma SetPageOnly(f: FilterState, page: Option<int>)
    ensures Set(f, NoPatch.(page := Some(page))) == f.(page := page)
  {
  }

  /** `Set.has(x) ? delete(x) : add(x)` on an insertion-ordered set. */
  function Toggle(s: seq<string>, x: string): (r: seq<string>)
    ensures forall y :: y in r <==> ((y in s) != (y == x))
    ensures NoDup(s) ==> NoDup(r)
  {
    if x in s then Remove(s, x)
    else
      assert NoDup(s) ==> NoDup(s + [x]) by {
        if NoDup(s) {
          forall i, j | 0 <= i < j < |s + [x]| ensures (s + [x])[i] != (s + [x])[j] {
            if j == |s| { assert (s + [x])[i] == s[i]; }
          }
        }
      }
      s + [x]
  }

  /** Toggling twice restores membership; when `x` was absent it restores the sequence too. */
  lemma ToggleTwice(s: seq<string>, x: string)
    ensures Elems(Toggle(Toggle(s, x), x)) == Elems(s)
    ensures x !in s ==> Toggle(Toggle(s, x), x) == s
  {
    if x !in s {
      assert x in s + [x];
      assert Remove(s + [x], x) == Remove(s, x) by {
        assert (s + [x])[..|s|] == s;
      }
      RemoveAbsent(s, x);
    }
  }

  /** `toggleSeverity`: flips membership of one severity and returns to page 1. */
  function ToggleSeverity(f: FilterState, sev: Severity): (r: FilterState)
    ensures forall x :: x in r.severities <==> ((x in f.severities) != (x == SeverityName(sev)))
    ensures r.page == Some(DefaultPage)
    ensures r.(severities := f.severities, page := f.page) == f
    ensures Valid(f) ==> Valid(r)
  {
    f.(severities := Toggle(f.severities, SeverityName(sev)), page := Some(DefaultPage))
  }

  /** `toggleWorkflow`: flips membership of one workflow id and returns to page 1. */
  function ToggleWorkflow(f: FilterState, id: string): (r: FilterState)
    ensures forall x :: x in r.workflowIds <==> ((x in f.workflowIds) != (x == id))
    ensures r.page == Some(DefaultPage)
    ensures r.(workflowIds := f.workflowIds, page := f.page) == f
    ensures Valid(f) ==> Valid(r)
  {
    f.(workflowIds := Toggle(f.workflowIds, id), page := Some(DefaultPage))
  }

  /** `clearWorkflows`: no workflow restriction, back to page 1, all else kept. */
  function ClearWorkflows(f: FilterState): (r: FilterState)
    ensures r.workflowIds == [] && r.page == Some(DefaultPage)
    ensures r.(workflowIds := f.workflowIds, page := f.page) == f
    ensures Valid(f) ==> Valid(r)
  {
    f.(workflowIds := [], page := Some(DefaultPage))
  }

  lemma ToggleSeverityTwice(f: FilterState, sev: Severity)
    ensures var r := ToggleSeverity(ToggleSeverity(f, sev), sev);
      Elems(r.severities) == Elems(f.severities) && r == f.(severities := r.severities, page := Some(DefaultPage))
    ensures SeverityName(sev) !in f.severities ==>
      ToggleSeverity(ToggleSeverity(f, sev), sev) == f.(page := Some(DefaultPage))
  {
    ToggleTwice(f.severities, SeverityName(sev));
  }

  lemma ToggleWorkflowTwice(f: FilterState, id: string)
    ensures var r := ToggleWorkflow(ToggleWorkflow(f, id), id);
      Elems(r.workflowIds) == Elems(f.workflowIds) && r == f.(workflowIds := r.workflowIds, page := Some(DefaultPage))
    ensures id !in f.workflowIds ==> ToggleWorkflow(ToggleWorkflow(f, id), id) == f.(page := Some(DefaultPage))
  {
    ToggleTwice(f.workflowIds, id);
  }

  /** The states the store keeps when driven by its own operations: duplicate-free sets, no
      explicit `unread: false`, no empty sort or range, page and page size present and
      positive. The search text may be empty: clearing the search box writes `q: ""`. */
  predicate Normal(f: FilterState) {
    && Valid(f)
    && f.unread != Some(false)
    && f.sort != Some("") && f.range != Some("")
    && f.page.Some? && f.page.value >= 1
    && f.pageSize.Some? && f.pageSize.value >= 1
  }

  /** `fromSearch`: every criterion is replaced from the parsed search; page and page size
      default to 1 and 10; repeated `sev`/`wf` values collapse into sets. */
  function FromSearch(s: QueryString): (r: FilterState)
    ensures Normal(r)
    ensures Elems(r.severities) == Elems(GetAll(s, "sev"))
    ensures Elems(r.workflowIds) == Elems(GetAll(s, "wf"))
    ensures var p := ParseQuery(s);
      r.q == p.q && r.unread == p.unread && r.sort == p.sort && r.range == p.range
    ensures r.page == Some(ParseQuery(s).page.GetOr(DefaultPage))
    ensures r.pageSize == Some(ParseQuery(s).pageSize.GetOr(DefaultPageSize))
  {
    var p := ParseQuery(s);
    FilterState(
      p.q, p.unread,
      Dedup(p.severity.GetOr([])),
      Dedup(p.workflowIds.GetOr([])),
      p.sort, p.range,
      Some(p.page.GetOr(DefaultPage)),
      Some(p.pageSize.GetOr(DefaultPageSize)))
  }

  predicate NotInfo(x: string) {
    x != SeverityName(Info)
  }

  /** The list parameters `toSearch` serialises: the current fields, severities without `info`. */
  function SearchParams(f: FilterState): ListParams {
    ListParams(f.q, f.unread, Some(Filter(f.severities, NotInfo)), Some(f.workflowIds),
               f.sort, f.range, f.page, f.pageSize)
  }

  /** `toSearch`: the canonical query string of the criteria. `info` is never written. */
  function ToSearch(f: FilterState): (r: QueryString)
    ensures forall i :: 0 <= i < |r| && r[i].0 == "sev" ==> r[i].1 != "info"
    ensures GetAll(r, "sev") == Filter(f.severities, NotInfo)
    ensures GetAll(r, "wf") == f.workflowIds
  {
    NoInfoWritten(f);
    BuildQuery(SearchParams(f))
  }

  lemma NoInfoWritten(f: FilterState)
    ensures var r := BuildQuery(SearchParams(f));
      forall i :: 0 <= i < |r| && r[i].0 == "sev" ==> r[i].1 != "info"
  {
    var r := BuildQuery(SearchParams(f));
    FilterMembers(f.severities, NotInfo);
    forall i | 0 <= i < |r| && r[i].0 == "sev" ensures r[i].1 != "info" {
      InGetAll(r, i);
    }
  }

  /** The initial state serialises to the empty string. */
  lemma InitialToSearch()
    ensures ToSearch(Initial) == []
  {
    var p := SearchParams(Initial);
    assert Filter([], NotInfo) == [];
    assert p == NoParams.(severity := Some([]), workflowIds := Some([]), page := Some(1), pageSize := Some(10));
    assert Blocks(p) == Blocks(NoParams);
    BuildNothing();
  }

  lemma InitialNormal()
    ensures Normal(Initial)
  {
  }

  /** The store's own transitions keep it normal. */
  lemma TransitionsKeepNormal(f: FilterState, sev: Severity, id: string)
    requires Normal(f)
    ensures Normal(ToggleSeverity(f, sev))
    ensures Normal(ToggleWorkflow(f, id))
    ensures Normal(ClearWorkflows(f))
  {
  }

  /** So do the header's edits: any search text, and the All/Unread switch. */
  lemma HeaderEditsKeepNormal(f: FilterState, text: string)
    requires Normal(f)
    ensures Normal(Set(f, NoPatch.(q := Some(Some(text)))))
    ensures Normal(Set(f, NoPatch.(unread := Some(None))))
    ensures Normal(Set(f, NoPatch.(unread := Some(Some(true)))))
  {
  }

  /** And a change to a positive page. */
  lemma PageChangeKeepsNormal(f: FilterState, page: int)
    requires Normal(f) && page >= 1
    ensures Normal(Set(f, NoPatch.(page := Some(Some(page)))))
  {
  }

  /** The URL round trip of the criteria: reading back what `toSearch` wrote restores every
      field, except that `info` has left the severity set and an empty search text comes
      back absent. */
  lemma SearchRoundTrip(f: FilterState)
    requires Normal(f)
    ensures FromSearch(ToSearch(f)) ==
      f.(severities := Filter(f.severities, NotInfo), q := if f.q == Some("") then None else f.q)
  {
    var p := SearchParams(f);
    var t := ToSearch(f);
    assert t == BuildQuery(p);
    RoundTrip(p);
    var c := ParseQuery(t);
    assert c == Canonical(p);
    NoDupFilter(f.severities, NotInfo);
    assert c.severity.GetOr([]) == Filter(f.severities, NotInfo);
    assert c.workflowIds.GetOr([]) == f.workflowIds;
    assert c.page.GetOr(DefaultPage) == f.page.value;
    assert c.pageSize.GetOr(DefaultPageSize) == f.pageSize.value;
    var r := FromSearch(t);
    assert r.severities == Filter(f.severities, NotInfo);
    assert r.workflowIds == f.workflowIds;
    assert r.q == c.q == NonEmpty(f.q);
    assert r.unread == f.unread by {
      if f.unread.Some? { assert f.unread.value; }
    }
    assert r.sort == c.sort == f.sort;
    assert r.range == c.range == f.range;
    assert r.page == f.page && r.pageSize == f.pageSize;
  }

  /** Writing, reading and writing again gives the same string. */
  lemma SearchStable(f: FilterState)
    requires Normal(f)
    ensures ToSearch(FromSearch(ToSearch(f))) == ToSearch(f)
  {
    SearchRoundTrip(f);
    RewriteWritesSame(f);
  }

  /** Dropping `info` again and making an empty text absent change nothing that is written. */
  lemma RewriteWritesSame(f: FilterState)
    ensures ToSearch(f.(severities := Filter(f.severities, NotInfo), q := NonEmpty(f.q))) == ToSearch(f)
  {
    var g := f.(severities := Filter(f.severities, NotInfo), q := NonEmpty(f.q));
    FilterIdempotent(f.severities, NotInfo);
    assert Blocks(SearchParams(g)) == Blocks(SearchParams(f));
  }

  lemma NoDupFilter(s: seq<string>, p: string -> bool)
    requires NoDup(s)
    ensures NoDup(Filter(s, p))
  {
    if |s| > 0 {
      var s' := s[..|s| - 1];
      assert forall i, j :: 0 <= i < j < |s'| ==> s'[i] == s[i] && s'[j] == s[j];
      NoDupFilter(s', p);
      FilterMembers(s', p);
      assert s[|s| - 1] !in s' by {
        forall i | 0 <= i < |s'| ensures s'[i] != s[|s| - 1] { assert s'[i] == s[i]; }
      }
    }
  }

  lemma FilterIdempotent(s: seq<string>, p: string -> bool)
    ensures Filter(Filter(s, p), p) == Filter(s, p)
  {
    var f := Filter(s, p);
    FilterMembers(s, p);
    forall i | 0 <= i < |f| ensures p(f[i]) {
      assert f[i] in f;
    }
    FilterAll(f, p);
  }
}
