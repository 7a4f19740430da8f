/** The query-string codec: list parameters to and from the URL's search part.
    A query string is modelled as its sequence of (key, value) pairs, i.e. the contents of a
    `URLSearchParams`; percent-encoding and the leading '?' are abstracted away. */
module Query {
  import opened Wrappers
  import opened Text
  import Seqs

  type Pair = (string, string)
  type QueryString = seq<Pair>

  /** `URLSearchParams.getAll(k)`: every value stored under `k`, in order of occurrence. */
  function GetAll(s: QueryString, k: string): (r: seq<string>)
    ensures |r| <= |s|
  {
    if |s| == 0 then []
    else GetAll(s[..|s| - 1], k) + (if s[|s| - 1].0 == k then [s[|s| - 1].1] else [])
  }

  /** `URLSearchParams.get(k)`: the first value stored under `k`. */
  function Get(s: QueryString, k: string): Option<string> {
    var all := GetAll(s, k);
    if |all| == 0 then None else Some(all[0])
  }

  /** The list parameters. `severity`, `sort` and `range` are typed as enumerations in the
      source but are filled by unchecked casts, so any text can reach them. */
  datatype ListParams = ListParams(
    q: Option<string>,
    unread: Option<bool>,
    severity: Option<seq<string>>,
    workflowIds: Option<seq<string>>,
    sort: Option<string>,
    range: Option<string>,
    page: Option<int>,
    pageSize: Option<int>)

  const NoParams := ListParams(None, None, None, None, None, None, None, None)

  const DefaultPage := 1
  const DefaultPageSize := 10

  /** `x || undefined` on an optional string: the empty string counts as absent. */
  function NonEmpty(o: Option<string>): Option<string> {
    if o.Some? && o.value != "" then o else None
  }

  /** `Number(text) || d`: NaN and zero both fall back to `d`. */
  function NumberOr(text: string, d: int): int {
    match ParseInt(text)
    case Some(n) => if n != 0 then n else d
    case None => d
  }

  /** The `page`/`ps` rule: absent or empty text gives no value; anything else is
      `Math.max(1, Number(text) || d)`. */
  function CountParam(o: Option<string>, d: int): (r: Option<int>)
    requires d >= 1
    ensures r.Some? ==> r.value >= 1
    ensures r.None? <==> o.None? || o.value == ""
    ensures o.Some? && ParseInt(o.value).Some? && ParseInt(o.value).value != 0 ==>
      r == Some(Max(1, ParseInt(o.value).value))
    ensures o.Some? && o.value != "" && ParseInt(o.value) in {None, Some(0)} ==> r == Some(d)
  {
    match o
    case None => None
    case Some(text) => if text == "" then None else Some(Max(1, NumberOr(text, d)))
  }

  function NonEmptySeq(xs: seq<string>): Option<seq<string>> {
    if |xs| > 0 then Some(xs) else None
  }

  /** `parseQuery`. Keys other than the eight it reads are ignored. */
  function ParseQuery(s: QueryString): (r: ListParams)
    ensures r.q.Some? ==> r.q.value != "" && r.q == Get(s, "q")
    ensures r.q.None? ==> Get(s, "q") in {None, Some("")}
    ensures r.unread == Some(true) <==> Get(s, "unread") == Some("1")
    ensures r.unread != Some(false)
    ensures r.severity.Some? <==> |GetAll(s, "sev")| > 0
    ensures r.severity.Some? ==> r.severity.value == GetAll(s, "sev")
    ensures r.workflowIds.Some? <==> |GetAll(s, "wf")| > 0
    ensures r.workflowIds.Some? ==> r.workflowIds.value == GetAll(s, "wf")
    ensures r.q == if Get(s, "q") == Some("") then None else Get(s, "q")
    ensures r.sort == if Get(s, "sort") == Some("") then None else Get(s, "sort")
    ensures r.range == if Get(s, "range") == Some("") then None else Get(s, "range")
    ensures r.sort.Some? ==> r.sort.value != ""
    ensures r.range.Some? ==> r.range.value != ""
    ensures r.page == CountParam(Get(s, "page"), DefaultPage)
    ensures r.pageSize == CountParam(Get(s, "ps"), DefaultPageSize)
    ensures r.page.None? <==> Get(s, "page") in {None, Some("")}
    ensures r.pageSize.None? <==> Get(s, "ps") in {None, Some("")}
    ensures r.page.Some? ==> r.page.value >= 1
    ensures r.pageSize.Some? ==> r.pageSize.value >= 1
  {
    ListParams(
      NonEmpty(Get(s, "q")),
      if Get(s, "unread") == Some("1") then Some(true) else None,
      NonEmptySeq(GetAll(s, "sev")),
      NonEmptySeq(GetAll(s, "wf")),
      NonEmpty(Get(s, "sort")),
      NonEmpty(Get(s, "range")),
      CountParam(Get(s, "page"), DefaultPage),
      CountParam(Get(s, "ps"), DefaultPageSize))
  }

  /** Non-numeric and zero `page`/`ps` text fall back to the defaults 1 and 10; a negative
      `ps` is clamped to 1 rather than defaulted. */
  lemma ParseCountDefaults(s: QueryString)
    ensures forall t :: Get(s, "page") == Some(t) && t != "" && ParseInt(t) in {None, Some(0)}
              ==> ParseQuery(s).page == Some(1)
    ensures forall t :: Get(s, "ps") == Some(t) && t != "" && ParseInt(t) in {None, Some(0)}
              ==> ParseQuery(s).pageSize == Some(10)
    ensures forall t :: Get(s, "ps") == Some(t) && ParseInt(t).Some? && ParseInt(t).value < 0
              ==> ParseQuery(s).pageSize == Some(1)
    ensures forall t :: Get(s, "page") == Some(t) && ParseInt(t).Some? && ParseInt(t).value < 0
              ==> ParseQuery(s).page == Some(1)
  {
  }

  // ---------------------------------------------------------------------------
  // buildQuery

  /** The position of a key in the emitted string; 0 for keys `buildQuery` never writes. */
  function KeyRank(k: string): nat {
    if k == "q" then 1
    else if k == "unread" then 2
    else if k == "sev" then 3
    else if k == "wf" then 4
    else if k == "sort" then 5
    else if k == "range" then 6
    else if k == "page" then 7
    else if k == "ps" then 8
    else 0
  }

  predicate IsKnownPair(p: Pair) {
    KeyRank(p.0) > 0
  }

  function Single(k: string, emit: bool, v: string): (r: QueryString)
    ensures forall i :: 0 <= i < |r| ==> r[i].0 == k
  {
    if emit then [(k, v)] else []
  }

  function Repeated(k: string, vs: Option<seq<string>>): (r: QueryString)
    ensures forall i :: 0 <= i < |r| ==> r[i].0 == k
  {
    match vs
    case None => []
    case Some(xs) => seq(|xs|, i requires 0 <= i < |xs| => (k, xs[i]))
  }

  function PageText(o: Option<int>): string {
    if o.Some? then IntToString(o.value) else ""
  }

  predicate EmitsPage(p: ListParams) {
    p.page.Some? && p.page.value > 1
  }

  predicate EmitsPageSize(p: ListParams) {
    p.pageSize.Some? && p.pageSize.value != 0 && p.pageSize.value != DefaultPageSize
  }

  /** The eight blocks of `buildQuery`, in emission order. */
  function Blocks(p: ListParams): seq<QueryString> {
    [ Single("q", p.q.Some? && p.q.value != "", p.q.GetOr("")),
      Single("unread", p.unread == Some(true), "1"),
      Repeated("sev", p.severity),
      Repeated("wf", p.workflowIds),
      Single("sort", p.sort.Some? && p.sort.value != "", p.sort.GetOr("")),
      Single("range", p.range.Some? && p.range.value != "", p.range.GetOr("")),
      Single("page", EmitsPage(p), PageText(p.page)),
      Single("ps", EmitsPageSize(p), PageText(p.pageSize)) ]
  }

  function Concat(bs: seq<QueryString>): QueryString {
    if |bs| == 0 then [] else bs[0] + Concat(bs[1..])
  }

  const BlockKeys: seq<string> := ["q", "unread", "sev", "wf", "sort", "range", "page", "ps"]

  /** Keys never decrease in rank from left to right. */
  predicate RankOrdered(s: QueryString) {
    forall i, j :: 0 <= i < j < |s| ==> KeyRank(s[i].0) <= KeyRank(s[j].0)
  }

  /** `buildQuery`: falsy fields and the defaults page 1 / page size 10 are omitted,
      multi-valued fields become repeated keys, and keys come in a fixed order. */
  function BuildQuery(p: ListParams): (r: QueryString)
    ensures RankOrdered(r)
    ensures forall i :: 0 <= i < |r| ==> IsKnownPair(r[i])
    ensures GetAll(r, "q") == (if p.q.Some? && p.q.value != "" then [p.q.value] else [])
    ensures GetAll(r, "unread") == (if p.unread == Some(true) then ["1"] else [])
    ensures GetAll(r, "sev") == p.severity.GetOr([])
    ensures GetAll(r, "wf") == p.workflowIds.GetOr([])
    ensures GetAll(r, "sort") == (if p.sort.Some? && p.sort.value != "" then [p.sort.value] else [])
    ensures GetAll(r, "range") == (if p.range.Some? && p.range.value != "" then [p.range.value] else [])
    ensures GetAll(r, "page") == (if EmitsPage(p) then [IntToString(p.page.value)] else [])
    ensures GetAll(r, "ps") == (if EmitsPageSize(p) then [IntToString(p.pageSize.value)] else [])
  {
    BlockFacts(p);
    Concat(Blocks(p))
  }

  lemma BlockFacts(p: ListParams)
    ensures RankOrdered(Concat(Blocks(p)))
    ensures forall i :: 0 <= i < |Concat(Blocks(p))| ==> IsKnownPair(Concat(Blocks(p))[i])
    ensures GetAll(Concat(Blocks(p)), "q") == (if p.q.Some? && p.q.value != "" then [p.q.value] else [])
    ensures GetAll(Concat(Blocks(p)), "unread") == (if p.unread == Some(true) then ["1"] else [])
    ensures GetAll(Concat(Blocks(p)), "sev") == p.severity.GetOr([])
    ensures GetAll(Concat(Blocks(p)), "wf") == p.workflowIds.GetOr([])
    ensures GetAll(Concat(Blocks(p)), "sort") == (if p.sort.Some? && p.sort.value != "" then [p.sort.value] else [])
    ensures GetAll(Concat(Blocks(p)), "range") == (if p.range.Some? && p.range.value != "" then [p.range.value] else [])
    ensures GetAll(Concat(Blocks(p)), "page") == (if EmitsPage(p) then [IntToString(p.page.value)] else [])
    ensures GetAll(Concat(Blocks(p)), "ps") == (if EmitsPageSize(p) then [IntToString(p.pageSize.value)] else [])
  {
    var bs := Blocks(p);
    BlocksKeyed(p);
    assert bs[0..] == bs;
    BlocksOrdered(bs, 0);
    FilterBlockValues(p);
    PagingBlockValues(p);
  }

  lemma BlocksKeyed(p: ListParams)
    ensures forall i :: 0 <= i < 8 ==> Keyed(Blocks(p)[i], BlockKeys[i])
  {
    forall i | 0 <= i < 8 ensures Keyed(Blocks(p)[i], BlockKeys[i]) {
      BlockKeyed(p, i);
    }
  }

  lemma FilterBlockValues(p: ListParams)
    ensures GetAll(Concat(Blocks(p)), "q") == (if p.q.Some? && p.q.value != "" then [p.q.value] else [])
    ensures GetAll(Concat(Blocks(p)), "unread") == (if p.unread == Some(true) then ["1"] else [])
    ensures GetAll(Concat(Blocks(p)), "sev") == p.severity.GetOr([])
    ensures GetAll(Concat(Blocks(p)), "wf") == p.workflowIds.GetOr([])
  {
    SingleBlockValue(p, 0, "q", p.q.Some? && p.q.value != "", p.q.GetOr(""));
    SingleBlockValue(p, 1, "unread", p.unread == Some(true), "1");
    var bs := Blocks(p);
    BlocksKeyed(p);
    BlockValues(bs, "sev", 2);
    GetAllRepeated("sev", p.severity);
    BlockValues(bs, "wf", 3);
    GetAllRepeated("wf", p.workflowIds);
  }

  lemma PagingBlockValues(p: ListParams)
    ensures GetAll(Concat(Blocks(p)), "sort") == (if p.sort.Some? && p.sort.value != "" then [p.sort.value] else [])
    ensures GetAll(Concat(Blocks(p)), "range") == (if p.range.Some? && p.range.value != "" then [p.range.value] else [])
    ensures GetAll(Concat(Blocks(p)), "page") == (if EmitsPage(p) then [IntToString(p.page.value)] else [])
    ensures GetAll(Concat(Blocks(p)), "ps") == (if EmitsPageSize(p) then [IntToString(p.pageSize.value)] else [])
  {
    SingleBlockValue(p, 4, "sort", p.sort.Some? && p.sort.value != "", p.sort.GetOr(""));
    SingleBlockValue(p, 5, "range", p.range.Some? && p.range.value != "", p.range.GetOr(""));
    SingleBlockValue(p, 6, "page", EmitsPage(p), PageText(p.page));
    SingleBlockValue(p, 7, "ps", EmitsPageSize(p), PageText(p.pageSize));
  }

  /** The values under the key of a single-valued block are that block's value, if emitted. */
  lemma SingleBlockValue(p: ListParams, i: nat, k: string, emit: bool, v: string)
    requires i < 8 && BlockKeys[i] == k && Blocks(p)[i] == Single(k, emit, v)
    ensures GetAll(Concat(Blocks(p)), k) == if emit then [v] else []
  {
    BlocksKeyed(p);
    BlockValues(Blocks(p), k, i);
    GetAllSingle(k, emit, v);
  }

  lemma BlockValues(bs: seq<QueryString>, k: string, target: nat)
    requires |bs| == 8 && target < 8 && BlockKeys[target] == k
    requires forall i :: 0 <= i < 8 ==> Keyed(bs[i], BlockKeys[i])
    ensures GetAll(Concat(bs), k) == GetAll(bs[target], k)
  {
    GetAllBlocks(bs, k, target, 0);
    assert bs[0..] == bs;
  }

  function BlockIndex(k: string): (i: nat)
    requires k in BlockKeys
    ensures i < 8 && BlockKeys[i] == k && KeyRank(k) == i + 1
  {
    KeyRank(k) - 1
  }

  /** Every pair of the `i`-th block of `Blocks(p)` has key `BlockKeys[i]`. */
  lemma BlockKeyed(p: ListParams, i: nat)
    requires i < 8
    ensures Keyed(Blocks(p)[i], BlockKeys[i])
  {
  }

  lemma {:induction false} BlocksOrdered(bs: seq<QueryString>, from: nat)
    requires |bs| == 8 && from <= 8
    requires forall i :: 0 <= i < 8 ==> Keyed(bs[i], BlockKeys[i])
    ensures RankOrdered(Concat(bs[from..]))
    ensures forall j :: 0 <= j < |Concat(bs[from..])| ==> KeyRank(Concat(bs[from..])[j].0) >= from + 1
    decreases 8 - from
  {
    if from < 8 {
      BlocksOrdered(bs, from + 1);
      var rest := Concat(bs[from + 1..]);
      var b := bs[from];
      assert bs[from..][1..] == bs[from + 1..];
      assert Concat(bs[from..]) == b + rest;
      assert KeyRank(BlockKeys[from]) == from + 1;
      assert Keyed(b, BlockKeys[from]);
      var c := b + rest;
      forall i, j | 0 <= i < j < |c| ensures KeyRank(c[i].0) <= KeyRank(c[j].0) {
        if j < |b| {
          assert c[i] == b[i] && c[j] == b[j];
        } else if i < |b| {
          assert c[i] == b[i] && c[j] == rest[j - |b|];
        } else {
          assert c[i] == rest[i - |b|] && c[j] == rest[j - |b|];
        }
      }
      forall j | 0 <= j < |c| ensures KeyRank(c[j].0) >= from + 1 {
        if j < |b| { assert c[j] == b[j]; } else { assert c[j] == rest[j - |b|]; }
      }
    } else {
      assert bs[from..] == [];
    }
  }

  lemma {:induction false} GetAllAppend(a: QueryString, b: QueryString, k: string)
    ensures GetAll(a + b, k) == GetAll(a, k) + GetAll(b, k)
    decreases |b|
  {
    if |b| == 0 {
      assert a + b == a;
    } else {
      var b' := b[..|b| - 1];
      assert (a + b)[..|a + b| - 1] == a + b';
      GetAllAppend(a, b', k);
    }
  }

  lemma {:induction false} GetAllOtherKey(s: QueryString, k: string, k': string)
    requires k != k'
    requires Keyed(s, k')
    ensures GetAll(s, k) == []
    decreases |s|
  {
    if |s| > 0 {
      GetAllOtherKey(s[..|s| - 1], k, k');
    }
  }

  /** Every pair of `b` has key `k`. */
  predicate Keyed(b: QueryString, k: string) {
    forall j :: 0 <= j < |b| ==> b[j].0 == k
  }

  lemma BlockKeysDistinct()
    ensures forall i, j :: 0 <= i < j < 8 ==> BlockKeys[i] != BlockKeys[j]
  {
    forall i, j | 0 <= i < j < 8 ensures BlockKeys[i] != BlockKeys[j] {
      assert KeyRank(BlockKeys[i]) == i + 1 && KeyRank(BlockKeys[j]) == j + 1;
    }
  }

  lemma {:induction false} GetAllBlocks(bs: seq<QueryString>, k: string, target: nat, from: nat)
    requires |bs| == 8 && from <= 8 && target < 8 && BlockKeys[target] == k
    requires forall i :: 0 <= i < 8 ==> Keyed(bs[i], BlockKeys[i])
    ensures GetAll(Concat(bs[from..]), k) == if from <= target then GetAll(bs[target], k) else []
    decreases 8 - from
  {
    if from < 8 {
      GetAllBlocks(bs, k, target, from + 1);
      GetAllBlocksStep(bs, k, target, from);
    } else {
      assert bs[from..] == [];
    }
  }

  /** One block in front of the blocks after it, given what those hold under `k`. */
  lemma GetAllBlocksStep(bs: seq<QueryString>, k: string, target: nat, from: nat)
    requires |bs| == 8 && from < 8 && target < 8 && BlockKeys[target] == k
    requires forall i :: 0 <= i < 8 ==> Keyed(bs[i], BlockKeys[i])
    requires GetAll(Concat(bs[from + 1..]), k) == if from + 1 <= target then GetAll(bs[target], k) else []
    ensures GetAll(Concat(bs[from..]), k) == if from <= target then GetAll(bs[target], k) else []
  {
    ConcatFrom(bs, from);
    GetAllAppend(bs[from], Concat(bs[from + 1..]), k);
    var head := GetAll(bs[from], k);
    var rest := GetAll(Concat(bs[from + 1..]), k);
    if from == target {
      assert head + rest == head;
    } else {
      OtherBlockEmpty(bs, k, target, from);
      assert head + rest == rest;
    }
  }

  lemma ConcatFrom(bs: seq<QueryString>, from: nat)
    requires from < |bs|
    ensures Concat(bs[from..]) == bs[from] + Concat(bs[from + 1..])
  {
    assert bs[from..][1..] == bs[from + 1..];
  }

  /** A block under another key holds no value for `k`. */
  lemma OtherBlockEmpty(bs: seq<QueryString>, k: string, target: nat, from: nat)
    requires |bs| == 8 && from < 8 && target < 8 && BlockKeys[target] == k && from != target
    requires forall i :: 0 <= i < 8 ==> Keyed(bs[i], BlockKeys[i])
    ensures GetAll(bs[from], k) == []
  {
    BlockKeysDistinct();
    assert Keyed(bs[from], BlockKeys[from]);
    GetAllOtherKey(bs[from], k, BlockKeys[from]);
  }

  lemma GetAllSingle(k: string, emit: bool, v: string)
    ensures GetAll(Single(k, emit, v), k) == if emit then [v] else []
  {
    if emit {
      assert Single(k, emit, v)[..0] == [];
    }
  }

  lemma {:induction false} GetAllRepeated(k: string, vs: Option<seq<string>>)
    ensures GetAll(Repeated(k, vs), k) == vs.GetOr([])
  {
    if vs.Some? {
      var xs := vs.value;
      RepeatedValues(k, xs);
    }
  }

  lemma {:induction false} RepeatedValues(k: string, xs: seq<string>)
    ensures GetAll(Repeated(k, Some(xs)), k) == xs
    decreases |xs|
  {
    if |xs| > 0 {
      var r := Repeated(k, Some(xs));
      var xs' := xs[..|xs| - 1];
      assert r[..|r| - 1] == Repeated(k, Some(xs'));
      RepeatedValues(k, xs');
      assert xs' + [xs[|xs| - 1]] == xs;
    }
  }

  // ---------------------------------------------------------------------------
  // Laws of the codec

  /** All-absent parameters serialise to the empty string. */
  lemma BuildNothing()
    ensures BuildQuery(NoParams) == []
  {
    var bs := Blocks(NoParams);
    assert bs == [[], [], [], [], [], [], [], []];
    assert bs[1..][1..][1..][1..][1..][1..][1..][1..] == [];
  }

  /** What `parseQuery` makes of the output of `buildQuery`: falsy values disappear, page 1
      and page size 10 come back absent, and a negative page size comes back as 1. */
  function Canonical(p: ListParams): ListParams {
    ListParams(
      NonEmpty(p.q),
      if p.unread == Some(true) then Some(true) else None,
      if p.severity == Some([]) then None else p.severity,
      if p.workflowIds == Some([]) then None else p.workflowIds,
      NonEmpty(p.sort),
      NonEmpty(p.range),
      if EmitsPage(p) then p.page else None,
      if EmitsPageSize(p) then Some(Max(1, p.pageSize.value)) else None)
  }

  /** The general round trip: `parseQuery(buildQuery(p))` is `Canonical(p)`. */
  lemma RoundTrip(p: ListParams)
    ensures ParseQuery(BuildQuery(p)) == Canonical(p)
  {
    var s := BuildQuery(p);
    assert Encodes(s, p);
    ParseEncoded(s, p);
  }

  /** `s` carries exactly the values `buildQuery` writes for `p`. */
  predicate Encodes(s: QueryString, p: ListParams) {
    && GetAll(s, "q") == (if p.q.Some? && p.q.value != "" then [p.q.value] else [])
    && GetAll(s, "unread") == (if p.unread == Some(true) then ["1"] else [])
    && GetAll(s, "sev") == p.severity.GetOr([])
    && GetAll(s, "wf") == p.workflowIds.GetOr([])
    && GetAll(s, "sort") == (if p.sort.Some? && p.sort.value != "" then [p.sort.value] else [])
    && GetAll(s, "range") == (if p.range.Some? && p.range.value != "" then [p.range.value] else [])
    && GetAll(s, "page") == (if EmitsPage(p) then [IntToString(p.page.value)] else [])
    && GetAll(s, "ps") == (if EmitsPageSize(p) then [IntToString(p.pageSize.value)] else [])
  }

  lemma ParseEncoded(s: QueryString, p: ListParams)
    requires Encodes(s, p)
    ensures ParseQuery(s) == Canonical(p)
  {
    ParseEncodedFilters(s, p);
    ParseEncodedOrder(s, p);
    ParseEncodedPage(s, p);
    ParseEncodedPageSize(s, p);
  }

  lemma ParseEncodedFilters(s: QueryString, p: ListParams)
    requires Encodes(s, p)
    ensures var r := ParseQuery(s); var c := Canonical(p);
      && r.q == c.q && r.unread == c.unread && r.severity == c.severity && r.workflowIds == c.workflowIds
  {
  }

  lemma ParseEncodedOrder(s: QueryString, p: ListParams)
    requires Encodes(s, p)
    ensures var r := ParseQuery(s); var c := Canonical(p);
      r.sort == c.sort && r.range == c.range
  {
  }

  lemma ParseEncodedPage(s: QueryString, p: ListParams)
    requires Encodes(s, p)
    ensures ParseQuery(s).page == Canonical(p).page
  {
    if EmitsPage(p) {
      IntStringRoundTrip(p.page.value);
    }
  }

  lemma ParseEncodedPageSize(s: QueryString, p: ListParams)
    requires Encodes(s, p)
    ensures ParseQuery(s).pageSize == Canonical(p).pageSize
  {
    if EmitsPageSize(p) {
      IntStringRoundTrip(p.pageSize.value);
    }
  }

  /** `p` with the defaults page 1 and page size 10 made absent. */
  function DropDefaults(p: ListParams): ListParams {
    p.(page := if p.page == Some(DefaultPage) then None else p.page,
       pageSize := if p.pageSize == Some(DefaultPageSize) then None else p.pageSize)
  }

  /** For parsed parameters the round trip is exact up to the two defaults. */
  lemma ParsedRoundTrip(s: QueryString)
    ensures ParseQuery(BuildQuery(ParseQuery(s))) == DropDefaults(ParseQuery(s))
  {
    var p := ParseQuery(s);
    RoundTrip(p);
    CanonicalParsed(s);
  }

  /** Parsed parameters are already canonical except for the two defaults. */
  lemma CanonicalParsed(s: QueryString)
    ensures Canonical(ParseQuery(s)) == DropDefaults(ParseQuery(s))
  {
  }

  /** Dropping the defaults does not change the emitted string. */
  lemma BuildDropDefaults(p: ListParams)
    ensures BuildQuery(DropDefaults(p)) == BuildQuery(p)
  {
    assert Blocks(DropDefaults(p)) == Blocks(p);
  }

  /** Hence `buildQuery . parseQuery` is idempotent: a string it has built is a fixed point. */
  lemma CanonicalStringIsFixedPoint(s: QueryString)
    ensures var t := BuildQuery(ParseQuery(s)); BuildQuery(ParseQuery(t)) == t
  {
    ParsedRoundTrip(s);
    BuildDropDefaults(ParseQuery(s));
  }

  /** Pairs under keys other than the eight known ones (for instance `n`) do not affect the parse. */
  lemma ParseIgnoresUnknownKeys(s: QueryString)
    ensures ParseQuery(Seqs.Filter(s, IsKnownPair)) == ParseQuery(s)
  {
    GetAllKnown(s, "q");
    GetAllKnown(s, "unread");
    GetAllKnown(s, "sev");
    GetAllKnown(s, "wf");
    GetAllKnown(s, "sort");
    GetAllKnown(s, "range");
    GetAllKnown(s, "page");
    GetAllKnown(s, "ps");
  }

  lemma {:induction false} GetAllKnown(s: QueryString, k: string)
    requires KeyRank(k) > 0
    ensures GetAll(Seqs.Filter(s, IsKnownPair), k) == GetAll(s, k)
    decreases |s|
  {
    if |s| > 0 {
      var s' := s[..|s| - 1];
      var x := s[|s| - 1];
      GetAllKnown(s', k);
      var f' := Seqs.Filter(s', IsKnownPair);
      if IsKnownPair(x) {
        assert Seqs.Filter(s, IsKnownPair) == f' + [x];
        assert (f' + [x])[..|f'|] == f';
      } else {
        assert x.0 != k;
        assert Seqs.Filter(s, IsKnownPair) == f';
      }
    }
  }

  /** Each pair under key `s[i].0` contributes its value to `GetAll`. */
  lemma {:induction false} InGetAll(s: QueryString, i: nat)
    requires i < |s|
    ensures s[i].1 in GetAll(s, s[i].0)
    decreases |s|
  {
    if i < |s| - 1 {
      InGetAll(s[..|s| - 1], i);
    }
  }
}
