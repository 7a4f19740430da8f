/** The feed list: date grouping of the records and the choice between skeleton rows, the
    empty state and the grouped list. The clock is a parameter: the two day boundaries and the
    parsing of a record's creation text into a timestamp (`None` for an invalid date, whose
    comparisons are all false). */
module NotificationList {
  import opened Seqs
  import opened Contracts
  import opened Wrappers

  datatype Bucket = Today | Yesterday | Earlier

  datatype Day = Day(parseTime: string -> Option<int>, startOfToday: int, startOfYesterday: int)

  /** The bucket of a timestamp: at or after the start of today, else at or after the start of
      yesterday, else earlier; an invalid date lands in Earlier. */
  function BucketOf(ts: Option<int>, day: Day): (r: Bucket)
    ensures r == Today <==> ts.Some? && ts.value >= day.startOfToday
    ensures r == Yesterday <==> ts.Some? && day.startOfYesterday <= ts.value < day.startOfToday
    ensures r == Earlier <==> ts.None? || (ts.value < day.startOfToday && ts.value < day.startOfYesterday)
  {
    if ts.Some? && ts.value >= day.startOfToday then Today
    else if ts.Some? && ts.value >= day.startOfYesterday then Yesterday
    else Earlier
  }

  function BucketOfItem(n: Notification, day: Day): Bucket {
    BucketOf(day.parseTime(n.createdAtISO), day)
  }

  function In(b: Bucket, day: Day): Notification -> bool {
    n => BucketOfItem(n, day) == b
  }

  datatype Groups = Groups(today: seq<Notification>, yesterday: seq<Notification>, earlier: seq<Notification>)

  /** The groups by definition: each bucket is the input filtered to that bucket, in input order. */
  function Grouped(items: seq<Notification>, day: Day): Groups {
    Groups(Filter(items, In(Today, day)), Filter(items, In(Yesterday, day)), Filter(items, In(Earlier, day)))
  }

  function Bucketed(g: Groups, b: Bucket): seq<Notification> {
    match b
    case Today => g.today
    case Yesterday => g.yesterday
    case Earlier => g.earlier
  }

  /** `groupByDate`: one pass that pushes each record onto its bucket. */
  method GroupByDate(items: seq<Notification>, day: Day) returns (g: Groups)
    ensures g == Grouped(items, day)
  {
    g := Groups([], [], []);
    var i := 0;
    while i < |items|
      invariant 0 <= i <= |items|
      invariant g == Grouped(items[..i], day)
    {
      var n := items[i];
      assert items[..i + 1][..i] == items[..i];
      var b := BucketOfItem(n, day);
      if b == Today {
        g := g.(today := g.today + [n]);
      } else if b == Yesterday {
        g := g.(yesterday := g.yesterday + [n]);
      } else {
        g := g.(earlier := g.earlier + [n]);
      }
      i := i + 1;
    }
    assert items[..i] == items;
  }

  /** The groups together hold as many records as the input. */
  lemma {:induction false} GroupsCount(items: seq<Notification>, day: Day)
    ensures var g := Grouped(items, day);
      |g.today| + |g.yesterday| + |g.earlier| == |items|
    decreases |items|
  {
    if |items| > 0 {
      GroupsCount(items[..|items| - 1], day);
    }
  }

  /** Every record lands in exactly one group, and the groups hold as many records as the input. */
  lemma GroupsPartition(items: seq<Notification>, day: Day)
    ensures var g := Grouped(items, day);
      |g.today| + |g.yesterday| + |g.earlier| == |items|
      && forall n :: n in items ==> (n in Bucketed(g, BucketOfItem(n, day)))
    ensures var g := Grouped(items, day);
      forall n, b :: n in Bucketed(g, b) ==> n in items && b == BucketOfItem(n, day)
  {
    GroupsCount(items, day);
    FilterMembers(items, In(Today, day));
    FilterMembers(items, In(Yesterday, day));
    FilterMembers(items, In(Earlier, day));
  }

  function Rank(b: Bucket): nat {
    match b
    case Today => 0
    case Yesterday => 1
    case Earlier => 2
  }

  datatype Section = Section(bucket: Bucket, items: seq<Notification>)

  /** What the list shows: four skeleton rows while loading, the empty state (with its clear
      button when a handler is given) when there is nothing, else the non-empty groups. */
  datatype View = Skeleton(rows: nat) | EmptyState(clearButton: bool) | GroupList(sections: seq<Section>)

  function SectionIf(g: Groups, b: Bucket): seq<Section> {
    if |Bucketed(g, b)| > 0 then [Section(b, Bucketed(g, b))] else []
  }

  /** Some section of `sections` is labelled `b`. */
  predicate Shown(sections: seq<Section>, b: Bucket) {
    exists s :: s in sections && s.bucket == b
  }

  /** Some record falls in bucket `b`. */
  predicate Occurs(items: seq<Notification>, day: Day, b: Bucket) {
    exists n :: n in items && BucketOfItem(n, day) == b
  }

  /** The sections of some groups: Today, Yesterday, Earlier, each only when non-empty. */
  function Sections(g: Groups): (r: seq<Section>)
    ensures |r| <= 3
    ensures forall i, j :: 0 <= i < j < |r| ==> Rank(r[i].bucket) < Rank(r[j].bucket)
    ensures forall s :: s in r ==> |s.items| > 0 && s.items == Bucketed(g, s.bucket)
    ensures forall b :: Shown(r, b) <==> |Bucketed(g, b)| > 0
  {
    var r := SectionIf(g, Today) + SectionIf(g, Yesterday) + SectionIf(g, Earlier);
    SectionsOrdered(g, r);
    SectionsShown(g, r);
    r
  }

  lemma SectionsOrdered(g: Groups, r: seq<Section>)
    requires r == SectionIf(g, Today) + SectionIf(g, Yesterday) + SectionIf(g, Earlier)
    ensures |r| <= 3
    ensures forall i, j :: 0 <= i < j < |r| ==> Rank(r[i].bucket) < Rank(r[j].bucket)
  {
    forall i, j | 0 <= i < j < |r| ensures Rank(r[i].bucket) < Rank(r[j].bucket) {
      RankAt(g, r, i);
      RankAt(g, r, j);
    }
  }

  lemma SectionsShown(g: Groups, r: seq<Section>)
    requires r == SectionIf(g, Today) + SectionIf(g, Yesterday) + SectionIf(g, Earlier)
    ensures forall s :: s in r ==> |s.items| > 0 && s.items == Bucketed(g, s.bucket)
    ensures forall b :: Shown(r, b) <==> |Bucketed(g, b)| > 0
  {
    forall b ensures Shown(r, b) <==> |Bucketed(g, b)| > 0 {
      if |Bucketed(g, b)| > 0 {
        assert Section(b, Bucketed(g, b)) in SectionIf(g, b);
      }
    }
  }

  /** The rank of a section follows from its position: the Today part comes first, then
      Yesterday, then Earlier, and each part holds at most one section. */
  lemma RankAt(g: Groups, r: seq<Section>, i: nat)
    requires r == SectionIf(g, Today) + SectionIf(g, Yesterday) + SectionIf(g, Earlier)
    requires i < |r|
    ensures var t := |SectionIf(g, Today)|; var y := |SectionIf(g, Yesterday)|;
      && t <= 1 && y <= 1 && |SectionIf(g, Earlier)| <= 1
      && Rank(r[i].bucket) == (if i < t then 0 else if i < t + y then 1 else 2)
  {
    var t := SectionIf(g, Today);
    var y := SectionIf(g, Yesterday);
    if i < |t| {
      assert r[i] == t[i];
    } else if i < |t| + |y| {
      assert r[i] == y[i - |t|];
    } else {
      assert r[i] == SectionIf(g, Earlier)[i - |t| - |y|];
    }
  }

  function Render(items: seq<Notification>, loading: bool, hasClear: bool, day: Day): (r: View)
    ensures loading ==> r == Skeleton(4)
    ensures !loading && |items| == 0 ==> r == EmptyState(hasClear)
    ensures !loading && |items| > 0 ==> r.GroupList?
    ensures r.GroupList? ==>
      && |r.sections| <= 3
      && (forall i, j :: 0 <= i < j < |r.sections| ==> Rank(r.sections[i].bucket) < Rank(r.sections[j].bucket))
      && forall s :: s in r.sections ==> |s.items| > 0 && s.items == Bucketed(Grouped(items, day), s.bucket)
  {
    if loading then Skeleton(4)
    else if |items| == 0 then EmptyState(hasClear)
    else GroupList(Sections(Grouped(items, day)))
  }

  /** Every record appears in the rendered section of its own bucket, and a bucket is shown
      exactly when some record falls in it. */
  lemma RenderShowsEachItem(items: seq<Notification>, hasClear: bool, day: Day)
    requires |items| > 0
    ensures var r := Render(items, false, hasClear, day);
      && (forall n :: n in items ==> exists s :: s in r.sections && n in s.items && s.bucket == BucketOfItem(n, day))
      && (forall b :: Occurs(items, day, b) <==> Shown(r.sections, b))
      && |r.sections| >= 1
  {
    var r := Render(items, false, hasClear, day);
    var g := Grouped(items, day);
    GroupsPartition(items, day);
    forall n | n in items ensures exists s :: s in r.sections && n in s.items && s.bucket == BucketOfItem(n, day) {
      var b := BucketOfItem(n, day);
      assert n in Bucketed(g, b);
      assert Shown(r.sections, b);
      var s :| s in r.sections && s.bucket == b;
      assert n in s.items;
    }
    forall b ensures Occurs(items, day, b) <==> Shown(r.sections, b) {
      if Occurs(items, day, b) {
        var n :| n in items && BucketOfItem(n, day) == b;
        assert n in Bucketed(g, b);
      }
      if Shown(r.sections, b) {
        var s :| s in r.sections && s.bucket == b;
        assert s.items[0] in Bucketed(g, b);
      }
    }
    assert items[0] in Bucketed(g, BucketOfItem(items[0], day));
    assert Shown(r.sections, BucketOfItem(items[0], day));
  }
}
