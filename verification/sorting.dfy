/** The listing order: `Array.prototype.sort` with a comparator on the creation text. */
module Sorting {
  import opened Contracts
  import opened Text

  /** `a` may precede `b`: ascending creation text for "oldest", descending otherwise. */
  predicate InOrder(oldest: bool, a: Notification, b: Notification) {
    if oldest then LexLe(a.createdAtISO, b.createdAtISO) else LexLe(b.createdAtISO, a.createdAtISO)
  }

  lemma InOrderTotal(oldest: bool, a: Notification, b: Notification)
    ensures InOrder(oldest, a, b) || InOrder(oldest, b, a)
  {
    LexLeTotal(a.createdAtISO, b.createdAtISO);
  }

  /** The `i`-th record and its successor are in order. */
  predicate InOrderAt(oldest: bool, s: seq<Notification>, i: nat)
    requires i + 1 < |s|
  {
    InOrder(oldest, s[i], s[i + 1])
  }

  /** Neighbours are in order. */
  predicate Sorted(oldest: bool, s: seq<Notification>) {
    forall i :: 0 <= i < |s| - 1 ==> InOrderAt(oldest, s, i)
  }

  /** Inserts `x` after every element it does not strictly precede, so equal keys keep their
      arrival order (the sort is stable). */
  function Insert(oldest: bool, x: Notification, s: seq<Notification>): (r: seq<Notification>)
    requires Sorted(oldest, s)
    ensures Sorted(oldest, r)
    ensures multiset(r) == multiset(s) + multiset{x}
    ensures |r| == |s| + 1
    ensures r[0] == x || (|s| > 0 && r[0] == s[0])
  {
    if |s| == 0 then [x]
    else if !InOrder(oldest, s[0], x) then
      InOrderTotal(oldest, s[0], x);
      ConsSorted(oldest, x, s);
      [x] + s
    else
      var t := s[1..];
      TailSorted(oldest, s);
      var rest := Insert(oldest, x, t);
      assert s == [s[0]] + t;
      assert InOrder(oldest, s[0], rest[0]) by {
        if rest[0] != x { assert rest[0] == s[1]; assert InOrderAt(oldest, s, 0); }
      }
      ConsSorted(oldest, s[0], rest);
      [s[0]] + rest
  }

  /** A record that may precede the head of a sorted sequence extends it to a sorted one. */
  lemma ConsSorted(oldest: bool, x: Notification, s: seq<Notification>)
    requires Sorted(oldest, s)
    requires |s| > 0 ==> InOrder(oldest, x, s[0])
    ensures Sorted(oldest, [x] + s)
  {
    var r := [x] + s;
    forall i | 0 <= i < |r| - 1 ensures InOrderAt(oldest, r, i) {
      if i > 0 {
        assert r[i] == s[i - 1] && r[i + 1] == s[i];
        assert InOrderAt(oldest, s, i - 1);
      }
    }
  }

  /** The tail of a sorted sequence is sorted. */
  lemma TailSorted(oldest: bool, s: seq<Notification>)
    requires Sorted(oldest, s) && |s| > 0
    ensures Sorted(oldest, s[1..])
  {
    var t := s[1..];
    forall i | 0 <= i < |t| - 1 ensures InOrderAt(oldest, t, i) {
      assert t[i] == s[i + 1] && t[i + 1] == s[i + 2];
      assert InOrderAt(oldest, s, i + 1);
    }
  }

  /** Stable insertion sort in listing order. */
  function Sort(oldest: bool, s: seq<Notification>): (r: seq<Notification>)
    ensures Sorted(oldest, r)
    ensures multiset(r) == multiset(s)
    ensures |r| == |s|
  {
    if |s| == 0 then []
    else
      assert s == s[..|s| - 1] + [s[|s| - 1]];
      Insert(oldest, s[|s| - 1], Sort(oldest, s[..|s| - 1]))
  }
}
