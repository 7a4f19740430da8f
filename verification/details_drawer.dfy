/** The details drawer's state logic: which record it shows while opening, open and closing,
    its body key, and how a record's diff payload becomes rows of field, before and after. */
module DetailsDrawer {
  import opened Wrappers
  import opened Text
  import opened Contracts

  // ---------------------------------------------------------------------------
  // Visible record

  /** The record shown: while open the current one, falling back to the snapshot; while
      closed (and leaving) the snapshot. */
  function Visible(open: bool, data: Option<Notification>, snapshot: Option<Notification>): (r: Option<Notification>)
    ensures open && data.Some? ==> r == data
    ensures !open || data.None? ==> r == snapshot
  {
    if open then (if data.Some? then data else snapshot) else snapshot
  }

  /** The snapshot effect: remember the record whenever the drawer is open with one. */
  function TakeSnapshot(open: bool, data: Option<Notification>, snapshot: Option<Notification>): (r: Option<Notification>)
    ensures open && data.Some? ==> r == data
    ensures !(open && data.Some?) ==> r == snapshot
  {
    if open && data.Some? then data else snapshot
  }

  /** The leave transition's end clears the snapshot. */
  function AfterLeave(): Option<Notification> {
    None
  }

  /** The body key: the shown record's id, or "closed" when nothing is shown. */
  function BodyKey(visible: Option<Notification>): (r: string)
    ensures visible.Some? ==> r == visible.value.id
    ensures visible.None? ==> r == "closed"
  {
    match visible
    case Some(n) => n.id
    case None => "closed"
  }

  /** Closing keeps the last record on screen during the leave transition, whatever `data`
      becomes; once the transition ends nothing is shown and the key is "closed". */
  lemma ClosingKeepsContent(d: Notification, snapshot: Option<Notification>, later: Option<Notification>)
    ensures var s := TakeSnapshot(true, Some(d), snapshot);
      && Visible(true, Some(d), s) == Some(d)
      && TakeSnapshot(false, later, s) == s
      && Visible(false, later, TakeSnapshot(false, later, s)) == Some(d)
      && Visible(false, later, AfterLeave()) == None
      && BodyKey(Visible(false, later, AfterLeave())) == "closed"
  {
  }

  // ---------------------------------------------------------------------------
  // Diff rows

  /** One table row. `None` is `undefined`. */
  datatype Row = Row(field: string, before: Option<Value>, after: Option<Value>)

  /** The diff section: "no diff", an array payload passed through as the rows, or the rows
      made from an object's entries. */
  datatype DiffView = NoDiff | Passthrough(elems: seq<Value>) | Rows(rows: seq<Row>)

  /** `x ?? y` treats `undefined` and `null` alike. */
  predicate Nullish(v: Option<Value>) {
    v.None? || v == Some(Null)
  }

  /** The payload: `diff ?? changes`. */
  function RawDiff(diff: Option<Value>, changes: Option<Value>): (r: Option<Value>)
    ensures !Nullish(diff) ==> r == diff
    ensures Nullish(diff) ==> r == changes
  {
    if Nullish(diff) then changes else diff
  }

  predicate HasKey(entries: seq<(string, Value)>, k: string) {
    exists i :: 0 <= i < |entries| && entries[i].0 == k
  }

  /** The value under a key of an object's entries. */
  function Lookup(entries: seq<(string, Value)>, k: string): (r: Option<Value>)
    ensures r.Some? <==> HasKey(entries, k)
    ensures r.Some? ==> exists i :: 0 <= i < |entries| && entries[i] == (k, r.value)
  {
    if |entries| == 0 then None
    else if entries[0].0 == k then Some(entries[0].1)
    else
      var r := Lookup(entries[1..], k);
      assert HasKey(entries, k) <==> HasKey(entries[1..], k) by {
        if HasKey(entries, k) {
          var i :| 0 <= i < |entries| && entries[i].0 == k;
          assert entries[1..][i - 1].0 == k;
        }
        if HasKey(entries[1..], k) {
          var i :| 0 <= i < |entries| - 1 && entries[1..][i].0 == k;
          assert entries[i + 1].0 == k;
        }
      }
      if r.Some? then
        var i :| 0 <= i < |entries| - 1 && entries[1..][i] == (k, r.value);
        assert entries[i + 1] == (k, r.value);
        r
      else r
  }

  /** An entry's row: an object value with both `before` and `after` gives those two;
      any other value is the `after` of a row with no `before`. */
  function EntryRow(e: (string, Value)): (r: Row)
    ensures r.field == e.0
    ensures (e.1.Obj? && HasKey(e.1.entries, "before") && HasKey(e.1.entries, "after")) ==>
      r.before == Lookup(e.1.entries, "before") && r.after == Lookup(e.1.entries, "after")
      && r.before.Some? && r.after.Some?
    ensures !(e.1.Obj? && HasKey(e.1.entries, "before") && HasKey(e.1.entries, "after")) ==>
      r.before.None? && r.after == Some(e.1)
  {
    match e.1
    case Obj(entries) =>
      if HasKey(entries, "before") && HasKey(entries, "after")
      then Row(e.0, Lookup(entries, "before"), Lookup(entries, "after"))
      else Row(e.0, None, Some(e.1))
    case _ => Row(e.0, None, Some(e.1))
  }

  /** `Object.entries` of a truthy value that is not an array: an object's own entries, a
      string's characters under their decimal indices, nothing for numbers and booleans. */
  function Entries(v: Value): (r: seq<(string, Value)>)
    ensures v.Obj? ==> r == v.entries
    ensures v.Str? ==> |r| == |v.s| && forall i :: 0 <= i < |r| ==> r[i] == (IntToString(i), Str([v.s[i]]))
    ensures !v.Obj? && !v.Str? ==> r == []
  {
    match v
    case Obj(entries) => entries
    case Str(s) => seq(|s|, i requires 0 <= i < |s| => (IntToString(i), Str([s[i]])))
    case _ => []
  }

  /** The diff section of a record: `diff` is preferred over `changes`; a missing or falsy
      payload, and a payload giving no rows, show "no diff". */
  function DiffOf(diff: Option<Value>, changes: Option<Value>): (r: DiffView)
    ensures Nullish(diff) && Nullish(changes) ==> r == NoDiff
    ensures !Nullish(diff) && diff.value.Arr? ==>
      r == (if |diff.value.elems| == 0 then NoDiff else Passthrough(diff.value.elems))
    ensures !Nullish(diff) && diff.value.Obj? ==>
      var es := diff.value.entries;
      if |es| == 0 then r == NoDiff
      else r.Rows? && |r.rows| == |es| && forall i :: 0 <= i < |es| ==> r.rows[i] == EntryRow(es[i])
    ensures r.Rows? ==> |r.rows| > 0
    ensures r.Passthrough? ==> |r.elems| > 0
  {
    var raw := RawDiff(diff, changes);
    if raw.None? || !Truthy(raw.value) then NoDiff
    else if raw.value.Arr? then
      (if |raw.value.elems| == 0 then NoDiff else Passthrough(raw.value.elems))
    else
      var es := Entries(raw.value);
      var rows := seq(|es|, i requires 0 <= i < |es| => EntryRow(es[i]));
      if |rows| == 0 then NoDiff else Rows(rows)
  }

  /** When `diff` is present (neither undefined nor null), `changes` plays no part. */
  lemma DiffPreferred(diff: Value, c1: Option<Value>, c2: Option<Value>)
    requires diff != Null
    ensures DiffOf(Some(diff), c1) == DiffOf(Some(diff), c2)
  {
  }

  /** With `diff` undefined or null, the drawer shows what `changes` alone would give. */
  lemma ChangesFallback(diff: Option<Value>, changes: Option<Value>)
    requires Nullish(diff)
    ensures DiffOf(diff, changes) == DiffOf(changes, None)
  {
  }

  /** A string payload gives one row per character, field "0", "1", ..., with no `before`. */
  lemma StringPayloadRows(s: string, changes: Option<Value>)
    requires |s| > 0
    ensures var r := DiffOf(Some(Str(s)), changes);
      r.Rows? && |r.rows| == |s|
      && forall i :: 0 <= i < |s| ==> r.rows[i] == Row(IntToString(i), None, Some(Str([s[i]])))
  {
  }

  /** A number or boolean payload gives no rows. */
  lemma ScalarsShowNoDiff(diff: Option<Value>, changes: Option<Value>)
    requires RawDiff(diff, changes).Some?
    requires RawDiff(diff, changes).value.Num? || RawDiff(diff, changes).value.Bool?
    ensures DiffOf(diff, changes) == NoDiff
  {
  }
}
