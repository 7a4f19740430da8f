/** The notification store: the records on screen, held as an id-to-record map plus the display
    order of their ids, with a loading flag and the last error. A `list` call is one atomic
    step given the collaborator's outcome; overlapping calls are not modelled. */
module NotificationStore {
  import opened Wrappers
  import opened Seqs
  import opened Contracts
  import MockAdapter
  import Query

  datatype State = State(
    items: map<string, Notification>,
    order: seq<string>,
    loading: bool,
    error: Option<string>)

  const Initial := State(map[], [], false, None)

  /** The map's keys are exactly the ids in `order`. */
  predicate Consistent(s: State) {
    s.items.Keys == Elems(s.order)
  }

  /** `data.map(d => d.id)`. */
  function Ids(records: seq<Notification>): (r: seq<string>)
    ensures |r| == |records|
    ensures forall i :: 0 <= i < |r| ==> r[i] == records[i].id
  {
    seq(|records|, i requires 0 <= i < |records| => records[i].id)
  }

  /** Record `i` is the last one in `records` carrying its id. */
  predicate LastWithId(records: seq<Notification>, i: int)
    requires 0 <= i < |records|
  {
    forall j :: i < j < |records| ==> records[j].id != records[i].id
  }

  /** The map built by setting each record under its id, left to right: the keys are the ids
      (`IndexLast` states which record each holds). */
  function Index(records: seq<Notification>): (r: map<string, Notification>)
    ensures r.Keys == Elems(Ids(records))
  {
    if |records| == 0 then map[]
    else
      var s := records[..|records| - 1];
      var n := records[|records| - 1];
      assert Ids(records) == Ids(s) + [n.id];
      Index(s)[n.id := n]
  }

  /** A repeated id keeps its last record. */
  lemma {:induction false} IndexLast(records: seq<Notification>, i: nat)
    requires i < |records| && LastWithId(records, i)
    ensures Index(records)[records[i].id] == records[i]
    decreases |records|
  {
    var s := records[..|records| - 1];
    if i < |records| - 1 {
      assert records[i] == s[i];
      assert LastWithId(s, i) by {
        forall j | i < j < |s| ensures s[j].id != s[i].id { assert s[j] == records[j]; }
      }
      IndexLast(s, i);
    }
  }

  /** Every id's entry in the index is its last record. */
  lemma IndexLastAll(records: seq<Notification>)
    ensures forall i :: 0 <= i < |records| && LastWithId(records, i) ==> Index(records)[records[i].id] == records[i]
  {
    forall i | 0 <= i < |records| && LastWithId(records, i) ensures Index(records)[records[i].id] == records[i] {
      IndexLast(records, i);
    }
  }

  /** The first half of `list`: raise the loading flag and clear the error. */
  function BeginList(s: State): (r: State)
    ensures r.loading && r.error.None?
    ensures r.items == s.items && r.order == s.order
  {
    s.(loading := true, error := None)
  }

  /** The second half of `list`: on success replace the collection with the response, in
      response order; on failure record the message and keep the collection. */
  function Settle(s: State, outcome: Result<seq<Notification>, string>): (r: State)
    ensures !r.loading
    ensures outcome.Success? ==> r.order == Ids(outcome.value) && r.items == Index(outcome.value)
                                 && r.error == s.error && Consistent(r)
    ensures outcome.Failure? ==> r.items == s.items && r.order == s.order && r.error == Some(outcome.error)
  {
    match outcome
    case Success(data) => s.(items := Index(data), order := Ids(data), loading := false)
    case Failure(e) => s.(error := Some(e), loading := false)
  }

  /** `list` as one step. */
  function List(s: State, outcome: Result<seq<Notification>, string>): (r: State)
    ensures !r.loading
    ensures outcome.Success? ==> r.error.None? && Consistent(r)
                                 && r.order == Ids(outcome.value)
                                 && forall i :: 0 <= i < |outcome.value| && LastWithId(outcome.value, i) ==>
                                      r.items[outcome.value[i].id] == outcome.value[i]
    ensures outcome.Failure? ==> r.items == s.items && r.order == s.order && r.error == Some(outcome.error)
  {
    if outcome.Success? then IndexLastAll(outcome.value); Settle(BeginList(s), outcome)
    else Settle(BeginList(s), outcome)
  }

  /** The message a `for..of` over a plain object raises, as `String(e)` renders it. */
  const NotIterable := "TypeError: data is not iterable"

  /** `list` fed with the collaborator's actual reply, written as the code has it: the reply
      is an object with `items`, `total`, `page` and `pageSize`, which `for..of` cannot
      iterate, so the call always lands in the failure branch. */
  function ListWithReply(s: State, reply: MockAdapter.ListResult): (r: State)
    ensures !r.loading && r.error == Some(NotIterable)
    ensures r.items == s.items && r.order == s.order
  {
    List(s, Failure(NotIterable))
  }

  /** Whatever the collaborator finds, the store as written shows none of it. */
  lemma ReplyNeverShown(s: State, db: MockAdapter.Db, p: Query.ListParams, now: int)
    requires |MockAdapter.List(db, p, now).items| > 0
    requires s.order == []
    ensures var r := ListWithReply(s, MockAdapter.List(db, p, now));
      r.order == [] && r.order != Ids(MockAdapter.List(db, p, now).items) && r.error.Some?
  {
  }

  /** The evidently intended `list`: iterate the reply's page of records. */
  function ListWithReplyIntended(s: State, reply: MockAdapter.ListResult): (r: State)
    ensures !r.loading && r.error.None? && Consistent(r)
    ensures r.order == Ids(reply.items)
    ensures forall i :: 0 <= i < |reply.items| && LastWithId(reply.items, i) ==> r.items[reply.items[i].id] == reply.items[i]
  {
    IndexLastAll(reply.items);
    List(s, Success(reply.items))
  }

  /** With the intended `list`, the store shows the collaborator's page, in its order, and
      every shown record matches the criteria. */
  lemma IntendedShowsPage(s: State, db: MockAdapter.Db, p: Query.ListParams, now: int)
    ensures var reply := MockAdapter.List(db, p, now);
      var r := ListWithReplyIntended(s, reply);
      && r.order == Ids(reply.items)
      && forall k :: k in r.items ==> MockAdapter.Matches(r.items[k], p) && MockAdapter.NotSnoozed(r.items[k], now)
  {
    var reply := MockAdapter.List(db, p, now);
    var r := ListWithReplyIntended(s, reply);
    MockAdapter.ListPage(db, p, now);
    forall k | k in r.items ensures MockAdapter.Matches(r.items[k], p) && MockAdapter.NotSnoozed(r.items[k], now) {
      assert k in Elems(Ids(reply.items));
      var i :| 0 <= i < |reply.items| && reply.items[i].id == k;
      var j := LastOf(reply.items, i);
      assert r.items[k] == reply.items[j];
      assert reply.items[j] in reply.items;
    }
  }

  /** The last position carrying the id of position `i`. */
  function LastOf(records: seq<Notification>, i: nat): (j: nat)
    requires i < |records|
    ensures i <= j < |records| && records[j].id == records[i].id && LastWithId(records, j)
    decreases |records| - i
  {
    if forall k :: i < k < |records| ==> records[k].id != records[i].id then i
    else
      var k :| i < k < |records| && records[k].id == records[i].id;
      LastOf(records, k)
  }

  /** The live-merge callback: each delivered record is set under its id and its id is put in
      front of the order, one at a time and without removing an earlier occurrence. */
  function Merge(s: State, batch: seq<Notification>): (r: State)
    ensures r.loading == s.loading && r.error == s.error
    ensures |r.order| == |s.order| + |batch|
    ensures r.items.Keys == s.items.Keys + Elems(Ids(batch))
  {
    if |batch| == 0 then s
    else
      var n := batch[|batch| - 1];
      var m := Merge(s, batch[..|batch| - 1]);
      assert Ids(batch) == Ids(batch[..|batch| - 1]) + [n.id];
      m.(items := m.items[n.id := n], order := [n.id] + m.order)
  }

  /** The merged order is the delivered ids, last first, in front of the old order; the merged
      map is the old one overridden by the batch's own index. */
  lemma {:induction false} MergeShape(s: State, batch: seq<Notification>)
    ensures Merge(s, batch).order == Reverse(Ids(batch)) + s.order
    ensures Merge(s, batch).items == s.items + Index(batch)
    decreases |batch|
  {
    if |batch| > 0 {
      var prefix := batch[..|batch| - 1];
      var n := batch[|batch| - 1];
      MergeShape(s, prefix);
      assert Ids(batch)[..|batch| - 1] == Ids(prefix);
      assert Reverse(Ids(batch)) == [n.id] + Reverse(Ids(prefix));
      assert Index(batch) == Index(prefix)[n.id := n];
      UnionUpdate(s.items, Index(prefix), n.id, n);
    }
  }

  lemma UnionUpdate<K, V>(a: map<K, V>, b: map<K, V>, k: K, v: V)
    ensures (a + b)[k := v] == a + b[k := v]
  {
  }

  /** Merging keeps the map's keys equal to the ids in the order. */
  lemma MergeKeepsConsistent(s: State, batch: seq<Notification>)
    requires Consistent(s)
    ensures Consistent(Merge(s, batch))
  {
    var r := Merge(s, batch);
    var ids := Ids(batch);
    MergeShape(s, batch);
    ReverseElems(ids);
    assert Elems(r.order) == Elems(Reverse(ids)) + Elems(s.order);
  }

  /** Records outside the batch keep their entry; each batch id holds its last record. */
  lemma MergeKeepsOthers(s: State, batch: seq<Notification>)
    ensures forall k :: k !in Ids(batch) && k in s.items ==> Merge(s, batch).items[k] == s.items[k]
    ensures forall i :: 0 <= i < |batch| && LastWithId(batch, i) ==> Merge(s, batch).items[batch[i].id] == batch[i]
  {
    MergeShape(s, batch);
    IndexLastAll(batch);
  }

  /** Merging a record whose id is already listed leaves that id twice in the order. */
  lemma MergeDuplicates(s: State, n: Notification)
    requires n.id in s.order
    ensures !NoDup(Merge(s, [n]).order)
  {
    var r := Merge(s, [n]);
    MergeShape(s, [n]);
    assert Ids([n]) == [n.id];
    assert r.order == [n.id] + s.order;
    var j :| 0 <= j < |s.order| && s.order[j] == n.id;
    assert r.order[0] == r.order[j + 1];
  }

  /** The store and the collaborator it forwards to. */
  datatype World = World(store: State, db: MockAdapter.Db)

  /** `markRead`, `markUnread`, `pin` and `unpin` await the collaborator and do nothing else. */
  function MarkRead(w: World, a: MockAdapter.IdArg): World {
    w.(db := MockAdapter.MarkRead(w.db, a))
  }

  function MarkUnread(w: World, a: MockAdapter.IdArg): World {
    w.(db := MockAdapter.MarkUnread(w.db, a))
  }

  function Pin(w: World, id: string): World {
    w.(db := MockAdapter.Pin(w.db, id))
  }

  function Unpin(w: World, id: string): World {
    w.(db := MockAdapter.Unpin(w.db, id))
  }

  /** The forwarding operations leave the store's records, order and flags as they were, so a
      record marked read keeps showing as unread until the next `list`. */
  lemma ForwardingLeavesStore(w: World, a: MockAdapter.IdArg, id: string)
    ensures MarkRead(w, a).store == w.store && MarkUnread(w, a).store == w.store
    ensures Pin(w, id).store == w.store && Unpin(w, id).store == w.store
  {
  }
}
