/** The records exchanged between the stores, the views and the listing collaborator. */
module Contracts {
  import opened Wrappers

  datatype Severity = Info | Warning | Critical

  /** The wire spelling of a severity. */
  function SeverityName(s: Severity): (r: string)
    ensures r == "info" <==> s == Info
  {
    match s
    case Info => "info"
    case Warning => "warning"
    case Critical => "critical"
  }

  /** A loosely typed JSON value, as carried by the free-form parts of a record (its diff).
      Absence (`undefined`) is expressed with `Option` around a `Value`. */
  datatype Value =
    | Null
    | Bool(b: bool)
    | Num(n: int)
    | Str(s: string)
    | Arr(elems: seq<Value>)
    | Obj(entries: seq<(string, Value)>)

  /** JavaScript truthiness of a present value. */
  predicate Truthy(v: Value) {
    match v
    case Null => false
    case Bool(b) => b
    case Num(n) => n != 0
    case Str(s) => s != ""
    case Arr(_) => true
    case Obj(_) => true
  }

  /** One feed item. Timestamps are kept as the ISO-8601 text the records carry, except the
      snooze deadline, which is compared with the clock and is therefore a number. */
  datatype Notification = Notification(
    id: string,
    title: string,
    sourceUrl: string,
    sourceDomain: string,
    workflowId: string,
    workflowName: string,
    severity: Severity,
    createdAtISO: string,
    unread: bool,
    pinned: bool,
    tags: Option<seq<string>>,
    diff: Option<Value>,
    snoozedUntil: Option<int>)

  datatype Workflow = Workflow(id: string, name: string, count: Option<int>)

  datatype SavedView = SavedView(id: string, name: string, query: string)
}
