/** The records that leave the text-Trace parser (internal/traceparse/parser.go). */
module TraceEvents {
  import opened Utf8

  datatype Kind = Statement | Procedure | Function | Trigger | Lifecycle | Gap
  datatype Phase = Start | Finish | TraceInit | TraceFini | NoPhase
  datatype Correlation = Heuristic | Unmatched
  datatype PlanFormat = NoPlan | Classic | Explained

  datatype Table = Table(name: Bytes, counters: seq<int>)

  datatype Event = Event(
    scopeToken: Bytes,
    correlation: Correlation,
    kind: Kind,
    phase: Phase,
    name: Bytes,
    sql: Bytes,
    plan: Bytes,
    planFormat: PlanFormat,
    timestamp: Bytes,
    attachment: nat,
    transaction: nat,
    statement: nat,
    sequence: nat,
    parent: nat,
    durationMS: nat,
    pageReads: nat,
    pageWrites: nat,
    pageFetches: nat,
    pageMarks: nat,
    tables: seq<Table>,
    incomplete: bool)
  {
    /** The (attachment, transaction) pair whose stack the record works on. */
    function Scope(): (nat, nat) { (attachment, transaction) }

    predicate IsExecution() { kind != Lifecycle && kind != Gap }

    predicate PairedStart() { IsExecution() && phase == Start && sequence > 0 }

    predicate PairedFinish() { IsExecution() && phase != Start && sequence > 0 }
  }

  /** A record as the header line creates it. */
  function NewRecord(kind: Kind, phase: Phase, timestamp: Bytes, incomplete: bool): Event {
    Event([], Heuristic, kind, phase, [], [], [], NoPlan, timestamp, 0, 0, 0, 0, 0, 0, 0, 0, 0, 0, [], incomplete)
  }

  const GAP: Event := NewRecord(Gap, NoPhase, [], true).(correlation := Unmatched)
}
