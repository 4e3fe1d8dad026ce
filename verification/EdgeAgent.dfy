/** An edge's side of reconciliation, one effect at a time: apply to the kernel, persist the record, acknowledge. The
    process may stop between any two of them, and a reboot also loses the kernel's state. */
module EdgeAgent {
  import opened Basics
  import opened PolicyDatabase

  /** The durable record of the last confirmed document. */
  datatype Record = Record(version: nat, routeVersion: nat, digest: Option<Desired>)

  const NO_RECORD := Record(0, 0, None)

  /** Interfaces and routes: none, those of several documents, or those of one document in full. */
  datatype Kernel = Empty | Mixed | Runs(document: Desired)

  /** How far the running process has come; `Idle` if there is none. */
  datatype Stage =
    | Idle
    | Applying(document: Desired, matched: bool)
    | Applied(document: Desired)
    | Finished(document: Desired, status: Status)

  /** `applied` holds every document that has been applied in full. */
  datatype Edge = Edge(record: Record, kernel: Kernel, stage: Stage, applied: set<Desired>)

  const NEW_EDGE := Edge(NO_RECORD, Empty, Idle, {})

  predicate Rejects(r: Record, d: Desired) { d.version < r.version || d.routeVersion < r.routeVersion }

  function StatusOf(r: Record, d: Desired): Status {
    if d.version < r.version then StaleStatus else if d.routeVersion < r.routeVersion then EdgeAhead else Verified
  }

  predicate Matches(r: Record, d: Desired) { d.version == r.version && r.digest == Some(d) }

  /** A new process loads the record and judges the document; what it accepts it starts to apply, even if it matches. */
  function Started(e: Edge, d: Desired): Edge {
    if e.stage != Idle then e
    else if Rejects(e.record, d) then e.(stage := Finished(d, StatusOf(e.record, d)))
    else e.(kernel := Mixed, stage := Applying(d, Matches(e.record, d)))
  }

  function AppliedInFull(e: Edge): Edge {
    match e.stage
    case Applying(d, matched) =>
      e.(kernel := Runs(d), applied := e.applied + {d}, stage := if matched then Finished(d, Verified) else Applied(d))
    case _ => e
  }

  function Persisted(e: Edge): Edge {
    match e.stage
    case Applied(d) => e.(record := Record(d.version, d.routeVersion, Some(d)), stage := Finished(d, Verified))
    case _ => e
  }

  function Acknowledged(e: Edge): Edge {
    if e.stage.Finished? then e.(stage := Idle) else e
  }

  function Crashed(e: Edge, rebooted: bool): Edge {
    e.(stage := Idle, kernel := if rebooted then Empty else e.kernel)
  }

  /** One reconciliation that nothing interrupts. */
  function Reconciled(e: Edge, d: Desired): Edge {
    Persisted(AppliedInFull(Started(e, d)))
  }

  class EdgeAgent {
    var record: Record
    var kernel: Kernel
    var stage: Stage
    var applied: set<Desired>

    ghost function View(): Edge
      reads this
    {
      Edge(record, kernel, stage, applied)
    }

    constructor ()
      ensures View() == NEW_EDGE
    {
      record, kernel, stage, applied := NO_RECORD, Empty, Idle, {};
    }

    method ApplyInterfaces()
      modifies this`kernel, this`stage, this`applied
      ensures View() == AppliedInFull(old(View()))
    {
      if stage.Applying? {
        var d := stage.document;
        kernel, applied := Runs(d), applied + {d};
        stage := if stage.matched then Finished(d, Verified) else Applied(d);
      }
    }

    method PersistRecord()
      modifies this`record, this`stage
      ensures View() == Persisted(old(View()))
    {
      if stage.Applied? {
        var d := stage.document;
        record, stage := Record(d.version, d.routeVersion, Some(d)), Finished(d, Verified);
      }
    }

    /** An uninterrupted reconciliation ends with the document running and recorded, or refuses it and changes nothing
        but its answer. */
    method Reconcile(d: Desired) returns (status: Status)
      requires stage == Idle
      modifies this
      ensures View() == Reconciled(old(View()), d) && stage == Finished(d, status) && status == StatusOf(old(record), d)
      ensures record.version >= old(record).version && record.routeVersion >= old(record).routeVersion
      ensures status == Verified <==>
              kernel == Runs(d) && d in applied && Matches(record, d) && !Rejects(old(record), d)
      ensures status != Verified ==> record == old(record) && kernel == old(kernel) && applied == old(applied)
    {
      if d.version < record.version {
        stage := Finished(d, StaleStatus);
        return StaleStatus;
      }
      var matched := d.version == record.version && record.digest == Some(d);
      if d.routeVersion < record.routeVersion {
        stage := Finished(d, EdgeAhead);
        return EdgeAhead;
      }
      kernel, stage := Mixed, Applying(d, matched);
      ApplyInterfaces();
      PersistRecord();
      return Verified;
    }
  }
}
