/** The anchoring tables and the SQL statements the store runs against them. A transaction
    runs its statements in order and rolls everything back when one of them breaks a key. */
module AnchorTables {
  import opened Basics

  datatype Name = Name(text: string)

  datatype Status = Built | Submitted | Confirmed | Failed

  /** A head row, and equally the predecessor a batch names: both halves may be null. */
  datatype Head = Head(batch: Option<Name>, root: Option<Name>)

  datatype BatchRow = BatchRow(status: Status, root: Name, leafCount: nat, prev: Head)

  datatype Record = Record(recordType: string, recordId: string, recordHash: string)

  /** A submission is pending, then once and for all confirmed or failed. */
  datatype Outcome = Pending | Landed | Dropped

  datatype SubmissionRow = SubmissionRow(batch: Name, platform: bool, tx: Name, outcome: Outcome, updatedAt: Name)

  /** The primary key of an immutable event. */
  datatype Event =
    | BuiltEvent(batch: Name)
    | SubmittedEvent(batch: Name)
    | ConfirmedEvent(batch: Name)
    | AbandonedEvent(batch: Name)
    | SettledEvent(batch: Name, submission: Name)

  datatype Tables = Tables(
    batches: map<Name, BatchRow>,
    head: map<nat, Head>,
    records: map<Record, Option<Name>>,
    submissions: map<Name, SubmissionRow>,
    events: set<Event>
  )

  const NULL_HEAD := Head(None, None)

  /** The tables as the migration leaves them: a single head row, version 0, naming no batch. */
  const FRESH := Tables(map[], map[0 := NULL_HEAD], map[], map[], {})

  // ---- Queries ----

  predicate Live(batches: map<Name, BatchRow>, id: Name) {
    id in batches && batches[id].status != Failed
  }

  predicate IsConfirmed(batches: map<Name, BatchRow>, id: Name) {
    id in batches && batches[id].status == Confirmed
  }

  function BoundTo(records: map<Record, Option<Name>>, id: Name): set<Record> {
    set r | r in records && records[r] == Some(id)
  }

  predicate Holds(submissions: map<Name, SubmissionRow>, id: Name, outcome: Outcome) {
    exists s :: s in submissions && submissions[s].batch == id && submissions[s].outcome == outcome
  }

  predicate PlatformLanded(submissions: map<Name, SubmissionRow>, id: Name) {
    exists s :: s in submissions && submissions[s].batch == id && submissions[s].outcome == Landed
      && submissions[s].platform
  }

  /** `v` is the row `ORDER BY version DESC LIMIT 1` finds. */
  predicate Newest(head: map<nat, Head>, v: nat) {
    v in head && forall w :: w in head ==> w <= v
  }

  // ---- Statements ----

  datatype Statement =
    | InsertRecord(record: Record)
    | InsertBatch(id: Name, row: BatchRow)
    | BindLeaf(id: Name, record: Record)
    | ReleaseLeaves(id: Name)
    | InsertEvent(event: Event)
    | BuildGuard(version: nat, id: Name, leafCount: nat, prev: Head)
    | ConfirmGuard(version: nat, id: Name)
    | AbandonGuard(version: nat, id: Name)
    | InsertHead(version: nat, headRow: Head)
    | Advance(id: Name, from: set<Status>, to: Status)
    | InsertSubmission(sid: Name, submission: SubmissionRow, orIgnore: bool)
    | SettleSubmission(sid: Name, outcome: Outcome, at: Name)
    | InsertSettledEvent(sid: Name, batch: Name, outcome: Outcome, at: Name)

  datatype Ran = Aborted | Ran(db: Tables, changes: nat)

  predicate BuildGuardTrips(db: Tables, version: nat, id: Name, leafCount: nat, prev: Head) {
    || |BoundTo(db.records, id)| != leafCount
    || !(version in db.head && db.head[version] == prev)
    || (prev.batch.Some? && !IsConfirmed(db.batches, prev.batch.value))
  }

  predicate AbandonGuardTrips(db: Tables, id: Name) {
    || Holds(db.submissions, id, Landed)
    || Holds(db.submissions, id, Pending)
    || !exists v :: v in db.head && Newest(db.head, v) && db.head[v].batch == Some(id)
  }

  predicate RootTaken(batches: map<Name, BatchRow>, root: Name) {
    exists b :: b in batches && Live(batches, b) && batches[b].root == root
  }

  predicate SubmissionClashes(submissions: map<Name, SubmissionRow>, sid: Name, tx: Name) {
    sid in submissions || exists s :: s in submissions && submissions[s].tx == tx
  }

  function RunInsertHead(db: Tables, version: nat, row: Head): Ran {
    if version in db.head then Aborted else Ran(db.(head := db.head[version := row]), 1)
  }

  /** A guard re-inserts a version it expects to exist, so that tripping it breaks the key. */
  function RunGuard(db: Tables, version: nat, trips: bool): Ran {
    if trips then RunInsertHead(db, version, NULL_HEAD) else Ran(db, 0)
  }

  function RunInsertEvent(db: Tables, event: Event): Ran {
    if event in db.events then Aborted else Ran(db.(events := db.events + {event}), 1)
  }

  function Bind(records: map<Record, Option<Name>>, record: Record, id: Name): map<Record, Option<Name>> {
    if record in records && records[record] == None then records[record := Some(id)] else records
  }

  function Release(records: map<Record, Option<Name>>, id: Name): map<Record, Option<Name>> {
    map r | r in records :: if records[r] == Some(id) then None else records[r]
  }

  function Settle(
    submissions: map<Name, SubmissionRow>, sid: Name, outcome: Outcome, at: Name
  ): map<Name, SubmissionRow>
    requires sid in submissions
  {
    submissions[sid := submissions[sid].(outcome := outcome, updatedAt := at)]
  }

  predicate CanSettle(db: Tables, sid: Name) {
    sid in db.submissions && db.submissions[sid].outcome == Pending && Live(db.batches, db.submissions[sid].batch)
  }

  function Execute(db: Tables, statement: Statement): Ran {
    match statement
    case InsertRecord(record) =>
      if record in db.records then Ran(db, 0) else Ran(db.(records := db.records[record := None]), 1)
    case InsertBatch(id, row) =>
      if id in db.batches || (row.status != Failed && RootTaken(db.batches, row.root)) then Aborted
      else Ran(db.(batches := db.batches[id := row]), 1)
    case BindLeaf(id, record) =>
      Ran(db.(records := Bind(db.records, record, id)),
          if record in db.records && db.records[record] == None then 1 else 0)
    case ReleaseLeaves(id) =>
      Ran(db.(records := Release(db.records, id)), |BoundTo(db.records, id)|)
    case InsertEvent(event) => RunInsertEvent(db, event)
    case BuildGuard(version, id, leafCount, prev) =>
      RunGuard(db, version, BuildGuardTrips(db, version, id, leafCount, prev))
    case ConfirmGuard(version, id) =>
      RunGuard(db, version, !(id in db.batches && db.batches[id].status == Submitted))
    case AbandonGuard(version, id) =>
      RunGuard(db, version, AbandonGuardTrips(db, id))
    case InsertHead(version, row) => RunInsertHead(db, version, row)
    case Advance(id, from, to) =>
      if id in db.batches && db.batches[id].status in from
      then Ran(db.(batches := db.batches[id := db.batches[id].(status := to)]), 1)
      else Ran(db, 0)
    case InsertSubmission(sid, submission, orIgnore) =>
      if SubmissionClashes(db.submissions, sid, submission.tx) then (if orIgnore then Ran(db, 0) else Aborted)
      else Ran(db.(submissions := db.submissions[sid := submission]), 1)
    case SettleSubmission(sid, outcome, at) =>
      if CanSettle(db, sid) then Ran(db.(submissions := Settle(db.submissions, sid, outcome, at)), 1)
      else Ran(db, 0)
    case InsertSettledEvent(sid, batch, outcome, at) =>
      if sid in db.submissions && db.submissions[sid].outcome == outcome && db.submissions[sid].updatedAt == at
      then RunInsertEvent(db, SettledEvent(batch, sid))
      else Ran(db, 0)
  }

  // ---- Transactions ----

  datatype Result = RolledBack | Committed(db: Tables, changes: seq<nat>)

  function Transact(db: Tables, statements: seq<Statement>): Result
    decreases |statements|, 1
  {
    if statements == [] then Committed(db, [])
    else Then(Execute(db, statements[0]), statements[1..])
  }

  function Then(ran: Ran, rest: seq<Statement>): Result
    decreases |rest| + 1, 0
  {
    match ran
    case Aborted => RolledBack
    case Ran(next, changes) =>
      match Transact(next, rest)
      case RolledBack => RolledBack
      case Committed(last, more) => Committed(last, [changes] + more)
  }
}
