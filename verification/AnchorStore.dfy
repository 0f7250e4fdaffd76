/** The operations of the anchor store, each a transaction of SQL statements, and what each
    transaction does to the tables: when it commits, and what it then leaves behind. */
module AnchorStore {
  import opened Basics
  import opened AnchorTables

  const MAX_LEAVES := 96

  /** An operation with everything it bound into its statements. What it read beforehand
      (a head version, the batch row) may be stale by the time the transaction runs. */
  datatype Call =
    | InsertRecordCall(record: Record)
    | CreateBatch(id: Name, root: Name, leafCount: int, prev: Head, leaves: seq<Record>, version: nat)
    | MarkSubmitted(id: Name, sid: Name, tx: Name, at: Name)
    | RecordWitness(id: Name, sid: Name, tx: Name, at: Name)
    | UpdateSubmission(sid: Name, outcome: Outcome, batch: Name, at: Name)
    | MarkConfirmed(id: Name, version: nat)
    | AbandonBatch(id: Name, prev: Head, version: nat)

  function Bindings(id: Name, leaves: seq<Record>): (statements: seq<Statement>)
    ensures |statements| == |leaves|
  {
    if leaves == [] then [] else [BindLeaf(id, leaves[0])] + Bindings(id, leaves[1..])
  }

  function BuiltRow(root: Name, leaves: seq<Record>, prev: Head): BatchRow {
    BatchRow(Built, root, |leaves|, prev)
  }

  function CreateTail(id: Name, root: Name, leafCount: nat, prev: Head, version: nat): seq<Statement> {
    [InsertEvent(BuiltEvent(id))]
    + ([BuildGuard(version, id, leafCount, prev)] + [InsertHead(version + 1, Head(Some(id), Some(root)))])
  }

  /** The argument checks that come before any statement. */
  predicate Acceptable(call: Call) {
    match call
    case CreateBatch(_, _, leafCount, _, leaves, _) => leaves != [] && leafCount == |leaves| <= MAX_LEAVES
    case UpdateSubmission(_, outcome, _, _) => outcome != Pending
    case _ => true
  }

  function Statements(call: Call): seq<Statement>
    requires Acceptable(call)
  {
    match call
    case InsertRecordCall(record) => [InsertRecord(record)]
    case CreateBatch(id, root, _, prev, leaves, version) =>
      [InsertBatch(id, BuiltRow(root, leaves, prev))]
      + (Bindings(id, leaves) + CreateTail(id, root, |leaves|, prev, version))
    case MarkSubmitted(id, sid, tx, at) =>
      [Advance(id, {Built}, Submitted)]
      + ([InsertSubmission(sid, SubmissionRow(id, true, tx, Pending, at), false)] + [InsertEvent(SubmittedEvent(id))])
    case RecordWitness(id, sid, tx, at) =>
      [InsertSubmission(sid, SubmissionRow(id, false, tx, Pending, at), true)]
    case UpdateSubmission(sid, outcome, batch, at) =>
      [SettleSubmission(sid, outcome, at)] + [InsertSettledEvent(sid, batch, outcome, at)]
    case MarkConfirmed(id, version) =>
      [ConfirmGuard(version, id)] + ([Advance(id, {Submitted}, Confirmed)] + [InsertEvent(ConfirmedEvent(id))])
    case AbandonBatch(id, prev, version) =>
      [ReleaseLeaves(id)]
      + ([AbandonGuard(version, id)]
         + ([InsertHead(version + 1, prev)]
            + ([Advance(id, {Built, Submitted}, Failed)] + [InsertEvent(AbandonedEvent(id))])))
  }

  /** The tables after a call, whether its transaction commits or rolls back. */
  function After(db: Tables, call: Call): Tables {
    if !Acceptable(call) then db
    else match Transact(db, Statements(call))
      case RolledBack => db
      case Committed(next, _) => next
  }

  // ---- Running a list of statements ----

  lemma {:induction false} Run(db: Tables, statement: Statement, rest: seq<Statement>)
    ensures Transact(db, [statement] + rest) == Then(Execute(db, statement), rest)
  {
  }

  lemma {:induction false} RunLast(db: Tables, statement: Statement)
    ensures Transact(db, [statement]) == Then(Execute(db, statement), [])
    ensures Transact(db, []) == Committed(db, [])
  {
    assert [statement][1..] == [];
  }

  lemma {:induction false} RunBoth(db: Tables, first: seq<Statement>, rest: seq<Statement>)
    requires Transact(db, first).Committed?
    ensures
      var r := Transact(db, first);
      var s := Transact(r.db, rest);
      Transact(db, first + rest) == if s.RolledBack? then RolledBack else Committed(s.db, r.changes + s.changes)
    decreases |first|
  {
    if first == [] {
      assert first + rest == rest;
      var s := Transact(db, rest);
      if s.Committed? {
        assert [] + s.changes == s.changes;
      }
    } else {
      var ran := Execute(db, first[0]);
      RunBoth(ran.db, first[1..], rest);
      assert (first + rest)[1..] == first[1..] + rest;
      var more := Transact(ran.db, first[1..]).changes;
      var s := Transact(Transact(db, first).db, rest);
      if s.Committed? {
        assert [ran.changes] + (more + s.changes) == ([ran.changes] + more) + s.changes;
      }
    }
  }

  // ---- Binding leaves ----

  function BindAll(records: map<Record, Option<Name>>, leaves: seq<Record>, id: Name): map<Record, Option<Name>>
    decreases |leaves|
  {
    if leaves == [] then records else BindAll(Bind(records, leaves[0], id), leaves[1..], id)
  }

  predicate AllPending(records: map<Record, Option<Name>>, leaves: seq<Record>) {
    forall r :: r in leaves ==> r in records && records[r] == None
  }

  function Ones(n: nat): seq<nat> { seq(n, _ => 1) }

  lemma {:induction false} BindAllBinds(records: map<Record, Option<Name>>, leaves: seq<Record>, id: Name)
    ensures
      var bound := BindAll(records, leaves, id);
      && bound.Keys == records.Keys
      && forall r :: r in records ==>
           bound[r] == if records[r] == None && r in leaves then Some(id) else records[r]
    decreases |leaves|
  {
    if leaves != [] {
      BindAllBinds(Bind(records, leaves[0], id), leaves[1..], id);
      assert forall r :: r in leaves <==> r == leaves[0] || r in leaves[1..];
    }
  }

  lemma {:induction false} BindingsRun(db: Tables, id: Name, leaves: seq<Record>)
    ensures
      var r := Transact(db, Bindings(id, leaves));
      && r.Committed?
      && r.db == db.(records := BindAll(db.records, leaves, id))
      && |r.changes| == |leaves|
      && (AllPending(db.records, leaves) && Distinct(leaves) ==> r.changes == Ones(|leaves|))
    decreases |leaves|
  {
    if leaves == [] {
      RunLast(db, BindLeaf(id, Record("", "", "")));
      assert db.(records := db.records) == db;
    } else {
      Run(db, BindLeaf(id, leaves[0]), Bindings(id, leaves[1..]));
      var next := Execute(db, BindLeaf(id, leaves[0]));
      BindingsRun(next.db, id, leaves[1..]);
      if AllPending(db.records, leaves) && Distinct(leaves) {
        StillPending(db.records, leaves, id);
        assert Ones(|leaves|) == [1] + Ones(|leaves| - 1);
      }
    }
  }

  lemma {:induction false} StillPending(records: map<Record, Option<Name>>, leaves: seq<Record>, id: Name)
    requires leaves != [] && AllPending(records, leaves) && Distinct(leaves)
    ensures AllPending(Bind(records, leaves[0], id), leaves[1..]) && Distinct(leaves[1..])
    ensures records[leaves[0]] == None
  {
  }

  // ---- Counting the leaves that were bound ----

  function Elements(leaves: seq<Record>): set<Record> { set r | r in leaves }

  lemma {:induction false} ElementsCount(leaves: seq<Record>)
    ensures |Elements(leaves)| <= |leaves|
    ensures |Elements(leaves)| == |leaves| <==> Distinct(leaves)
    decreases |leaves|
  {
    if leaves == [] {
      assert Elements(leaves) == {};
    } else {
      var first, rest := leaves[0], leaves[1..];
      ElementsCount(rest);
      if first in rest {
        var j :| 0 <= j < |rest| && rest[j] == first;
        assert leaves[0] == leaves[j + 1];
        assert Elements(leaves) == Elements(rest);
      } else {
        assert Elements(leaves) == {first} + Elements(rest);
        DistinctCons(leaves);
      }
    }
  }

  lemma {:induction false} DistinctCons(leaves: seq<Record>)
    requires leaves != [] && leaves[0] !in leaves[1..]
    ensures Distinct(leaves) <==> Distinct(leaves[1..])
  {
  }

  /** The count the guard takes is the number of leaves exactly when every leaf was a
      pending record and none was listed twice. */
  lemma {:induction false} LeafGuardIsExact(records: map<Record, Option<Name>>, leaves: seq<Record>, id: Name)
    requires BoundTo(records, id) == {}
    ensures |BoundTo(BindAll(records, leaves, id), id)| == |leaves| <==> AllPending(records, leaves) && Distinct(leaves)
  {
    var bound := BoundTo(BindAll(records, leaves, id), id);
    BindAllBinds(records, leaves, id);
    assert bound <= Elements(leaves) by {
      forall r | r in bound ensures r in leaves {
        assert r in BoundTo(records, id) <==> records[r] == Some(id);
      }
    }
    ElementsCount(leaves);
    SubsetIsSmaller(bound, Elements(leaves));
    if AllPending(records, leaves) {
      assert bound == Elements(leaves);
    }
    if |bound| == |leaves| {
      BoundWerePending(records, leaves, id);
    }
  }

  lemma {:induction false} BoundWerePending(records: map<Record, Option<Name>>, leaves: seq<Record>, id: Name)
    requires BoundTo(records, id) == {}
    requires BoundTo(BindAll(records, leaves, id), id) == Elements(leaves)
    ensures AllPending(records, leaves)
  {
    BindAllBinds(records, leaves, id);
    forall r | r in leaves
      ensures r in records && records[r] == None
    {
      assert r in Elements(leaves);
      assert r in BoundTo(records, id) <==> records[r] == Some(id);
    }
  }

  // ---- createBatch ----

  predicate CanBuild(db: Tables, id: Name, root: Name, prev: Head, leaves: seq<Record>, version: nat) {
    && id !in db.batches
    && !RootTaken(db.batches, root)
    && BuiltEvent(id) !in db.events
    && AllPending(db.records, leaves)
    && Distinct(leaves)
    && version in db.head
    && db.head[version] == prev
    && (prev.batch.Some? ==> IsConfirmed(db.batches, prev.batch.value))
    && version + 1 !in db.head
  }

  function WithBatch(db: Tables, id: Name, root: Name, prev: Head, leaves: seq<Record>, version: nat): Tables {
    Tables(
      db.batches[id := BuiltRow(root, leaves, prev)],
      db.head[version + 1 := Head(Some(id), Some(root))],
      BindAll(db.records, leaves, id),
      db.submissions,
      db.events + {BuiltEvent(id)})
  }

  lemma {:induction false} CreateTailRuns(db: Tables, id: Name, root: Name, leafCount: nat, prev: Head, version: nat)
    requires version in db.head
    ensures
      Transact(db, CreateTail(id, root, leafCount, prev, version))
      == if BuiltEvent(id) in db.events || version + 1 in db.head || BuildGuardTrips(db, version, id, leafCount, prev)
         then RolledBack
         else Committed(db.(events := db.events + {BuiltEvent(id)},
                            head := db.head[version + 1 := Head(Some(id), Some(root))]), [1, 0, 1])
  {
    var guard, insert := BuildGuard(version, id, leafCount, prev), InsertHead(version + 1, Head(Some(id), Some(root)));
    Run(db, InsertEvent(BuiltEvent(id)), [guard] + [insert]);
    if BuiltEvent(id) !in db.events {
      var db1 := db.(events := db.events + {BuiltEvent(id)});
      Run(db1, guard, [insert]);
      RunLast(db1, insert);
      if !BuildGuardTrips(db1, version, id, leafCount, prev) && version + 1 !in db.head {
        RunLast(Execute(db1, insert).db, insert);
        assert [1] + ([0] + ([1] + [])) == [1, 0, 1];
      }
    }
  }

  lemma {:induction false} BuildGuardReads(
    db: Tables, id: Name, root: Name, prev: Head, leaves: seq<Record>, version: nat
  )
    requires id !in db.batches && version in db.head && BoundTo(db.records, id) == {}
    ensures
      var bound := db.(batches := db.batches[id := BuiltRow(root, leaves, prev)],
                       records := BindAll(db.records, leaves, id));
      BuildGuardTrips(bound, version, id, |leaves|, prev)
      <==> !( && AllPending(db.records, leaves)
              && Distinct(leaves)
              && db.head[version] == prev
              && (prev.batch.Some? ==> IsConfirmed(db.batches, prev.batch.value)))
  {
    LeafGuardIsExact(db.records, leaves, id);
  }

  /** createBatch commits exactly when the log is still where its caller saw it, the
      predecessor is confirmed, and every leaf was pending; then everything lands at once. */
  lemma {:induction false} CreateBatchCommits(db: Tables, call: Call)
    requires call.CreateBatch? && Acceptable(call)
    requires BoundTo(db.records, call.id) == {} && call.version in db.head
    ensures
      Transact(db, Statements(call))
      == if CanBuild(db, call.id, call.root, call.prev, call.leaves, call.version)
         then Committed(WithBatch(db, call.id, call.root, call.prev, call.leaves, call.version),
                        [1] + (Ones(|call.leaves|) + [1, 0, 1]))
         else RolledBack
  {
    var CreateBatch(id, root, _, prev, leaves, version) := call;
    var insert := InsertBatch(id, BuiltRow(root, leaves, prev));
    var bindings, tail := Bindings(id, leaves), CreateTail(id, root, |leaves|, prev, version);
    Run(db, insert, bindings + tail);
    if id !in db.batches && !RootTaken(db.batches, root) {
      var db1 := db.(batches := db.batches[id := BuiltRow(root, leaves, prev)]);
      assert Execute(db, insert) == Ran(db1, 1);
      BindingsRun(db1, id, leaves);
      RunBoth(db1, bindings, tail);
      var db2 := db1.(records := BindAll(db.records, leaves, id));
      CreateTailRuns(db2, id, root, |leaves|, prev, version);
      BuildGuardReads(db, id, root, prev, leaves, version);
    }
  }

  /** A version no row has yet: the guard's own insert does not conflict, so nothing stops
      the batch, whatever its leaves and its predecessor are. */
  function PastHead(db: Tables, id: Name, root: Name, prev: Head, leaves: seq<Record>, version: nat): Tables {
    Tables(
      db.batches[id := BuiltRow(root, leaves, prev)],
      db.head[version := NULL_HEAD][version + 1 := Head(Some(id), Some(root))],
      BindAll(db.records, leaves, id),
      db.submissions,
      db.events + {BuiltEvent(id)})
  }

  lemma {:induction false} TailPastHead(db: Tables, id: Name, root: Name, leafCount: nat, prev: Head, version: nat)
    requires version !in db.head
    ensures
      Transact(db, CreateTail(id, root, leafCount, prev, version))
      == if BuiltEvent(id) in db.events || version + 1 in db.head then RolledBack
         else Committed(db.(events := db.events + {BuiltEvent(id)},
                            head := db.head[version := NULL_HEAD][version + 1 := Head(Some(id), Some(root))]),
                        [1, 1, 1])
  {
    var guard, insert := BuildGuard(version, id, leafCount, prev), InsertHead(version + 1, Head(Some(id), Some(root)));
    Run(db, InsertEvent(BuiltEvent(id)), [guard] + [insert]);
    if BuiltEvent(id) !in db.events {
      var db1 := db.(events := db.events + {BuiltEvent(id)});
      Run(db1, guard, [insert]);
      var db2 := db1.(head := db.head[version := NULL_HEAD]);
      RunLast(db2, insert);
      if version + 1 !in db.head {
        RunLast(Execute(db2, insert).db, insert);
        assert [1] + ([1] + ([1] + [])) == [1, 1, 1];
      }
    }
  }

  lemma {:induction false} CreateBatchPastHead(db: Tables, call: Call)
    requires call.CreateBatch? && Acceptable(call) && call.version !in db.head
    ensures
      After(db, call)
      == if call.id in db.batches || RootTaken(db.batches, call.root) || BuiltEvent(call.id) in db.events
            || call.version + 1 in db.head
         then db
         else PastHead(db, call.id, call.root, call.prev, call.leaves, call.version)
  {
    var CreateBatch(id, root, _, prev, leaves, version) := call;
    var insert := InsertBatch(id, BuiltRow(root, leaves, prev));
    var bindings, tail := Bindings(id, leaves), CreateTail(id, root, |leaves|, prev, version);
    Run(db, insert, bindings + tail);
    if id !in db.batches && !RootTaken(db.batches, root) {
      var db1 := db.(batches := db.batches[id := BuiltRow(root, leaves, prev)]);
      assert Execute(db, insert) == Ran(db1, 1);
      BindingsRun(db1, id, leaves);
      RunBoth(db1, bindings, tail);
      TailPastHead(db1.(records := BindAll(db.records, leaves, id)), id, root, |leaves|, prev, version);
    }
  }

  // ---- The other operations ----

  function Advanced(batches: map<Name, BatchRow>, id: Name, from: set<Status>, to: Status): map<Name, BatchRow> {
    if id in batches && batches[id].status in from then batches[id := batches[id].(status := to)] else batches
  }

  lemma {:induction false} Run2(db: Tables, s1: Statement, s2: Statement)
    ensures
      Transact(db, [s1] + [s2])
      == match Execute(db, s1)
         case Aborted => RolledBack
         case Ran(db1, n1) =>
           (match Execute(db1, s2) case Aborted => RolledBack case Ran(db2, n2) => Committed(db2, [n1, n2]))
  {
    Run(db, s1, [s2]);
    if Execute(db, s1).Ran? {
      var db1 := Execute(db, s1).db;
      RunLast(db1, s2);
      if Execute(db1, s2).Ran? {
        RunLast(Execute(db1, s2).db, s2);
        assert [Execute(db, s1).changes] + ([Execute(db1, s2).changes] + [])
            == [Execute(db, s1).changes, Execute(db1, s2).changes];
      }
    }
  }

  lemma {:induction false} Run3(db: Tables, s1: Statement, s2: Statement, s3: Statement)
    ensures
      Transact(db, [s1] + ([s2] + [s3]))
      == match Execute(db, s1)
         case Aborted => RolledBack
         case Ran(db1, n1) =>
           (match Transact(db1, [s2] + [s3])
            case RolledBack => RolledBack
            case Committed(db3, more) => Committed(db3, [n1] + more))
  {
  }

  lemma {:induction false} MarkSubmittedCommits(db: Tables, call: Call)
    requires call.MarkSubmitted?
    ensures
      Transact(db, Statements(call))
      == if SubmissionClashes(db.submissions, call.sid, call.tx) || SubmittedEvent(call.id) in db.events then RolledBack
         else Committed(
           db.(batches := Advanced(db.batches, call.id, {Built}, Submitted),
               submissions := db.submissions[call.sid := SubmissionRow(call.id, true, call.tx, Pending, call.at)],
               events := db.events + {SubmittedEvent(call.id)}),
           [if call.id in db.batches && db.batches[call.id].status == Built then 1 else 0, 1, 1])
  {
    var MarkSubmitted(id, sid, tx, at) := call;
    var advance := Advance(id, {Built}, Submitted);
    var insert := InsertSubmission(sid, SubmissionRow(id, true, tx, Pending, at), false);
    Run3(db, advance, insert, InsertEvent(SubmittedEvent(id)));
    var db1 := db.(batches := Advanced(db.batches, id, {Built}, Submitted));
    assert Execute(db, advance).db == db1;
    Run2(db1, insert, InsertEvent(SubmittedEvent(id)));
  }

  lemma {:induction false} MarkConfirmedCommits(db: Tables, call: Call)
    requires call.MarkConfirmed? && call.version in db.head
    ensures
      Transact(db, Statements(call))
      == if call.id !in db.batches || db.batches[call.id].status != Submitted || ConfirmedEvent(call.id) in db.events
         then RolledBack
         else Committed(db.(batches := Advanced(db.batches, call.id, {Submitted}, Confirmed),
                            events := db.events + {ConfirmedEvent(call.id)}), [0, 1, 1])
  {
    var MarkConfirmed(id, version) := call;
    Run3(db, ConfirmGuard(version, id), Advance(id, {Submitted}, Confirmed), InsertEvent(ConfirmedEvent(id)));
    Run2(db, Advance(id, {Submitted}, Confirmed), InsertEvent(ConfirmedEvent(id)));
  }

  lemma {:induction false} RecordWitnessRuns(db: Tables, call: Call)
    requires call.RecordWitness?
    ensures
      After(db, call)
      == if SubmissionClashes(db.submissions, call.sid, call.tx) then db
         else db.(submissions := db.submissions[call.sid := SubmissionRow(call.id, false, call.tx, Pending, call.at)])
  {
    var insert := InsertSubmission(call.sid, SubmissionRow(call.id, false, call.tx, Pending, call.at), true);
    RunLast(db, insert);
    RunLast(Execute(db, insert).db, insert);
  }

  lemma {:induction false} InsertRecordRuns(db: Tables, call: Call)
    requires call.InsertRecordCall?
    ensures
      After(db, call)
      == if call.record in db.records then db else db.(records := db.records[call.record := None])
  {
    RunLast(db, InsertRecord(call.record));
    RunLast(Execute(db, InsertRecord(call.record)).db, InsertRecord(call.record));
  }

  lemma {:induction false} UpdateSubmissionCommits(db: Tables, call: Call)
    requires call.UpdateSubmission? && Acceptable(call)
    requires CanSettle(db, call.sid) ==> SettledEvent(call.batch, call.sid) !in db.events
    requires call.sid in db.submissions && db.submissions[call.sid].outcome == call.outcome ==>
               SettledEvent(call.batch, call.sid) in db.events
    ensures
      After(db, call)
      == if CanSettle(db, call.sid)
         then db.(submissions := Settle(db.submissions, call.sid, call.outcome, call.at),
                  events := db.events + {SettledEvent(call.batch, call.sid)})
         else db
    ensures Transact(db, Statements(call)).Committed? ==>
              Transact(db, Statements(call)).changes == if CanSettle(db, call.sid) then [1, 1] else [0, 0]
  {
    var UpdateSubmission(sid, outcome, batch, at) := call;
    Run2(db, SettleSubmission(sid, outcome, at), InsertSettledEvent(sid, batch, outcome, at));
  }

  predicate CanAbandon(db: Tables, id: Name, version: nat) {
    && !AbandonGuardTrips(db, id)
    && version + 1 !in db.head
    && AbandonedEvent(id) !in db.events
  }

  function WithoutBatch(db: Tables, id: Name, prev: Head, version: nat): Tables {
    Tables(
      Advanced(db.batches, id, {Built, Submitted}, Failed),
      db.head[version + 1 := prev],
      Release(db.records, id),
      db.submissions,
      db.events + {AbandonedEvent(id)})
  }

  lemma {:induction false} AbandonTailRuns(db: Tables, id: Name, prev: Head, version: nat)
    ensures
      Transact(db, [InsertHead(version + 1, prev)]
        + ([Advance(id, {Built, Submitted}, Failed)] + [InsertEvent(AbandonedEvent(id))]))
      == if version + 1 in db.head || AbandonedEvent(id) in db.events then RolledBack
         else Committed(
           db.(batches := Advanced(db.batches, id, {Built, Submitted}, Failed),
               head := db.head[version + 1 := prev],
               events := db.events + {AbandonedEvent(id)}),
           [1, if id in db.batches && db.batches[id].status in {Built, Submitted} then 1 else 0, 1])
  {
    Run3(db, InsertHead(version + 1, prev), Advance(id, {Built, Submitted}, Failed), InsertEvent(AbandonedEvent(id)));
    if version + 1 !in db.head {
      Run2(db.(head := db.head[version + 1 := prev]), Advance(id, {Built, Submitted}, Failed),
           InsertEvent(AbandonedEvent(id)));
    }
  }

  lemma {:induction false} ReleaseAndGuard(db: Tables, id: Name, version: nat, tail: seq<Statement>)
    requires version in db.head
    ensures
      Transact(db, [ReleaseLeaves(id)] + ([AbandonGuard(version, id)] + tail))
      == if AbandonGuardTrips(db, id) then RolledBack
         else match Transact(db.(records := Release(db.records, id)), tail)
           case RolledBack => RolledBack
           case Committed(last, more) => Committed(last, [|BoundTo(db.records, id)|] + ([0] + more))
  {
    Run(db, ReleaseLeaves(id), [AbandonGuard(version, id)] + tail);
    var db1 := db.(records := Release(db.records, id));
    Run(db1, AbandonGuard(version, id), tail);
    assert AbandonGuardTrips(db1, id) == AbandonGuardTrips(db, id);
  }

  /** abandonBatch commits exactly when the batch is still the tip and has no submission
      that is pending or confirmed, and nobody has moved the head on. */
  lemma {:induction false} AbandonBatchCommits(db: Tables, call: Call)
    requires call.AbandonBatch? && call.version in db.head
    ensures
      Transact(db, Statements(call))
      == if CanAbandon(db, call.id, call.version)
         then Committed(
           WithoutBatch(db, call.id, call.prev, call.version),
           [|BoundTo(db.records, call.id)|] + ([0] + [1,
            if call.id in db.batches && db.batches[call.id].status in {Built, Submitted} then 1 else 0, 1]))
         else RolledBack
  {
    var AbandonBatch(id, prev, version) := call;
    var tail := [InsertHead(version + 1, prev)]
      + ([Advance(id, {Built, Submitted}, Failed)] + [InsertEvent(AbandonedEvent(id))]);
    ReleaseAndGuard(db, id, version, tail);
    AbandonTailRuns(db.(records := Release(db.records, id)), id, prev, version);
  }
}
