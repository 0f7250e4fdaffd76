/** What every operation of the anchor store does, in terms of the columns alone: when its
    transaction goes through, and every table it then leaves behind. The statements, guards
    and key constraints do not occur in these contracts. */
module AnchorEffects {
  import opened Basics
  import opened AnchorTables
  import opened AnchorStore
  import opened AnchorLog
  import opened AnchorRuns
  import opened AnchorHistory

  lemma {:induction false} OneStatement(db: Tables, statement: Statement)
    requires Execute(db, statement).Ran?
    ensures
      var ran := Execute(db, statement);
      Transact(db, [statement]) == Committed(ran.db, [ran.changes])
  {
    RunLast(db, statement);
    RunLast(Execute(db, statement).db, statement);
  }

  /** Records are inserted once, unbound; the row count says whether this call did it. */
  lemma {:induction false} InsertRecordEffect(db: Tables, call: Call)
    requires call.InsertRecordCall?
    ensures Transact(db, Statements(call)) == Committed(After(db, call), [if call.record in db.records then 0 else 1])
    ensures
      After(db, call)
      == Tables(db.batches, db.head,
                if call.record in db.records then db.records else db.records[call.record := None],
                db.submissions, db.events)
  {
    OneStatement(db, InsertRecord(call.record));
    InsertRecordRuns(db, call);
  }

  // ---- createBatch ----

  lemma {:induction false} BoundRecords(records: map<Record, Option<Name>>, leaves: seq<Record>, id: Name)
    requires AllPending(records, leaves)
    ensures BindAll(records, leaves, id) == map r | r in records :: if r in leaves then Some(id) else records[r]
  {
    BindAllBinds(records, leaves, id);
  }

  lemma {:induction false} PendingByPlace(records: map<Record, Option<Name>>, leaves: seq<Record>)
    ensures AllPending(records, leaves)
       <==> forall i :: 0 <= i < |leaves| ==> leaves[i] in records && records[leaves[i]] == None
  {
  }

  lemma {:induction false} RootIsTaken(batches: map<Name, BatchRow>, root: Name)
    ensures RootTaken(batches, root)
       <==> exists b :: b in batches && batches[b].status != Failed && batches[b].root == root
  {
  }

  lemma {:induction false} NothingBoundYet(db: Tables, id: Name)
    requires forall r :: r in db.records && db.records[r].Some? ==> db.records[r].value in db.batches
    ensures id !in db.batches ==> BoundTo(db.records, id) == {}
  {
  }

  /** `createBatch` on a version of the log. Its predecessor must be what that version names,
      confirmed if it is a batch; the next version, the id and the event free; the root not
      that of a batch that has not failed; and the leaves, 1 to 96 of them, pending records
      listed once each. A record's batch is a batch of the table, as its foreign key says. */
  lemma {:induction false} CreateBatchEffect(db: Tables, call: Call)
    requires call.CreateBatch? && call.version in db.head
    requires forall r :: r in db.records && db.records[r].Some? ==> db.records[r].value in db.batches
    ensures
      After(db, call)
      == if && 1 <= |call.leaves| <= 96
            && call.leafCount == |call.leaves|
            && (forall i :: 0 <= i < |call.leaves| ==>
                  call.leaves[i] in db.records && db.records[call.leaves[i]] == None)
            && (forall i, j :: 0 <= i < j < |call.leaves| ==> call.leaves[i] != call.leaves[j])
            && call.id !in db.batches
            && !(exists b :: b in db.batches && db.batches[b].status != Failed && db.batches[b].root == call.root)
            && BuiltEvent(call.id) !in db.events
            && db.head[call.version] == call.prev
            && (call.prev.batch.Some? ==>
                  call.prev.batch.value in db.batches && db.batches[call.prev.batch.value].status == Confirmed)
            && call.version + 1 !in db.head
         then Tables(
           db.batches[call.id := BatchRow(Built, call.root, |call.leaves|, call.prev)],
           db.head[call.version + 1 := Head(Some(call.id), Some(call.root))],
           map r | r in db.records :: if r in call.leaves then Some(call.id) else db.records[r],
           db.submissions,
           db.events + {BuiltEvent(call.id)})
         else db
  {
    PendingByPlace(db.records, call.leaves);
    RootIsTaken(db.batches, call.root);
    if Acceptable(call) {
      NothingBoundYet(db, call.id);
      CreateBatchAfter(db, call);
      if AllPending(db.records, call.leaves) {
        BoundRecords(db.records, call.leaves, call.id);
      }
    }
  }

  // ---- Submissions ----

  lemma {:induction false} Clashes(submissions: map<Name, SubmissionRow>, sid: Name, tx: Name)
    ensures SubmissionClashes(submissions, sid, tx)
       <==> sid in submissions || exists s :: s in submissions && submissions[s].tx == tx
  {
  }

  /** `markSubmitted` records a pending platform submission unless its id or its transaction
      is known or the batch was submitted before, and moves a batch on that is still built. */
  lemma {:induction false} MarkSubmittedEffect(db: Tables, call: Call)
    requires call.MarkSubmitted?
    ensures
      After(db, call)
      == if && call.sid !in db.submissions
            && (forall s :: s in db.submissions ==> db.submissions[s].tx != call.tx)
            && SubmittedEvent(call.id) !in db.events
         then Tables(
           if call.id in db.batches && db.batches[call.id].status == Built
           then db.batches[call.id := db.batches[call.id].(status := Submitted)] else db.batches,
           db.head,
           db.records,
           db.submissions[call.sid := SubmissionRow(call.id, true, call.tx, Pending, call.at)],
           db.events + {SubmittedEvent(call.id)})
         else db
  {
    Clashes(db.submissions, call.sid, call.tx);
    MarkSubmittedAfter(db, call);
  }

  /** A witness submission is recorded, pending, unless its id or its transaction is known; the
      row count says which. */
  lemma {:induction false} RecordWitnessEffect(db: Tables, call: Call)
    requires call.RecordWitness?
    ensures Transact(db, Statements(call))
         == Committed(After(db, call), [if After(db, call) == db then 0 else 1])
    ensures
      After(db, call)
      == if call.sid !in db.submissions && forall s :: s in db.submissions ==> db.submissions[s].tx != call.tx
         then Tables(
           db.batches, db.head, db.records,
           db.submissions[call.sid := SubmissionRow(call.id, false, call.tx, Pending, call.at)],
           db.events)
         else db
  {
    Clashes(db.submissions, call.sid, call.tx);
    OneStatement(db, InsertSubmission(call.sid, SubmissionRow(call.id, false, call.tx, Pending, call.at), true));
    RecordWitnessRuns(db, call);
  }

  /** A submission settles once: from pending, as confirmed or failed, while its batch has not
      failed. The evidence is in step beforehand: settled submissions have their event. */
  lemma {:induction false} UpdateSubmissionEffect(db: Tables, call: Call)
    requires call.UpdateSubmission?
    requires call.sid in db.submissions && db.submissions[call.sid].batch == call.batch
    requires SettledEvent(call.batch, call.sid) in db.events <==> db.submissions[call.sid].outcome != Pending
    ensures
      var row := db.submissions[call.sid];
      After(db, call)
      == if && call.outcome != Pending
            && row.outcome == Pending
            && call.batch in db.batches
            && db.batches[call.batch].status != Failed
         then Tables(
           db.batches, db.head, db.records,
           db.submissions[call.sid := SubmissionRow(row.batch, row.platform, row.tx, call.outcome, call.at)],
           db.events + {SettledEvent(call.batch, call.sid)})
         else db
  {
    if Acceptable(call) {
      UpdateSubmissionCommits(db, call);
    }
  }

  // ---- The end of a batch ----

  /** `markBatchConfirmed` confirms a batch that is submitted when its transaction runs. */
  lemma {:induction false} MarkConfirmedEffect(db: Tables, call: Call)
    requires call.MarkConfirmed? && call.version in db.head
    ensures
      After(db, call)
      == if && call.id in db.batches
            && db.batches[call.id].status == Submitted
            && ConfirmedEvent(call.id) !in db.events
         then Tables(
           db.batches[call.id := db.batches[call.id].(status := Confirmed)],
           db.head, db.records, db.submissions,
           db.events + {ConfirmedEvent(call.id)})
         else db
  {
    MarkConfirmedAfter(db, call);
  }

  lemma {:induction false} GuardTrips(db: Tables, id: Name)
    ensures AbandonGuardTrips(db, id)
       <==> !( && (exists v :: v in db.head && (forall w :: w in db.head ==> w <= v) && db.head[v].batch == Some(id))
               && (forall s :: s in db.submissions && db.submissions[s].batch == id
                     ==> db.submissions[s].outcome == Dropped))
  {
    if v :| v in db.head && (forall w :: w in db.head ==> w <= v) && db.head[v].batch == Some(id) {
      assert Newest(db.head, v);
    }
  }

  /** `abandonBatch` goes through when the newest head row names the batch, every submission
      of it was dropped, and the next version and the event are free. It fails the batch,
      frees its records and puts the head back. */
  lemma {:induction false} AbandonBatchEffect(db: Tables, call: Call)
    requires call.AbandonBatch? && call.version in db.head
    ensures
      Transact(db, Statements(call)).Committed?
      <==> && (exists v :: v in db.head && (forall w :: w in db.head ==> w <= v) && db.head[v].batch == Some(call.id))
           && (forall s :: s in db.submissions && db.submissions[s].batch == call.id
                 ==> db.submissions[s].outcome == Dropped)
           && call.version + 1 !in db.head
           && AbandonedEvent(call.id) !in db.events
    ensures
      After(db, call)
      == if Transact(db, Statements(call)).Committed?
         then Tables(
           if call.id in db.batches && db.batches[call.id].status in {Built, Submitted}
           then db.batches[call.id := db.batches[call.id].(status := Failed)] else db.batches,
           db.head[call.version + 1 := call.prev],
           map r | r in db.records :: if db.records[r] == Some(call.id) then None else db.records[r],
           db.submissions,
           db.events + {AbandonedEvent(call.id)})
         else db
  {
    GuardTrips(db, call.id);
    AbandonBatchCommits(db, call);
  }

  // ---- In runs ----

  lemma {:induction false} ReadNow(trace: seq<Tables>, acts: seq<Act>, k: nat)
    requires IsRun(trace, acts) && k < |acts|
    ensures Observed(trace[k], acts[k].call)
  {
    RunsAreSound(trace, acts, k);
    assert Extends(trace[acts[k].readAt], trace[k]);
    StillObserved(trace[acts[k].readAt], trace[k], acts[k].call);
  }

  /** In every run, however stale the operator's reads: whenever an abandonment changes the
      tables, every submission of its batch had been dropped by then. No batch is abandoned
      under an anchor in flight. */
  lemma {:induction false} NothingInFlightIsAbandoned(trace: seq<Tables>, acts: seq<Act>, k: nat)
    requires IsRun(trace, acts) && k < |acts|
    requires acts[k].call.AbandonBatch? && trace[k + 1] != trace[k]
    ensures
      var submissions := trace[k].submissions;
      forall s | s in submissions && submissions[s].batch == acts[k].call.id :: submissions[s].outcome == Dropped
  {
    ReadNow(trace, acts, k);
    AbandonBatchEffect(trace[k], acts[k].call);
  }
}
