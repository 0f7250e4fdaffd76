/** Every transaction of the anchor store keeps the invariant, and so does every run in which
    any number of builders, submitters and operators act on reads of any age. */
module AnchorRuns {
  import opened Basics
  import opened AnchorTables
  import opened AnchorStore
  import opened AnchorLog

  function NextTip(db: Tables, tip: nat, call: Call): nat {
    if After(db, call).head == db.head then tip else tip + 1
  }

  /** A build puts its batch at the end of the chain and an abandonment takes the end off. */
  function NextChain(db: Tables, chain: seq<Name>, call: Call): seq<Name> {
    if After(db, call).head == db.head then chain
    else if call.CreateBatch? then chain + [call.id]
    else if chain != [] then chain[..|chain| - 1]
    else chain
  }

  ghost predicate Keeps(db: Tables, tip: nat, chain: seq<Name>, call: Call) {
    && Inv(After(db, call), NextTip(db, tip, call), NextChain(db, chain, call))
    && Extends(db, After(db, call))
  }

  // ---- createBatch ----

  lemma {:induction false} BuildKeepsEvidence(batches: map<Name, BatchRow>, events: set<Event>, id: Name, row: BatchRow)
    requires BatchEvidenceOk(batches, events) && id !in batches && row.status == Built
    ensures BatchEvidenceOk(batches[id := row], events + {BuiltEvent(id)})
  {
  }

  lemma {:induction false} BuildKeepsSubmissions(
    batches: map<Name, BatchRow>, submissions: map<Name, SubmissionRow>, id: Name, row: BatchRow
  )
    requires SubmissionsOk(batches, submissions) && id !in batches && row.status == Built
    ensures SubmissionsOk(batches[id := row], submissions)
  {
  }

  lemma {:induction false} CanBuildOnTip(db: Tables, tip: nat, chain: seq<Name>, call: Call)
    requires Inv(db, tip, chain) && call.CreateBatch?
    requires CanBuild(db, call.id, call.root, call.prev, call.leaves, call.version)
    ensures call.version == tip
    ensures BuildsOn(db.batches, db.head, tip, call.id, BuiltRow(call.root, call.leaves, call.prev))
  {
  }

  lemma {:induction false} BuildKeepsInv(db: Tables, tip: nat, chain: seq<Name>, call: Call)
    requires Inv(db, tip, chain) && call.CreateBatch?
    requires CanBuild(db, call.id, call.root, call.prev, call.leaves, call.version)
    ensures Inv(WithBatch(db, call.id, call.root, call.prev, call.leaves, call.version), tip + 1, chain + [call.id])
  {
    var id, row := call.id, BuiltRow(call.root, call.leaves, call.prev);
    CanBuildOnTip(db, tip, chain, call);
    BuildKeepsLog(db.batches, db.head, tip, id, row);
    TipIsConfirmed(db.batches, db.head, tip, chain, id, row);
    BuildKeepsChain(db.batches, chain, id, row);
    BuildKeepsLinks(db.batches, chain, id, row);
    BuildKeepsPrev(db.batches, db.head, tip, chain, id, row);
    BuildKeepsRoots(db.batches, id, row);
    BuildKeepsRecords(db.batches, db.records, id, row, call.leaves);
    BuildKeepsEvidence(db.batches, db.events, id, row);
    BuildKeepsSubmissions(db.batches, db.submissions, id, row);
  }

  lemma {:induction false} BuildExtends(db: Tables, call: Call)
    requires call.CreateBatch?
    requires CanBuild(db, call.id, call.root, call.prev, call.leaves, call.version)
    ensures Extends(db, WithBatch(db, call.id, call.root, call.prev, call.leaves, call.version))
  {
    BindAllBinds(db.records, call.leaves, call.id);
  }

  lemma {:induction false} CreateBatchAfter(db: Tables, call: Call)
    requires call.CreateBatch? && Acceptable(call) && call.version in db.head
    requires call.id !in db.batches ==> BoundTo(db.records, call.id) == {}
    ensures
      After(db, call)
      == if CanBuild(db, call.id, call.root, call.prev, call.leaves, call.version)
         then WithBatch(db, call.id, call.root, call.prev, call.leaves, call.version)
         else db
  {
    if call.id in db.batches {
      Run(db, InsertBatch(call.id, BuiltRow(call.root, call.leaves, call.prev)),
          Bindings(call.id, call.leaves) + CreateTail(call.id, call.root, |call.leaves|, call.prev, call.version));
    } else {
      CreateBatchCommits(db, call);
    }
  }

  lemma {:induction false} KeepsUnchanged(db: Tables, tip: nat, chain: seq<Name>, call: Call)
    requires Inv(db, tip, chain) && After(db, call) == db
    ensures Keeps(db, tip, chain, call)
  {
  }

  lemma {:induction false} KeepsBuilt(db: Tables, tip: nat, chain: seq<Name>, call: Call, next: Tables)
    requires call.CreateBatch? && call.version + 1 !in db.head
    requires After(db, call) == next && call.version + 1 in next.head
    requires Inv(next, tip + 1, chain + [call.id]) && Extends(db, next)
    ensures Keeps(db, tip, chain, call)
  {
  }

  lemma {:induction false} CreateBatchKeeps(db: Tables, tip: nat, chain: seq<Name>, call: Call)
    requires Inv(db, tip, chain) && call.CreateBatch? && Acceptable(call) && call.version in db.head
    ensures Keeps(db, tip, chain, call)
  {
    if call.id !in db.batches {
      NothingBound(db.batches, db.records, call.id);
    }
    CreateBatchAfter(db, call);
    if CanBuild(db, call.id, call.root, call.prev, call.leaves, call.version) {
      BuildKeepsInv(db, tip, chain, call);
      BuildExtends(db, call);
      KeepsBuilt(db, tip, chain, call, WithBatch(db, call.id, call.root, call.prev, call.leaves, call.version));
    } else {
      KeepsUnchanged(db, tip, chain, call);
    }
  }

  // ---- The operations that leave the log alone ----

  lemma {:induction false} PromoteKeepsInv(db: Tables, tip: nat, chain: seq<Name>, next: Tables)
    requires Inv(db, tip, chain)
    requires Promotes(db.batches, next.batches) && next.head == db.head && next.records == db.records
    requires BatchEvidenceOk(next.batches, next.events)
    requires SettledEvidenceOk(next.submissions, next.events)
    requires SubmissionsOk(next.batches, next.submissions)
    ensures Inv(next, tip, chain)
  {
    PromoteKeepsLog(db.batches, next.batches, db.head, tip);
    PromoteKeepsChain(db.batches, next.batches, chain);
    PromoteKeepsPrev(db.batches, next.batches);
    PromoteKeepsRoots(db.batches, next.batches);
  }

  lemma {:induction false} KeepsSameHead(db: Tables, tip: nat, chain: seq<Name>, call: Call)
    requires After(db, call).head == db.head
    requires Inv(After(db, call), tip, chain) && Extends(db, After(db, call))
    ensures Keeps(db, tip, chain, call)
  {
  }

  lemma {:induction false} RecordKeepsRecords(
    batches: map<Name, BatchRow>, records: map<Record, Option<Name>>, record: Record
  )
    requires RecordsOk(batches, records) && record !in records
    ensures RecordsOk(batches, records[record := None])
  {
    forall b | Live(batches, b)
      ensures |BoundTo(records[record := None], b)| == batches[b].leafCount
    {
      assert BoundTo(records[record := None], b) == BoundTo(records, b);
    }
  }

  lemma {:induction false} InsertRecordKeeps(db: Tables, tip: nat, chain: seq<Name>, call: Call)
    requires Inv(db, tip, chain) && call.InsertRecordCall?
    ensures Keeps(db, tip, chain, call)
  {
    InsertRecordRuns(db, call);
    if call.record !in db.records {
      RecordKeepsRecords(db.batches, db.records, call.record);
      KeepsSameHead(db, tip, chain, call);
    } else {
      KeepsUnchanged(db, tip, chain, call);
    }
  }

  lemma {:induction false} NewSubmissionIsOk(
    batches: map<Name, BatchRow>, submissions: map<Name, SubmissionRow>, events: set<Event>,
    sid: Name, row: SubmissionRow
  )
    requires SubmissionsOk(batches, submissions) && SettledEvidenceOk(submissions, events)
    requires row.batch in batches && row.outcome == Pending && !SubmissionClashes(submissions, sid, row.tx)
    ensures SubmissionsOk(batches, submissions[sid := row]) && SettledEvidenceOk(submissions[sid := row], events)
  {
    var submissions' := submissions[sid := row];
    forall b | IsConfirmed(batches, b)
      ensures PlatformLanded(submissions', b)
    {
      StillLanded(submissions, submissions', b);
    }
  }

  lemma {:induction false} StillLanded(
    submissions: map<Name, SubmissionRow>, submissions': map<Name, SubmissionRow>, b: Name
  )
    requires PlatformLanded(submissions, b)
    requires forall s :: s in submissions && submissions[s].outcome != Pending ==>
               s in submissions' && submissions'[s] == submissions[s]
    ensures PlatformLanded(submissions', b)
  {
  }

  lemma {:induction false} RecordWitnessKeeps(db: Tables, tip: nat, chain: seq<Name>, call: Call)
    requires Inv(db, tip, chain) && call.RecordWitness? && call.id in db.batches
    ensures Keeps(db, tip, chain, call)
  {
    RecordWitnessRuns(db, call);
    var row := SubmissionRow(call.id, false, call.tx, Pending, call.at);
    if !SubmissionClashes(db.submissions, call.sid, row.tx) {
      NewSubmissionIsOk(db.batches, db.submissions, db.events, call.sid, row);
      KeepsSameHead(db, tip, chain, call);
    } else {
      KeepsUnchanged(db, tip, chain, call);
    }
  }

  lemma {:induction false} SubmittedIsOk(
    batches: map<Name, BatchRow>, submissions: map<Name, SubmissionRow>, events: set<Event>, id: Name
  )
    requires BatchEvidenceOk(batches, events) && SubmissionsOk(batches, submissions)
    requires id in batches && SubmittedEvent(id) !in events
    ensures
      var batches' := Advanced(batches, id, {Built}, Submitted);
      && Promotes(batches, batches')
      && BatchEvidenceOk(batches', events + {SubmittedEvent(id)})
      && SubmissionsOk(batches', submissions)
  {
    var batches' := Advanced(batches, id, {Built}, Submitted);
    forall b ensures IsConfirmed(batches', b) <==> IsConfirmed(batches, b) {
    }
    forall b ensures Live(batches', b) <==> Live(batches, b) {
    }
  }

  lemma {:induction false} BatchEventSettlesNothing(
    submissions: map<Name, SubmissionRow>, events: set<Event>, event: Event
  )
    requires SettledEvidenceOk(submissions, events) && !event.SettledEvent?
    ensures SettledEvidenceOk(submissions, events + {event})
  {
  }

  predicate CanSubmit(db: Tables, id: Name, sid: Name, tx: Name) {
    !SubmissionClashes(db.submissions, sid, tx) && SubmittedEvent(id) !in db.events
  }

  function WithPlatform(db: Tables, id: Name, sid: Name, tx: Name, at: Name): Tables {
    db.(batches := Advanced(db.batches, id, {Built}, Submitted),
        submissions := db.submissions[sid := SubmissionRow(id, true, tx, Pending, at)],
        events := db.events + {SubmittedEvent(id)})
  }

  lemma {:induction false} MarkSubmittedAfter(db: Tables, call: Call)
    requires call.MarkSubmitted?
    ensures
      After(db, call)
      == if CanSubmit(db, call.id, call.sid, call.tx) then WithPlatform(db, call.id, call.sid, call.tx, call.at) else db
  {
    MarkSubmittedCommits(db, call);
  }

  lemma {:induction false} SubmitKeepsInv(
    db: Tables, tip: nat, chain: seq<Name>, id: Name, sid: Name, tx: Name, at: Name
  )
    requires Inv(db, tip, chain) && id in db.batches && CanSubmit(db, id, sid, tx)
    ensures Inv(WithPlatform(db, id, sid, tx, at), tip, chain)
  {
    var row, next := SubmissionRow(id, true, tx, Pending, at), WithPlatform(db, id, sid, tx, at);
    SubmittedIsOk(db.batches, db.submissions, db.events, id);
    BatchEventSettlesNothing(db.submissions, db.events, SubmittedEvent(id));
    NewSubmissionIsOk(next.batches, db.submissions, next.events, sid, row);
    PromoteKeepsInv(db, tip, chain, next);
  }

  lemma {:induction false} SubmitExtends(db: Tables, id: Name, sid: Name, tx: Name, at: Name)
    requires CanSubmit(db, id, sid, tx)
    ensures Extends(db, WithPlatform(db, id, sid, tx, at))
  {
  }

  lemma {:induction false} MarkSubmittedKeeps(db: Tables, tip: nat, chain: seq<Name>, call: Call)
    requires Inv(db, tip, chain) && call.MarkSubmitted? && call.id in db.batches
    ensures Keeps(db, tip, chain, call)
  {
    MarkSubmittedAfter(db, call);
    if CanSubmit(db, call.id, call.sid, call.tx) {
      SubmitKeepsInv(db, tip, chain, call.id, call.sid, call.tx, call.at);
      SubmitExtends(db, call.id, call.sid, call.tx, call.at);
      KeepsSameHead(db, tip, chain, call);
    } else {
      KeepsUnchanged(db, tip, chain, call);
    }
  }

  lemma {:induction false} ConfirmedIsOk(
    batches: map<Name, BatchRow>, submissions: map<Name, SubmissionRow>, events: set<Event>, id: Name
  )
    requires BatchEvidenceOk(batches, events) && SubmissionsOk(batches, submissions)
    requires id in batches && batches[id].status == Submitted && PlatformLanded(submissions, id)
    ensures
      var batches' := Advanced(batches, id, {Submitted}, Confirmed);
      && Promotes(batches, batches')
      && BatchEvidenceOk(batches', events + {ConfirmedEvent(id)})
      && SubmissionsOk(batches', submissions)
  {
    var batches' := Advanced(batches, id, {Submitted}, Confirmed);
    forall b ensures IsConfirmed(batches', b) <==> b == id || IsConfirmed(batches, b) {
    }
    forall b ensures Live(batches', b) <==> Live(batches, b) {
    }
  }

  predicate CanConfirm(db: Tables, id: Name) {
    id in db.batches && db.batches[id].status == Submitted && ConfirmedEvent(id) !in db.events
  }

  function WithConfirmed(db: Tables, id: Name): Tables {
    db.(batches := Advanced(db.batches, id, {Submitted}, Confirmed), events := db.events + {ConfirmedEvent(id)})
  }

  lemma {:induction false} MarkConfirmedAfter(db: Tables, call: Call)
    requires call.MarkConfirmed? && call.version in db.head
    ensures After(db, call) == if CanConfirm(db, call.id) then WithConfirmed(db, call.id) else db
  {
    MarkConfirmedCommits(db, call);
  }

  lemma {:induction false} ConfirmKeepsInv(db: Tables, tip: nat, chain: seq<Name>, id: Name)
    requires Inv(db, tip, chain) && CanConfirm(db, id) && PlatformLanded(db.submissions, id)
    ensures Inv(WithConfirmed(db, id), tip, chain)
  {
    ConfirmedIsOk(db.batches, db.submissions, db.events, id);
    BatchEventSettlesNothing(db.submissions, db.events, ConfirmedEvent(id));
    PromoteKeepsInv(db, tip, chain, WithConfirmed(db, id));
  }

  lemma {:induction false} ConfirmExtends(db: Tables, id: Name)
    requires CanConfirm(db, id)
    ensures Extends(db, WithConfirmed(db, id))
  {
  }

  lemma {:induction false} MarkConfirmedKeeps(db: Tables, tip: nat, chain: seq<Name>, call: Call)
    requires Inv(db, tip, chain) && call.MarkConfirmed? && Observed(db, call)
    ensures Keeps(db, tip, chain, call)
  {
    MarkConfirmedAfter(db, call);
    if CanConfirm(db, call.id) {
      ConfirmKeepsInv(db, tip, chain, call.id);
      ConfirmExtends(db, call.id);
      KeepsSameHead(db, tip, chain, call);
    } else {
      KeepsUnchanged(db, tip, chain, call);
    }
  }

  lemma {:induction false} SettledIsOk(
    batches: map<Name, BatchRow>, submissions: map<Name, SubmissionRow>, events: set<Event>,
    sid: Name, outcome: Outcome, at: Name
  )
    requires SubmissionsOk(batches, submissions) && SettledEvidenceOk(submissions, events)
    requires sid in submissions && submissions[sid].outcome == Pending && outcome != Pending
    requires Live(batches, submissions[sid].batch)
    ensures SubmissionsOk(batches, Settle(submissions, sid, outcome, at))
    ensures SettledEvidenceOk(Settle(submissions, sid, outcome, at),
                              events + {SettledEvent(submissions[sid].batch, sid)})
  {
    var submissions' := Settle(submissions, sid, outcome, at);
    forall b | IsConfirmed(batches, b)
      ensures PlatformLanded(submissions', b)
    {
      StillLanded(submissions, submissions', b);
    }
  }

  function WithSettled(db: Tables, sid: Name, outcome: Outcome, at: Name): Tables
    requires sid in db.submissions
  {
    db.(submissions := Settle(db.submissions, sid, outcome, at),
        events := db.events + {SettledEvent(db.submissions[sid].batch, sid)})
  }

  lemma {:induction false} UpdateSubmissionAfter(db: Tables, call: Call)
    requires call.UpdateSubmission? && Acceptable(call) && SettledEvidenceOk(db.submissions, db.events)
    requires call.sid in db.submissions && db.submissions[call.sid].batch == call.batch
    ensures After(db, call) == if CanSettle(db, call.sid) then WithSettled(db, call.sid, call.outcome, call.at) else db
  {
    UpdateSubmissionCommits(db, call);
  }

  lemma {:induction false} SettleKeepsInv(db: Tables, tip: nat, chain: seq<Name>, sid: Name, outcome: Outcome, at: Name)
    requires Inv(db, tip, chain) && CanSettle(db, sid) && outcome != Pending
    ensures Inv(WithSettled(db, sid, outcome, at), tip, chain)
  {
    SettledIsOk(db.batches, db.submissions, db.events, sid, outcome, at);
    assert BatchEvidenceOk(db.batches, WithSettled(db, sid, outcome, at).events);
  }

  lemma {:induction false} SettleExtends(db: Tables, sid: Name, outcome: Outcome, at: Name)
    requires CanSettle(db, sid)
    ensures Extends(db, WithSettled(db, sid, outcome, at))
  {
  }

  lemma {:induction false} UpdateSubmissionKeeps(db: Tables, tip: nat, chain: seq<Name>, call: Call)
    requires Inv(db, tip, chain) && call.UpdateSubmission? && Acceptable(call) && Observed(db, call)
    ensures Keeps(db, tip, chain, call)
  {
    UpdateSubmissionAfter(db, call);
    if CanSettle(db, call.sid) {
      SettleKeepsInv(db, tip, chain, call.sid, call.outcome, call.at);
      SettleExtends(db, call.sid, call.outcome, call.at);
      KeepsSameHead(db, tip, chain, call);
    } else {
      KeepsUnchanged(db, tip, chain, call);
    }
  }

  // ---- abandonBatch ----

  lemma {:induction false} AbandonsTheTip(db: Tables, tip: nat, chain: seq<Name>, id: Name, version: nat)
    requires Inv(db, tip, chain) && version in db.head && CanAbandon(db, id, version)
    ensures version == tip && db.head[tip].batch == Some(id)
    ensures chain != [] && chain[|chain| - 1] == id
    ensures db.batches[id].status in {Built, Submitted}
  {
    var v :| v in db.head && Newest(db.head, v) && db.head[v].batch == Some(id);
    assert v == tip;
    assert Live(db.batches, chain[|chain| - 1]);
    assert IsConfirmed(db.batches, id) ==> PlatformLanded(db.submissions, id);
  }

  lemma {:induction false} FailedIsOk(
    batches: map<Name, BatchRow>, submissions: map<Name, SubmissionRow>, events: set<Event>, id: Name
  )
    requires BatchEvidenceOk(batches, events) && SubmissionsOk(batches, submissions)
    requires id in batches && batches[id].status in {Built, Submitted} && !Holds(submissions, id, Landed)
    ensures
      var batches' := batches[id := batches[id].(status := Failed)];
      && BatchEvidenceOk(batches', events + {AbandonedEvent(id)})
      && SubmissionsOk(batches', submissions)
  {
  }

  lemma {:induction false} AbandonKeepsInv(db: Tables, tip: nat, chain: seq<Name>, id: Name, version: nat)
    requires Inv(db, tip, chain) && id in db.batches && version in db.head && CanAbandon(db, id, version)
    ensures chain != []
    ensures Inv(WithoutBatch(db, id, db.batches[id].prev, version), tip + 1, chain[..|chain| - 1])
  {
    AbandonsTheTip(db, tip, chain, id, version);
    FailKeepsLog(db.batches, db.head, tip, id);
    FailKeepsChain(db.batches, chain, id);
    FailKeepsLinks(db.batches, chain, id);
    FailKeepsPrev(db.batches, id);
    FailKeepsRecords(db.batches, db.records, id);
    FailedIsOk(db.batches, db.submissions, db.events, id);
    BatchEventSettlesNothing(db.submissions, db.events, AbandonedEvent(id));
  }

  lemma {:induction false} AbandonBatchAfter(db: Tables, call: Call)
    requires call.AbandonBatch? && call.version in db.head
    ensures
      After(db, call)
      == if CanAbandon(db, call.id, call.version) then WithoutBatch(db, call.id, call.prev, call.version) else db
  {
    AbandonBatchCommits(db, call);
  }

  lemma {:induction false} AbandonExtends(db: Tables, id: Name, prev: Head, version: nat)
    requires id in db.batches && db.batches[id].status in {Built, Submitted} && version + 1 !in db.head
    ensures Extends(db, WithoutBatch(db, id, prev, version))
  {
  }

  lemma {:induction false} AbandonBatchKeeps(db: Tables, tip: nat, chain: seq<Name>, call: Call)
    requires Inv(db, tip, chain) && call.AbandonBatch? && Observed(db, call)
    ensures Keeps(db, tip, chain, call)
  {
    AbandonBatchAfter(db, call);
    if CanAbandon(db, call.id, call.version) {
      AbandonsTheTip(db, tip, chain, call.id, call.version);
      AbandonKeepsInv(db, tip, chain, call.id, call.version);
      AbandonExtends(db, call.id, call.prev, call.version);
      KeepsAbandoned(db, tip, chain, call, WithoutBatch(db, call.id, call.prev, call.version));
    } else {
      KeepsUnchanged(db, tip, chain, call);
    }
  }

  lemma {:induction false} KeepsAbandoned(db: Tables, tip: nat, chain: seq<Name>, call: Call, next: Tables)
    requires call.AbandonBatch? && chain != [] && call.version + 1 !in db.head
    requires After(db, call) == next && call.version + 1 in next.head
    requires Inv(next, tip + 1, chain[..|chain| - 1]) && Extends(db, next)
    ensures Keeps(db, tip, chain, call)
  {
  }

  /** Whatever a call read, however long ago, its transaction keeps the invariant and only
      adds to what was recorded. */
  lemma {:induction false} CallKeeps(db: Tables, tip: nat, chain: seq<Name>, call: Call)
    requires Inv(db, tip, chain) && Observed(db, call)
    ensures Keeps(db, tip, chain, call)
  {
    if !Acceptable(call) {
      KeepsUnchanged(db, tip, chain, call);
    } else {
      match call
      case InsertRecordCall(_) => InsertRecordKeeps(db, tip, chain, call);
      case CreateBatch(_, _, _, _, _, _) => CreateBatchKeeps(db, tip, chain, call);
      case MarkSubmitted(_, _, _, _) => MarkSubmittedKeeps(db, tip, chain, call);
      case RecordWitness(_, _, _, _) => RecordWitnessKeeps(db, tip, chain, call);
      case UpdateSubmission(_, _, _, _) => UpdateSubmissionKeeps(db, tip, chain, call);
      case MarkConfirmed(_, _) => MarkConfirmedKeeps(db, tip, chain, call);
      case AbandonBatch(_, _, _) => AbandonBatchKeeps(db, tip, chain, call);
    }
  }
}
