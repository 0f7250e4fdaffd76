/** Whether the anchor log can move on: when a batch that waits at the tip can still be
    confirmed or abandoned, and when the head log can still get another row. */
module AnchorProgress {
  import opened Basics
  import opened AnchorTables
  import opened AnchorStore
  import opened AnchorLog
  import opened AnchorRuns
  import opened AnchorHistory

  // ---- Further calls ----

  /** Calls made one after the other, each on what it could observe when its turn came. */
  predicate Legal(db: Tables, calls: seq<Call>)
    decreases |calls|
  {
    calls == [] || (Observed(db, calls[0]) && Legal(After(db, calls[0]), calls[1..]))
  }

  function AfterAll(db: Tables, calls: seq<Call>): Tables
    decreases |calls|
  {
    if calls == [] then db else AfterAll(After(db, calls[0]), calls[1..])
  }

  predicate Resolved(db: Tables, b: Name) {
    b in db.batches && db.batches[b].status in {Confirmed, Failed}
  }

  /** Some further calls confirm the batch or abandon it. */
  ghost predicate CanResolve(db: Tables, b: Name) {
    exists calls :: Legal(db, calls) && Resolved(AfterAll(db, calls), b)
  }

  /** The batch is submitted and some witness has landed, but every platform submission was dropped. */
  predicate Stuck(db: Tables, b: Name) {
    && b in db.batches
    && db.batches[b].status == Submitted
    && Holds(db.submissions, b, Landed)
    && PlatformDropped(db.submissions, b)
  }

  predicate PlatformDropped(submissions: map<Name, SubmissionRow>, b: Name) {
    forall s :: s in submissions && submissions[s].batch == b && submissions[s].platform
      ==> submissions[s].outcome == Dropped
  }

  lemma {:induction false} ResolvedNow(db: Tables, b: Name)
    requires Resolved(db, b)
    ensures CanResolve(db, b)
  {
    assert Legal(db, []) && AfterAll(db, []) == db;
  }

  lemma {:induction false} OneCallCloser(db: Tables, call: Call, b: Name)
    requires Observed(db, call) && CanResolve(After(db, call), b)
    ensures CanResolve(db, b)
  {
    var rest :| Legal(After(db, call), rest) && Resolved(AfterAll(After(db, call), rest), b);
    var calls := [call] + rest;
    assert calls[1..] == rest;
    assert Legal(db, calls) && AfterAll(db, calls) == AfterAll(After(db, call), rest);
  }

  // ---- Stuck for ever ----

  lemma {:induction false} WaitsAtTip(db: Tables, tip: nat, chain: seq<Name>, b: Name)
    requires Inv(db, tip, chain) && Live(db.batches, b) && !IsConfirmed(db.batches, b)
    ensures chain != [] && chain[|chain| - 1] == b
    ensures db.head[tip] == HeadOf(db.batches, b) && Newest(db.head, tip)
  {
    var i :| 0 <= i < |chain| && chain[i] == b;
    assert i == |chain| - 1;
    assert db.head[tip] == HeadAfter(db.batches, chain, |chain|);
  }

  lemma {:induction false} NoBuildOnWaiting(db: Tables, tip: nat, chain: seq<Name>, call: Call, b: Name)
    requires Inv(db, tip, chain) && Live(db.batches, b) && !IsConfirmed(db.batches, b)
    requires call.CreateBatch? && Acceptable(call) && Observed(db, call)
    ensures After(db, call) == db
  {
    if call.id !in db.batches {
      NothingBound(db.batches, db.records, call.id);
    }
    CreateBatchAfter(db, call);
    if CanBuild(db, call.id, call.root, call.prev, call.leaves, call.version) {
      CanBuildOnTip(db, tip, chain, call);
      WaitsAtTip(db, tip, chain, b);
    }
  }

  lemma {:induction false} NoAbandonOnceLanded(db: Tables, tip: nat, chain: seq<Name>, call: Call, b: Name)
    requires Inv(db, tip, chain) && Live(db.batches, b) && !IsConfirmed(db.batches, b)
    requires Holds(db.submissions, b, Landed)
    requires call.AbandonBatch? && Observed(db, call)
    ensures After(db, call) == db
  {
    AbandonBatchAfter(db, call);
    if CanAbandon(db, call.id, call.version) {
      AbandonsTheTip(db, tip, chain, call.id, call.version);
      WaitsAtTip(db, tip, chain, b);
    }
  }

  lemma {:induction false} StillHolds(
    submissions: map<Name, SubmissionRow>, submissions': map<Name, SubmissionRow>, b: Name
  )
    requires Holds(submissions, b, Landed)
    requires forall s :: s in submissions && submissions[s].outcome != Pending ==>
               s in submissions' && submissions'[s] == submissions[s]
    ensures Holds(submissions', b, Landed)
  {
    var s :| s in submissions && submissions[s].batch == b && submissions[s].outcome == Landed;
    assert s in submissions' && submissions'[s] == submissions[s];
  }

  lemma {:induction false} StuckStaysOnSubmit(db: Tables, call: Call, b: Name)
    requires BatchEvidenceOk(db.batches, db.events) && Stuck(db, b) && call.MarkSubmitted?
    ensures Stuck(After(db, call), b) && After(db, call).head == db.head
  {
    MarkSubmittedAfter(db, call);
    if CanSubmit(db, call.id, call.sid, call.tx) {
      StillHolds(db.submissions, After(db, call).submissions, b);
    }
  }

  lemma {:induction false} StuckStaysOnWitness(db: Tables, call: Call, b: Name)
    requires Stuck(db, b) && call.RecordWitness?
    ensures Stuck(After(db, call), b) && After(db, call).head == db.head
  {
    RecordWitnessRuns(db, call);
    if !SubmissionClashes(db.submissions, call.sid, call.tx) {
      StillHolds(db.submissions, After(db, call).submissions, b);
    }
  }

  lemma {:induction false} StuckStaysOnUpdate(db: Tables, call: Call, b: Name)
    requires SettledEvidenceOk(db.submissions, db.events) && Stuck(db, b)
    requires call.UpdateSubmission? && Acceptable(call) && Observed(db, call)
    ensures Stuck(After(db, call), b) && After(db, call).head == db.head
  {
    UpdateSubmissionAfter(db, call);
    if CanSettle(db, call.sid) {
      StillHolds(db.submissions, After(db, call).submissions, b);
    }
  }

  lemma {:induction false} StuckStaysOnConfirm(db: Tables, call: Call, b: Name)
    requires Stuck(db, b) && call.MarkConfirmed? && Observed(db, call)
    ensures Stuck(After(db, call), b) && After(db, call).head == db.head
  {
    MarkConfirmedAfter(db, call);
  }

  /** No call gets a stuck batch unstuck, and none moves the head. */
  lemma {:induction false} StuckStays(db: Tables, tip: nat, chain: seq<Name>, call: Call, b: Name)
    requires Inv(db, tip, chain) && Stuck(db, b) && Observed(db, call)
    ensures Stuck(After(db, call), b) && After(db, call).head == db.head
  {
    if Acceptable(call) {
      match call
      case InsertRecordCall(_) => InsertRecordRuns(db, call);
      case CreateBatch(_, _, _, _, _, _) => NoBuildOnWaiting(db, tip, chain, call, b);
      case MarkSubmitted(_, _, _, _) => StuckStaysOnSubmit(db, call, b);
      case RecordWitness(_, _, _, _) => StuckStaysOnWitness(db, call, b);
      case UpdateSubmission(_, _, _, _) => StuckStaysOnUpdate(db, call, b);
      case MarkConfirmed(_, _) => StuckStaysOnConfirm(db, call, b);
      case AbandonBatch(_, _, _) => NoAbandonOnceLanded(db, tip, chain, call, b);
    }
  }

  /** Once stuck, always stuck: whatever is called, the head log never gets another row. */
  lemma {:induction false} StuckForEver(db: Tables, tip: nat, chain: seq<Name>, calls: seq<Call>, b: Name)
    requires Inv(db, tip, chain) && Stuck(db, b) && Legal(db, calls)
    ensures Stuck(AfterAll(db, calls), b) && AfterAll(db, calls).head == db.head
    decreases |calls|
  {
    if calls != [] {
      StuckStays(db, tip, chain, calls[0], b);
      CallKeeps(db, tip, chain, calls[0]);
      StuckForEver(After(db, calls[0]), tip, chain, calls[1..], b);
    }
  }

  // ---- Otherwise there is a way ----

  lemma {:induction false} ByConfirming(db: Tables, tip: nat, chain: seq<Name>, b: Name)
    requires Inv(db, tip, chain) && b in db.batches && db.batches[b].status == Submitted
    requires PlatformLanded(db.submissions, b)
    ensures CanResolve(db, b)
  {
    var call := MarkConfirmed(b, tip);
    MarkConfirmedAfter(db, call);
    assert ConfirmedEvent(b) in db.events <==> IsConfirmed(db.batches, b);
    ResolvedNow(After(db, call), b);
    OneCallCloser(db, call, b);
  }

  lemma {:induction false} ByLanding(db: Tables, tip: nat, chain: seq<Name>, b: Name, s: Name)
    requires Inv(db, tip, chain) && b in db.batches && db.batches[b].status == Submitted
    requires s in db.submissions && db.submissions[s].batch == b
    requires db.submissions[s].platform && db.submissions[s].outcome == Pending
    ensures CanResolve(db, b)
  {
    var at := db.submissions[s].updatedAt;
    var call := UpdateSubmission(s, Landed, b, at);
    UpdateSubmissionAfter(db, call);
    SettleKeepsInv(db, tip, chain, s, Landed, at);
    var next := After(db, call);
    assert s in next.submissions && next.submissions[s].outcome == Landed;
    ByConfirming(next, tip, chain, b);
    OneCallCloser(db, call, b);
  }

  ghost function Longest(names: set<Name>): (n: nat)
    ensures forall name :: name in names ==> |name.text| <= n
  {
    if names == {} then 0
    else
      var name :| name in names;
      var rest := Longest(names - {name});
      if |name.text| <= rest then rest else |name.text|
  }

  /** There is always another name. */
  lemma {:induction false} AnotherName(names: set<Name>) returns (name: Name)
    ensures name !in names
  {
    name := Name(seq(Longest(names) + 1, _ => 'x'));
  }

  lemma {:induction false} BySubmitting(db: Tables, tip: nat, chain: seq<Name>, b: Name)
    requires Inv(db, tip, chain) && b in db.batches && db.batches[b].status == Built
    ensures CanResolve(db, b)
  {
    var sid := AnotherName(db.submissions.Keys);
    var tx := AnotherName(set s | s in db.submissions :: db.submissions[s].tx);
    var call := MarkSubmitted(b, sid, tx, tx);
    assert !SubmissionClashes(db.submissions, sid, tx);
    MarkSubmittedAfter(db, call);
    SubmitKeepsInv(db, tip, chain, b, sid, tx, tx);
    ByLanding(After(db, call), tip, chain, b, sid);
    OneCallCloser(db, call, b);
  }

  function PendingOf(submissions: map<Name, SubmissionRow>, b: Name): set<Name> {
    set s | s in submissions && submissions[s].batch == b && submissions[s].outcome == Pending
  }

  lemma {:induction false} ByAbandoning(db: Tables, tip: nat, chain: seq<Name>, b: Name)
    requires Inv(db, tip, chain) && Live(db.batches, b) && !IsConfirmed(db.batches, b)
    requires !Holds(db.submissions, b, Landed) && PendingOf(db.submissions, b) == {}
    ensures CanResolve(db, b)
  {
    var call := AbandonBatch(b, db.batches[b].prev, tip);
    WaitsAtTip(db, tip, chain, b);
    assert !Holds(db.submissions, b, Pending) by {
      forall s | s in db.submissions && db.submissions[s].batch == b
        ensures db.submissions[s].outcome != Pending
      {
        assert s !in PendingOf(db.submissions, b);
      }
    }
    AbandonBatchAfter(db, call);
    ResolvedNow(After(db, call), b);
    OneCallCloser(db, call, b);
  }

  lemma {:induction false} DropOne(submissions: map<Name, SubmissionRow>, b: Name, s: Name, at: Name)
    requires s in PendingOf(submissions, b) && !Holds(submissions, b, Landed)
    ensures PendingOf(Settle(submissions, s, Dropped, at), b) == PendingOf(submissions, b) - {s}
    ensures !Holds(Settle(submissions, s, Dropped, at), b, Landed)
  {
  }

  lemma {:induction false} ByDropping(db: Tables, tip: nat, chain: seq<Name>, b: Name)
    requires Inv(db, tip, chain) && Live(db.batches, b) && !IsConfirmed(db.batches, b)
    requires !Holds(db.submissions, b, Landed)
    ensures CanResolve(db, b)
    decreases |PendingOf(db.submissions, b)|
  {
    if PendingOf(db.submissions, b) == {} {
      ByAbandoning(db, tip, chain, b);
    } else {
      var s :| s in PendingOf(db.submissions, b);
      var at := db.submissions[s].updatedAt;
      DropOne(db.submissions, b, s, at);
      SettleKeepsInv(db, tip, chain, s, Dropped, at);
      ByDropping(WithSettled(db, s, Dropped, at), tip, chain, b);
      DropIsACall(db, b, s, at);
    }
  }

  lemma {:induction false} DropIsACall(db: Tables, b: Name, s: Name, at: Name)
    requires SettledEvidenceOk(db.submissions, db.events) && Live(db.batches, b)
    requires s in PendingOf(db.submissions, b) && CanResolve(WithSettled(db, s, Dropped, at), b)
    ensures CanResolve(db, b)
  {
    var call := UpdateSubmission(s, Dropped, b, at);
    UpdateSubmissionAfter(db, call);
    OneCallCloser(db, call, b);
  }

  lemma {:induction false} UnstuckHasAnother(db: Tables, b: Name) returns (s: Name)
    requires b in db.batches && db.batches[b].status == Submitted && Holds(db.submissions, b, Landed) && !Stuck(db, b)
    ensures s in db.submissions && db.submissions[s].batch == b
    ensures db.submissions[s].platform && db.submissions[s].outcome != Dropped
  {
    s :| s in db.submissions && db.submissions[s].batch == b && db.submissions[s].platform
         && db.submissions[s].outcome != Dropped;
  }

  lemma {:induction false} ResolvesUnlessStuck(db: Tables, tip: nat, chain: seq<Name>, b: Name)
    requires Inv(db, tip, chain) && Live(db.batches, b) && !IsConfirmed(db.batches, b) && !Stuck(db, b)
    ensures CanResolve(db, b)
  {
    if db.batches[b].status == Built {
      BySubmitting(db, tip, chain, b);
    } else if !Holds(db.submissions, b, Landed) {
      ByDropping(db, tip, chain, b);
    } else {
      var s := UnstuckHasAnother(db, b);
      if db.submissions[s].outcome == Pending {
        ByLanding(db, tip, chain, b, s);
      } else {
        ByConfirming(db, tip, chain, b);
      }
    }
  }

  /** A batch that waits can still be confirmed or abandoned by some further calls exactly
      when it is not stuck. */
  lemma {:induction false} MovesOnUnlessStuck(db: Tables, b: Name)
    requires Sound(db) && Live(db.batches, b) && !IsConfirmed(db.batches, b)
    ensures CanResolve(db, b) <==> !Stuck(db, b)
  {
    var tip, chain :| Inv(db, tip, chain);
    if Stuck(db, b) {
      forall calls | Legal(db, calls)
        ensures !Resolved(AfterAll(db, calls), b)
      {
        StuckForEver(db, tip, chain, calls, b);
      }
    } else {
      ResolvesUnlessStuck(db, tip, chain, b);
    }
  }

  // ---- Another head row ----

  /** The calls add a row to the head log. */
  predicate Grows(db: Tables, calls: seq<Call>) {
    Legal(db, calls) && !(AfterAll(db, calls).head.Keys <= db.head.Keys)
  }

  ghost predicate CanGrow(db: Tables) {
    exists calls :: Grows(db, calls)
  }

  lemma {:induction false} Appended(db: Tables, calls: seq<Call>, more: seq<Call>)
    requires Legal(db, calls) && Legal(AfterAll(db, calls), more)
    ensures Legal(db, calls + more) && AfterAll(db, calls + more) == AfterAll(AfterAll(db, calls), more)
    decreases |calls|
  {
    if calls == [] {
      assert calls + more == more;
    } else {
      Appended(After(db, calls[0]), calls[1..], more);
      assert (calls + more)[1..] == calls[1..] + more;
    }
  }

  lemma {:induction false} CallsKeep(db: Tables, calls: seq<Call>)
    requires Sound(db) && Legal(db, calls)
    ensures Sound(AfterAll(db, calls)) && Extends(db, AfterAll(db, calls))
    decreases |calls|
  {
    if calls != [] {
      var tip, chain :| Inv(db, tip, chain);
      CallKeeps(db, tip, chain, calls[0]);
      var next := After(db, calls[0]);
      assert Inv(next, NextTip(db, tip, calls[0]), NextChain(db, chain, calls[0]));
      CallsKeep(next, calls[1..]);
      ExtendsTwice(db, next, AfterAll(next, calls[1..]));
    }
  }

  lemma {:induction false} GrowsOnceChanged(db: Tables, calls: seq<Call>)
    requires Legal(db, calls) && Extends(db, AfterAll(db, calls)) && AfterAll(db, calls).head != db.head
    ensures CanGrow(db)
  {
    assert Grows(db, calls);
  }

  lemma {:induction false} GrowsLater(db: Tables, calls: seq<Call>)
    requires Legal(db, calls) && AfterAll(db, calls).head == db.head && CanGrow(AfterAll(db, calls))
    ensures CanGrow(db)
  {
    var more :| Grows(AfterAll(db, calls), more);
    Appended(db, calls, more);
    assert Grows(db, calls + more);
  }

  /** No live batch is left to be confirmed. */
  ghost predicate NoneWaits(db: Tables) {
    forall b :: Live(db.batches, b) ==> IsConfirmed(db.batches, b)
  }

  lemma {:induction false} AnotherRecord(records: set<Record>) returns (record: Record)
    ensures record !in records
  {
    var id := AnotherName(set r | r in records :: Name(r.recordId));
    record := Record("contribution_receipt", id.text, "");
  }

  lemma {:induction false} OneLeafCanBeBuilt(
    db: Tables, tip: nat, chain: seq<Name>, record: Record, id: Name, root: Name
  )
    requires Inv(db, tip, chain) && NoneWaits(db) && record in db.records && db.records[record] == None
    requires id !in db.batches && !RootTaken(db.batches, root)
    ensures CanBuild(db, id, root, db.head[tip], [record], tip)
  {
    assert db.head[tip] == HeadAfter(db.batches, chain, |chain|);
    assert BuiltEvent(id) !in db.events;
  }

  lemma {:induction false} GrowsByBuilding(db: Tables, tip: nat, chain: seq<Name>, record: Record)
    requires Inv(db, tip, chain) && NoneWaits(db) && record in db.records && db.records[record] == None
    ensures CanGrow(db)
  {
    var id := AnotherName(db.batches.Keys);
    var root := AnotherName(set b | b in db.batches :: db.batches[b].root);
    assert !RootTaken(db.batches, root);
    OneLeafCanBeBuilt(db, tip, chain, record, id, root);
    NothingBound(db.batches, db.records, id);
    var call := CreateBatch(id, root, 1, db.head[tip], [record], tip);
    CreateBatchAfter(db, call);
    assert tip + 1 in After(db, call).head && tip + 1 !in db.head;
    assert [call][1..] == [] && AfterAll(db, [call]) == AfterAll(After(db, call), []);
    assert Grows(db, [call]);
  }

  /** With nothing waiting, a fresh record and a build on the tip add a head row. */
  lemma {:induction false} GrowsUnlessWaiting(db: Tables, tip: nat, chain: seq<Name>)
    requires Inv(db, tip, chain) && NoneWaits(db)
    ensures CanGrow(db)
  {
    var record := AnotherRecord(db.records.Keys);
    var call := InsertRecordCall(record);
    InsertRecordRuns(db, call);
    InsertRecordKeeps(db, tip, chain, call);
    GrowsByBuilding(After(db, call), tip, chain, record);
    assert [call][1..] == [] && AfterAll(db, [call]) == AfterAll(After(db, call), []);
    GrowsLater(db, [call]);
  }

  /** With the head where it was and its batch resolved, nothing waits. */
  lemma {:induction false} NoneWaitsAtSameHead(db: Tables, tip: nat, later: Tables, chain: seq<Name>, b: Name)
    requires Inv(later, tip, chain) && Resolved(later, b)
    requires tip in db.head && db.head[tip].batch == Some(b) && later.head == db.head
    ensures NoneWaits(later)
  {
    forall w | Live(later.batches, w)
      ensures IsConfirmed(later.batches, w)
    {
      if !IsConfirmed(later.batches, w) {
        WaitsAtTip(later, tip, chain, w);
      }
    }
  }

  lemma {:induction false} GrowsByResolving(db: Tables, tip: nat, chain: seq<Name>, b: Name)
    requires Inv(db, tip, chain) && Live(db.batches, b) && !IsConfirmed(db.batches, b) && CanResolve(db, b)
    ensures CanGrow(db)
  {
    var calls :| Legal(db, calls) && Resolved(AfterAll(db, calls), b);
    var later := AfterAll(db, calls);
    CallsKeep(db, calls);
    if later.head != db.head {
      GrowsOnceChanged(db, calls);
    } else {
      var tip', chain' :| Inv(later, tip', chain');
      WaitsAtTip(db, tip, chain, b);
      NoneWaitsAtSameHead(db, tip', later, chain', b);
      GrowsUnlessWaiting(later, tip', chain');
      GrowsLater(db, calls);
    }
  }

  /** From every sound state some further calls add a row to the head log exactly when no batch
      is stuck. */
  lemma {:induction false} LogGrowsUnlessStuck(db: Tables)
    requires Sound(db)
    ensures CanGrow(db) <==> !exists b :: Stuck(db, b)
  {
    var tip, chain :| Inv(db, tip, chain);
    if b :| Stuck(db, b) {
      forall calls | Legal(db, calls)
        ensures !Grows(db, calls)
      {
        StuckForEver(db, tip, chain, calls, b);
      }
    } else if NoneWaits(db) {
      GrowsUnlessWaiting(db, tip, chain);
    } else {
      var b :| Live(db.batches, b) && !IsConfirmed(db.batches, b);
      MovesOnUnlessStuck(db, b);
      GrowsByResolving(db, tip, chain, b);
    }
  }
}
