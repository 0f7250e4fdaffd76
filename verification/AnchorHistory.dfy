/** What follows for whole histories of the anchor tables. */
module AnchorHistory {
  import opened Basics
  import opened AnchorTables
  import opened AnchorStore
  import opened AnchorLog
  import opened AnchorRuns

  // ---- Runs ----

  /** A call with the moment its reads were finished; its transaction may come much later. */
  datatype Act = Act(call: Call, readAt: nat)

  predicate IsRun(trace: seq<Tables>, acts: seq<Act>) {
    && |trace| == |acts| + 1
    && trace[0] == FRESH
    && forall k {:trigger acts[k]} :: 0 <= k < |acts| ==>
         && acts[k].readAt <= k
         && Observed(trace[acts[k].readAt], acts[k].call)
         && trace[k + 1] == After(trace[k], acts[k].call)
  }

  ghost predicate Sound(db: Tables) {
    exists tip, chain :: Inv(db, tip, chain)
  }

  ghost predicate Accumulates(trace: seq<Tables>, k: nat)
    requires k < |trace|
  {
    forall i {:trigger Extends(trace[i], trace[k])} :: 0 <= i <= k ==> Extends(trace[i], trace[k])
  }

  lemma {:induction false} RunStep(trace: seq<Tables>, acts: seq<Act>, k: nat)
    requires IsRun(trace, acts) && k < |acts|
    requires Sound(trace[k]) && Accumulates(trace, k)
    ensures Sound(trace[k + 1]) && Extends(trace[k], trace[k + 1])
  {
    var call := acts[k].call;
    var tip, chain :| Inv(trace[k], tip, chain);
    StillObserved(trace[acts[k].readAt], trace[k], call);
    CallKeeps(trace[k], tip, chain, call);
    assert Inv(trace[k + 1], NextTip(trace[k], tip, call), NextChain(trace[k], chain, call));
  }

  lemma {:induction false} AccumulatesMore(trace: seq<Tables>, k: nat)
    requires k + 1 < |trace| && Accumulates(trace, k) && Extends(trace[k], trace[k + 1])
    ensures Accumulates(trace, k + 1)
  {
    forall i | 0 <= i <= k
      ensures Extends(trace[i], trace[k + 1])
    {
      ExtendsTwice(trace[i], trace[k], trace[k + 1]);
    }
  }

  /** State `k` of a run is sound and kept all that came before it. */
  ghost predicate SoundSoFar(trace: seq<Tables>, k: nat) {
    k < |trace| && Sound(trace[k]) && Accumulates(trace, k)
  }

  lemma {:induction false} RunStarts(trace: seq<Tables>)
    requires |trace| > 0 && trace[0] == FRESH
    ensures SoundSoFar(trace, 0)
  {
    FreshIsOk();
    assert Inv(trace[0], 0, []);
  }

  lemma {:induction false} RunGrows(trace: seq<Tables>, acts: seq<Act>, k: nat)
    requires IsRun(trace, acts) && k < |acts| && SoundSoFar(trace, k)
    ensures SoundSoFar(trace, k + 1)
  {
    RunStep(trace, acts, k);
    AccumulatesMore(trace, k);
  }

  /** In every run every state is sound, and every state keeps all that came before it. */
  lemma {:induction false} RunsAreSound(trace: seq<Tables>, acts: seq<Act>, k: nat)
    requires IsRun(trace, acts) && k < |trace|
    ensures SoundSoFar(trace, k)
    decreases k
  {
    RunStarts(trace);
    for i := 0 to k
      invariant SoundSoFar(trace, i)
    {
      RunGrows(trace, acts, i);
    }
  }

  // ---- One chain ----

  lemma {:induction false} SamePlace(batches: map<Name, BatchRow>, chain: seq<Name>, i: nat, j: nat)
    requires ChainOk(batches, chain) && i < j < |chain|
    ensures batches[chain[i]].prev != batches[chain[j]].prev
  {
    assert Live(batches, chain[i]) && Live(batches, chain[j]);
    assert batches[chain[j]].prev == HeadAfter(batches, chain, j);
    assert batches[chain[i]].prev == HeadAfter(batches, chain, i);
    assert i > 0 ==> chain[i - 1] != chain[j - 1];
  }

  lemma {:induction false} SamePredecessor(batches: map<Name, BatchRow>, chain: seq<Name>, a: Name, b: Name)
    requires ChainOk(batches, chain) && Live(batches, a) && Live(batches, b) && batches[a].prev == batches[b].prev
    ensures a == b
  {
    var i :| 0 <= i < |chain| && chain[i] == a;
    var j :| 0 <= j < |chain| && chain[j] == b;
    if i < j {
      SamePlace(batches, chain, i, j);
    } else if j < i {
      SamePlace(batches, chain, j, i);
    }
  }

  /** The log does not fork: no two live batches name the same predecessor. */
  lemma {:induction false} NoTwoShareAPredecessor(db: Tables, a: Name, b: Name)
    requires Sound(db) && Live(db.batches, a) && Live(db.batches, b) && db.batches[a].prev == db.batches[b].prev
    ensures a == b
  {
    var tip, chain :| Inv(db, tip, chain);
    SamePredecessor(db.batches, chain, a, b);
  }

  /** At most one batch is waiting, it is where the newest head row points, and whatever a
      live batch was built on is confirmed. */
  lemma {:induction false} OnlyTheTipWaits(db: Tables, b: Name, v: nat)
    requires Sound(db) && Newest(db.head, v) && Live(db.batches, b) && !IsConfirmed(db.batches, b)
    ensures db.head[v] == HeadOf(db.batches, b)
  {
  }

  // ---- Anchored history is never rewritten ----

  ghost predicate KeepsRows(batches: map<Name, BatchRow>, batches': map<Name, BatchRow>) {
    forall b :: b in batches ==> b in batches' && batches'[b] == batches[b].(status := batches'[b].status)
  }

  lemma {:induction false} SameNext(
    batches: map<Name, BatchRow>, chain: seq<Name>, batches': map<Name, BatchRow>, chain': seq<Name>, n: nat
  )
    requires ChainOk(batches, chain) && ChainOk(batches', chain') && KeepsRows(batches, batches')
    requires n < |chain| && n <= |chain'| && chain[..n] == chain'[..n] && Live(batches', chain[n])
    ensures n < |chain'| && chain'[n] == chain[n]
  {
    var j :| 0 <= j < |chain'| && chain'[j] == chain[n];
    SameHeadAfter(batches, batches', chain, chain', n);
    assert Live(batches, chain[n]) && batches[chain[n]].prev == HeadAfter(batches, chain, n);
    PlaceByPrev(batches', chain', j, n);
  }

  lemma {:induction false} SamePrefix(
    batches: map<Name, BatchRow>, chain: seq<Name>, batches': map<Name, BatchRow>, chain': seq<Name>, n: nat
  )
    requires ChainOk(batches, chain) && ChainOk(batches', chain') && KeepsRows(batches, batches')
    requires n <= |chain| && AllLive(batches', chain[..n])
    ensures n <= |chain'| && chain[..n] == chain'[..n]
  {
    for m := 0 to n
      invariant m <= |chain'| && chain[..m] == chain'[..m]
    {
      assert chain[..n][m] == chain[m];
      SameNext(batches, chain, batches', chain', m);
      assert chain[..m + 1] == chain[..m] + [chain[m]] && chain'[..m + 1] == chain'[..m] + [chain'[m]];
    }
  }

  /** A batch's predecessor says where in the chain it stands. */
  lemma {:induction false} PlaceByPrev(batches: map<Name, BatchRow>, chain: seq<Name>, j: nat, n: nat)
    requires ChainOk(batches, chain) && j < |chain| && n <= |chain|
    requires batches[chain[j]].prev == HeadAfter(batches, chain, n)
    ensures j == n
  {
    assert batches[chain[j]].prev == HeadAfter(batches, chain, j);
    if 0 < j && 0 < n {
      assert chain[j - 1] == chain[n - 1];
    }
  }

  lemma {:induction false} ConfirmedStay(before: Tables, later: Tables, chain: seq<Name>, n: nat)
    requires Extends(before, later) && AllLive(before.batches, chain)
    requires n <= |chain| && BelowConfirmed(before.batches, chain, n)
    ensures forall i :: 0 <= i < n ==> chain[i] in later.batches && later.batches[chain[i]] == before.batches[chain[i]]
    ensures AllLive(later.batches, chain[..n])
  {
    forall i | 0 <= i < n
      ensures Live(later.batches, chain[i]) && later.batches[chain[i]] == before.batches[chain[i]]
    {
      assert Live(before.batches, chain[i]);
    }
  }

  /** A confirmed batch keeps its place, with the same batches in the same order below it,
      in every later state. */
  lemma {:induction false} AnchoredHistoryStays(
    before: Tables, tip: nat, chain: seq<Name>, later: Tables, tip': nat, chain': seq<Name>, n: nat
  )
    requires Inv(before, tip, chain) && Inv(later, tip', chain') && Extends(before, later)
    requires n <= |chain| && BelowConfirmed(before.batches, chain, n)
    ensures n <= |chain'| && chain[..n] == chain'[..n]
    ensures forall i :: 0 <= i < n ==> chain[i] in later.batches && later.batches[chain[i]] == before.batches[chain[i]]
  {
    ConfirmedStay(before, later, chain, n);
    SamePrefix(before.batches, chain, later.batches, chain', n);
  }

  /** What a confirmed transaction attests is never on an abandoned batch, then or later. */
  lemma {:induction false} LandedIsNeverAbandoned(trace: seq<Tables>, acts: seq<Act>, i: nat, j: nat, s: Name)
    requires IsRun(trace, acts) && i <= j < |trace|
    requires s in trace[i].submissions && trace[i].submissions[s].outcome == Landed
    ensures s in trace[j].submissions && trace[j].submissions[s] == trace[i].submissions[s]
    ensures Live(trace[j].batches, trace[j].submissions[s].batch)
  {
    RunsAreSound(trace, acts, j);
    assert Extends(trace[i], trace[j]);
    var tip, chain :| Inv(trace[j], tip, chain);
  }

  // ---- Evidence ----

  function StatusOf(events: set<Event>, b: Name): Status {
    if AbandonedEvent(b) in events then Failed
    else if ConfirmedEvent(b) in events then Confirmed
    else if SubmittedEvent(b) in events then Submitted
    else Built
  }

  /** The batch table can be recomputed from the immutable events. */
  lemma {:induction false} EvidenceTellsStatus(db: Tables, b: Name)
    requires Sound(db)
    ensures b in db.batches <==> BuiltEvent(b) in db.events
    ensures b in db.batches ==> db.batches[b].status == StatusOf(db.events, b)
  {
  }

  // ---- Conservation of records ----

  function LeafTotal(batches: map<Name, BatchRow>, chain: seq<Name>, n: nat): nat
    requires AllLive(batches, chain) && n <= |chain|
  {
    if n == 0 then 0 else LeafTotal(batches, chain, n - 1) + batches[chain[n - 1]].leafCount
  }

  function PendingRecords(records: map<Record, Option<Name>>): set<Record> {
    set r | r in records && records[r] == None
  }

  function BoundBelow(records: map<Record, Option<Name>>, chain: seq<Name>, n: nat): set<Record>
    requires n <= |chain|
  {
    if n == 0 then {} else BoundBelow(records, chain, n - 1) + BoundTo(records, chain[n - 1])
  }

  lemma {:induction false} BoundBelowMembers(records: map<Record, Option<Name>>, chain: seq<Name>, n: nat, r: Record)
    requires n <= |chain|
    ensures r in BoundBelow(records, chain, n) <==>
              r in records && records[r].Some? && exists i :: 0 <= i < n && chain[i] == records[r].value
    decreases n
  {
    if n > 0 {
      BoundBelowMembers(records, chain, n - 1, r);
    }
  }

  lemma {:induction false} NextIsDisjoint(records: map<Record, Option<Name>>, chain: seq<Name>, n: nat)
    requires Distinct(chain) && n < |chain|
    ensures BoundBelow(records, chain, n) !! BoundTo(records, chain[n])
  {
    forall r | r in BoundTo(records, chain[n])
      ensures r !in BoundBelow(records, chain, n)
    {
      BoundBelowMembers(records, chain, n, r);
    }
  }

  function BoundCount(records: map<Record, Option<Name>>, chain: seq<Name>, n: nat): nat
    requires n <= |chain|
  {
    if n == 0 then 0 else BoundCount(records, chain, n - 1) + |BoundTo(records, chain[n - 1])|
  }

  lemma {:induction false} NextBound(records: map<Record, Option<Name>>, chain: seq<Name>, n: nat)
    requires Distinct(chain) && n < |chain|
    ensures |BoundBelow(records, chain, n + 1)| == |BoundBelow(records, chain, n)| + |BoundTo(records, chain[n])|
    ensures BoundCount(records, chain, n + 1) == BoundCount(records, chain, n) + |BoundTo(records, chain[n])|
  {
    NextIsDisjoint(records, chain, n);
    assert BoundBelow(records, chain, n + 1) == BoundBelow(records, chain, n) + BoundTo(records, chain[n]);
  }

  lemma {:induction false} BoundBelowCounts(records: map<Record, Option<Name>>, chain: seq<Name>, n: nat)
    requires Distinct(chain) && n <= |chain|
    ensures |BoundBelow(records, chain, n)| == BoundCount(records, chain, n)
  {
    for m := 0 to n
      invariant |BoundBelow(records, chain, m)| == BoundCount(records, chain, m)
    {
      NextBound(records, chain, m);
    }
  }

  lemma {:induction false} ChainHoldsItsLeaves(
    batches: map<Name, BatchRow>, records: map<Record, Option<Name>>, chain: seq<Name>, n: nat
  )
    requires AllLive(batches, chain) && RecordsOk(batches, records) && n <= |chain|
    ensures BoundCount(records, chain, n) == LeafTotal(batches, chain, n)
    decreases n
  {
    if n > 0 {
      ChainHoldsItsLeaves(batches, records, chain, n - 1);
      assert Live(batches, chain[n - 1]);
    }
  }

  lemma {:induction false} EveryRecordIsPlaced(
    batches: map<Name, BatchRow>, records: map<Record, Option<Name>>, chain: seq<Name>
  )
    requires Covers(batches, chain) && RecordsOk(batches, records)
    ensures records.Keys == PendingRecords(records) + BoundBelow(records, chain, |chain|)
    ensures PendingRecords(records) !! BoundBelow(records, chain, |chain|)
  {
    forall r
      ensures r in BoundBelow(records, chain, |chain|) <==> r in records && r !in PendingRecords(records)
    {
      BoundBelowMembers(records, chain, |chain|, r);
      assert r in records && records[r].Some? ==> Live(batches, records[r].value);
    }
  }

  /** Every record is either pending or one of the leaves of exactly one live batch, and
      the live batches hold all the leaves they count. */
  lemma {:induction false} RecordsAreConserved(db: Tables, chain: seq<Name>)
    requires ChainOk(db.batches, chain) && RecordsOk(db.batches, db.records)
    ensures |db.records.Keys| == |PendingRecords(db.records)| + LeafTotal(db.batches, chain, |chain|)
  {
    EveryRecordIsPlaced(db.batches, db.records, chain);
    BoundBelowCounts(db.records, chain, |chain|);
    ChainHoldsItsLeaves(db.batches, db.records, chain, |chain|);
  }

  // ---- Stale writers lose ----

  /** Of all the writers that read one head version, at most one ever commits: once the next
      version is there, building or abandoning on it changes nothing, whenever it runs. */
  lemma {:induction false} OneWriterPerVersion(db: Tables, tip: nat, chain: seq<Name>, call: Call)
    requires Inv(db, tip, chain)
    requires call.CreateBatch? || call.AbandonBatch?
    requires call.version in db.head && call.version + 1 in db.head
    ensures After(db, call) == db
  {
    if Acceptable(call) {
      if call.CreateBatch? {
        if call.id !in db.batches {
          NothingBound(db.batches, db.records, call.id);
        }
        CreateBatchAfter(db, call);
      } else {
        AbandonBatchAfter(db, call);
      }
    }
  }

  // ---- Undoing a build ----

  /** Abandoning the batch just built puts head, chain and records back as they were; only
      the two new versions, the failed row and the events remain to tell of it. */
  lemma {:induction false} AbandonUndoesBuild(db: Tables, tip: nat, chain: seq<Name>, call: Call)
    requires Inv(db, tip, chain) && call.CreateBatch?
    requires CanBuild(db, call.id, call.root, call.prev, call.leaves, call.version)
    ensures
      var built := WithBatch(db, call.id, call.root, call.prev, call.leaves, call.version);
      var back := WithoutBatch(built, call.id, call.prev, tip + 1);
      && CanAbandon(built, call.id, tip + 1)
      && back.records == db.records
      && back.head == db.head[tip + 1 := Head(Some(call.id), Some(call.root))][tip + 2 := db.head[tip]]
      && back.batches == db.batches[call.id := BuiltRow(call.root, call.leaves, call.prev).(status := Failed)]
      && back.submissions == db.submissions
  {
    var built := WithBatch(db, call.id, call.root, call.prev, call.leaves, call.version);
    CanBuildOnTip(db, tip, chain, call);
    assert Newest(built.head, tip + 1) && built.head[tip + 1].batch == Some(call.id);
    NoSubmissionYet(db, tip, chain, call.id);
    NothingBound(db.batches, db.records, call.id);
    ReleaseUndoesBind(db.records, call.leaves, call.id);
  }

  lemma {:induction false} NoSubmissionYet(db: Tables, tip: nat, chain: seq<Name>, id: Name)
    requires Inv(db, tip, chain) && id !in db.batches
    ensures forall outcome :: !Holds(db.submissions, id, outcome)
    ensures AbandonedEvent(id) !in db.events
  {
  }

  lemma {:induction false} ReleaseUndoesBind(records: map<Record, Option<Name>>, leaves: seq<Record>, id: Name)
    requires BoundTo(records, id) == {}
    ensures Release(BindAll(records, leaves, id), id) == records
  {
    BindAllBinds(records, leaves, id);
    forall r | r in records
      ensures records[r] != Some(id)
    {
      assert r in BoundTo(records, id) <==> records[r] == Some(id);
    }
  }

  // ---- Checks after the commit ----

  lemma {:induction false} BuildPersists(db: Tables, call: Call)
    requires call.CreateBatch? && Acceptable(call) && call.version in db.head
    requires RecordsOk(db.batches, db.records)
    requires Transact(db, Statements(call)).Committed?
    ensures Transact(db, Statements(call)).changes == [1] + (Ones(call.leafCount) + [1, 0, 1])
  {
    var CreateBatch(id, root, _, prev, leaves, version) := call;
    Run(db, InsertBatch(id, BuiltRow(root, leaves, prev)),
        Bindings(id, leaves) + CreateTail(id, root, |leaves|, prev, version));
    assert id !in db.batches;
    NothingBound(db.batches, db.records, id);
    CreateBatchCommits(db, call);
  }

  lemma {:induction false} AbandonPersists(db: Tables, tip: nat, chain: seq<Name>, call: Call)
    requires Inv(db, tip, chain) && call.AbandonBatch? && Observed(db, call)
    requires Transact(db, Statements(call)).Committed?
    ensures Transact(db, Statements(call)).changes == [db.batches[call.id].leafCount, 0, 1, 1, 1]
  {
    AbandonBatchCommits(db, call);
    AbandonsTheTip(db, tip, chain, call.id, call.version);
    assert Live(db.batches, call.id);
  }

  /** After a committed build, confirmation or abandonment the row counts are what the code
      checks for, so none of those three can report a partial write. */
  lemma {:induction false} CommitsPersistTogether(db: Tables, tip: nat, chain: seq<Name>, call: Call)
    requires Inv(db, tip, chain) && Observed(db, call) && Acceptable(call)
    requires call.CreateBatch? || call.MarkConfirmed? || call.AbandonBatch?
    requires Transact(db, Statements(call)).Committed?
    ensures
      var changes := Transact(db, Statements(call)).changes;
      match call
      case CreateBatch(_, _, leafCount, _, _, _) => changes == [1] + (Ones(leafCount) + [1, 0, 1])
      case MarkConfirmed(_, _) => changes == [0, 1, 1]
      case AbandonBatch(id, _, _) => id in db.batches && changes == [db.batches[id].leafCount, 0, 1, 1, 1]
      case _ => true
  {
    match call
    case CreateBatch(_, _, _, _, _, _) => BuildPersists(db, call);
    case MarkConfirmed(_, _) => MarkConfirmedCommits(db, call);
    case AbandonBatch(_, _, _) => AbandonPersists(db, tip, chain, call);
  }

  /** markSubmitted is different: what it commits agrees with the batch exactly when the
      batch is still built by then; an abandonment in between leaves a pending platform
      submission and its event on a failed batch. */
  lemma {:induction false} SubmissionAgreesIffStillBuilt(db: Tables, tip: nat, chain: seq<Name>, call: Call)
    requires Inv(db, tip, chain) && call.MarkSubmitted? && Observed(db, call)
    requires Transact(db, Statements(call)).Committed?
    ensures call.id in After(db, call).batches && call.sid in After(db, call).submissions
    ensures After(db, call).batches[call.id].status == Submitted <==> db.batches[call.id].status == Built
    ensures db.batches[call.id].status != Built ==>
              var next := After(db, call);
              && next.batches[call.id].status == Failed
              && next.submissions[call.sid].outcome == Pending
              && SubmittedEvent(call.id) in next.events
  {
    MarkSubmittedCommits(db, call);
  }

  // ---- A version nobody read ----

  /** createBatch trusts the version it is given to exist. When a call goes through, the log
      is still a log exactly when that version was at most the newest one. */
  lemma {:induction false} VersionsMustExist(db: Tables, tip: nat, chain: seq<Name>, call: Call)
    requires Inv(db, tip, chain) && call.CreateBatch? && After(db, call) != db
    ensures (exists tip' :: LogOk(After(db, call).batches, After(db, call).head, tip')) <==> call.version <= tip
  {
    assert Acceptable(call);
    if call.version <= tip {
      assert call.version in db.head;
      CreateBatchKeeps(db, tip, chain, call);
      assert LogOk(After(db, call).batches, After(db, call).head, NextTip(db, tip, call));
    } else {
      CreateBatchPastHead(db, call);
      forall tip'
        ensures !LogOk(After(db, call).batches, After(db, call).head, tip')
      {
        PastHeadBreaksLog(db, tip, chain, call, tip');
      }
    }
  }

  lemma {:induction false} PastHeadBreaksLog(db: Tables, tip: nat, chain: seq<Name>, call: Call, tip': nat)
    requires Inv(db, tip, chain) && call.CreateBatch? && call.id !in db.batches && call.version > tip
    ensures
      var next := PastHead(db, call.id, call.root, call.prev, call.leaves, call.version);
      !LogOk(next.batches, next.head, tip')
  {
    var next := PastHead(db, call.id, call.root, call.prev, call.leaves, call.version);
    if Contiguous(next.head, tip') {
      assert call.version in next.head && call.version <= tip';
      assert tip + 1 in next.head;
      assert call.version == tip + 1;
      assert chain != [] ==> Live(db.batches, chain[|chain| - 1]);
      assert db.head[tip] == HeadAfter(db.batches, chain, |chain|);
      assert !Logged(next.batches, next.head, call.version);
    }
  }

  /** On fresh tables, a build that claims to follow version 5 commits although its only
      leaf was never recorded, and leaves a gap between the two head rows. */
  lemma {:induction false} AnUnreadVersionForks()
    ensures
      var leaf := Record("contribution_receipt", "r", "h");
      var call := CreateBatch(Name("b"), Name("root"), 1, NULL_HEAD, [leaf], 5);
      var next := After(FRESH, call);
      && next.head == map[0 := NULL_HEAD, 5 := NULL_HEAD, 6 := Head(Some(Name("b")), Some(Name("root")))]
      && Live(next.batches, Name("b"))
      && leaf !in next.records
  {
    var leaf := Record("contribution_receipt", "r", "h");
    var call := CreateBatch(Name("b"), Name("root"), 1, NULL_HEAD, [leaf], 5);
    CreateBatchPastHead(FRESH, call);
    BindAllBinds(FRESH.records, [leaf], Name("b"));
    assert !RootTaken(FRESH.batches, Name("root"));
  }
}