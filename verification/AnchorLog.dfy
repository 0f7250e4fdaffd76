/** What every transaction of the anchor store keeps, whatever was stale when it began: one
    head log without gaps, one chain of live batches, and records and evidence in step with it. */
module AnchorLog {
  import opened Basics
  import opened AnchorTables
  import opened AnchorStore

  // ---- The invariant, table by table ----

  ghost predicate Contiguous(head: map<nat, Head>, tip: nat) {
    && (forall v :: v in head ==> v <= tip)
    && (forall v: nat :: v <= tip ==> v in head)
  }

  /** Version `v` recorded a batch built on the head before it. */
  predicate IsBuild(batches: map<Name, BatchRow>, head: map<nat, Head>, v: nat)
    requires v in head && v > 0 && v - 1 in head
  {
    && head[v].batch.Some?
    && head[v].batch.value in batches
    && head[v].root == Some(batches[head[v].batch.value].root)
    && batches[head[v].batch.value].prev == head[v - 1]
  }

  /** Version `v` took the head back to the predecessor of a failed batch. */
  predicate IsAbandon(batches: map<Name, BatchRow>, head: map<nat, Head>, v: nat)
    requires v in head && v > 0 && v - 1 in head
  {
    && head[v - 1].batch.Some?
    && head[v - 1].batch.value in batches
    && batches[head[v - 1].batch.value].status == Failed
    && batches[head[v - 1].batch.value].prev == head[v]
  }

  predicate Logged(batches: map<Name, BatchRow>, head: map<nat, Head>, v: nat) {
    && v in head
    && v > 0
    && v - 1 in head
    && (IsBuild(batches, head, v) || IsAbandon(batches, head, v))
  }

  ghost predicate LogOk(batches: map<Name, BatchRow>, head: map<nat, Head>, tip: nat) {
    && Contiguous(head, tip)
    && head[0] == NULL_HEAD
    && forall v: nat :: 0 < v <= tip ==> Logged(batches, head, v)
  }

  function HeadOf(batches: map<Name, BatchRow>, id: Name): Head
    requires id in batches
  {
    Head(Some(id), Some(batches[id].root))
  }

  /** The head row that points past `chain[..n]`. */
  function HeadAfter(batches: map<Name, BatchRow>, chain: seq<Name>, n: nat): Head
    requires n <= |chain|
    requires AllLive(batches, chain)
  {
    if n == 0 then NULL_HEAD else HeadOf(batches, chain[n - 1])
  }

  predicate AllLive(batches: map<Name, BatchRow>, chain: seq<Name>) {
    forall i :: 0 <= i < |chain| ==> Live(batches, chain[i])
  }

  ghost predicate Covers(batches: map<Name, BatchRow>, chain: seq<Name>) {
    forall b :: Live(batches, b) ==> b in chain
  }

  predicate Linked(batches: map<Name, BatchRow>, chain: seq<Name>)
    requires AllLive(batches, chain)
  {
    forall i {:trigger HeadAfter(batches, chain, i)} ::
      0 <= i < |chain| ==> batches[chain[i]].prev == HeadAfter(batches, chain, i)
  }

  predicate BelowConfirmed(batches: map<Name, BatchRow>, chain: seq<Name>, n: int)
    requires AllLive(batches, chain)
  {
    forall i :: 0 <= i < n && i < |chain| ==> batches[chain[i]].status == Confirmed
  }

  /** `chain` lists every live batch once, each naming the one before it as predecessor,
      and only the last may still be unconfirmed. */
  ghost predicate ChainOk(batches: map<Name, BatchRow>, chain: seq<Name>) {
    && AllLive(batches, chain)
    && Distinct(chain)
    && Covers(batches, chain)
    && Linked(batches, chain)
    && BelowConfirmed(batches, chain, |chain| - 1)
  }

  ghost predicate TipOk(batches: map<Name, BatchRow>, head: map<nat, Head>, tip: nat, chain: seq<Name>)
    requires Contiguous(head, tip)
    requires ChainOk(batches, chain)
  {
    head[tip] == HeadAfter(batches, chain, |chain|)
  }

  /** Every batch, failed ones included, was built on nothing or on a confirmed batch. */
  ghost predicate PrevOk(batches: map<Name, BatchRow>) {
    forall b :: b in batches ==>
      || batches[b].prev == NULL_HEAD
      || (&& batches[b].prev.batch.Some?
          && IsConfirmed(batches, batches[b].prev.batch.value)
          && batches[b].prev == HeadOf(batches, batches[b].prev.batch.value))
  }

  ghost predicate RootsOk(batches: map<Name, BatchRow>) {
    forall a, b :: Live(batches, a) && Live(batches, b) && batches[a].root == batches[b].root ==> a == b
  }

  /** A record is bound to a live batch or pending, and a live batch holds all its leaves. */
  ghost predicate RecordsOk(batches: map<Name, BatchRow>, records: map<Record, Option<Name>>) {
    && (forall r :: r in records && records[r].Some? ==> Live(batches, records[r].value))
    && (forall b {:trigger BoundTo(records, b)} :: Live(batches, b) ==> |BoundTo(records, b)| == batches[b].leafCount)
  }

  /** The events say what the projections say. */
  ghost predicate BatchEvidenceOk(batches: map<Name, BatchRow>, events: set<Event>) {
    && (forall b :: BuiltEvent(b) in events <==> b in batches)
    && (forall b :: ConfirmedEvent(b) in events <==> IsConfirmed(batches, b))
    && (forall b :: AbandonedEvent(b) in events <==> b in batches && batches[b].status == Failed)
    && (forall b :: SubmittedEvent(b) in events ==> b in batches && batches[b].status != Built)
    && (forall b :: b in batches && batches[b].status in {Submitted, Confirmed} ==> SubmittedEvent(b) in events)
  }

  ghost predicate SettledEvidenceOk(submissions: map<Name, SubmissionRow>, events: set<Event>) {
    forall b, s :: SettledEvent(b, s) in events
      <==> s in submissions && submissions[s].batch == b && submissions[s].outcome != Pending
  }

  ghost predicate SubmissionsOk(batches: map<Name, BatchRow>, submissions: map<Name, SubmissionRow>) {
    && (forall s :: s in submissions ==> submissions[s].batch in batches)
    && (forall s :: s in submissions && submissions[s].outcome == Landed ==> Live(batches, submissions[s].batch))
    && (forall s, t :: s in submissions && t in submissions && submissions[s].tx == submissions[t].tx ==> s == t)
    && (forall b :: IsConfirmed(batches, b) ==> PlatformLanded(submissions, b))
  }

  ghost predicate Inv(db: Tables, tip: nat, chain: seq<Name>) {
    && LogOk(db.batches, db.head, tip)
    && ChainOk(db.batches, chain)
    && TipOk(db.batches, db.head, tip, chain)
    && PrevOk(db.batches)
    && RootsOk(db.batches)
    && RecordsOk(db.batches, db.records)
    && BatchEvidenceOk(db.batches, db.events)
    && SettledEvidenceOk(db.submissions, db.events)
    && SubmissionsOk(db.batches, db.submissions)
  }

  lemma {:induction false} FreshIsOk()
    ensures Inv(FRESH, 0, [])
  {
  }

  /** What a call read before its transaction, some time ago. These facts do not go stale. */
  predicate Observed(db: Tables, call: Call) {
    match call
    case InsertRecordCall(_) => true
    case CreateBatch(_, _, _, _, _, version) => version in db.head
    case MarkSubmitted(id, _, _, _) => id in db.batches
    case RecordWitness(id, _, _, _) => id in db.batches
    case UpdateSubmission(sid, _, batch, _) => sid in db.submissions && db.submissions[sid].batch == batch
    case MarkConfirmed(id, version) => id in db.batches && version in db.head && PlatformLanded(db.submissions, id)
    case AbandonBatch(id, prev, version) => id in db.batches && db.batches[id].prev == prev && version in db.head
  }

  // ---- Only ever forward ----

  /** Status moves from built to submitted to confirmed, or from the first two to failed. */
  predicate Forward(before: Status, after: Status) {
    before == after || before == Built || (before == Submitted && after != Built)
  }

  /** `later` kept everything `db` had recorded. */
  predicate Extends(db: Tables, later: Tables) {
    && (forall v :: v in db.head ==> v in later.head && later.head[v] == db.head[v])
    && (forall b :: b in db.batches ==>
          && b in later.batches
          && Forward(db.batches[b].status, later.batches[b].status)
          && later.batches[b] == db.batches[b].(status := later.batches[b].status))
    && (forall s :: s in db.submissions ==>
          && s in later.submissions
          && later.submissions[s].batch == db.submissions[s].batch
          && later.submissions[s].platform == db.submissions[s].platform
          && later.submissions[s].tx == db.submissions[s].tx
          && (db.submissions[s].outcome != Pending ==> later.submissions[s] == db.submissions[s]))
    && db.events <= later.events
    && db.records.Keys <= later.records.Keys
  }

  lemma {:induction false} ExtendsTwice(a: Tables, b: Tables, c: Tables)
    requires Extends(a, b) && Extends(b, c)
    ensures Extends(a, c)
  {
  }

  /** Reads do not go stale: what a call observed earlier it could observe now. */
  lemma {:induction false} StillObserved(before: Tables, now: Tables, call: Call)
    requires Extends(before, now) && Observed(before, call)
    ensures Observed(now, call)
  {
  }

  // ---- A batch is built ----

  predicate BuildsOn(batches: map<Name, BatchRow>, head: map<nat, Head>, tip: nat, id: Name, row: BatchRow)
    requires tip in head
  {
    && id !in batches
    && row.status == Built
    && row.prev == head[tip]
    && !RootTaken(batches, row.root)
    && (row.prev.batch.Some? ==> IsConfirmed(batches, row.prev.batch.value))
  }

  lemma {:induction false} BuildKeepsLog(
    batches: map<Name, BatchRow>, head: map<nat, Head>, tip: nat, id: Name, row: BatchRow
  )
    requires LogOk(batches, head, tip) && BuildsOn(batches, head, tip, id, row)
    ensures LogOk(batches[id := row], head[tip + 1 := Head(Some(id), Some(row.root))], tip + 1)
  {
    var batches', head' := batches[id := row], head[tip + 1 := Head(Some(id), Some(row.root))];
    forall v: nat | 0 < v <= tip + 1
      ensures Logged(batches', head', v)
    {
      if v <= tip {
        assert Logged(batches, head, v);
      } else {
        assert IsBuild(batches', head', v);
      }
    }
  }

  lemma {:induction false} TipIsConfirmed(
    batches: map<Name, BatchRow>, head: map<nat, Head>, tip: nat, chain: seq<Name>, id: Name, row: BatchRow
  )
    requires LogOk(batches, head, tip) && ChainOk(batches, chain) && TipOk(batches, head, tip, chain)
    requires BuildsOn(batches, head, tip, id, row)
    ensures row.prev == HeadAfter(batches, chain, |chain|)
    ensures BelowConfirmed(batches, chain, |chain|)
  {
  }

  lemma {:induction false} BuildKeepsLinks(batches: map<Name, BatchRow>, chain: seq<Name>, id: Name, row: BatchRow)
    requires AllLive(batches, chain) && id !in batches && row.status == Built
    requires Linked(batches, chain) && row.prev == HeadAfter(batches, chain, |chain|)
    ensures AllLive(batches[id := row], chain + [id]) && Linked(batches[id := row], chain + [id])
    ensures HeadAfter(batches[id := row], chain + [id], |chain| + 1) == Head(Some(id), Some(row.root))
  {
    var batches', chain' := batches[id := row], chain + [id];
    assert AllLive(batches', chain') by {
      forall i | 0 <= i < |chain'|
        ensures Live(batches', chain'[i])
      {
        assert i < |chain| ==> Live(batches, chain[i]);
      }
    }
    forall i | 0 <= i < |chain'|
      ensures batches'[chain'[i]].prev == HeadAfter(batches', chain', i)
    {
      SameHeadAfter(batches, batches', chain, chain', i);
      assert i < |chain| ==> Live(batches, chain[i]) && batches[chain[i]].prev == HeadAfter(batches, chain, i);
    }
  }

  lemma {:induction false} SameHeadAfter(
    batches: map<Name, BatchRow>, batches': map<Name, BatchRow>, chain: seq<Name>, chain': seq<Name>, n: nat
  )
    requires AllLive(batches, chain) && AllLive(batches', chain')
    requires n <= |chain| && n <= |chain'| && chain[..n] == chain'[..n]
    requires forall b :: b in chain[..n] && b in batches && b in batches' ==> batches'[b].root == batches[b].root
    ensures HeadAfter(batches', chain', n) == HeadAfter(batches, chain, n)
  {
  }

  lemma {:induction false} BuildKeepsChain(batches: map<Name, BatchRow>, chain: seq<Name>, id: Name, row: BatchRow)
    requires ChainOk(batches, chain) && id !in batches && row.status == Built
    requires row.prev == HeadAfter(batches, chain, |chain|) && BelowConfirmed(batches, chain, |chain|)
    ensures ChainOk(batches[id := row], chain + [id])
  {
    var batches', chain' := batches[id := row], chain + [id];
    BuildKeepsLinks(batches, chain, id, row);
    assert Distinct(chain') by {
      forall i | 0 <= i < |chain| ensures chain[i] != id {
        assert Live(batches, chain[i]);
      }
    }
    assert Covers(batches', chain') by {
      assert chain'[|chain|] == id;
      forall b | Live(batches', b) && b != id ensures b in chain' {
        assert Live(batches, b);
      }
    }
    forall i | 0 <= i < |chain|
      ensures batches'[chain'[i]].status == Confirmed
    {
      assert Live(batches, chain[i]);
    }
  }

  lemma {:induction false} BuildKeepsPrev(
    batches: map<Name, BatchRow>, head: map<nat, Head>, tip: nat, chain: seq<Name>, id: Name, row: BatchRow
  )
    requires PrevOk(batches) && ChainOk(batches, chain) && id !in batches
    requires row.prev == HeadAfter(batches, chain, |chain|)
    requires row.prev.batch.Some? ==> IsConfirmed(batches, row.prev.batch.value)
    ensures PrevOk(batches[id := row])
  {
  }

  lemma {:induction false} BuildKeepsRoots(batches: map<Name, BatchRow>, id: Name, row: BatchRow)
    requires RootsOk(batches) && id !in batches && !RootTaken(batches, row.root)
    ensures RootsOk(batches[id := row])
  {
  }

  lemma {:induction false} NothingBound(batches: map<Name, BatchRow>, records: map<Record, Option<Name>>, id: Name)
    requires RecordsOk(batches, records) && !Live(batches, id)
    ensures BoundTo(records, id) == {}
  {
  }

  lemma {:induction false} BuildKeepsRecords(
    batches: map<Name, BatchRow>, records: map<Record, Option<Name>>, id: Name, row: BatchRow,
    leaves: seq<Record>
  )
    requires RecordsOk(batches, records) && id !in batches && row.status == Built
    requires AllPending(records, leaves) && Distinct(leaves) && row.leafCount == |leaves|
    ensures RecordsOk(batches[id := row], BindAll(records, leaves, id))
  {
    var batches', bound := batches[id := row], BindAll(records, leaves, id);
    BindAllBinds(records, leaves, id);
    NothingBound(batches, records, id);
    LeafGuardIsExact(records, leaves, id);
    forall r | r in bound && bound[r].Some?
      ensures Live(batches', bound[r].value)
    {
      if records[r].Some? {
        assert Live(batches, records[r].value);
      }
    }
    forall b | Live(batches', b)
      ensures |BoundTo(bound, b)| == batches'[b].leafCount
    {
      if b != id {
        assert Live(batches, b);
        assert BoundTo(bound, b) == BoundTo(records, b);
      }
    }
  }

  // ---- A batch moves on without failing ----

  /** Statuses move, but nothing fails or stops being failed, and confirmed stays confirmed. */
  predicate Promotes(batches: map<Name, BatchRow>, batches': map<Name, BatchRow>) {
    && batches.Keys == batches'.Keys
    && forall b :: b in batches ==>
         && batches'[b] == batches[b].(status := batches'[b].status)
         && (batches[b].status == Failed <==> batches'[b].status == Failed)
         && (batches[b].status == Confirmed ==> batches'[b].status == Confirmed)
  }

  lemma {:induction false} PromoteKeepsLog(
    batches: map<Name, BatchRow>, batches': map<Name, BatchRow>, head: map<nat, Head>, tip: nat
  )
    requires LogOk(batches, head, tip) && Promotes(batches, batches')
    ensures LogOk(batches', head, tip)
  {
    forall v: nat | 0 < v <= tip
      ensures Logged(batches', head, v)
    {
      assert Logged(batches, head, v);
    }
  }

  lemma {:induction false} PromoteKeepsChain(
    batches: map<Name, BatchRow>, batches': map<Name, BatchRow>, chain: seq<Name>
  )
    requires ChainOk(batches, chain) && Promotes(batches, batches')
    ensures ChainOk(batches', chain)
    ensures HeadAfter(batches', chain, |chain|) == HeadAfter(batches, chain, |chain|)
  {
    forall i | 0 <= i < |chain|
      ensures Live(batches', chain[i])
    {
      assert Live(batches, chain[i]);
    }
    forall i | 0 <= i < |chain|
      ensures batches'[chain[i]].prev == HeadAfter(batches', chain, i)
    {
      assert batches[chain[i]].prev == HeadAfter(batches, chain, i);
    }
    forall b | Live(batches', b)
      ensures b in chain
    {
      assert Live(batches, b);
    }
  }

  lemma {:induction false} PromoteKeepsPrev(batches: map<Name, BatchRow>, batches': map<Name, BatchRow>)
    requires PrevOk(batches) && Promotes(batches, batches')
    ensures PrevOk(batches')
  {
  }

  lemma {:induction false} PromoteKeepsRoots(batches: map<Name, BatchRow>, batches': map<Name, BatchRow>)
    requires RootsOk(batches) && Promotes(batches, batches')
    ensures RootsOk(batches')
  {
  }

  // ---- The tip is abandoned ----

  lemma {:induction false} FailKeepsLog(batches: map<Name, BatchRow>, head: map<nat, Head>, tip: nat, id: Name)
    requires LogOk(batches, head, tip)
    requires Live(batches, id) && head[tip].batch == Some(id)
    ensures
      LogOk(batches[id := batches[id].(status := Failed)], head[tip + 1 := batches[id].prev], tip + 1)
  {
    var batches', head' := batches[id := batches[id].(status := Failed)], head[tip + 1 := batches[id].prev];
    forall v: nat | 0 < v <= tip + 1
      ensures Logged(batches', head', v)
    {
      if v <= tip {
        assert Logged(batches, head, v);
      } else {
        assert IsAbandon(batches', head', v);
      }
    }
  }

  lemma {:induction false} FailKeepsLinks(batches: map<Name, BatchRow>, chain: seq<Name>, id: Name)
    requires ChainOk(batches, chain) && chain != [] && chain[|chain| - 1] == id
    ensures
      var shorter, batches' := chain[..|chain| - 1], batches[id := batches[id].(status := Failed)];
      && AllLive(batches', shorter)
      && Linked(batches', shorter)
      && HeadAfter(batches', shorter, |shorter|) == batches[id].prev
  {
    var shorter, batches' := chain[..|chain| - 1], batches[id := batches[id].(status := Failed)];
    assert AllLive(batches', shorter) by {
      forall i | 0 <= i < |shorter|
        ensures Live(batches', shorter[i])
      {
        assert Live(batches, chain[i]);
      }
    }
    SameHeadAfter(batches, batches', chain, shorter, |shorter|);
    assert batches[id].prev == HeadAfter(batches, chain, |shorter|);
    forall i | 0 <= i < |shorter|
      ensures batches'[shorter[i]].prev == HeadAfter(batches', shorter, i)
    {
      SameHeadAfter(batches, batches', chain, shorter, i);
      assert Live(batches, chain[i]) && batches[chain[i]].prev == HeadAfter(batches, chain, i);
    }
  }

  lemma {:induction false} FailKeepsChain(batches: map<Name, BatchRow>, chain: seq<Name>, id: Name)
    requires ChainOk(batches, chain) && chain != [] && chain[|chain| - 1] == id
    ensures ChainOk(batches[id := batches[id].(status := Failed)], chain[..|chain| - 1])
  {
    var shorter, batches' := chain[..|chain| - 1], batches[id := batches[id].(status := Failed)];
    FailKeepsLinks(batches, chain, id);
    assert Covers(batches', shorter) by {
      forall b | Live(batches', b)
        ensures b in shorter
      {
        assert Live(batches, b);
        var i :| 0 <= i < |chain| && chain[i] == b;
        assert shorter[i] == b;
      }
    }
    forall i | 0 <= i < |shorter| - 1
      ensures batches'[shorter[i]].status == Confirmed
    {
      assert Live(batches, chain[i]);
    }
  }

  lemma {:induction false} FailKeepsPrev(batches: map<Name, BatchRow>, id: Name)
    requires PrevOk(batches) && id in batches && batches[id].status != Confirmed
    ensures PrevOk(batches[id := batches[id].(status := Failed)])
  {
  }

  lemma {:induction false} FailKeepsRecords(batches: map<Name, BatchRow>, records: map<Record, Option<Name>>, id: Name)
    requires RecordsOk(batches, records) && id in batches
    ensures RecordsOk(batches[id := batches[id].(status := Failed)], Release(records, id))
  {
    var batches', released := batches[id := batches[id].(status := Failed)], Release(records, id);
    forall r | r in released && released[r].Some?
      ensures Live(batches', released[r].value)
    {
      assert Live(batches, records[r].value);
    }
    forall b | Live(batches', b)
      ensures |BoundTo(released, b)| == batches'[b].leafCount
    {
      assert Live(batches, b);
      assert BoundTo(released, b) == BoundTo(records, b);
    }
  }
}
