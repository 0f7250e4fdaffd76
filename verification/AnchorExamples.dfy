/** Two short runs of the anchor store that end badly. */
module AnchorExamples {
  import opened Basics
  import opened AnchorTables
  import opened AnchorStore
  import opened AnchorLog
  import opened AnchorRuns
  import opened AnchorHistory
  import opened AnchorProgress

  const LEAF := Record("contribution_receipt", "r", "h")
  const BATCH := Name("b")
  const ROOT := Name("root")
  const TX := Name("chain:network:1")
  const WITNESS_TX := Name("chain:network:2")
  const PLATFORM := Name("p")
  const WITNESS := Name("w")
  const NOW := Name("now")

  const BATCH_HEAD := Head(Some(BATCH), Some(ROOT))

  function Row(status: Status): BatchRow { BatchRow(status, ROOT, 1, NULL_HEAD) }

  function PlatformRow(outcome: Outcome): SubmissionRow { SubmissionRow(BATCH, true, TX, outcome, NOW) }

  function WitnessRow(outcome: Outcome): SubmissionRow { SubmissionRow(BATCH, false, WITNESS_TX, outcome, NOW) }

  // ---- The calls ----

  const RECORD := InsertRecordCall(LEAF)
  const BUILD := CreateBatch(BATCH, ROOT, 1, NULL_HEAD, [LEAF], 0)
  const ABANDON := AbandonBatch(BATCH, NULL_HEAD, 1)
  const SUBMIT := MarkSubmitted(BATCH, PLATFORM, TX, NOW)
  const WITNESSED := RecordWitness(BATCH, WITNESS, WITNESS_TX, NOW)
  const WITNESS_LANDS := UpdateSubmission(WITNESS, Landed, BATCH, NOW)
  const PLATFORM_DROPS := UpdateSubmission(PLATFORM, Dropped, BATCH, NOW)

  // ---- The states ----

  const RECORDED := FRESH.(records := map[LEAF := None])

  const BUILT := Tables(
    map[BATCH := Row(Built)], map[0 := NULL_HEAD, 1 := BATCH_HEAD], map[LEAF := Some(BATCH)], map[],
    {BuiltEvent(BATCH)})

  const ABANDONED := Tables(
    map[BATCH := Row(Failed)], map[0 := NULL_HEAD, 1 := BATCH_HEAD, 2 := NULL_HEAD], map[LEAF := None], map[],
    {BuiltEvent(BATCH), AbandonedEvent(BATCH)})

  const LEFT_BEHIND := ABANDONED.(
    submissions := map[PLATFORM := PlatformRow(Pending)], events := ABANDONED.events + {SubmittedEvent(BATCH)})

  lemma {:induction false} FirstSteps()
    ensures After(FRESH, RECORD) == RECORDED
    ensures After(RECORDED, BUILD) == BUILT
  {
    InsertRecordRuns(FRESH, RECORD);
    CreateBatchAfter(RECORDED, BUILD);
    assert LEAF in RECORDED.records && [LEAF][1..] == [];
    assert BindAll(RECORDED.records, [LEAF], BATCH) == map[LEAF := Some(BATCH)];
    assert BoundTo(RECORDED.records, BATCH) == {};
  }

  lemma {:induction false} AbandonStep()
    ensures After(BUILT, ABANDON) == ABANDONED
  {
    AbandonBatchAfter(BUILT, ABANDON);
    assert Newest(BUILT.head, 1) && BUILT.head[1].batch == Some(BATCH);
  }

  lemma {:induction false} LateSubmitStep()
    ensures After(ABANDONED, SUBMIT) == LEFT_BEHIND
  {
    MarkSubmittedAfter(ABANDONED, SUBMIT);
  }

  lemma {:induction false} RunGoesOn(trace: seq<Tables>, acts: seq<Act>, act: Act, next: Tables)
    requires IsRun(trace, acts) && act.readAt <= |acts| && Observed(trace[act.readAt], act.call)
    requires After(trace[|acts|], act.call) == next
    ensures IsRun(trace + [next], acts + [act])
  {
  }

  lemma {:induction false} TwoSteps(a: Tables, b: Tables, c: Tables, first: Call, second: Call)
    requires a == FRESH && Observed(a, first) && Observed(b, second)
    requires After(a, first) == b && After(b, second) == c
    ensures IsRun([a, b, c], [Act(first, 0), Act(second, 1)])
  {
    RunGoesOn([a], [], Act(first, 0), b);
    assert [a] + [b] == [a, b] && [] + [Act(first, 0)] == [Act(first, 0)];
    RunGoesOn([a, b], [Act(first, 0)], Act(second, 1), c);
    assert [a, b] + [c] == [a, b, c];
    assert [Act(first, 0)] + [Act(second, 1)] == [Act(first, 0), Act(second, 1)];
  }

  lemma {:induction false} TwoMoreSteps(
    a: Tables, b: Tables, c: Tables, d: Tables, e: Tables, acts: seq<Act>, third: Call, fourth: Call
  )
    requires |acts| == 2 && IsRun([a, b, c], acts)
    requires Observed(c, third) && Observed(c, fourth) && After(c, third) == d && After(d, fourth) == e
    ensures IsRun([a, b, c, d, e], acts + [Act(third, 2), Act(fourth, 2)])
  {
    RunGoesOn([a, b, c], acts, Act(third, 2), d);
    assert [a, b, c] + [d] == [a, b, c, d];
    RunGoesOn([a, b, c, d], acts + [Act(third, 2)], Act(fourth, 2), e);
    assert [a, b, c, d] + [e] == [a, b, c, d, e];
    assert acts + [Act(third, 2)] + [Act(fourth, 2)] == acts + [Act(third, 2), Act(fourth, 2)];
  }

  lemma {:induction false} WhatTheyRead()
    ensures Observed(FRESH, RECORD) && Observed(RECORDED, BUILD) && Observed(BUILT, ABANDON) && Observed(BUILT, SUBMIT)
  {
  }

  /** The batch is read as built, abandoned, and then submitted on the strength of that read:
      a pending platform submission and its event stay on a failed batch. */
  lemma {:induction false} SubmissionLeftBehind()
    ensures
      var trace := [FRESH, RECORDED, BUILT, ABANDONED, LEFT_BEHIND];
      IsRun(trace, [Act(RECORD, 0), Act(BUILD, 1), Act(ABANDON, 2), Act(SUBMIT, 2)])
    ensures LEFT_BEHIND.batches[BATCH].status == Failed
    ensures LEFT_BEHIND.submissions[PLATFORM].platform && LEFT_BEHIND.submissions[PLATFORM].outcome == Pending
    ensures SubmittedEvent(BATCH) in LEFT_BEHIND.events
  {
    FirstSteps();
    AbandonStep();
    LateSubmitStep();
    WhatTheyRead();
    TwoSteps(FRESH, RECORDED, BUILT, RECORD, BUILD);
    var acts := [Act(RECORD, 0), Act(BUILD, 1)];
    TwoMoreSteps(FRESH, RECORDED, BUILT, ABANDONED, LEFT_BEHIND, acts, ABANDON, SUBMIT);
    assert acts + [Act(ABANDON, 2), Act(SUBMIT, 2)]
        == [Act(RECORD, 0), Act(BUILD, 1), Act(ABANDON, 2), Act(SUBMIT, 2)];
  }

  const SUBMITTED := BUILT.(
    batches := map[BATCH := Row(Submitted)], submissions := map[PLATFORM := PlatformRow(Pending)],
    events := {BuiltEvent(BATCH), SubmittedEvent(BATCH)})

  const WITH_WITNESS := SUBMITTED.(submissions := map[PLATFORM := PlatformRow(Pending), WITNESS := WitnessRow(Pending)])

  const WITNESS_LANDED := WITH_WITNESS.(
    submissions := map[PLATFORM := PlatformRow(Pending), WITNESS := WitnessRow(Landed)],
    events := SUBMITTED.events + {SettledEvent(BATCH, WITNESS)})

  const ALL_DROPPED := WITNESS_LANDED.(
    submissions := map[PLATFORM := PlatformRow(Dropped), WITNESS := WitnessRow(Landed)],
    events := WITNESS_LANDED.events + {SettledEvent(BATCH, PLATFORM)})

  lemma {:induction false} SubmitStep()
    ensures After(BUILT, SUBMIT) == SUBMITTED
  {
    MarkSubmittedAfter(BUILT, SUBMIT);
  }

  lemma {:induction false} WitnessStep()
    ensures After(SUBMITTED, WITNESSED) == WITH_WITNESS
  {
    RecordWitnessRuns(SUBMITTED, WITNESSED);
  }

  lemma {:induction false} LandStep()
    ensures After(WITH_WITNESS, WITNESS_LANDS) == WITNESS_LANDED
  {
    UpdateSubmissionAfter(WITH_WITNESS, WITNESS_LANDS);
  }

  lemma {:induction false} LandedEvidence()
    ensures SettledEvidenceOk(WITNESS_LANDED.submissions, WITNESS_LANDED.events)
  {
  }

  lemma {:induction false} PlatformIsDropped()
    ensures
      PLATFORM in WITNESS_LANDED.submissions
      && Settle(WITNESS_LANDED.submissions, PLATFORM, Dropped, NOW) == ALL_DROPPED.submissions
  {
  }

  lemma {:induction false} DropStep()
    ensures After(WITNESS_LANDED, PLATFORM_DROPS) == ALL_DROPPED
  {
    LandedEvidence();
    PlatformIsDropped();
    UpdateSubmissionAfter(WITNESS_LANDED, PLATFORM_DROPS);
  }

  /** Some run ends in these tables. */
  ghost predicate Reachable(db: Tables) {
    exists trace, acts :: IsRun(trace, acts) && trace[|acts|] == db
  }

  lemma {:induction false} ReachesNext(db: Tables, call: Call, next: Tables)
    requires Reachable(db) && Observed(db, call) && After(db, call) == next
    ensures Reachable(next)
  {
    var trace, acts :| IsRun(trace, acts) && trace[|acts|] == db;
    RunGoesOn(trace, acts, Act(call, |acts|), next);
    assert (trace + [next])[|acts| + 1] == next;
  }

  lemma {:induction false} SubmittedIsReached()
    ensures Reachable(SUBMITTED)
  {
    FirstSteps();
    assert IsRun([FRESH], []);
    ReachesNext(FRESH, RECORD, RECORDED);
    ReachesNext(RECORDED, BUILD, BUILT);
    SubmitStep();
    ReachesNext(BUILT, SUBMIT, SUBMITTED);
  }

  /** A witness lands and then the platform's own submission is dropped: the batch is stuck. */
  lemma {:induction false} StuckIsReached()
    ensures Reachable(ALL_DROPPED) && Stuck(ALL_DROPPED, BATCH)
  {
    SubmittedIsReached();
    WitnessStep();
    ReachesNext(SUBMITTED, WITNESSED, WITH_WITNESS);
    LandStep();
    ReachesNext(WITH_WITNESS, WITNESS_LANDS, WITNESS_LANDED);
    DropStep();
    ReachesNext(WITNESS_LANDED, PLATFORM_DROPS, ALL_DROPPED);
    assert ALL_DROPPED.submissions[WITNESS].outcome == Landed;
  }
}
