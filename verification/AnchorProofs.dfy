/** Proving, later, that a record is in an anchored batch: the tree is rebuilt from the
    records the store lists for the batch, and has to come out with the root that was built. */
module AnchorProofs {
  import opened Basics
  import opened AnchorTables
  import opened AnchorStore
  import opened AnchorLog
  import opened AnchorRuns
  import opened AnchorHistory
  import opened RecordOrder
  import MerkleTree

  // ---- The store still lists the same records ----

  lemma {:induction false} BindKeepsOthers(records: map<Record, Option<Name>>, leaves: seq<Record>, id: Name, b: Name)
    requires b != id
    ensures BoundTo(BindAll(records, leaves, id), b) == BoundTo(records, b)
  {
    BindAllBinds(records, leaves, id);
  }

  lemma {:induction false} OthersKeepRecords(db: Tables, call: Call)
    requires call.MarkSubmitted? || call.RecordWitness? || call.UpdateSubmission? || call.MarkConfirmed?
    requires call.MarkConfirmed? ==> call.version in db.head
    requires call.UpdateSubmission? ==>
               && SettledEvidenceOk(db.submissions, db.events)
               && call.sid in db.submissions
               && db.submissions[call.sid].batch == call.batch
    ensures After(db, call).records == db.records
  {
    if Acceptable(call) {
      match call
      case MarkSubmitted(_, _, _, _) => MarkSubmittedAfter(db, call);
      case RecordWitness(_, _, _, _) => RecordWitnessRuns(db, call);
      case UpdateSubmission(_, _, _, _) => UpdateSubmissionAfter(db, call);
      case MarkConfirmed(_, _) => MarkConfirmedAfter(db, call);
    }
  }

  lemma {:induction false} CreateKeepsLeaves(db: Tables, call: Call, b: Name)
    requires call.CreateBatch? && Acceptable(call) && call.version in db.head
    requires call.id !in db.batches ==> BoundTo(db.records, call.id) == {}
    requires b in db.batches
    ensures BoundTo(After(db, call).records, b) == BoundTo(db.records, b)
  {
    CreateBatchAfter(db, call);
    if call.id !in db.batches {
      BindKeepsOthers(db.records, call.leaves, call.id, b);
    }
  }

  lemma {:induction false} AbandonKeepsLeaves(db: Tables, tip: nat, chain: seq<Name>, call: Call, b: Name)
    requires Inv(db, tip, chain) && call.AbandonBatch? && Observed(db, call)
    requires Live(After(db, call).batches, b)
    ensures BoundTo(After(db, call).records, b) == BoundTo(db.records, b)
  {
    AbandonBatchAfter(db, call);
    if CanAbandon(db, call.id, call.version) {
      AbandonsTheTip(db, tip, chain, call.id, call.version);
    }
  }

  /** No call changes which records a batch holds that is live before and after it. */
  lemma {:induction false} CallKeepsLeaves(db: Tables, tip: nat, chain: seq<Name>, call: Call, b: Name)
    requires Inv(db, tip, chain) && Observed(db, call)
    requires Live(db.batches, b) && Live(After(db, call).batches, b)
    ensures BoundTo(After(db, call).records, b) == BoundTo(db.records, b)
  {
    if Acceptable(call) {
      if call.CreateBatch? {
        if call.id !in db.batches {
          NothingBound(db.batches, db.records, call.id);
        }
        CreateKeepsLeaves(db, call, b);
      } else if call.AbandonBatch? {
        AbandonKeepsLeaves(db, tip, chain, call, b);
      } else if call.InsertRecordCall? {
        InsertRecordRuns(db, call);
        assert BoundTo(After(db, call).records, b) == BoundTo(db.records, b);
      } else {
        OthersKeepRecords(db, call);
      }
    }
  }

  lemma {:induction false} RunKeepsLeavesOnce(trace: seq<Tables>, acts: seq<Act>, k: nat, b: Name)
    requires IsRun(trace, acts) && k < |acts| && SoundSoFar(trace, k)
    requires Live(trace[k].batches, b) && Live(trace[k + 1].batches, b)
    ensures BoundTo(trace[k + 1].records, b) == BoundTo(trace[k].records, b)
  {
    var tip, chain :| Inv(trace[k], tip, chain);
    assert Extends(trace[acts[k].readAt], trace[k]);
    StillObserved(trace[acts[k].readAt], trace[k], acts[k].call);
    CallKeepsLeaves(trace[k], tip, chain, acts[k].call, b);
  }

  lemma {:induction false} LiveInBetween(trace: seq<Tables>, acts: seq<Act>, i: nat, k: nat, j: nat, b: Name)
    requires IsRun(trace, acts) && i <= k <= j < |trace|
    requires Live(trace[i].batches, b) && Live(trace[j].batches, b)
    ensures Live(trace[k].batches, b)
  {
    RunsAreSound(trace, acts, j);
    RunsAreSound(trace, acts, k);
    assert Extends(trace[k], trace[j]) && Extends(trace[i], trace[k]);
  }

  /** A batch holds the same records for as long as it lives. */
  lemma {:induction false} LeavesStay(trace: seq<Tables>, acts: seq<Act>, i: nat, j: nat, b: Name)
    requires IsRun(trace, acts) && i <= j < |trace|
    requires Live(trace[i].batches, b) && Live(trace[j].batches, b)
    ensures BoundTo(trace[j].records, b) == BoundTo(trace[i].records, b)
  {
    for k := i to j
      invariant BoundTo(trace[k].records, b) == BoundTo(trace[i].records, b)
    {
      LiveInBetween(trace, acts, i, k, j, b);
      LiveInBetween(trace, acts, i, k + 1, j, b);
      RunsAreSound(trace, acts, k);
      RunKeepsLeavesOnce(trace, acts, k, b);
    }
  }

  /** What a build binds is its leaves. */
  lemma {:induction false} BuiltHoldsItsLeaves(db: Tables, tip: nat, chain: seq<Name>, call: Call)
    requires Inv(db, tip, chain) && call.CreateBatch?
    requires CanBuild(db, call.id, call.root, call.prev, call.leaves, call.version)
    ensures
      var next := WithBatch(db, call.id, call.root, call.prev, call.leaves, call.version);
      BoundTo(next.records, call.id) == Elements(call.leaves)
  {
    NothingBound(db.batches, db.records, call.id);
    BindAllBinds(db.records, call.leaves, call.id);
    forall r
      ensures r in BoundTo(BindAll(db.records, call.leaves, call.id), call.id) <==> r in Elements(call.leaves)
    {
      assert r in BoundTo(db.records, call.id) <==> r in db.records && db.records[r] == Some(call.id);
    }
  }

  // ---- Rebuilding the tree ----

  /** The bytes of a leaf, one text for each record. */
  type Encoding = Record -> string

  ghost predicate Faithful(encode: Encoding) {
    forall r, s :: encode(r) == encode(s) ==> r == s
  }

  function Texts(encode: Encoding, records: seq<Record>): (texts: seq<string>)
    ensures |texts| == |records| && forall i :: 0 <= i < |records| ==> texts[i] == encode(records[i])
  {
    seq(|records|, i requires 0 <= i < |records| => encode(records[i]))
  }

  function Hashes(sha: MerkleTree.Hasher, encode: Encoding, records: seq<Record>): seq<MerkleTree.Digest> {
    MerkleTree.LeafHashes(sha, Texts(encode, records))
  }

  function RootOf(sha: MerkleTree.Hasher, encode: Encoding, records: seq<Record>): MerkleTree.Digest {
    MerkleTree.BuildTree(sha, Hashes(sha, encode, records)).root
  }

  datatype Report = LeafNotInBatch | ProofFailed | Included(index: nat, path: seq<MerkleTree.Step>)

  /** The last part of the record check: find the record among those listed, rebuild the tree
      and climb from the record's leaf to the root of the batch. It succeeds for a listed
      record exactly when the rebuilt root is the batch's. */
  method VerifyListed(
    sha: MerkleTree.Hasher, encode: Encoding, listed: seq<Record>, record: Record, root: MerkleTree.Digest
  ) returns (report: Report)
    ensures report.LeafNotInBatch? <==> record !in listed
    ensures record in listed ==> (report.Included? <==> RootOf(sha, encode, listed) == root)
    ensures report.Included? ==>
              && report.index < |listed|
              && listed[report.index] == record
              && MerkleTree.Climb(sha, sha(MerkleTree.LeafInput(encode(record))), report.path) == root
  {
    var leafHashes: seq<MerkleTree.Digest> := [];
    var index := -1;
    for i := 0 to |listed|
      invariant |leafHashes| == i
      invariant forall k :: 0 <= k < i ==> leafHashes[k] == sha(MerkleTree.LeafInput(encode(listed[k])))
      invariant -1 <= index < i
      invariant index == -1 ==> record !in listed[..i]
      invariant index >= 0 ==> listed[index] == record
    {
      leafHashes := leafHashes + [sha(MerkleTree.LeafInput(encode(listed[i])))];
      assert listed[..i + 1] == listed[..i] + [listed[i]];
      if listed[i] == record {
        index := i;
      }
    }
    assert listed[..|listed|] == listed;
    if index < 0 {
      return LeafNotInBatch;
    }
    assert leafHashes == Hashes(sha, encode, listed);
    var tree := MerkleTree.BuildTree(sha, leafHashes);
    MerkleTree.EveryLeafIsProvable(sha, leafHashes, index);
    var path := MerkleTree.GenerateInclusionProof(tree, index).value;
    var included := MerkleTree.VerifyInclusionProof(sha, sha(MerkleTree.LeafInput(encode(record))), path, root);
    report := if included then Included(index, path) else ProofFailed;
  }

  lemma {:induction false} TextsAreRecords(encode: Encoding, a: seq<Record>, b: seq<Record>)
    requires Faithful(encode)
    ensures Texts(encode, a) == Texts(encode, b) <==> a == b
  {
  }

  /** The builder anchored the root of its own list; the check rebuilds from the database's
      list of the same records. Without two records of one type whose ids straddle the basic
      plane where they first differ, the roots are the same and every record of the batch can
      be proved. With two such records the roots differ, and none can be, unless the two
      trees exhibit a SHA-256 collision. */
  lemma {:induction false} RecordsProvableUnlessStraddling(
    sha: MerkleTree.Hasher, encode: Encoding, built: seq<Record>, listed: seq<Record>
  )
    requires Faithful(encode)
    requires SortedBy(SCRIPT, built) && SortedBy(DATABASE, listed) && SameElements(built, listed)
    requires forall r | r in built :: PlainRecord(r)
    ensures !SomeStraddle(built) ==> RootOf(sha, encode, listed) == RootOf(sha, encode, built)
    ensures SomeStraddle(built) && RootOf(sha, encode, listed) == RootOf(sha, encode, built) ==>
              var parting := MerkleTree.RootParting(sha, Texts(encode, listed), Texts(encode, built));
              parting.Some? && MerkleTree.Collision(sha, parting.value)
  {
    ListsAgreeUnlessStraddling(built, listed);
    TextsAreRecords(encode, listed, built);
    if RootOf(sha, encode, listed) == RootOf(sha, encode, built) {
      MerkleTree.RootBindsLeaves(sha, Texts(encode, listed), Texts(encode, built));
    }
  }

  // ---- From the build to any later check ----

  lemma {:induction false} BuiltStep(trace: seq<Tables>, acts: seq<Act>, i: nat)
    requires IsRun(trace, acts) && i < |acts| && acts[i].call.CreateBatch? && trace[i + 1] != trace[i]
    ensures
      var call := acts[i].call;
      && Live(trace[i + 1].batches, call.id)
      && trace[i + 1].batches[call.id].root == call.root
      && trace[i + 1].batches[call.id].leafCount == |call.leaves|
      && BoundTo(trace[i + 1].records, call.id) == Elements(call.leaves)
  {
    var call := acts[i].call;
    RunsAreSound(trace, acts, i);
    var tip, chain :| Inv(trace[i], tip, chain);
    assert Extends(trace[acts[i].readAt], trace[i]);
    StillObserved(trace[acts[i].readAt], trace[i], call);
    if call.id !in trace[i].batches {
      NothingBound(trace[i].batches, trace[i].records, call.id);
    }
    CreateBatchAfter(trace[i], call);
    BuiltHoldsItsLeaves(trace[i], tip, chain, call);
  }

  lemma {:induction false} RowStays(trace: seq<Tables>, acts: seq<Act>, i: nat, j: nat, b: Name)
    requires IsRun(trace, acts) && i <= j < |trace| && b in trace[i].batches
    ensures b in trace[j].batches && trace[j].batches[b] == trace[i].batches[b].(status := trace[j].batches[b].status)
  {
    RunsAreSound(trace, acts, j);
    assert Extends(trace[i], trace[j]);
  }

  /** In any run, take a build that went through, with the builder's sorted leaves and the root
      of their tree, and any later state in which its batch has not failed. The tree rebuilt
      from what the database then lists has the root in the batch row, so that every record of
      the batch can be proved, if no two of the records straddle; and only then, short of a
      collision. */
  lemma {:induction false} BuiltRecordsStayProvable(
    trace: seq<Tables>, acts: seq<Act>, i: nat, j: nat,
    sha: MerkleTree.Hasher, encode: Encoding, listed: seq<Record>
  )
    requires IsRun(trace, acts) && i < |acts| && i < j < |trace|
    requires acts[i].call.CreateBatch? && trace[i + 1] != trace[i]
    requires Faithful(encode)
    requires
      var leaves := acts[i].call.leaves;
      && SortedBy(SCRIPT, leaves)
      && (forall r | r in leaves :: PlainRecord(r))
      && acts[i].call.root == Name(RootOf(sha, encode, leaves).hex)
    requires
      && Live(trace[j].batches, acts[i].call.id)
      && SortedBy(DATABASE, listed)
      && Elements(listed) == BoundTo(trace[j].records, acts[i].call.id)
    ensures
      var call := acts[i].call;
      var rebuilt := Name(RootOf(sha, encode, listed).hex);
      && (!SomeStraddle(call.leaves) ==> rebuilt == trace[j].batches[call.id].root)
      && (SomeStraddle(call.leaves) && rebuilt == trace[j].batches[call.id].root ==>
            var parting := MerkleTree.RootParting(sha, Texts(encode, listed), Texts(encode, call.leaves));
            parting.Some? && MerkleTree.Collision(sha, parting.value))
  {
    var call := acts[i].call;
    BuiltStep(trace, acts, i);
    RowStays(trace, acts, i + 1, j, call.id);
    LeavesStay(trace, acts, i + 1, j, call.id);
    SameElementsOf(call.leaves, listed);
    RecordsProvableUnlessStraddling(sha, encode, call.leaves, listed);
  }

  lemma {:induction false} SameElementsOf(a: seq<Record>, b: seq<Record>)
    requires Elements(a) == Elements(b)
    ensures SameElements(a, b)
  {
    assert forall r :: r in a <==> r in Elements(a);
    assert forall r :: r in b <==> r in Elements(b);
  }
}
