/** The manifest of a batch. It is put into a normal form, its leaves sorted as the builder
    sorts them, before it is hashed or checked; so the order it lists them in does not matter. */
module AnchorManifest {
  import opened Basics
  import opened AnchorTables
  import opened AnchorStore
  import opened AnchorHistory
  import opened RecordOrder
  import opened AnchorProofs
  import MerkleTree

  // ---- The normal form ----

  /** The comparison of `sort`: not after. */
  predicate AtMost(r: Record, s: Record) {
    r == s || RecordLess(SCRIPT, r, s)
  }

  predicate Ordered(records: seq<Record>) {
    forall i, j :: 0 <= i < j < |records| ==> AtMost(records[i], records[j])
  }

  function Inserted(record: Record, sorted: seq<Record>): seq<Record> {
    if sorted == [] || AtMost(record, sorted[0]) then [record] + sorted
    else [sorted[0]] + Inserted(record, sorted[1..])
  }

  /** `[...leaves].sort(compareLeafEntries)`. */
  function Normalized(leaves: seq<Record>): seq<Record> {
    if leaves == [] then [] else Inserted(leaves[0], Normalized(leaves[1..]))
  }

  lemma {:induction false} AtMostTransitive(r: Record, s: Record, t: Record)
    requires AtMost(r, s) && AtMost(s, t)
    ensures AtMost(r, t)
  {
    if r != s && s != t {
      ScriptIsTransitive(r, s, t);
    }
  }

  lemma {:induction false} AtMostAntisymmetric(r: Record, s: Record)
    requires AtMost(r, s) && AtMost(s, r)
    ensures r == s
  {
    if r != s {
      ScriptIsAsymmetric(r, s);
    }
  }

  lemma {:induction false} OrderedWithFirst(first: Record, rest: seq<Record>)
    requires Ordered(rest) && forall r | r in rest :: AtMost(first, r)
    ensures Ordered([first] + rest)
  {
    var all := [first] + rest;
    forall i, j | 0 <= i < j < |all|
      ensures AtMost(all[i], all[j])
    {
      assert all[j] == rest[j - 1];
      if i > 0 {
        assert all[i] == rest[i - 1];
      }
    }
  }

  lemma {:induction false} FirstIsLeast(records: seq<Record>, r: Record)
    requires Ordered(records) && r in records
    ensures AtMost(records[0], r)
  {
    var i :| 0 <= i < |records| && records[i] == r;
    assert i > 0 ==> AtMost(records[0], records[i]);
  }

  lemma {:induction false} RestIsOrdered(a: seq<Record>)
    requires Ordered(a) && a != []
    ensures Ordered(a[1..])
  {
  }

  lemma {:induction false} OrderedInFront(record: Record, sorted: seq<Record>)
    requires Ordered(sorted) && sorted != [] && AtMost(record, sorted[0])
    ensures Ordered([record] + sorted)
  {
    forall r | r in sorted
      ensures AtMost(record, r)
    {
      FirstIsLeast(sorted, r);
      AtMostTransitive(record, sorted[0], r);
    }
    OrderedWithFirst(record, sorted);
  }

  lemma {:induction false} OrderedBehind(record: Record, sorted: seq<Record>, rest: seq<Record>)
    requires Ordered(sorted) && sorted != [] && !AtMost(record, sorted[0]) && Ordered(rest)
    requires multiset(rest) == multiset{record} + multiset(sorted[1..])
    ensures Ordered([sorted[0]] + rest)
    ensures multiset([sorted[0]] + rest) == multiset{record} + multiset(sorted)
  {
    ScriptIsTotal(record, sorted[0]);
    assert sorted == [sorted[0]] + sorted[1..];
    forall r | r in rest
      ensures AtMost(sorted[0], r)
    {
      assert r in multiset(rest);
      if r != record {
        assert r in multiset(sorted[1..]);
        FirstIsLeast(sorted, r);
      }
    }
    OrderedWithFirst(sorted[0], rest);
  }

  lemma {:induction false} InsertedIsOrdered(record: Record, sorted: seq<Record>)
    requires Ordered(sorted)
    ensures Ordered(Inserted(record, sorted))
    ensures multiset(Inserted(record, sorted)) == multiset{record} + multiset(sorted)
    decreases |sorted|
  {
    if sorted == [] {
    } else if AtMost(record, sorted[0]) {
      OrderedInFront(record, sorted);
    } else {
      RestIsOrdered(sorted);
      InsertedIsOrdered(record, sorted[1..]);
      OrderedBehind(record, sorted, Inserted(record, sorted[1..]));
    }
  }

  lemma {:induction false} NormalizedSorts(leaves: seq<Record>)
    ensures Ordered(Normalized(leaves)) && multiset(Normalized(leaves)) == multiset(leaves)
    decreases |leaves|
  {
    if leaves != [] {
      NormalizedSorts(leaves[1..]);
      InsertedIsOrdered(leaves[0], Normalized(leaves[1..]));
      assert leaves == [leaves[0]] + leaves[1..];
    }
  }

  lemma {:induction false} SameFirst(a: seq<Record>, b: seq<Record>)
    requires Ordered(a) && Ordered(b) && multiset(a) == multiset(b) && a != []
    ensures b != [] && a[0] == b[0]
  {
    assert a[0] in multiset(b);
    assert b[0] in multiset(a);
    FirstIsLeast(a, b[0]);
    FirstIsLeast(b, a[0]);
    AtMostAntisymmetric(a[0], b[0]);
  }

  lemma {:induction false} SameRest(a: seq<Record>, b: seq<Record>)
    requires multiset(a) == multiset(b) && a != [] && b != [] && a[0] == b[0]
    ensures multiset(a[1..]) == multiset(b[1..])
  {
    assert a == [a[0]] + a[1..] && b == [b[0]] + b[1..];
    assert multiset(a[1..]) == multiset(a) - multiset{a[0]};
    assert multiset(b[1..]) == multiset(b) - multiset{b[0]};
  }

  lemma {:induction false} OneOrderedList(a: seq<Record>, b: seq<Record>)
    requires Ordered(a) && Ordered(b) && multiset(a) == multiset(b)
    ensures a == b
    decreases |a|
  {
    if a == [] {
      assert |multiset(b)| == 0;
    } else {
      SameFirst(a, b);
      SameRest(a, b);
      RestIsOrdered(a);
      RestIsOrdered(b);
      OneOrderedList(a[1..], b[1..]);
      assert a == [a[0]] + a[1..] && b == [b[0]] + b[1..];
    }
  }

  /** Two lists have one normal form, and so manifests that differ in them alone have one hash,
      exactly when they list the same leaves equally often. */
  lemma {:induction false} NormalFormForgetsOrderOnly(a: seq<Record>, b: seq<Record>)
    ensures Normalized(a) == Normalized(b) <==> multiset(a) == multiset(b)
  {
    NormalizedSorts(a);
    NormalizedSorts(b);
    if multiset(a) == multiset(b) {
      OneOrderedList(Normalized(a), Normalized(b));
    }
  }

  /** The builder's list is in normal form already. */
  lemma {:induction false} SortedIsNormal(built: seq<Record>)
    requires SortedBy(SCRIPT, built)
    ensures Normalized(built) == built
  {
    NormalizedSorts(built);
    OneOrderedList(Normalized(built), built);
  }

  lemma {:induction false} ListedOnce(records: seq<Record>, r: Record)
    requires Distinct(records)
    ensures multiset(records)[r] == if r in records then 1 else 0
    decreases |records|
  {
    if records != [] {
      ListedOnce(records[1..], r);
      assert records == [records[0]] + records[1..];
    }
  }

  lemma {:induction false} SameLeavesOnce(a: seq<Record>, b: seq<Record>)
    requires Distinct(a) && Distinct(b) && SameElements(a, b)
    ensures multiset(a) == multiset(b) && |a| == |b|
  {
    forall r
      ensures multiset(a)[r] == multiset(b)[r]
    {
      ListedOnce(a, r);
      ListedOnce(b, r);
    }
    assert multiset(a) == multiset(b);
    assert |multiset(a)| == |a| && |multiset(b)| == |b|;
  }

  lemma {:induction false} SortedIsDistinct(records: seq<Record>)
    requires SortedBy(SCRIPT, records) || SortedBy(DATABASE, records)
    ensures Distinct(records)
  {
    forall i, j | 0 <= i < j < |records|
      ensures records[i] != records[j]
    {
      if SortedBy(SCRIPT, records) {
        ScriptIsAsymmetric(records[i], records[j]);
      } else {
        DatabaseIsAsymmetric(records[i], records[j]);
      }
    }
  }

  // ---- Checking a manifest ----

  datatype Manifest = Manifest(root: MerkleTree.Digest, leafCount: int, leaves: seq<Record>)

  const RECORD_TYPES: seq<string> := ["contribution_receipt", "research_checkpoint", "evidence_bundle"]

  /** `/^sha256:[a-f0-9]{64}$/`. */
  predicate Sha256Text(s: string) {
    && |s| == 71
    && s[..7] == "sha256:"
    && forall i :: 7 <= i < 71 ==> 'a' <= s[i] <= 'f' || '0' <= s[i] <= '9'
  }

  /** What hashing a leaf demands. A string's length is counted in UTF-16 units. */
  predicate AcceptableLeaf(r: Record) {
    r.recordType in RECORD_TYPES && 0 < |Units(r.recordId)| <= 256 && Sha256Text(r.recordHash)
  }

  /** How many characters of the text are outside the basic plane: they count twice. */
  function Wide(s: string): nat {
    if s == "" then 0 else (if s[0] as int >= 65536 then 1 else 0) + Wide(s[1..])
  }

  lemma {:induction false} UnitsCount(s: string)
    ensures |Units(s)| == |s| + Wide(s)
    decreases |s|
  {
    if s != "" {
      UnitsCount(s[1..]);
    }
  }

  /** A digit or a small letter up to f. */
  predicate HexDigit(c: char) {
    48 <= c as int <= 57 || 97 <= c as int <= 102
  }

  /** The fields of a leaf that can be hashed. */
  lemma {:induction false} AcceptableFieldByField(r: Record, hex: string)
    requires r.recordHash == "sha256:" + hex
    ensures AcceptableLeaf(r)
       <==> && r.recordType in {"contribution_receipt", "research_checkpoint", "evidence_bundle"}
            && 1 <= |r.recordId| + Wide(r.recordId) <= 256
            && |hex| == 64 && forall i | 0 <= i < 64 :: HexDigit(hex[i])
  {
    UnitsCount(r.recordId);
    assert r.recordType in RECORD_TYPES
      <==> r.recordType in {"contribution_receipt", "research_checkpoint", "evidence_bundle"};
    assert r.recordHash[..7] == "sha256:";
    assert forall i | 0 <= i < |hex| :: r.recordHash[i + 7] == hex[i];
    if AcceptableLeaf(r) {
      forall i | 0 <= i < 64
        ensures HexDigit(hex[i])
      {
        assert r.recordHash[i + 7] == hex[i];
      }
    }
  }

  /** And no other hash is accepted. */
  lemma {:induction false} AcceptableHashIsPrefixed(r: Record)
    requires AcceptableLeaf(r)
    ensures exists hex :: r.recordHash == "sha256:" + hex
  {
    assert r.recordHash == "sha256:" + r.recordHash[7..];
  }

  predicate AllAcceptable(leaves: seq<Record>) {
    forall r | r in leaves :: AcceptableLeaf(r)
  }

  predicate Holds(sha: MerkleTree.Hasher, encode: Encoding, manifest: Manifest) {
    && manifest.leafCount == |manifest.leaves|
    && AllAcceptable(manifest.leaves)
    && manifest.root == RootOf(sha, encode, Normalized(manifest.leaves))
  }

  lemma {:induction false} NormalizedKeepsElements(leaves: seq<Record>)
    ensures |Normalized(leaves)| == |leaves| && SameElements(Normalized(leaves), leaves)
  {
    NormalizedSorts(leaves);
    assert |multiset(leaves)| == |leaves| && |multiset(Normalized(leaves))| == |Normalized(leaves)|;
    forall r
      ensures r in Normalized(leaves) <==> r in leaves
    {
      assert r in multiset(Normalized(leaves)) <==> r in multiset(leaves);
    }
  }

  lemma {:induction false} OneMoreLeaf(sha: MerkleTree.Hasher, encode: Encoding, leaves: seq<Record>, i: nat)
    requires i < |leaves| && AllAcceptable(leaves[..i])
    ensures AcceptableLeaf(leaves[i]) <==> AllAcceptable(leaves[..i + 1])
    ensures !AcceptableLeaf(leaves[i]) ==> !AllAcceptable(leaves)
    ensures Hashes(sha, encode, leaves[..i + 1])
         == Hashes(sha, encode, leaves[..i]) + [sha(MerkleTree.LeafInput(encode(leaves[i])))]
  {
    assert leaves[..i + 1] == leaves[..i] + [leaves[i]];
    assert leaves[i] in leaves[..i + 1];
  }

  /** The loop that hashes the leaves, up to one that is not accepted. */
  method HashLeaves(sha: MerkleTree.Hasher, encode: Encoding, leaves: seq<Record>)
    returns (hashed: Option<seq<MerkleTree.Digest>>)
    ensures hashed.Some? <==> AllAcceptable(leaves)
    ensures hashed.Some? ==> hashed.value == Hashes(sha, encode, leaves)
  {
    var leafHashes: seq<MerkleTree.Digest> := [];
    for i := 0 to |leaves|
      invariant AllAcceptable(leaves[..i])
      invariant leafHashes == Hashes(sha, encode, leaves[..i])
    {
      OneMoreLeaf(sha, encode, leaves, i);
      if !AcceptableLeaf(leaves[i]) {
        return None;
      }
      leafHashes := leafHashes + [sha(MerkleTree.LeafInput(encode(leaves[i])))];
    }
    assert leaves[..|leaves|] == leaves;
    return Some(leafHashes);
  }

  /** `verifyAnchorManifest`. Every error it catches is a leaf or a count that is not accepted. */
  method VerifyAnchorManifest(sha: MerkleTree.Hasher, encode: Encoding, manifest: Manifest) returns (valid: bool)
    ensures valid <==> Holds(sha, encode, manifest)
    ensures valid
       <==> && manifest.leafCount == |manifest.leaves|
            && (forall r | r in manifest.leaves :: AcceptableLeaf(r))
            && manifest.root == RootOf(sha, encode, Normalized(manifest.leaves))
  {
    if |manifest.leaves| != manifest.leafCount {
      return false;
    }
    var leaves := Normalized(manifest.leaves);
    NormalizedKeepsElements(manifest.leaves);
    var hashed := HashLeaves(sha, encode, leaves);
    if hashed.None? {
      return false;
    }
    var tree := MerkleTree.BuildTree(sha, hashed.value);
    valid := tree.root == manifest.root && tree.leafCount == manifest.leafCount;
  }

  // ---- A batch whose records straddle ----

  lemma {:induction false} Sha256IsPlain(s: string)
    requires Sha256Text(s)
    ensures Plain(s)
  {
    forall i | 0 <= i < |s|
      ensures s[i] as int < 0xE000
    {
      assert i < 7 ==> s[i] == s[..7][i];
    }
  }

  lemma {:induction false} RecordTypesArePlain()
    ensures forall recordType | recordType in RECORD_TYPES :: Plain(recordType)
  {
  }

  lemma {:induction false} HoldsForAnyListing(
    sha: MerkleTree.Hasher, encode: Encoding, built: seq<Record>, listed: seq<Record>
  )
    requires SortedBy(SCRIPT, built) && AllAcceptable(built)
    requires Distinct(listed) && SameElements(built, listed)
    ensures Normalized(listed) == built
    ensures Holds(sha, encode, Manifest(RootOf(sha, encode, built), |built|, listed))
  {
    SortedIsDistinct(built);
    SameLeavesOnce(built, listed);
    NormalFormForgetsOrderOnly(built, listed);
    SortedIsNormal(built);
  }

  /** One batch, its records as the builder sorted them and as the database lists them. Its
      manifest always holds, and is the builder's once in normal form. The check of a record
      sorts nothing, and fails for every record of the batch as soon as two of them straddle,
      unless the two trees exhibit a SHA-256 collision. */
  lemma {:induction false} ManifestHoldsWhereProofsFail(
    sha: MerkleTree.Hasher, encode: Encoding, built: seq<Record>, listed: seq<Record>
  )
    requires Faithful(encode)
    requires SortedBy(SCRIPT, built) && SortedBy(DATABASE, listed) && SameElements(built, listed)
    requires AllAcceptable(built)
    ensures Normalized(listed) == built
    ensures Holds(sha, encode, Manifest(RootOf(sha, encode, built), |built|, listed))
    ensures !SomeStraddle(built) ==> RootOf(sha, encode, listed) == RootOf(sha, encode, built)
    ensures SomeStraddle(built) && RootOf(sha, encode, listed) == RootOf(sha, encode, built) ==>
              var parting := MerkleTree.RootParting(sha, Texts(encode, listed), Texts(encode, built));
              parting.Some? && MerkleTree.Collision(sha, parting.value)
  {
    SortedIsDistinct(listed);
    HoldsForAnyListing(sha, encode, built, listed);
    forall r | r in built
      ensures PlainRecord(r)
    {
      RecordTypesArePlain();
      Sha256IsPlain(r.recordHash);
    }
    RecordsProvableUnlessStraddling(sha, encode, built, listed);
  }

  /** In any run, take a build that went through, with the builder's sorted leaves and the root
      of their tree, and any later state in which its batch has not failed. The manifest rebuilt
      from the batch row and its records then, listed in any order, holds and has the builder's
      normal form. */
  lemma {:induction false} RebuiltManifestHolds(
    trace: seq<Tables>, acts: seq<Act>, i: nat, j: nat,
    sha: MerkleTree.Hasher, encode: Encoding, listed: seq<Record>
  )
    requires IsRun(trace, acts) && i < |acts| && i < j < |trace|
    requires acts[i].call.CreateBatch? && trace[i + 1] != trace[i]
    requires
      var leaves := acts[i].call.leaves;
      && SortedBy(SCRIPT, leaves)
      && AllAcceptable(leaves)
      && acts[i].call.root == Name(RootOf(sha, encode, leaves).hex)
    requires
      && Live(trace[j].batches, acts[i].call.id)
      && Distinct(listed)
      && Elements(listed) == BoundTo(trace[j].records, acts[i].call.id)
    ensures
      var row := trace[j].batches[acts[i].call.id];
      && Normalized(listed) == acts[i].call.leaves
      && Holds(sha, encode, Manifest(MerkleTree.Digest(row.root.text), row.leafCount, listed))
  {
    var call := acts[i].call;
    BuiltStep(trace, acts, i);
    RowStays(trace, acts, i + 1, j, call.id);
    LeavesStay(trace, acts, i + 1, j, call.id);
    SameElementsOf(call.leaves, listed);
    HoldsForAnyListing(sha, encode, call.leaves, listed);
  }
}
