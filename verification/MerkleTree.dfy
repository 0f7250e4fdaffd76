/** The Merkle tree of a batch: building it, proving inclusion, and what a verified proof
    is worth when nothing is assumed of the hash function. */
module MerkleTree {
  import opened Basics

  datatype Digest = Digest(hex: string)

  /** What SHA-256 is applied to: a leaf's bytes after 0x00, or two digests after 0x01.
      Different inputs are different byte strings. */
  datatype Input = EmptyInput | LeafInput(data: string) | NodeInput(left: Digest, right: Digest)

  type Hasher = Input -> Digest

  datatype Side = Left | Right

  datatype Step = Step(hash: Digest, position: Side)

  datatype Node =
    | Leaf(start: nat, end: nat, hash: Digest)
    | Inner(start: nat, end: nat, left: Node, right: Node, hash: Digest)

  datatype Tree = Tree(leafCount: nat, root: Digest, rootNode: Option<Node>)

  datatype Error = EmptyTree | OutsideTree

  datatype Result<T> = Ok(value: T) | Err(error: Error)

  // ---- Splitting ----

  predicate IsPowerOfTwo(n: nat)
    decreases n
  {
    n == 1 || (n > 1 && n % 2 == 0 && IsPowerOfTwo(n / 2))
  }

  /** The doubling loop, from a power already reached. */
  function Doubled(power: nat, count: nat): (p: nat)
    requires 0 < power < count
    ensures power <= p < count <= 2 * p
    decreases count - power
  {
    if power * 2 < count then Doubled(power * 2, count) else power
  }

  function Split(count: nat): (p: nat)
    requires count >= 2
    ensures 0 < p < count <= 2 * p
  {
    Doubled(1, count)
  }

  lemma {:induction false} DoubledIsPower(power: nat, count: nat)
    requires 0 < power < count && IsPowerOfTwo(power)
    ensures IsPowerOfTwo(Doubled(power, count))
    decreases count - power
  {
    if power * 2 < count {
      assert power * 2 / 2 == power;
      DoubledIsPower(power * 2, count);
    }
  }

  lemma {:induction false} PowersAreApart(p: nat, q: nat)
    requires IsPowerOfTwo(p) && IsPowerOfTwo(q) && p < q
    ensures 2 * p <= q
    decreases q
  {
    if p > 1 {
      PowersAreApart(p / 2, q / 2);
    }
  }

  method LargestPowerOfTwoBelow(count: nat) returns (power: nat)
    requires count >= 2
    ensures IsPowerOfTwo(power) && power < count
    ensures forall p: nat :: IsPowerOfTwo(p) && p < count ==> p <= power
    ensures power == Split(count)
  {
    power := 1;
    while power * 2 < count
      invariant 0 < power < count && IsPowerOfTwo(power)
      invariant Doubled(power, count) == Split(count)
      decreases count - power
    {
      assert power * 2 / 2 == power;
      power := power * 2;
    }
    forall p: nat | IsPowerOfTwo(p) && p < count
      ensures p <= power
    {
      if power < p {
        PowersAreApart(power, p);
      }
    }
  }

  // ---- Building ----

  function Build(sha: Hasher, leaves: seq<Digest>, start: nat, end: nat): (node: Node)
    requires start < end <= |leaves|
    ensures node.start == start && node.end == end
    decreases end - start
  {
    if end - start == 1 then Leaf(start, end, leaves[start])
    else
      var middle := start + Split(end - start);
      var left, right := Build(sha, leaves, start, middle), Build(sha, leaves, middle, end);
      Inner(start, end, left, right, sha(NodeInput(left.hash, right.hash)))
  }

  function BuildTree(sha: Hasher, leaves: seq<Digest>): Tree {
    if leaves == [] then Tree(0, sha(EmptyInput), None)
    else
      var node := Build(sha, leaves, 0, |leaves|);
      Tree(|leaves|, node.hash, Some(node))
  }

  // ---- Proving ----

  /** The siblings on the way from leaf `index` up to `node`. */
  function Walk(node: Node, index: nat): seq<Step>
    decreases node
  {
    if node.Leaf? then []
    else if index < node.right.start then Walk(node.left, index) + [Step(node.right.hash, Right)]
    else Walk(node.right, index) + [Step(node.left.hash, Left)]
  }

  function GenerateInclusionProof(tree: Tree, index: int): Result<seq<Step>> {
    if tree.rootNode.None? then Err(EmptyTree)
    else if index < 0 || index >= tree.leafCount then Err(OutsideTree)
    else Ok(Walk(tree.rootNode.value, index))
  }

  // ---- Verifying ----

  function Joined(step: Step, current: Digest): Input {
    if step.position == Left then NodeInput(step.hash, current) else NodeInput(current, step.hash)
  }

  /** The digest a proof leads to, its last step applied last. */
  function Climb(sha: Hasher, leaf: Digest, path: seq<Step>): Digest
    decreases |path|
  {
    if path == [] then leaf
    else sha(Joined(path[|path| - 1], Climb(sha, leaf, path[..|path| - 1])))
  }

  method VerifyInclusionProof(sha: Hasher, leafHash: Digest, path: seq<Step>, root: Digest) returns (included: bool)
    ensures included <==> Climb(sha, leafHash, path) == root
  {
    var current := leafHash;
    for i := 0 to |path|
      invariant current == Climb(sha, leafHash, path[..i])
    {
      var step := path[i];
      assert path[..i + 1][..i] == path[..i];
      current := if step.position == Left then sha(NodeInput(step.hash, current))
                 else sha(NodeInput(current, step.hash));
    }
    assert path[..|path|] == path;
    included := current == root;
  }

  lemma {:induction false} ClimbOneMore(sha: Hasher, leaf: Digest, path: seq<Step>, step: Step)
    ensures Climb(sha, leaf, path + [step]) == sha(Joined(step, Climb(sha, leaf, path)))
  {
  }

  lemma {:induction false} WalkClimbs(sha: Hasher, leaves: seq<Digest>, start: nat, end: nat, index: nat)
    requires start <= index < end <= |leaves|
    ensures
      var node := Build(sha, leaves, start, end);
      Climb(sha, leaves[index], Walk(node, index)) == node.hash
    decreases end - start
  {
    if end - start > 1 {
      var node := Build(sha, leaves, start, end);
      var middle := start + Split(end - start);
      if index < middle {
        WalkClimbs(sha, leaves, start, middle, index);
        ClimbOneMore(sha, leaves[index], Walk(node.left, index), Step(node.right.hash, Right));
      } else {
        WalkClimbs(sha, leaves, middle, end, index);
        ClimbOneMore(sha, leaves[index], Walk(node.right, index), Step(node.left.hash, Left));
      }
    }
  }

  /** Every leaf of every tree has a proof that verifies, and only indices outside the tree
      have none. */
  lemma {:induction false} EveryLeafIsProvable(sha: Hasher, leaves: seq<Digest>, index: int)
    ensures
      var tree := BuildTree(sha, leaves);
      match GenerateInclusionProof(tree, index)
      case Ok(path) => 0 <= index < |leaves| && Climb(sha, leaves[index], path) == tree.root
      case Err(error) => !(0 <= index < |leaves|) && (error == EmptyTree <==> leaves == [])
  {
    if 0 <= index < |leaves| {
      WalkClimbs(sha, leaves, 0, |leaves|, index);
    }
  }

  // ---- How long a proof is ----

  function Pow2(d: nat): nat { if d == 0 then 1 else 2 * Pow2(d - 1) }

  lemma {:induction false} Pow2IsPower(d: nat)
    ensures IsPowerOfTwo(Pow2(d))
    decreases d
  {
    if d > 0 {
      Pow2IsPower(d - 1);
    }
  }

  lemma {:induction false} SplitHalves(count: nat, d: nat)
    requires 2 <= count <= Pow2(d)
    ensures d > 0 && Split(count) <= Pow2(d - 1) && count - Split(count) <= Pow2(d - 1)
  {
    DoubledIsPower(1, count);
    Pow2IsPower(d);
    PowersAreApart(Split(count), Pow2(d));
  }

  /** A proof has no more steps than it takes doublings to reach the number of leaves. */
  lemma {:induction false} ProofsAreShort(sha: Hasher, leaves: seq<Digest>, start: nat, end: nat, index: nat, d: nat)
    requires start <= index < end <= |leaves| && end - start <= Pow2(d)
    ensures |Walk(Build(sha, leaves, start, end), index)| <= d
    decreases end - start
  {
    if end - start > 1 {
      var middle := start + Split(end - start);
      SplitHalves(end - start, d);
      if index < middle {
        ProofsAreShort(sha, leaves, start, middle, index, d - 1);
      } else {
        ProofsAreShort(sha, leaves, middle, end, index, d - 1);
      }
    }
  }

  // ---- What a verified proof is worth ----

  function LeafHashes(sha: Hasher, data: seq<string>): (hashes: seq<Digest>)
    ensures |hashes| == |data| && forall i :: 0 <= i < |data| ==> hashes[i] == sha(LeafInput(data[i]))
  {
    seq(|data|, i requires 0 <= i < |data| => sha(LeafInput(data[i])))
  }

  predicate Collision(sha: Hasher, pair: (Input, Input)) {
    pair.0 != pair.1 && sha(pair.0) == sha(pair.1)
  }

  /** Compares a proof that climbs to `node` with the tree it claims to be about. Where the
      two part they hash different inputs to one digest, and this is that pair. */
  function Forgery(sha: Hasher, data: seq<string>, node: Node, claim: string, path: seq<Step>): Option<(Input, Input)>
    requires InRange(node, |data|)
    decreases |path|
  {
    if path == [] then
      var own := if node.Leaf? then LeafInput(data[node.start]) else NodeInput(node.left.hash, node.right.hash);
      if own == LeafInput(claim) then None else Some((LeafInput(claim), own))
    else
      var last, rest := path[|path| - 1], path[..|path| - 1];
      var joined := Joined(last, Climb(sha, sha(LeafInput(claim)), rest));
      if node.Leaf? then Some((joined, LeafInput(data[node.start])))
      else if joined != NodeInput(node.left.hash, node.right.hash) then
        Some((joined, NodeInput(node.left.hash, node.right.hash)))
      else Forgery(sha, data, if last.position == Left then node.right else node.left, claim, rest)
  }

  predicate InRange(node: Node, n: nat)
    decreases node
  {
    node.start < n && (node.Inner? ==> InRange(node.left, n) && InRange(node.right, n))
  }

  lemma {:induction false} BuildInRange(sha: Hasher, leaves: seq<Digest>, start: nat, end: nat)
    requires start < end <= |leaves|
    ensures InRange(Build(sha, leaves, start, end), |leaves|)
    decreases end - start
  {
    if end - start > 1 {
      var middle := start + Split(end - start);
      BuildInRange(sha, leaves, start, middle);
      BuildInRange(sha, leaves, middle, end);
    }
  }

  /** `path` is the proof of some leaf under [start, end) that holds `claim`. */
  predicate Genuine(sha: Hasher, data: seq<string>, start: nat, end: nat, claim: string, path: seq<Step>)
    requires start < end <= |data|
  {
    exists i :: start <= i < end && data[i] == claim && path == Walk(Build(sha, LeafHashes(sha, data), start, end), i)
  }

  lemma {:induction false} BuildSplits(sha: Hasher, leaves: seq<Digest>, start: nat, end: nat) returns (middle: nat)
    requires start + 1 < end <= |leaves|
    ensures start < middle < end && middle == start + Split(end - start)
    ensures
      var node := Build(sha, leaves, start, end);
      && node.Inner?
      && node.left == Build(sha, leaves, start, middle)
      && node.right == Build(sha, leaves, middle, end)
      && node.hash == sha(NodeInput(node.left.hash, node.right.hash))
  {
    middle := start + Split(end - start);
  }

  lemma {:induction false} WalkBelow(sha: Hasher, leaves: seq<Digest>, start: nat, end: nat, i: nat)
    requires start + 1 < end <= |leaves| && start <= i < end
    ensures
      var node, middle := Build(sha, leaves, start, end), start + Split(end - start);
      Walk(node, i)
      == if i < middle then Walk(Build(sha, leaves, start, middle), i) + [Step(node.right.hash, Right)]
         else Walk(Build(sha, leaves, middle, end), i) + [Step(node.left.hash, Left)]
  {
  }

  lemma {:induction false} GenuineBelow(
    sha: Hasher, data: seq<string>, start: nat, end: nat, claim: string, path: seq<Step>
  )
    requires start + 1 < end <= |data| && path != []
    ensures
      var node, middle := Build(sha, LeafHashes(sha, data), start, end), start + Split(end - start);
      var last, rest := path[|path| - 1], path[..|path| - 1];
      && (last == Step(node.left.hash, Left) && Genuine(sha, data, middle, end, claim, rest) ==>
            Genuine(sha, data, start, end, claim, path))
      && (last == Step(node.right.hash, Right) && Genuine(sha, data, start, middle, claim, rest) ==>
            Genuine(sha, data, start, end, claim, path))
  {
    var hashes := LeafHashes(sha, data);
    var node, middle := Build(sha, hashes, start, end), start + Split(end - start);
    var last, rest := path[|path| - 1], path[..|path| - 1];
    assert path == rest + [last];
    if last == Step(node.left.hash, Left) && Genuine(sha, data, middle, end, claim, rest) {
      var i :| middle <= i < end && data[i] == claim && rest == Walk(Build(sha, hashes, middle, end), i);
      WalkBelow(sha, hashes, start, end, i);
    }
    if last == Step(node.right.hash, Right) && Genuine(sha, data, start, middle, claim, rest) {
      var i :| start <= i < middle && data[i] == claim && rest == Walk(Build(sha, hashes, start, middle), i);
      WalkBelow(sha, hashes, start, end, i);
    }
  }

  /** The path is the proof of such a leaf, or contains a collision. */
  ghost predicate Explained(
    sha: Hasher, data: seq<string>, start: nat, end: nat, claim: string, path: seq<Step>
  )
    requires start < end <= |data|
  {
    var node := Build(sha, LeafHashes(sha, data), start, end);
    && InRange(node, |data|)
    && match Forgery(sha, data, node, claim, path)
       case Some(pair) => Collision(sha, pair)
       case None => Genuine(sha, data, start, end, claim, path)
  }

  lemma {:induction false} ExplainedLeaf(sha: Hasher, data: seq<string>, start: nat, claim: string, path: seq<Step>)
    requires start < |data|
    requires Climb(sha, sha(LeafInput(claim)), path) == sha(LeafInput(data[start]))
    ensures Explained(sha, data, start, start + 1, claim, path)
  {
    var node := Build(sha, LeafHashes(sha, data), start, start + 1);
    assert node == Leaf(start, start + 1, sha(LeafInput(data[start])));
    assert path == [] ==> path == Walk(node, start);
  }

  /** The last step joins something else than the two digests of the node. */
  predicate Departs(sha: Hasher, node: Node, claim: string, path: seq<Step>)
    requires node.Inner?
  {
    || path == []
    || Joined(path[|path| - 1], Climb(sha, sha(LeafInput(claim)), path[..|path| - 1]))
       != NodeInput(node.left.hash, node.right.hash)
  }

  lemma {:induction false} DepartureCollides(sha: Hasher, data: seq<string>, node: Node, claim: string, path: seq<Step>)
    requires InRange(node, |data|) && node.Inner? && node.hash == sha(NodeInput(node.left.hash, node.right.hash))
    requires Climb(sha, sha(LeafInput(claim)), path) == node.hash && Departs(sha, node, claim, path)
    ensures Forgery(sha, data, node, claim, path).Some? && Collision(sha, Forgery(sha, data, node, claim, path).value)
  {
  }

  lemma {:induction false} ForgeryBelow(sha: Hasher, data: seq<string>, node: Node, claim: string, path: seq<Step>)
    requires InRange(node, |data|) && node.Inner? && !Departs(sha, node, claim, path)
    ensures
      var last, rest := path[|path| - 1], path[..|path| - 1];
      var child := if last.position == Left then node.right else node.left;
      && last == (if last.position == Left then Step(node.left.hash, Left) else Step(node.right.hash, Right))
      && Climb(sha, sha(LeafInput(claim)), rest) == child.hash
      && Forgery(sha, data, node, claim, path) == Forgery(sha, data, child, claim, rest)
  {
  }

  lemma {:induction false} ProofOrForgery(
    sha: Hasher, data: seq<string>, start: nat, end: nat, claim: string, path: seq<Step>
  )
    requires start < end <= |data|
    requires Climb(sha, sha(LeafInput(claim)), path) == Build(sha, LeafHashes(sha, data), start, end).hash
    ensures Explained(sha, data, start, end, claim, path)
    decreases |path|
  {
    var node := Build(sha, LeafHashes(sha, data), start, end);
    BuildInRange(sha, LeafHashes(sha, data), start, end);
    if end - start == 1 {
      ExplainedLeaf(sha, data, start, claim, path);
    } else {
      var middle := BuildSplits(sha, LeafHashes(sha, data), start, end);
      if Departs(sha, node, claim, path) {
        DepartureCollides(sha, data, node, claim, path);
      } else {
        ForgeryBelow(sha, data, node, claim, path);
        GenuineBelow(sha, data, start, end, claim, path);
        var last, rest := path[|path| - 1], path[..|path| - 1];
        if last.position == Left {
          ProofOrForgery(sha, data, middle, end, claim, rest);
        } else {
          ProofOrForgery(sha, data, start, middle, claim, rest);
        }
      }
    }
  }

  /** The input whose digest a proof ends on. */
  function LastInput(sha: Hasher, claim: string, path: seq<Step>): Input {
    if path == [] then LeafInput(claim)
    else Joined(path[|path| - 1], Climb(sha, sha(LeafInput(claim)), path[..|path| - 1]))
  }

  /** The same for a whole tree. Against the empty tree every accepted proof is a forgery: it
      ends on the digest of the empty input. */
  function TreeForgery(sha: Hasher, data: seq<string>, claim: string, path: seq<Step>): Option<(Input, Input)> {
    if data == [] then Some((LastInput(sha, claim, path), EmptyInput))
    else
      var node := Build(sha, LeafHashes(sha, data), 0, |data|);
      if InRange(node, |data|) then Forgery(sha, data, node, claim, path) else None
  }

  predicate GenuineProof(sha: Hasher, data: seq<string>, claim: string, path: seq<Step>) {
    data != [] && Genuine(sha, data, 0, |data|, claim, path)
  }

  lemma {:induction false} GenuineIsAccepted(sha: Hasher, data: seq<string>, claim: string, path: seq<Step>)
    requires GenuineProof(sha, data, claim, path)
    ensures Climb(sha, sha(LeafInput(claim)), path) == BuildTree(sha, LeafHashes(sha, data)).root
  {
    var hashes := LeafHashes(sha, data);
    var i :| 0 <= i < |data| && data[i] == claim && path == Walk(Build(sha, hashes, 0, |data|), i);
    WalkClimbs(sha, hashes, 0, |data|, i);
  }

  /** Genuine proofs are accepted. And whoever gets a proof accepted, against any tree, either
      holds the very proof this tree gives for a leaf with that content, or has in hand two
      inputs that SHA-256 does not tell apart. Neither an inner node passed off as a leaf nor a
      leaf passed off as an inner node escapes. */
  lemma {:induction false} AcceptedProofsAreGenuine(sha: Hasher, data: seq<string>, claim: string, path: seq<Step>)
    ensures
      var accepted := Climb(sha, sha(LeafInput(claim)), path) == BuildTree(sha, LeafHashes(sha, data)).root;
      && (GenuineProof(sha, data, claim, path) ==> accepted)
      && (accepted ==>
            match TreeForgery(sha, data, claim, path)
            case Some(pair) => Collision(sha, pair)
            case None => GenuineProof(sha, data, claim, path))
  {
    if GenuineProof(sha, data, claim, path) {
      GenuineIsAccepted(sha, data, claim, path);
    }
    if data != [] && Climb(sha, sha(LeafInput(claim)), path) == BuildTree(sha, LeafHashes(sha, data)).root {
      ProofOrForgery(sha, data, 0, |data|, claim, path);
    }
  }

  // ---- A root binds its leaves ----

  function InputOf(node: Node, data: seq<string>): Input
    requires node.start < |data|
  {
    if node.Leaf? then LeafInput(data[node.start]) else NodeInput(node.left.hash, node.right.hash)
  }

  /** Where two trees under one digest first part, the pair of inputs they part with. */
  function Parting(sha: Hasher, xs: seq<string>, x: Node, ys: seq<string>, y: Node): Option<(Input, Input)>
    requires InRange(x, |xs|) && InRange(y, |ys|)
    decreases x
  {
    if InputOf(x, xs) != InputOf(y, ys) then Some((InputOf(x, xs), InputOf(y, ys)))
    else if x.Leaf? || y.Leaf? then None
    else
      var left := Parting(sha, xs, x.left, ys, y.left);
      if left.Some? then left else Parting(sha, xs, x.right, ys, y.right)
  }

  /** Every digest in the tree is that of what lies directly below it. */
  predicate Consistent(sha: Hasher, node: Node, data: seq<string>)
    requires InRange(node, |data|)
    decreases node
  {
    && node.hash == sha(InputOf(node, data))
    && (node.Inner? ==> Consistent(sha, node.left, data) && Consistent(sha, node.right, data))
  }

  function InOrder(node: Node, data: seq<string>): seq<string>
    requires InRange(node, |data|)
    decreases node
  {
    if node.Leaf? then [data[node.start]] else InOrder(node.left, data) + InOrder(node.right, data)
  }

  lemma {:induction false} LeafIsConsistent(sha: Hasher, data: seq<string>, start: nat)
    requires start < |data|
    ensures
      var node := Build(sha, LeafHashes(sha, data), start, start + 1);
      InRange(node, |data|) && Consistent(sha, node, data) && InOrder(node, data) == data[start..start + 1]
  {
  }

  lemma {:induction false} InnerIsConsistent(
    sha: Hasher, data: seq<string>, node: Node, start: nat, middle: nat, end: nat
  )
    requires start <= middle <= end <= |data| && node.start < |data| && node.Inner?
    requires node.hash == sha(NodeInput(node.left.hash, node.right.hash))
    requires InRange(node.left, |data|) && InRange(node.right, |data|)
    requires Consistent(sha, node.left, data) && InOrder(node.left, data) == data[start..middle]
    requires Consistent(sha, node.right, data) && InOrder(node.right, data) == data[middle..end]
    ensures InRange(node, |data|) && Consistent(sha, node, data) && InOrder(node, data) == data[start..end]
  {
    assert data[start..end] == data[start..middle] + data[middle..end];
  }

  lemma {:induction false} BuildIsConsistent(sha: Hasher, data: seq<string>, start: nat, end: nat)
    requires start < end <= |data|
    ensures
      var node := Build(sha, LeafHashes(sha, data), start, end);
      InRange(node, |data|) && Consistent(sha, node, data) && InOrder(node, data) == data[start..end]
    decreases end - start
  {
    if end - start == 1 {
      LeafIsConsistent(sha, data, start);
    } else {
      var middle := BuildSplits(sha, LeafHashes(sha, data), start, end);
      BuildIsConsistent(sha, data, start, middle);
      BuildIsConsistent(sha, data, middle, end);
      InnerIsConsistent(sha, data, Build(sha, LeafHashes(sha, data), start, end), start, middle, end);
    }
  }

  lemma {:induction false} SameLeavesOrParting(sha: Hasher, xs: seq<string>, x: Node, ys: seq<string>, y: Node)
    requires InRange(x, |xs|) && Consistent(sha, x, xs)
    requires InRange(y, |ys|) && Consistent(sha, y, ys)
    requires x.hash == y.hash
    ensures
      match Parting(sha, xs, x, ys, y)
      case Some(pair) => Collision(sha, pair)
      case None => InOrder(x, xs) == InOrder(y, ys)
    decreases x
  {
    if x.Inner? && y.Inner? && InputOf(x, xs) == InputOf(y, ys) {
      SameLeavesOrParting(sha, xs, x.left, ys, y.left);
      SameLeavesOrParting(sha, xs, x.right, ys, y.right);
    }
  }

  /** The same for two whole trees, the empty one included. */
  function RootParting(sha: Hasher, xs: seq<string>, ys: seq<string>): Option<(Input, Input)> {
    if xs == [] && ys == [] then None
    else if xs == [] || ys == [] then Some((RootInput(sha, xs), RootInput(sha, ys)))
    else
      var x, y := Build(sha, LeafHashes(sha, xs), 0, |xs|), Build(sha, LeafHashes(sha, ys), 0, |ys|);
      if InRange(x, |xs|) && InRange(y, |ys|) then Parting(sha, xs, x, ys, y) else None
  }

  function RootInput(sha: Hasher, xs: seq<string>): Input {
    if xs == [] then EmptyInput else InputOf(Build(sha, LeafHashes(sha, xs), 0, |xs|), xs)
  }

  lemma {:induction false} RootIsItsInput(sha: Hasher, xs: seq<string>)
    ensures BuildTree(sha, LeafHashes(sha, xs)).root == sha(RootInput(sha, xs))
    ensures RootInput(sha, xs) == EmptyInput <==> xs == []
  {
  }

  /** Two lists of leaves, of whatever lengths, with one root are the same list in the same
      order, or a collision can be read off the two trees. */
  lemma {:induction false} RootBindsLeaves(sha: Hasher, xs: seq<string>, ys: seq<string>)
    requires BuildTree(sha, LeafHashes(sha, xs)).root == BuildTree(sha, LeafHashes(sha, ys)).root
    ensures
      match RootParting(sha, xs, ys)
      case Some(pair) => Collision(sha, pair)
      case None => xs == ys
  {
    RootIsItsInput(sha, xs);
    RootIsItsInput(sha, ys);
    if xs != [] && ys != [] {
      BuildIsConsistent(sha, xs, 0, |xs|);
      BuildIsConsistent(sha, ys, 0, |ys|);
      SameLeavesOrParting(sha, xs, Build(sha, LeafHashes(sha, xs), 0, |xs|),
                          ys, Build(sha, LeafHashes(sha, ys), 0, |ys|));
      assert xs[0..|xs|] == xs && ys[0..|ys|] == ys;
    }
  }

  // ---- The root, without the tree ----

  lemma {:induction false} SameParts<T>(xs: seq<T>, a: nat, c: nat, ys: seq<T>, b: nat, d: nat, k: nat)
    requires a + k <= c <= |xs| && b + k <= d <= |ys| && xs[a..c] == ys[b..d]
    ensures xs[a..a + k] == ys[b..b + k] && xs[a + k..c] == ys[b + k..d]
  {
    assert xs[a..a + k] == xs[a..c][..k] && xs[a + k..c] == xs[a..c][k..];
    assert ys[b..b + k] == ys[b..d][..k] && ys[b + k..d] == ys[b..d][k..];
  }

  function HashAt(sha: Hasher, leaves: seq<Digest>, start: nat, end: nat): Digest
    requires start < end <= |leaves|
  {
    Build(sha, leaves, start, end).hash
  }

  lemma {:induction false} HashOfHalves(sha: Hasher, leaves: seq<Digest>, a: nat, c: nat, k: nat)
    requires a + 1 < c <= |leaves| && k == Split(c - a)
    ensures HashAt(sha, leaves, a, c)
         == sha(NodeInput(HashAt(sha, leaves, a, a + k), HashAt(sha, leaves, a + k, c)))
  {
  }

  lemma {:induction false} HashOfOne(sha: Hasher, leaves: seq<Digest>, a: nat, c: nat)
    requires a + 1 == c <= |leaves|
    ensures HashAt(sha, leaves, a, c) == leaves[a..c][0]
  {
  }

  lemma {:induction false} SameHalves(
    sha: Hasher, xs: seq<Digest>, a: nat, c: nat, ys: seq<Digest>, b: nat, d: nat, k: nat
  )
    requires a + 1 < c <= |xs| && d <= |ys| && c - a == d - b && k == Split(c - a)
    requires HashAt(sha, xs, a, a + k) == HashAt(sha, ys, b, b + k)
    requires HashAt(sha, xs, a + k, c) == HashAt(sha, ys, b + k, d)
    ensures HashAt(sha, xs, a, c) == HashAt(sha, ys, b, d)
  {
    HashOfHalves(sha, xs, a, c, k);
    HashOfHalves(sha, ys, b, d, k);
  }

  /** A subtree's digest depends on nothing but the leaves under it. */
  lemma {:induction false} SameHash(sha: Hasher, xs: seq<Digest>, a: nat, c: nat, ys: seq<Digest>, b: nat, d: nat)
    requires a < c <= |xs| && b < d <= |ys| && xs[a..c] == ys[b..d]
    ensures HashAt(sha, xs, a, c) == HashAt(sha, ys, b, d)
    decreases c - a
  {
    assert |xs[a..c]| == |ys[b..d]|;
    if c == a + 1 {
      HashOfOne(sha, xs, a, c);
      HashOfOne(sha, ys, b, d);
    } else {
      var k := Split(c - a);
      SameParts(xs, a, c, ys, b, d, k);
      SameHash(sha, xs, a, a + k, ys, b, b + k);
      SameHash(sha, xs, a + k, c, ys, b + k, d);
      SameHalves(sha, xs, a, c, ys, b, d, k);
    }
  }

  function Root(sha: Hasher, data: seq<string>): Digest {
    BuildTree(sha, LeafHashes(sha, data)).root
  }

  lemma {:induction false} SliceRoot(sha: Hasher, data: seq<string>, start: nat, end: nat)
    requires start < end <= |data|
    ensures HashAt(sha, LeafHashes(sha, data), start, end) == Root(sha, data[start..end])
  {
    var slice := LeafHashes(sha, data[start..end]);
    assert slice[0..|slice|] == slice == LeafHashes(sha, data)[start..end];
    SameHash(sha, LeafHashes(sha, data), start, end, slice, 0, |slice|);
  }

  lemma {:induction false} SplitIs(n: nat, k: nat)
    requires IsPowerOfTwo(k) && k < n <= 2 * k
    ensures Split(n) == k
  {
    DoubledIsPower(1, n);
    if Split(n) < k {
      PowersAreApart(Split(n), k);
    } else if k < Split(n) {
      PowersAreApart(k, Split(n));
    }
  }

  /** The root as section 2.1 of RFC 6962 defines the hash of a tree: of no leaves the hash of
      nothing, of one leaf its leaf hash, and of more the hash of the two roots of the first
      `k` leaves and the rest, where `k` is the largest power of two below their number. */
  lemma {:induction false} RootIsTreeHash(sha: Hasher, data: seq<string>, k: nat)
    ensures data == [] ==> Root(sha, data) == sha(EmptyInput)
    ensures |data| == 1 ==> Root(sha, data) == sha(LeafInput(data[0]))
    ensures IsPowerOfTwo(k) && k < |data| <= 2 * k ==>
              Root(sha, data) == sha(NodeInput(Root(sha, data[..k]), Root(sha, data[k..])))
  {
    if IsPowerOfTwo(k) && k < |data| <= 2 * k {
      SplitIs(|data|, k);
      var middle := BuildSplits(sha, LeafHashes(sha, data), 0, |data|);
      SliceRoot(sha, data, 0, k);
      SliceRoot(sha, data, k, |data|);
      assert data[0..k] == data[..k] && data[k..|data|] == data[k..];
    }
  }
}
