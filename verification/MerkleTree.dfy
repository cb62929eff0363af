/** The member tree: a flat heap array, its recursive meaning, openings and binding. */
module MerkleTree {
  import opened PrimeField
  import opened PoseidonHash
  import opened Bits
  import opened Results

  // --------------------------------------------------------- recursive tree

  /** Leaf `i`; the slots beyond the list are zero. */
  function Leaf(leaves: seq<int>, i: nat): int {
    if i < |leaves| then leaves[i] else 0
  }

  /** Node number `j` of the row `level` steps above the leaves. */
  function Node(P: Poseidon, leaves: seq<int>, level: nat, j: nat): int {
    if level == 0 then Leaf(leaves, j)
    else P.HashTwo(Node(P, leaves, level - 1, 2 * j), Node(P, leaves, level - 1, 2 * j + 1))
  }

  function Root(P: Poseidon, leaves: seq<int>, depth: nat): int {
    Node(P, leaves, depth, 0)
  }

  function Sibling(j: nat): nat {
    if j % 2 == 0 then j + 1 else j - 1
  }

  /** Siblings met when climbing `steps` rows from node `j` of row `level`. */
  function PathFrom(P: Poseidon, leaves: seq<int>, level: nat, j: nat, steps: nat): (path: seq<int>)
    ensures |path| == steps
    decreases steps
  {
    if steps == 0 then []
    else [Node(P, leaves, level, Sibling(j))] + PathFrom(P, leaves, level + 1, j / 2, steps - 1)
  }

  function Path(P: Poseidon, leaves: seq<int>, index: nat, depth: nat): (path: seq<int>)
    ensures |path| == depth
  {
    PathFrom(P, leaves, 0, index, depth)
  }

  // ------------------------------------------------------- folding an opening

  function Step(P: Poseidon, current: int, sibling: int, index: nat): int {
    if index % 2 == 0 then P.HashTwo(current, sibling) else P.HashTwo(sibling, current)
  }

  /** The root obtained by hashing `leaf` up along `path`. */
  function Fold(P: Poseidon, leaf: int, path: seq<int>, index: nat): int
    decreases |path|
  {
    if path == [] then leaf
    else Fold(P, Step(P, leaf, path[0], index), path[1..], index / 2)
  }

  function Ancestor(j: nat, steps: nat): nat {
    if steps == 0 then j else Ancestor(j / 2, steps - 1)
  }

  lemma {:induction false} AncestorIsRoot(j: nat, steps: nat)
    requires j < Pow2(steps)
    ensures Ancestor(j, steps) == 0
  {
    if steps > 0 {
      AncestorIsRoot(j / 2, steps - 1);
    }
  }

  /** Every honest opening folds to the node above it. */
  lemma {:induction false} PathFolds(P: Poseidon, leaves: seq<int>, level: nat, j: nat, steps: nat)
    ensures Fold(P, Node(P, leaves, level, j), PathFrom(P, leaves, level, j, steps), j)
         == Node(P, leaves, level + steps, Ancestor(j, steps))
    decreases steps
  {
    if steps > 0 {
      var path := PathFrom(P, leaves, level, j, steps);
      assert path[1..] == PathFrom(P, leaves, level + 1, j / 2, steps - 1);
      assert Step(P, Node(P, leaves, level, j), path[0], j) == Node(P, leaves, level + 1, j / 2);
      PathFolds(P, leaves, level + 1, j / 2, steps - 1);
    }
  }

  lemma ProofVerifies(P: Poseidon, leaves: seq<int>, index: nat, depth: nat)
    requires index < Pow2(depth)
    ensures Fold(P, Leaf(leaves, index), Path(P, leaves, index, depth), index) == Root(P, leaves, depth)
  {
    PathFolds(P, leaves, 0, index, depth);
    AncestorIsRoot(index, depth);
  }

  lemma {:induction false} NodeInField(P: Poseidon, leaves: seq<int>, level: nat, j: nat)
    requires AllInField(P.r, leaves)
    ensures InField(P.r, Node(P, leaves, level, j))
  {
  }

  lemma {:induction false} PathInField(P: Poseidon, leaves: seq<int>, level: nat, j: nat, steps: nat)
    requires AllInField(P.r, leaves)
    ensures AllInField(P.r, PathFrom(P, leaves, level, j, steps))
    decreases steps
  {
    if steps > 0 {
      NodeInField(P, leaves, level, Sibling(j));
      PathInField(P, leaves, level + 1, j / 2, steps - 1);
    }
  }

  lemma {:induction false} FoldInField(P: Poseidon, leaf: int, path: seq<int>, index: nat)
    requires InField(P.r, leaf)
    ensures InField(P.r, Fold(P, leaf, path, index))
    decreases |path|
  {
    if path != [] {
      FoldInField(P, Step(P, leaf, path[0], index), path[1..], index / 2);
    }
  }

  // ------------------------------------------------------------- the tree by halves

  /** `n` leaves from place `from` on, zero beyond the list. */
  function Segment(leaves: seq<int>, from: nat, n: nat): (xs: seq<int>)
    ensures |xs| == n && forall i :: 0 <= i < n ==> xs[i] == if from + i < |leaves| then leaves[from + i] else 0
  {
    seq(n, i requires 0 <= i < n => if from + i < |leaves| then leaves[from + i] else 0)
  }

  /** The root of a full row of leaves, from its two halves. */
  function RootOfHalves(P: Poseidon, xs: seq<int>, depth: nat): int
    requires |xs| == Pow2(depth)
  {
    if depth == 0 then xs[0]
    else
      var half := Pow2(depth - 1);
      P.HashTwo(RootOfHalves(P, xs[..half], depth - 1), RootOfHalves(P, xs[half..], depth - 1))
  }

  lemma SegmentHalves(leaves: seq<int>, from: nat, half: nat)
    ensures Segment(leaves, from, 2 * half)[..half] == Segment(leaves, from, half)
    ensures Segment(leaves, from, 2 * half)[half..] == Segment(leaves, from + half, half)
  {
  }

  lemma ChildPlaces(j: nat, half: nat)
    ensures j * (2 * half) == (2 * j) * half && j * (2 * half) + half == (2 * j + 1) * half
  {
  }

  lemma {:induction false} NodeByHalves(P: Poseidon, leaves: seq<int>, level: nat, j: nat, from: nat)
    requires from == j * Pow2(level)
    ensures Node(P, leaves, level, j) == RootOfHalves(P, Segment(leaves, from, Pow2(level)), level)
    decreases level
  {
    if level > 0 {
      var half := Pow2(level - 1);
      ChildPlaces(j, half);
      SegmentHalves(leaves, from, half);
      NodeByHalves(P, leaves, level - 1, 2 * j, from);
      NodeByHalves(P, leaves, level - 1, 2 * j + 1, from + half);
    }
  }

  /** The root is that of the zero-padded list of leaves, left half hashed first. */
  lemma RootByHalves(P: Poseidon, leaves: seq<int>, depth: nat)
    ensures Root(P, leaves, depth) == RootOfHalves(P, Segment(leaves, 0, Pow2(depth)), depth)
  {
    NodeByHalves(P, leaves, depth, 0, 0);
  }

  // ------------------------------------------------------------------ binding

  /** The hash inputs to compare when an opening disagrees with the tree: the lowest row
      above which the opening is the honest one. */
  function OpeningClash(P: Poseidon, leaves: seq<int>, level: nat, leaf: int, path: seq<int>, j: nat): HashPair
    decreases |path|
  {
    if path == [] then HashPair(0, 0, 0, 0)
    else
      var up := Step(P, leaf, path[0], j);
      if up != Node(P, leaves, level + 1, j / 2) then
        OpeningClash(P, leaves, level + 1, up, path[1..], j / 2)
      else
        var here := StepClash(P, leaves, level, leaf, path[0], j);
        if (here.a, here.b) != (here.c, here.d) then here
        else OpeningClash(P, leaves, level + 1, up, path[1..], j / 2)
  }

  /** The pair hashed by one step of an opening, beside the tree's own pair. */
  function StepClash(P: Poseidon, leaves: seq<int>, level: nat, leaf: int, sibling: int, j: nat): HashPair {
    var left := Node(P, leaves, level, 2 * (j / 2));
    var right := Node(P, leaves, level, 2 * (j / 2) + 1);
    if j % 2 == 0 then HashPair(leaf, sibling, left, right) else HashPair(sibling, leaf, left, right)
  }

  lemma StepBinding(P: Poseidon, leaves: seq<int>, level: nat, leaf: int, sibling: int, j: nat)
    requires Step(P, leaf, sibling, j) == Node(P, leaves, level + 1, j / 2)
    ensures var here := StepClash(P, leaves, level, leaf, sibling, j);
      if (here.a, here.b) == (here.c, here.d)
      then leaf == Node(P, leaves, level, j) && sibling == Node(P, leaves, level, Sibling(j))
      else IsCollision(P, here)
  {
  }

  /** An opening that folds to the tree's node is the honest one, leaf and whole path,
      or the named pair collides. */
  lemma {:induction false} OpeningBindingAt(P: Poseidon, leaves: seq<int>, level: nat, leaf: int, path: seq<int>, j: nat)
    requires Fold(P, leaf, path, j) == Node(P, leaves, level + |path|, Ancestor(j, |path|))
    ensures (leaf == Node(P, leaves, level, j) && path == PathFrom(P, leaves, level, j, |path|))
         || IsCollision(P, OpeningClash(P, leaves, level, leaf, path, j))
    decreases |path|
  {
    if path != [] {
      var up := Step(P, leaf, path[0], j);
      OpeningBindingAt(P, leaves, level + 1, up, path[1..], j / 2);
      if up == Node(P, leaves, level + 1, j / 2) {
        StepBinding(P, leaves, level, leaf, path[0], j);
        assert path == [path[0]] + path[1..];
      }
    }
  }

  lemma OpeningBinding(P: Poseidon, leaves: seq<int>, leaf: int, path: seq<int>, index: nat, depth: nat)
    requires |path| == depth && index < Pow2(depth)
    requires Fold(P, leaf, path, index) == Root(P, leaves, depth)
    ensures (leaf == Leaf(leaves, index) && path == Path(P, leaves, index, depth))
         || IsCollision(P, OpeningClash(P, leaves, 0, leaf, path, index))
  {
    AncestorIsRoot(index, depth);
    OpeningBindingAt(P, leaves, 0, leaf, path, index);
  }

  // --------------------------------------------------------- one-leaf changes

  /** A subtree that does not hold position `pos` does not see a change there. */
  lemma {:induction false} UntouchedNode(P: Poseidon, before: seq<int>, after: seq<int>, pos: nat, level: nat, j: nat)
    requires forall i: nat :: i != pos ==> Leaf(before, i) == Leaf(after, i)
    requires Ancestor(pos, level) != j
    ensures Node(P, before, level, j) == Node(P, after, level, j)
    decreases level
  {
    if level > 0 {
      AncestorSplit(pos, level - 1);
      UntouchedNode(P, before, after, pos, level - 1, 2 * j);
      UntouchedNode(P, before, after, pos, level - 1, 2 * j + 1);
    }
  }

  lemma {:induction false} AncestorSplit(j: nat, steps: nat)
    ensures Ancestor(j, steps + 1) == Ancestor(j, steps) / 2
  {
    if steps > 0 {
      AncestorSplit(j / 2, steps - 1);
    }
  }

  lemma {:induction false} PathUnchanged(P: Poseidon, before: seq<int>, after: seq<int>, pos: nat, level: nat, steps: nat)
    requires forall i: nat :: i != pos ==> Leaf(before, i) == Leaf(after, i)
    ensures PathFrom(P, before, level, Ancestor(pos, level), steps)
         == PathFrom(P, after, level, Ancestor(pos, level), steps)
    decreases steps
  {
    if steps > 0 {
      AncestorSplit(pos, level);
      UntouchedNode(P, before, after, pos, level, Sibling(Ancestor(pos, level)));
      PathUnchanged(P, before, after, pos, level + 1, steps - 1);
    }
  }

  /** Folding a new leaf along the old tree's path gives the root of the updated tree. */
  lemma UpdatedRoot(P: Poseidon, leaves: seq<int>, pos: nat, value: int, depth: nat)
    requires pos < |leaves| && pos < Pow2(depth)
    ensures Fold(P, value, Path(P, leaves, pos, depth), pos) == Root(P, leaves[pos := value], depth)
  {
    PathUnchanged(P, leaves, leaves[pos := value], pos, 0, depth);
    ProofVerifies(P, leaves[pos := value], pos, depth);
  }

  // ----------------------------------------------------------- the heap array

  datatype MerkleError = TooManyMembers(actual: nat, max: nat) | DuplicatePublicKey(key: seq<int>)

  datatype MerkleProof = MerkleProof(path: seq<int>, leafIndex: nat, leaf: int)

  /** Cells from `low` on hold the tree: cell 2^(depth-level) + j is node j of row level. */
  ghost predicate HeapHolds(P: Poseidon, nodes: seq<int>, leaves: seq<int>, depth: nat, low: nat) {
    |nodes| == 2 * Pow2(depth)
    && forall level: nat, j: nat :: level <= depth && j < Pow2(depth - level) && low <= Pow2(depth - level) + j
         ==> CellHolds(P, nodes, leaves, depth, level, j)
  }

  ghost predicate CellHolds(P: Poseidon, nodes: seq<int>, leaves: seq<int>, depth: nat, level: nat, j: nat)
    requires level <= depth
  {
    Pow2(depth - level) + j < |nodes|
    && nodes[Pow2(depth - level) + j] == Node(P, leaves, level, j)
  }

  /** Hashing cell `i` from its two children extends the filled part by one cell. */
  lemma FillCell(P: Poseidon, before: seq<int>, leaves: seq<int>, depth: nat, i: nat, value: int)
    requires 1 <= i < Pow2(depth)
    requires HeapHolds(P, before, leaves, depth, i + 1)
    requires value == P.HashTwo(before[2 * i], before[2 * i + 1])
    ensures HeapHolds(P, before[i := value], leaves, depth, i)
  {
    var after := before[i := value];
    forall level: nat, j: nat | level <= depth && j < Pow2(depth - level) && i <= Pow2(depth - level) + j
      ensures CellHolds(P, after, leaves, depth, level, j)
    {
      Pow2Mono(depth - level, depth);
      if Pow2(depth - level) + j == i {
        if level == 0 {
          assert false;
        } else {
          assert Pow2(depth - level + 1) == 2 * Pow2(depth - level);
          assert CellHolds(P, before, leaves, depth, level - 1, 2 * j);
          assert CellHolds(P, before, leaves, depth, level - 1, 2 * j + 1);
        }
      } else {
        assert CellHolds(P, before, leaves, depth, level, j);
      }
    }
  }

  /** Where the walk of `Prove` reads at one row, and where it goes next. */
  lemma ClimbCell(P: Poseidon, nodes: seq<int>, leaves: seq<int>, depth: nat, level: nat, j: nat)
    requires level < depth && j < Pow2(depth - level)
    requires HeapHolds(P, nodes, leaves, depth, 1)
    ensures var current := Pow2(depth - level) + j;
      var sibling := if current % 2 == 0 then current + 1 else current - 1;
      sibling < |nodes|
      && nodes[sibling] == Node(P, leaves, level, Sibling(j))
      && current / 2 == Pow2(depth - level - 1) + j / 2
      && j / 2 < Pow2(depth - level - 1)
  {
    assert Pow2(depth - level) == 2 * Pow2(depth - level - 1);
    assert CellHolds(P, nodes, leaves, depth, level, Sibling(j));
  }

  /** Entry `k` of an opening is the sibling of the k-th ancestor. */
  lemma {:induction false} PathEntry(P: Poseidon, leaves: seq<int>, level: nat, j: nat, steps: nat, k: nat)
    requires k < steps
    ensures PathFrom(P, leaves, level, j, steps)[k] == Node(P, leaves, level + k, Sibling(Ancestor(j, k)))
    decreases steps
  {
    if k > 0 {
      PathEntry(P, leaves, level + 1, j / 2, steps - 1, k - 1);
    }
  }

  class PoseidonMerkleTree {
    const nodes: array<int>
    const depth: nat

    /** The array is the recursive, zero-padded tree over `leaves`. */
    ghost predicate Represents(P: Poseidon, leaves: seq<int>)
      reads nodes
    {
      HeapHolds(P, nodes[..], leaves, depth, 1)
    }

    constructor (nodes: array<int>, depth: nat)
      ensures this.nodes == nodes && this.depth == depth
    {
      this.nodes := nodes;
      this.depth := depth;
    }

    static method BuildFromOrderedLeafHashes(P: Poseidon, leaves: seq<int>, depth: nat)
      returns (built: Result<PoseidonMerkleTree, MerkleError>)
      ensures |leaves| > Pow2(depth) ==> built == Err(TooManyMembers(|leaves|, Pow2(depth)))
      ensures |leaves| <= Pow2(depth) ==>
        built.Ok? && fresh(built.value) && fresh(built.value.nodes)
        && built.value.depth == depth && built.value.Represents(P, leaves)
    {
      var numLeaves := Pow2(depth);
      if |leaves| > numLeaves {
        return Err(TooManyMembers(|leaves|, numLeaves));
      }
      var nodes := new int[2 * numLeaves](_ => 0);
      for i := 0 to |leaves|
        invariant forall k :: 0 <= k < 2 * numLeaves ==>
          nodes[k] == if numLeaves <= k < numLeaves + i then leaves[k - numLeaves] else 0
      {
        nodes[numLeaves + i] := leaves[i];
      }
      LeafRow(P, nodes[..], leaves, depth);
      var i := numLeaves;
      while i > 1
        invariant 1 <= i <= numLeaves
        invariant HeapHolds(P, nodes[..], leaves, depth, i)
      {
        i := i - 1;
        ghost var before := nodes[..];
        nodes[i] := P.HashTwo(nodes[2 * i], nodes[2 * i + 1]);
        FillCell(P, before, leaves, depth, i, nodes[i]);
        assert nodes[..] == before[i := nodes[i]];
      }
      var tree := new PoseidonMerkleTree(nodes, depth);
      built := Ok(tree);
    }

    method GetRoot(ghost P: Poseidon, ghost leaves: seq<int>) returns (root: int)
      requires Represents(P, leaves)
      ensures root == Root(P, leaves, depth)
    {
      assert CellHolds(P, nodes[..], leaves, depth, depth, 0);
      root := nodes[1];
    }

    /** The opening of leaf `index`; an index beyond the last leaf panics in the source. */
    method Prove(index: nat, ghost P: Poseidon, ghost leaves: seq<int>) returns (proof: MerkleProof)
      requires Represents(P, leaves)
      requires index < Pow2(depth)
      ensures proof == MerkleProof(Path(P, leaves, index, depth), index, Leaf(leaves, index))
    {
      var numLeaves := Pow2(depth);
      ghost var heap, full := nodes[..], Path(P, leaves, index, depth);
      var path := [];
      var current := numLeaves + index;
      for level := 0 to depth
        invariant Ancestor(index, level) < Pow2(depth - level)
        invariant current == Pow2(depth - level) + Ancestor(index, level)
        invariant path == full[..level]
      {
        ClimbCell(P, heap, leaves, depth, level, Ancestor(index, level));
        AncestorSplit(index, level);
        PathEntry(P, leaves, 0, index, depth, level);
        var sibling := if current % 2 == 0 then current + 1 else current - 1;
        assert nodes[sibling] == heap[sibling];
        path := path + [nodes[sibling]];
        current := current / 2;
      }
      assert CellHolds(P, nodes[..], leaves, depth, 0, index);
      proof := MerkleProof(path, index, nodes[numLeaves + index]);
    }

    static method Verify(P: Poseidon, root: int, proof: MerkleProof, depth: nat) returns (ok: bool)
      requires |proof.path| == depth
      ensures ok <==> Fold(P, proof.leaf, proof.path, proof.leafIndex) == root
    {
      var current, index := proof.leaf, proof.leafIndex;
      for k := 0 to depth
        invariant Fold(P, current, proof.path[k..], index) == Fold(P, proof.leaf, proof.path, proof.leafIndex)
      {
        var sibling := proof.path[k];
        current := if index % 2 == 0 then P.HashTwo(current, sibling) else P.HashTwo(sibling, current);
        index := index / 2;
      }
      ok := current == root;
    }
  }

  /** Before any hashing, the upper half of the array is the leaf row. */
  lemma LeafRow(P: Poseidon, nodes: seq<int>, leaves: seq<int>, depth: nat)
    requires |leaves| <= Pow2(depth) && |nodes| == 2 * Pow2(depth)
    requires forall k :: Pow2(depth) <= k < 2 * Pow2(depth) ==> nodes[k] == Leaf(leaves, k - Pow2(depth))
    ensures HeapHolds(P, nodes, leaves, depth, Pow2(depth))
  {
    forall level: nat, j: nat |
      level <= depth && j < Pow2(depth - level) && Pow2(depth) <= Pow2(depth - level) + j
      ensures CellHolds(P, nodes, leaves, depth, level, j)
    {
      if level > 0 {
        Pow2Mono(depth - level + 1, depth);
        assert false;
      }
    }
  }
}
