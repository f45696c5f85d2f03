/** Merkle roots, trees and inclusion proofs. */
module Merkle {
  import opened Basics
  import opened Crypto

  // ----- roots

  function Combined(a: Bytes, b: Bytes): Hash {
    Sha256d(a + b)
  }

  /** One level up: adjacent hashes combined, an odd last one kept. */
  function PairUp(hs: seq<Hash>): (up: seq<Hash>)
    ensures |up| == (|hs| + 1) / 2
  {
    if |hs| == 0 then []
    else if |hs| == 1 then [hs[0]]
    else [Combined(hs[0], hs[1])] + PairUp(hs[2..])
  }

  function MerkleRoot(hs: seq<Hash>): Hash
    requires hs != []
    decreases |hs|
  {
    if |hs| == 1 then hs[0] else MerkleRoot(PairUp(hs))
  }

  method GetMerkleRoot(hs: seq<Hash>) returns (root: Hash)
    requires hs != []
    ensures root == MerkleRoot(hs)
    decreases |hs|
  {
    if |hs| == 1 {
      return hs[0];
    }
    var up := [];
    var i := 0;
    while i < |hs|
      invariant 0 <= i <= |hs| && i % 2 == (if i == |hs| then |hs| % 2 else 0)
      invariant up == PairUp(hs[..i])
    {
      PairUpNext(hs, i);
      if i + 1 < |hs| {
        up := up + [Combined(hs[i], hs[i + 1])];
        i := i + 2;
      } else {
        up := up + [hs[i]];
        i := i + 1;
      }
    }
    assert hs[..i] == hs;
    root := GetMerkleRoot(up);
  }

  lemma {:induction false} PairUpAppend(xs: seq<Hash>, ys: seq<Hash>)
    requires |xs| % 2 == 0
    ensures PairUp(xs + ys) == PairUp(xs) + PairUp(ys)
    decreases |xs|
  {
    if xs == [] {
      assert xs + ys == ys;
    } else {
      hide Combined;
      PairUpAppend(xs[2..], ys);
      assert (xs + ys)[2..] == xs[2..] + ys && (xs + ys)[0] == xs[0] && (xs + ys)[1] == xs[1];
    }
  }

  lemma PairUpNext(hs: seq<Hash>, i: nat)
    requires i < |hs| && i % 2 == 0
    ensures i + 1 < |hs| ==> PairUp(hs[..i + 2]) == PairUp(hs[..i]) + [Combined(hs[i], hs[i + 1])]
    ensures i + 1 == |hs| ==> PairUp(hs[..i + 1]) == PairUp(hs[..i]) + [hs[i]]
  {
    if i + 1 < |hs| {
      var pair := [hs[i], hs[i + 1]];
      assert hs[..i + 2] == hs[..i] + pair && pair[2..] == [];
      PairUpAppend(hs[..i], pair);
    } else {
      assert hs[..i + 1] == hs[..i] + [hs[i]];
      PairUpAppend(hs[..i], [hs[i]]);
    }
  }

  // ----- what the root is

  function CeilLog2(n: nat): nat {
    if n <= 1 then 0 else 1 + CeilLog2((n + 1) / 2)
  }

  /** `CeilLog2` is the least exponent whose power of two reaches `n`. */
  lemma {:induction false} CeilLog2Least(n: nat)
    requires n > 0
    ensures n <= Pow2(CeilLog2(n))
    ensures n > 1 ==> Pow2(CeilLog2(n) - 1) < n
  {
    if n > 1 {
      CeilLog2Least((n + 1) / 2);
    }
  }

  lemma {:induction false} SplitAt(hs: seq<Hash>, e: nat)
    requires Pow2(e) < |hs| <= 2 * Pow2(e)
    ensures MerkleRoot(hs) == Sha256d(MerkleRoot(hs[..Pow2(e)]) + MerkleRoot(hs[Pow2(e)..]))
    decreases e
  {
    var left, right := hs[..Pow2(e)], hs[Pow2(e)..];
    assert hs == left + right;
    if e == 0 {
      assert PairUp(hs) == [Combined(hs[0], hs[1])] && left == [hs[0]] && right == [hs[1]];
    } else {
      var up := PairUp(hs);
      PairUpAppend(left, right);
      SplitAt(up, e - 1);
      assert up[..Pow2(e - 1)] == PairUp(left) && up[Pow2(e - 1)..] == PairUp(right);
      if |right| == 1 {
        assert PairUp(right) == right;
      }
    }
  }

  /** The root of one hash is that hash. The root of more is the hash of two roots, one after the other: of as many
      hashes as the greatest power of two that leaves some over, and of those left over. */
  lemma RootExactly(hs: seq<Hash>)
    requires hs != []
    ensures |hs| == 1 ==> MerkleRoot(hs) == hs[0]
    ensures |hs| > 1 ==>
              var k := Pow2(CeilLog2(|hs|) - 1);
              k < |hs| <= 2 * k && MerkleRoot(hs) == Sha256d(MerkleRoot(hs[..k]) + MerkleRoot(hs[k..]))
  {
    if |hs| > 1 {
      CeilLog2Least(|hs|);
      SplitAt(hs, CeilLog2(|hs|) - 1);
    }
  }

  /** Two lists of one length with the same root are the same list, or here are two strings that collide. */
  lemma {:induction false} MerkleBinding(hs: seq<Hash>, gs: seq<Hash>) returns (x: Bytes, y: Bytes)
    requires hs != [] && |hs| == |gs| && MerkleRoot(hs) == MerkleRoot(gs)
    ensures hs == gs || (x != y && Sha256d(x) == Sha256d(y))
    decreases |hs|
  {
    x, y := [], [];
    if |hs| > 1 {
      x, y := MerkleBinding(PairUp(hs), PairUp(gs));
      if PairUp(hs) == PairUp(gs) {
        x, y := PairUpBinding(hs, gs);
      }
    }
  }

  lemma {:induction false} PairUpBinding(hs: seq<Hash>, gs: seq<Hash>) returns (x: Bytes, y: Bytes)
    requires |hs| == |gs| && PairUp(hs) == PairUp(gs)
    ensures hs == gs || (x != y && Sha256d(x) == Sha256d(y))
    decreases |hs|
  {
    x, y := [], [];
    if |hs| >= 2 {
      assert PairUp(hs)[0] == PairUp(gs)[0] && PairUp(hs)[1..] == PairUp(gs)[1..];
      assert hs == hs[..2] + hs[2..] && gs == gs[..2] + gs[2..];
      var h0: Bytes, h1: Bytes, g0: Bytes, g1: Bytes := hs[0], hs[1], gs[0], gs[1];
      x, y := h0 + h1, g0 + g1;
      if x == y {
        assert h0 == x[..32] && h1 == x[32..] && g0 == y[..32] && g1 == y[32..];
        x, y := PairUpBinding(hs[2..], gs[2..]);
      }
    }
  }

  // ----- trees

  datatype MerkleNode =
    | Leaf(index: nat, value: Hash)
    | Node(index: nat, left: MerkleNode, right: MerkleNode)
  {
    function Digest(): Hash {
      match this
      case Leaf(_, value) => value
      case Node(_, left, right) => Combined(left.Digest(), right.Digest())
    }

    function Depth(): nat {
      match this
      case Leaf(_, _) => 0
      case Node(_, left, right) => 1 + Max(left.Depth(), right.Depth())
    }
  }

  function PairNodes(ns: seq<MerkleNode>): (up: seq<MerkleNode>)
    ensures |up| == (|ns| + 1) / 2
  {
    if |ns| == 0 then []
    else if |ns| == 1 then [ns[0]]
    else [Node(ns[0].index, ns[0], ns[1])] + PairNodes(ns[2..])
  }

  function TreeOf(ns: seq<MerkleNode>): MerkleNode
    requires ns != []
    decreases |ns|
  {
    if |ns| == 1 then ns[0] else TreeOf(PairNodes(ns))
  }

  function Leaves(hs: seq<Hash>): seq<MerkleNode> {
    seq(|hs|, i requires 0 <= i < |hs| => Leaf(i, hs[i]))
  }

  function MerkleTree(hs: seq<Hash>): MerkleNode
    requires hs != []
  {
    TreeOf(Leaves(hs))
  }

  method GetMerkleTree(hs: seq<Hash>) returns (tree: MerkleNode)
    requires hs != []
    ensures tree == MerkleTree(hs)
  {
    tree := CollapseNodes(Leaves(hs));
  }

  method CollapseNodes(ns: seq<MerkleNode>) returns (tree: MerkleNode)
    requires ns != []
    ensures tree == TreeOf(ns)
    decreases |ns|
  {
    if |ns| == 1 {
      return ns[0];
    }
    var up := [];
    var i := 0;
    while i < |ns|
      invariant 0 <= i <= |ns| && i % 2 == (if i == |ns| then |ns| % 2 else 0)
      invariant up == PairNodes(ns[..i])
    {
      PairNodesNext(ns, i);
      if i + 1 < |ns| {
        up := up + [Node(ns[i].index, ns[i], ns[i + 1])];
        i := i + 2;
      } else {
        up := up + [ns[i]];
        i := i + 1;
      }
    }
    assert ns[..i] == ns;
    tree := CollapseNodes(up);
  }

  lemma {:induction false} PairNodesAppend(xs: seq<MerkleNode>, ys: seq<MerkleNode>)
    requires |xs| % 2 == 0
    ensures PairNodes(xs + ys) == PairNodes(xs) + PairNodes(ys)
    decreases |xs|
  {
    if xs == [] {
      assert xs + ys == ys;
    } else {
      PairNodesAppend(xs[2..], ys);
      assert (xs + ys)[2..] == xs[2..] + ys;
    }
  }

  lemma PairNodesNext(ns: seq<MerkleNode>, i: nat)
    requires i < |ns| && i % 2 == 0
    ensures i + 1 < |ns| ==> PairNodes(ns[..i + 2]) == PairNodes(ns[..i]) + [Node(ns[i].index, ns[i], ns[i + 1])]
    ensures i + 1 == |ns| ==> PairNodes(ns[..i + 1]) == PairNodes(ns[..i]) + [ns[i]]
  {
    if i + 1 < |ns| {
      var pair := [ns[i], ns[i + 1]];
      assert ns[..i + 2] == ns[..i] + pair && pair[2..] == [];
      PairNodesAppend(ns[..i], pair);
    } else {
      assert ns[..i + 1] == ns[..i] + [ns[i]];
      PairNodesAppend(ns[..i], [ns[i]]);
    }
  }

  function Digests(ns: seq<MerkleNode>): seq<Hash> {
    seq(|ns|, i requires 0 <= i < |ns| => ns[i].Digest())
  }

  lemma {:induction false} DigestsPairUp(ns: seq<MerkleNode>)
    ensures Digests(PairNodes(ns)) == PairUp(Digests(ns))
    decreases |ns|
  {
    if |ns| >= 2 {
      DigestsPairUp(ns[2..]);
      assert Digests(ns)[2..] == Digests(ns[2..]);
      assert Digests(PairNodes(ns)) == [PairNodes(ns)[0].Digest()] + Digests(PairNodes(ns[2..]));
    }
  }

  lemma {:induction false} TreeOfDigest(ns: seq<MerkleNode>)
    requires ns != []
    ensures TreeOf(ns).Digest() == MerkleRoot(Digests(ns))
    decreases |ns|
  {
    if |ns| > 1 {
      DigestsPairUp(ns);
      TreeOfDigest(PairNodes(ns));
    }
  }

  /** The tree and the root function compute the same hash. */
  lemma TreeAgreesWithRoot(hs: seq<Hash>)
    requires hs != []
    ensures MerkleTree(hs).Digest() == MerkleRoot(hs)
  {
    TreeOfDigest(Leaves(hs));
    assert Digests(Leaves(hs)) == hs;
  }

  // ----- the length is not bound

  /** `node` is `shape` with its leaves replaced by trees. */
  ghost predicate Refines(node: MerkleNode, shape: MerkleNode) {
    match shape
    case Leaf(_, _) => true
    case Node(_, left, right) => node.Node? && Refines(node.left, left) && Refines(node.right, right)
  }

  /** The smallest tree that refines both. */
  ghost function Overlay(a: MerkleNode, b: MerkleNode): MerkleNode {
    match (a, b)
    case (Leaf(_, _), _) => b
    case (_, Leaf(_, _)) => a
    case (Node(index, left, right), Node(_, left', right')) =>
      Node(index, Overlay(left, left'), Overlay(right, right'))
  }

  lemma {:induction false} RefinesItself(a: MerkleNode)
    ensures Refines(a, a)
  {
    match a
    case Leaf(_, _) =>
    case Node(_, left, right) =>
      RefinesItself(left);
      RefinesItself(right);
  }

  lemma {:induction false} OverlayRefines(a: MerkleNode, b: MerkleNode)
    ensures Refines(Overlay(a, b), a) && Refines(Overlay(a, b), b)
  {
    RefinesItself(a);
    RefinesItself(b);
    if a.Node? && b.Node? {
      OverlayRefines(a.left, b.left);
      OverlayRefines(a.right, b.right);
    }
  }

  ghost predicate RefinesEach(os: seq<MerkleNode>, ns: seq<MerkleNode>) {
    |os| == |ns| && forall i | 0 <= i < |ns| :: Refines(os[i], ns[i])
  }

  lemma RefinesTail(up: seq<MerkleNode>, ns: seq<MerkleNode>)
    requires |ns| >= 2 && RefinesEach(up, PairNodes(ns))
    ensures up[0].Node? && Refines(up[0].left, ns[0]) && Refines(up[0].right, ns[1])
    ensures RefinesEach(up[1..], PairNodes(ns[2..]))
  {
    var pairs, rest := PairNodes(ns), PairNodes(ns[2..]);
    assert pairs[1..] == rest && Refines(up[0], pairs[0]);
    forall i | 0 <= i < |rest| ensures Refines(up[1..][i], rest[i]) {
      assert rest[i] == pairs[i + 1];
    }
  }

  lemma RefinesFront(left: MerkleNode, right: MerkleNode, rest: seq<MerkleNode>, ns: seq<MerkleNode>)
    requires |ns| >= 2 && Refines(left, ns[0]) && Refines(right, ns[1]) && RefinesEach(rest, ns[2..])
    ensures RefinesEach([left, right] + rest, ns)
    ensures PairUp(Digests([left, right] + rest)) == [Combined(left.Digest(), right.Digest())] + PairUp(Digests(rest))
  {
    hide Refines, Combined;
    var os := [left, right] + rest;
    forall i | 0 <= i < |ns| ensures Refines(os[i], ns[i]) {
      if i >= 2 {
        assert os[i] == rest[i - 2] && ns[i] == ns[2..][i - 2];
      }
    }
    assert Digests(os)[2..] == Digests(rest);
  }

  /** One level down: the children of what refines the paired nodes refine the nodes. */
  lemma {:induction false} Unpair(ns: seq<MerkleNode>, up: seq<MerkleNode>) returns (os: seq<MerkleNode>)
    requires RefinesEach(up, PairNodes(ns))
    ensures RefinesEach(os, ns) && PairUp(Digests(os)) == Digests(up)
    decreases |ns|
  {
    hide Refines, Combined;
    if |ns| < 2 {
      os := up;
    } else {
      RefinesTail(up, ns);
      var rest := Unpair(ns[2..], up[1..]);
      os := [up[0].left, up[0].right] + rest;
      RefinesFront(up[0].left, up[0].right, rest, ns);
      assert Digests(up) == [up[0].Digest()] + Digests(up[1..]);
    }
  }

  /** A refinement of the tree over `ns` is the tree over as many nodes. */
  lemma {:induction false} Spread(ns: seq<MerkleNode>, o: MerkleNode) returns (os: seq<MerkleNode>)
    requires ns != [] && Refines(o, TreeOf(ns))
    ensures |os| == |ns| && MerkleRoot(Digests(os)) == o.Digest()
    ensures RefinesEach(os, ns)
    decreases |ns|
  {
    if |ns| == 1 {
      os := [o];
    } else {
      var up := Spread(PairNodes(ns), o);
      os := Unpair(ns, up);
    }
  }

  /** Lists of different lengths are not told apart: for every two lengths there are lists with one root, because inner
      nodes and leaves are hashed alike. `MerkleBinding` asks for one length, and no more than that is needed. */
  lemma LengthIsNotBound(m: nat, n: nat) returns (hs: seq<Hash>, gs: seq<Hash>)
    requires m > 0 && n > 0
    ensures |hs| == m && |gs| == n && MerkleRoot(hs) == MerkleRoot(gs)
  {
    var ns, ns' := Leaves(seq(m, _ => ZERO_HASH)), Leaves(seq(n, _ => ZERO_HASH));
    var o := Overlay(TreeOf(ns), TreeOf(ns'));
    OverlayRefines(TreeOf(ns), TreeOf(ns'));
    var os := Spread(ns, o);
    var os' := Spread(ns', o);
    hs, gs := Digests(os), Digests(os');
  }

  // ----- proofs

  /** Keep the path to leaf `i` and replace every subtree beside it by its hash. */
  function GetProof(node: MerkleNode, i: nat): MerkleNode {
    match node
    case Leaf(_, _) => node
    case Node(index, left, right) =>
      if i >= right.index then Node(index, Leaf(left.index, left.Digest()), GetProof(right, i))
      else Node(index, GetProof(left, i), Leaf(right.index, right.Digest()))
  }

  /** The leaf a verifier ends at when walking a proof towards leaf `i`. */
  function EndOf(proof: MerkleNode, i: nat): MerkleNode {
    match proof
    case Leaf(_, _) => proof
    case Node(_, left, right) => if i >= right.index then EndOf(right, i) else EndOf(left, i)
  }

  /** The node holds exactly the leaves `lo` to `hi` of `hs`, in order, with the right indexes. */
  ghost predicate Covers(node: MerkleNode, hs: seq<Hash>, lo: nat, hi: nat)
    requires hi <= |hs|
  {
    && node.index == lo < hi
    && match node
       case Leaf(_, value) => hi == lo + 1 && value == hs[lo]
       case Node(_, left, right) =>
         && lo < right.index < hi
         && Covers(left, hs, lo, right.index)
         && Covers(right, hs, right.index, hi)
  }

  ghost predicate CoverInTurn(ns: seq<MerkleNode>, hs: seq<Hash>, lo: nat)
    decreases |ns|
  {
    if ns == [] then lo == |hs|
    else
      var hi := if |ns| == 1 then |hs| else ns[1].index;
      hi <= |hs| && Covers(ns[0], hs, lo, hi) && CoverInTurn(ns[1..], hs, hi)
  }

  lemma {:induction false} PairNodesCover(ns: seq<MerkleNode>, hs: seq<Hash>, lo: nat)
    requires CoverInTurn(ns, hs, lo)
    ensures CoverInTurn(PairNodes(ns), hs, lo)
    ensures ns != [] ==> PairNodes(ns)[0].index == lo
    decreases |ns|
  {
    if |ns| == 1 {
      assert ns[1..] == PairNodes(ns)[1..] == [];
    } else if |ns| >= 2 {
      var rest := ns[1..][1..];
      assert rest == ns[2..];
      var hi := if |ns| == 2 then |hs| else ns[2].index;
      PairNodesCover(rest, hs, hi);
      var up := PairNodes(ns);
      assert up[1..] == PairNodes(rest);
      assert Covers(up[0], hs, lo, hi);
      if |rest| > 0 {
        assert up[1].index == hi;
      }
    }
  }

  lemma {:induction false} TreeOfCovers(ns: seq<MerkleNode>, hs: seq<Hash>)
    requires ns != [] && CoverInTurn(ns, hs, 0)
    ensures Covers(TreeOf(ns), hs, 0, |hs|)
    decreases |ns|
  {
    if |ns| > 1 {
      PairNodesCover(ns, hs, 0);
      TreeOfCovers(PairNodes(ns), hs);
    }
  }

  lemma {:induction false} LeavesCover(hs: seq<Hash>, i: nat)
    requires i <= |hs|
    ensures CoverInTurn(Leaves(hs)[i..], hs, i)
    decreases |hs| - i
  {
    if i < |hs| {
      LeavesCover(hs, i + 1);
      assert Leaves(hs)[i..][1..] == Leaves(hs)[i + 1..];
    }
  }

  lemma {:induction false} ProofKeepsPath(node: MerkleNode, hs: seq<Hash>, lo: nat, hi: nat, i: nat)
    requires hi <= |hs| && Covers(node, hs, lo, hi) && lo <= i < hi
    ensures GetProof(node, i).index == node.index
    ensures GetProof(node, i).Digest() == node.Digest()
    ensures GetProof(node, i).Depth() <= node.Depth()
    ensures EndOf(GetProof(node, i), i) == Leaf(i, hs[i]) && IsPath(GetProof(node, i), i)
    decreases node
  {
    match node
    case Leaf(_, _) =>
    case Node(_, left, right) =>
      if i >= right.index {
        ProofKeepsPath(right, hs, right.index, hi, i);
      } else {
        ProofKeepsPath(left, hs, lo, right.index, i);
      }
  }

  lemma {:induction false} TreeOfDepth(ns: seq<MerkleNode>, d: nat)
    requires ns != [] && forall n | n in ns :: n.Depth() <= d
    ensures TreeOf(ns).Depth() <= d + CeilLog2(|ns|)
    decreases |ns|
  {
    if |ns| > 1 {
      PairNodesDepth(ns, d);
      TreeOfDepth(PairNodes(ns), d + 1);
    }
  }

  lemma {:induction false} PairNodesDepth(ns: seq<MerkleNode>, d: nat)
    requires forall n | n in ns :: n.Depth() <= d
    ensures forall n | n in PairNodes(ns) :: n.Depth() <= d + 1
    decreases |ns|
  {
    if |ns| >= 2 {
      PairNodesDepth(ns[2..], d);
      assert ns[0] in ns && ns[1] in ns;
    }
  }

  /** Beside the way to leaf `i` there are only single hashes. */
  ghost predicate IsPath(proof: MerkleNode, i: nat) {
    match proof
    case Leaf(_, _) => true
    case Node(_, left, right) =>
      if i >= right.index then left.Leaf? && IsPath(right, i) else right.Leaf? && IsPath(left, i)
  }

  /** A proof for leaf `i` has the tree's root hash, ends at leaf `i` with its value, is one path, and is no deeper than
      the logarithm of the number of leaves, rounded up. */
  lemma ProofIsSound(hs: seq<Hash>, i: nat)
    requires i < |hs|
    ensures GetProof(MerkleTree(hs), i).Digest() == MerkleRoot(hs)
    ensures EndOf(GetProof(MerkleTree(hs), i), i) == Leaf(i, hs[i]) && IsPath(GetProof(MerkleTree(hs), i), i)
    ensures GetProof(MerkleTree(hs), i).Depth() <= CeilLog2(|hs|)
  {
    LeavesCover(hs, 0);
    assert Leaves(hs)[0..] == Leaves(hs);
    TreeOfCovers(Leaves(hs), hs);
    ProofKeepsPath(MerkleTree(hs), hs, 0, |hs|, i);
    TreeAgreesWithRoot(hs);
    TreeOfDepth(Leaves(hs), 0);
  }
}
