/** The append-only Merkle tree of pkg/state/merkle.go, with duplicate-last padding. */
module Merkle {
  import opened Hashing

  // ---------------------------------------------------------------- specification

  function LeftChild(level: seq<Hash>, j: nat): Hash
    requires 2 * j < |level|
  {
    level[2 * j]
  }

  /** A missing right child is a copy of its left sibling. */
  function RightChild(level: seq<Hash>, j: nat): Hash
    requires 2 * j < |level|
  {
    if 2 * j + 1 < |level| then level[2 * j + 1] else level[2 * j]
  }

  /** One level up. */
  function Parents(level: seq<Hash>): (up: seq<Hash>)
    ensures |up| == (|level| + 1) / 2
    ensures forall j {:trigger up[j]} :: 0 <= j < |up| ==> up[j] == Pair(LeftChild(level, j), RightChild(level, j))
  {
    seq((|level| + 1) / 2, j requires 0 <= j < (|level| + 1) / 2 => Pair(LeftChild(level, j), RightChild(level, j)))
  }

  function RootOf(level: seq<Hash>): Hash
    requires |level| > 0
    decreases |level|
  {
    if |level| == 1 then level[0] else RootOf(Parents(level))
  }

  function Root(leaves: seq<Hash>): Hash {
    if leaves == [] then ZERO else RootOf(leaves)
  }

  /** Number of levels above n leaves. */
  function Depth(n: nat): nat
    decreases n
  {
    if n <= 1 then 0 else 1 + Depth((n + 1) / 2)
  }

  datatype Proof = Proof(leafIndex: int, siblings: seq<Hash>, onRight: seq<bool>)

  function SiblingIndex(n: nat, idx: nat): nat
    requires idx < n
  {
    if idx % 2 == 1 then idx - 1 else if idx + 1 < n then idx + 1 else idx
  }

  function SiblingsOf(level: seq<Hash>, idx: nat): seq<Hash>
    requires idx < |level|
    decreases |level|
  {
    if |level| == 1 then []
    else [level[SiblingIndex(|level|, idx)]] + SiblingsOf(Parents(level), idx / 2)
  }

  function SidesOf(n: nat, idx: nat): (sides: seq<bool>)
    requires idx < n
    ensures |sides| == Depth(n)
    decreases n
  {
    if n == 1 then [] else [idx % 2 == 0] + SidesOf((n + 1) / 2, idx / 2)
  }

  function Combine(cur: Hash, sib: Hash, sibOnRight: bool): Hash {
    if sibOnRight then Pair(cur, sib) else Pair(sib, cur)
  }

  function Climb(leaf: Hash, siblings: seq<Hash>, onRight: seq<bool>): Hash
    requires |siblings| == |onRight|
    decreases |siblings|
  {
    if siblings == [] then leaf
    else Climb(Combine(leaf, siblings[0], onRight[0]), siblings[1..], onRight[1..])
  }

  /** Which of n leaves a direction list reaches, walking the tree down from the root once every
      odd level has been padded with a copy of its last node. */
  function Slot(n: nat, onRight: seq<bool>): (i: nat)
    requires n > 0 && |onRight| == Depth(n)
    ensures i < n
    decreases n
  {
    if n == 1 then 0
    else
      var c := 2 * Slot((n + 1) / 2, onRight[1..]) + if onRight[0] then 0 else 1;
      if c < n then c else n - 1
  }

  // ---------------------------------------------------------------- properties of the tree

  lemma {:induction false} SlotOfLeaf(n: nat, i: nat)
    requires i < n
    ensures Slot(n, SidesOf(n, i)) == i
    decreases n
  {
    if n > 1 {
      SlotOfLeaf((n + 1) / 2, i / 2);
      assert SidesOf(n, i)[1..] == SidesOf((n + 1) / 2, i / 2);
    }
  }

  /** Every proof the tree hands out verifies, whatever the leaf count. */
  lemma {:induction false} ProofsVerify(level: seq<Hash>, idx: nat)
    requires idx < |level|
    ensures |SiblingsOf(level, idx)| == Depth(|level|)
    ensures Climb(level[idx], SiblingsOf(level, idx), SidesOf(|level|, idx)) == RootOf(level)
    decreases |level|
  {
    hide Combine, Parents, SiblingIndex;
    if |level| > 1 {
      ProofsVerify(Parents(level), idx / 2);
      var s := SiblingsOf(level, idx);
      var d := SidesOf(|level|, idx);
      assert s[1..] == SiblingsOf(Parents(level), idx / 2);
      assert d[1..] == SidesOf((|level| + 1) / 2, idx / 2);
      FirstCombine(level, idx);
    }
  }

  lemma {:induction false} FirstCombine(level: seq<Hash>, idx: nat)
    requires idx < |level| && |level| > 1
    ensures Combine(level[idx], SiblingsOf(level, idx)[0], SidesOf(|level|, idx)[0]) == Parents(level)[idx / 2]
  {
  }

  /** One turn of the proof loop: the path collected so far grows by this level's sibling. */
  lemma {:induction false} PathGrows(level: seq<Hash>, idx: nat, siblings: seq<Hash>, onRight: seq<bool>)
    requires idx < |level| && |level| > 1
    ensures (siblings + [level[SiblingIndex(|level|, idx)]]) + SiblingsOf(Parents(level), idx / 2)
         == siblings + SiblingsOf(level, idx)
    ensures (onRight + [idx % 2 == 0]) + SidesOf(|Parents(level)|, idx / 2) == onRight + SidesOf(|level|, idx)
  {
    assert SiblingsOf(level, idx) == [level[SiblingIndex(|level|, idx)]] + SiblingsOf(Parents(level), idx / 2);
    assert SidesOf(|level|, idx) == [idx % 2 == 0] + SidesOf(|Parents(level)|, idx / 2);
  }

  /** A verifying path of the tree's depth, with any directions and any siblings, authenticates
      exactly the leaf those directions reach. */
  lemma {:induction false} VerifiedPathForcesLeaf(level: seq<Hash>, leaf: Hash, siblings: seq<Hash>, onRight: seq<bool>)
    requires |level| > 0
    requires |siblings| == |onRight| == Depth(|level|)
    requires Climb(leaf, siblings, onRight) == RootOf(level)
    ensures leaf == level[Slot(|level|, onRight)]
    decreases |level|
  {
    if |level| > 1 {
      var up := Parents(level);
      VerifiedPathForcesLeaf(up, Combine(leaf, siblings[0], onRight[0]), siblings[1..], onRight[1..]);
    }
  }

  /** With the directions of one index the siblings are forced too: each leaf has one proof. */
  lemma {:induction false} VerifiedPathForcesSiblings(level: seq<Hash>, idx: nat, leaf: Hash, siblings: seq<Hash>)
    requires idx < |level| && |siblings| == Depth(|level|)
    requires Climb(leaf, siblings, SidesOf(|level|, idx)) == RootOf(level)
    ensures leaf == level[idx] && siblings == SiblingsOf(level, idx)
    decreases |level|
  {
    hide Combine, Parents, SiblingIndex;
    if |level| > 1 {
      var up, k := Parents(level), idx / 2;
      var d := SidesOf(|level|, idx);
      assert d[1..] == SidesOf(|up|, k);
      VerifiedPathForcesSiblings(up, k, Combine(leaf, siblings[0], d[0]), siblings[1..]);
      CombineForces(level, idx, leaf, siblings[0]);
      assert siblings == [siblings[0]] + siblings[1..];
    }
  }

  lemma {:induction false} CombineForces(level: seq<Hash>, idx: nat, leaf: Hash, sib: Hash)
    requires idx < |level| && |level| > 1
    requires Combine(leaf, sib, idx % 2 == 0) == Parents(level)[idx / 2]
    ensures leaf == level[idx] && sib == level[SiblingIndex(|level|, idx)]
  {
  }

  function TwoTo(k: nat): nat {
    if k == 0 then 1 else 2 * TwoTo(k - 1)
  }

  /** Seen from the top: the root over two equal halves of a power of two is the pair of their roots, in order. */
  lemma {:induction false} RootOfHalves(a: seq<Hash>, b: seq<Hash>, k: nat)
    requires |a| == |b| == TwoTo(k)
    ensures |a| > 0 && RootOf(a + b) == Pair(RootOf(a), RootOf(b))
    decreases k
  {
    if k == 0 {
      assert Parents(a + b) == [Pair(a[0], b[0])];
    } else {
      var p, q := Parents(a), Parents(b);
      RootOfHalves(p, q, k - 1);
      ParentsOfHalves(a, b);
    }
  }

  lemma {:induction false} ParentsOfHalves(a: seq<Hash>, b: seq<Hash>)
    requires |a| % 2 == 0
    ensures Parents(a + b) == Parents(a) + Parents(b)
  {
    var up, p, q := Parents(a + b), Parents(a), Parents(b);
    forall j | 0 <= j < |up| ensures up[j] == (p + q)[j] {
      if j >= |p| {
        assert LeftChild(a + b, j) == LeftChild(b, j - |p|);
        assert RightChild(a + b, j) == RightChild(b, j - |p|);
      }
    }
  }

  /** The padded trees of a and b show the same leaf at the end of every downward path. */
  ghost predicate SameSlots(a: seq<Hash>, b: seq<Hash>)
    requires |a| > 0 && |b| > 0 && Depth(|a|) == Depth(|b|)
  {
    forall d: seq<bool> :: |d| == Depth(|a|) ==> a[Slot(|a|, d)] == b[Slot(|b|, d)]
  }

  /** Exactly which leaf lists of equal depth share a root. */
  lemma {:induction false} RootsAgreeIffSlotsAgree(a: seq<Hash>, b: seq<Hash>)
    requires |a| > 0 && |b| > 0 && Depth(|a|) == Depth(|b|)
    ensures RootOf(a) == RootOf(b) <==> SameSlots(a, b)
    decreases |a|
  {
    if |a| == 1 {
      var none: seq<bool> := [];
      assert a[Slot(|a|, none)] == a[0] && b[Slot(|b|, none)] == b[0];
    } else {
      RootsAgreeIffSlotsAgree(Parents(a), Parents(b));
      SlotsAgreeIffParentSlotsAgree(a, b);
    }
  }

  lemma {:induction false} SlotsAgreeIffParentSlotsAgree(a: seq<Hash>, b: seq<Hash>)
    requires |a| > 1 && |b| > 1 && Depth(|a|) == Depth(|b|)
    ensures SameSlots(a, b) <==> SameSlots(Parents(a), Parents(b))
  {
    if SameSlots(Parents(a), Parents(b)) {
      forall d: seq<bool> | |d| == Depth(|a|) ensures a[Slot(|a|, d)] == b[Slot(|b|, d)] {
        ChildrenAgree(a, b, d);
      }
    }
    if SameSlots(a, b) {
      var pa, pb := Parents(a), Parents(b);
      forall e: seq<bool> | |e| == Depth(|pa|) ensures pa[Slot(|pa|, e)] == pb[Slot(|pb|, e)] {
        ParentsAgree(a, b, e);
      }
    }
  }

  lemma {:induction false} ChildrenAgree(a: seq<Hash>, b: seq<Hash>, d: seq<bool>)
    requires |a| > 1 && |b| > 1 && Depth(|a|) == Depth(|b|) == |d|
    requires SameSlots(Parents(a), Parents(b))
    ensures a[Slot(|a|, d)] == b[Slot(|b|, d)]
  {
    var i, j := Slot(|Parents(a)|, d[1..]), Slot(|Parents(b)|, d[1..]);
    assert Parents(a)[i] == Parents(b)[j];
    SlotIsChild(a, d);
    SlotIsChild(b, d);
  }

  lemma {:induction false} SlotIsChild(a: seq<Hash>, d: seq<bool>)
    requires |a| > 1 && |d| == Depth(|a|)
    ensures a[Slot(|a|, d)] == var j := Slot(|Parents(a)|, d[1..]); if d[0] then LeftChild(a, j) else RightChild(a, j)
  {
  }

  lemma {:induction false} ParentsAgree(a: seq<Hash>, b: seq<Hash>, e: seq<bool>)
    requires |a| > 1 && |b| > 1 && Depth(|a|) == Depth(|b|) == |e| + 1
    requires SameSlots(a, b)
    ensures Parents(a)[Slot(|Parents(a)|, e)] == Parents(b)[Slot(|Parents(b)|, e)]
  {
    hide Slot;
    var l, r := [true] + e, [false] + e;
    assert l[1..] == e && r[1..] == e;
    assert a[Slot(|a|, l)] == b[Slot(|b|, l)];
    assert a[Slot(|a|, r)] == b[Slot(|b|, r)];
    SlotIsChild(a, l);
    SlotIsChild(b, l);
    SlotIsChild(a, r);
    SlotIsChild(b, r);
  }

  /** At one length the root determines every leaf. */
  lemma {:induction false} RootInjectiveAtLength(a: seq<Hash>, b: seq<Hash>)
    requires |a| == |b|
    ensures Root(a) == Root(b) <==> a == b
  {
    if |a| > 0 && Root(a) == Root(b) {
      RootsAgreeIffSlotsAgree(a, b);
      forall i | 0 <= i < |a| ensures a[i] == b[i] {
        SlotOfLeaf(|a|, i);
        assert a[Slot(|a|, SidesOf(|a|, i))] == b[Slot(|b|, SidesOf(|b|, i))];
      }
    }
  }

  /** Across lengths it does not: repeating the last of an odd number (3 or more) of leaves changes nothing. */
  lemma {:induction false} DuplicateLastCollides(a: seq<Hash>)
    requires |a| >= 3 && |a| % 2 == 1
    ensures Root(a) == Root(a + [a[|a| - 1]])
  {
    var b := a + [a[|a| - 1]];
    assert Parents(a) == Parents(b);
  }

  // ---------------------------------------------------------------- the source's class and loops

  class MerkleTree {
    var leaves: seq<Hash>

    constructor ()
      ensures leaves == []
    {
      leaves := [];
    }

    method Append(leaf: Hash) returns (index: nat)
      modifies this
      ensures leaves == old(leaves) + [leaf]
      ensures index == |old(leaves)|
    {
      leaves := leaves + [leaf];
      index := |leaves| - 1;
    }

    method TruncateTo(n: int)
      modifies this
      ensures n < 0 ==> leaves == []
      ensures 0 <= n <= |old(leaves)| ==> leaves == old(leaves)[..n]
      ensures n > |old(leaves)| ==> leaves == old(leaves)
    {
      var m := n;
      if m < 0 { m := 0; }
      if m > |leaves| { m := |leaves|; }
      leaves := leaves[..m];
    }

    method CurrentRoot() returns (r: Hash)
      ensures r == Root(leaves)
    {
      if |leaves| == 0 { return ZERO; }
      var level := leaves;
      while |level| > 1
        invariant |level| > 0 && RootOf(level) == RootOf(leaves)
        decreases |level|
      {
        level := NextLevel(level);
      }
      r := level[0];
    }

    method MakeProof(index: int) returns (proof: Proof, ok: bool)
      ensures ok <==> 0 <= index < |leaves|
      ensures ok ==> proof == Proof(index, SiblingsOf(leaves, index), SidesOf(|leaves|, index))
      ensures ok ==> |proof.siblings| == |proof.onRight|
      ensures ok ==> Climb(leaves[index], proof.siblings, proof.onRight) == Root(leaves)
    {
      if index < 0 || index >= |leaves| { return Proof(0, [], []), false; }
      var level, idx := leaves, index;
      var siblings: seq<Hash>, onRight: seq<bool> := [], [];
      while |level| > 1
        invariant 0 <= idx < |level|
        invariant |siblings| == |onRight|
        invariant siblings + SiblingsOf(level, idx) == SiblingsOf(leaves, index)
        invariant onRight + SidesOf(|level|, idx) == SidesOf(|leaves|, index)
        decreases |level|
      {
        var sibling := SiblingOf(level, idx);
        PathGrows(level, idx, siblings, onRight);
        siblings, onRight := siblings + [sibling], onRight + [idx % 2 == 0];
        level := NextLevel(level);
        idx := idx / 2;
      }
      ProofsVerify(leaves, index);
      return Proof(index, siblings, onRight), true;
    }
  }

  method SiblingOf(level: seq<Hash>, idx: nat) returns (sibling: Hash)
    requires idx < |level| && |level| > 1
    ensures sibling == level[SiblingIndex(|level|, idx)]
  {
    var padded := level;
    if |padded| % 2 == 1 { padded := padded + [padded[|padded| - 1]]; }
    if idx % 2 == 0 { sibling := padded[idx + 1]; } else { sibling := padded[idx - 1]; }
  }

  method NextLevel(level: seq<Hash>) returns (next: seq<Hash>)
    requires |level| > 1
    ensures next == Parents(level)
  {
    var padded := level;
    if |padded| % 2 == 1 { padded := padded + [padded[|padded| - 1]]; }
    next := [];
    for i := 0 to |padded| / 2
      invariant next == Parents(level)[..i]
    {
      next := next + [Pair(padded[2 * i], padded[2 * i + 1])];
    }
  }

  method VerifyMerkleProof(leaf: Hash, proof: Proof, root: Hash) returns (ok: bool)
    requires |proof.siblings| <= |proof.onRight| // a missing direction is an index out of range
    ensures ok <==> Climb(leaf, proof.siblings, proof.onRight[..|proof.siblings|]) == root
  {
    var cur := leaf;
    ghost var onRight := proof.onRight[..|proof.siblings|];
    for i := 0 to |proof.siblings|
      invariant Climb(cur, proof.siblings[i..], onRight[i..]) == Climb(leaf, proof.siblings, onRight)
    {
      cur := Combine(cur, proof.siblings[i], proof.onRight[i]);
    }
    ok := cur == root;
  }

  /** Rolling back any number of tentative appends restores leaves and root. */
  method RollBack(tree: MerkleTree, batch: seq<Hash>)
    modifies tree
    ensures tree.leaves == old(tree.leaves)
  {
    var n := |tree.leaves|;
    for i := 0 to |batch|
      invariant tree.leaves == old(tree.leaves) + batch[..i]
    {
      var _ := tree.Append(batch[i]);
    }
    tree.TruncateTo(n);
  }
}
