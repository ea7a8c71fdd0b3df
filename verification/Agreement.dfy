/** Blocks, header hashes and the append gate of pkg/chain/chain.go, and agreement between nodes
    that only ever grow through it. */
module Agreement {
  import opened Hashing
  import opened Bft

  /** A block; `batch` lists the ids of its transactions. */
  datatype Block = Block(height: nat, epoch: nat, prevHash: Hash, timestamp: int, batch: seq<Hash>,
                         txRoot: Hash, stateRoot: Hash, daRoot: Hash, proposer: Hash,
                         votes: seq<Vote>, dualTrack: bool)

  /** The header hash: every field but the batch and the votes. */
  function HashBlock(b: Block): Hash {
    Sum([OfWord(b.height), OfWord(b.epoch), OfHash(b.prevHash), OfWord(b.timestamp), OfHash(b.txRoot),
         OfHash(b.stateRoot), OfHash(b.daRoot), OfHash(b.proposer), OfFlag(b.dualTrack)])
  }

  lemma {:induction false} HeaderInjective(b: Block, c: Block)
    requires HashBlock(b) == HashBlock(c)
    ensures b.height == c.height && b.prevHash == c.prevHash
    ensures b.txRoot == c.txRoot && b.stateRoot == c.stateRoot && b.epoch == c.epoch
  {
    var p, q := HashBlock(b).parts, HashBlock(c).parts;
    assert p[0] == q[0] && p[1] == q[1] && p[2] == q[2] && p[4] == q[4] && p[5] == q[5];
  }

  function Genesis(time: int): Block {
    Block(0, 0, ZERO, time, [], ZERO, ZERO, ZERO, ZERO, [], false)
  }

  /** A node's registry of public keys, and the signature check. */
  datatype Keys = Keys(lookup: Hash -> Option<string>, verify: (string, Hash, string) -> bool)

  predicate Checked(v: Vote, candidate: Hash, keys: Keys) {
    var pk := keys.lookup(v.validator);
    pk.Some? && keys.verify(pk.value, candidate, v.sig)
  }

  function VerifiedVotes(votes: seq<Vote>, candidate: Hash, keys: Keys): (r: seq<Vote>)
    ensures forall v :: v in r <==> v in votes && Checked(v, candidate, keys)
  {
    if votes == [] then []
    else
      var last := votes[|votes| - 1];
      VerifiedVotes(votes[..|votes| - 1], candidate, keys) + if Checked(last, candidate, keys) then [last] else []
  }

  predicate Quorate(b: Block, committee: seq<Hash>, keys: Keys) {
    QuorumMet(|committee|, |Endorsers(committee, HashBlock(b), VerifiedVotes(b.votes, HashBlock(b), keys))|)
  }

  /** The whole gate: b chains onto the head and carries a verified quorum. */
  predicate AppendOk(headHeight: nat, headHash: Hash, b: Block, committee: seq<Hash>, keys: Keys) {
    b.height == headHeight + 1 && b.prevHash == headHash && Quorate(b, committee, keys)
  }

  /** Among the votes of b is one of m for b's header, whose signature verifies under the key registered for m. */
  predicate SignedBy(m: Hash, b: Block, keys: Keys) {
    exists v :: v in b.votes && v.validator == m && v.stateRoot == HashBlock(b)
      && keys.lookup(m).Some? && keys.verify(keys.lookup(m).value, HashBlock(b), v.sig)
  }

  /** The committee members who signed. */
  function Signers(b: Block, committee: seq<Hash>, keys: Keys): set<Hash> {
    set m | m in committee && SignedBy(m, b, keys)
  }

  lemma {:induction false} EndorsersSigned(b: Block, committee: seq<Hash>, keys: Keys)
    ensures Endorsers(committee, HashBlock(b), VerifiedVotes(b.votes, HashBlock(b), keys)) == Signers(b, committee, keys)
  {
    var c, vs := HashBlock(b), VerifiedVotes(b.votes, HashBlock(b), keys);
    forall m ensures m in Endorsers(committee, c, vs) <==> m in Signers(b, committee, keys) {
      if m in Signers(b, committee, keys) {
        var v :| v in b.votes && v.validator == m && v.stateRoot == c && keys.lookup(m).Some? && keys.verify(keys.lookup(m).value, c, v.sig);
        assert Checked(v, c, keys) && v in vs;
      }
    }
  }

  /** The gate, spelled out: the next height, the head's hash, and signatures of more than half the committee. */
  lemma {:induction false} AppendOkIff(headHeight: nat, headHash: Hash, b: Block, committee: seq<Hash>, keys: Keys)
    ensures AppendOk(headHeight, headHash, b, committee, keys) <==>
      && b.height == headHeight + 1 && b.prevHash == headHash
      && 2 * |set m | m in committee && (exists v ::
                  v in b.votes && v.validator == m && v.stateRoot == HashBlock(b)
                  && keys.lookup(m).Some? && keys.verify(keys.lookup(m).value, HashBlock(b), v.sig))| > |committee|
  {
    EndorsersSigned(b, committee, keys);
    NobodySigns(b, committee, keys);
    var spelled := set m | m in committee && exists v ::
      v in b.votes && v.validator == m && v.stateRoot == HashBlock(b)
      && keys.lookup(m).Some? && keys.verify(keys.lookup(m).value, HashBlock(b), v.sig);
    assert spelled == Signers(b, committee, keys);
  }

  lemma {:induction false} NobodySigns(b: Block, committee: seq<Hash>, keys: Keys)
    ensures committee == [] ==> Signers(b, committee, keys) == {}
  {
  }

  /** What one node accepts: the committee of each height and its own key registry. */
  datatype Rules = Rules(committee: nat -> seq<Hash>, keys: Keys)

  predicate LinkOk(chain: seq<Block>, rules: Rules, h: nat)
    requires 1 <= h < |chain|
  {
    AppendOk(h - 1, HashBlock(chain[h - 1]), chain[h], rules.committee(h), rules.keys)
  }

  /** A chain grown from a genesis block only by accepted appends. */
  predicate Grown(chain: seq<Block>, rules: Rules) {
    && |chain| > 0
    && chain[0] == Genesis(chain[0].timestamp)
    && forall h :: 1 <= h < |chain| ==> LinkOk(chain, rules, h)
  }

  // ---------------------------------------------------------------- agreement between nodes

  /** m signed, under each node's own keys, two different headers at one height. */
  predicate Equivocates(m: Hash, b: Block, r: Rules, c: Block, s: Rules) {
    && HashBlock(b) != HashBlock(c) && b.height == c.height
    && SignedBy(m, b, r.keys) && SignedBy(m, c, s.keys)
  }

  /** Equal headers at one height mean equal headers at every height below it. */
  lemma {:induction false} EqualHeadersBelow(a: seq<Block>, r: Rules, b: seq<Block>, s: Rules, h: nat, k: nat)
    requires Grown(a, r) && Grown(b, s)
    requires k <= h < |a| && h < |b| && HashBlock(a[h]) == HashBlock(b[h])
    ensures HashBlock(a[k]) == HashBlock(b[k])
    decreases h
  {
    if k < h {
      assert LinkOk(a, r, h) && LinkOk(b, s, h);
      HeaderInjective(a[h], b[h]);
      EqualHeadersBelow(a, r, b, s, h - 1, k);
    }
  }

  /** Two nodes with one genesis block and the same committees either hold the same header at
      every common height, or at the first height where they part some committee member signed both. */
  lemma {:induction false} AccountableAgreement(a: seq<Block>, r: Rules, b: seq<Block>, s: Rules, n: nat)
    returns (fork: Option<nat>, culprit: Hash)
    requires Grown(a, r) && Grown(b, s) && a[0] == b[0] && r.committee == s.committee
    requires 0 < n <= |a| && n <= |b|
    ensures fork.None? ==> forall h :: 0 <= h < n ==> HashBlock(a[h]) == HashBlock(b[h])
    ensures fork.Some? ==>
      && 0 < fork.value < n
      && (forall h :: 0 <= h < fork.value ==> HashBlock(a[h]) == HashBlock(b[h]))
      && a[fork.value].prevHash == b[fork.value].prevHash
      && culprit in r.committee(fork.value)
      && Equivocates(culprit, a[fork.value], r, b[fork.value], s)
      && (exists v :: v in a[fork.value].votes && v.validator == culprit && v.stateRoot == HashBlock(a[fork.value])
           && r.keys.lookup(culprit).Some? && r.keys.verify(r.keys.lookup(culprit).value, HashBlock(a[fork.value]), v.sig))
      && (exists v :: v in b[fork.value].votes && v.validator == culprit && v.stateRoot == HashBlock(b[fork.value])
           && s.keys.lookup(culprit).Some? && s.keys.verify(s.keys.lookup(culprit).value, HashBlock(b[fork.value]), v.sig))
    decreases n
  {
    if n == 1 { return None, ZERO; }
    fork, culprit := AccountableAgreement(a, r, b, s, n - 1);
    var h := n - 1;
    if fork.None? && HashBlock(a[h]) != HashBlock(b[h]) {
      assert LinkOk(a, r, h) && LinkOk(b, s, h);
      culprit := ForkHasCulprit(a[h], r, b[h], s, r.committee(h));
      fork := Some(h);
    }
  }

  /** Without equivocation there is no fork. */
  lemma {:induction false} NoEquivocationNoFork(a: seq<Block>, r: Rules, b: seq<Block>, s: Rules, h: nat)
    requires Grown(a, r) && Grown(b, s) && a[0] == b[0] && r.committee == s.committee
    requires h < |a| && h < |b|
    requires forall k, m | 0 < k <= h && m in r.committee(k) :: !Equivocates(m, a[k], r, b[k], s)
    ensures HashBlock(a[h]) == HashBlock(b[h])
  {
    var fork, culprit := AccountableAgreement(a, r, b, s, h + 1);
  }

  lemma {:induction false} ForkHasCulprit(b: Block, r: Rules, c: Block, s: Rules, committee: seq<Hash>) returns (m: Hash)
    requires HashBlock(b) != HashBlock(c) && b.height == c.height
    requires Quorate(b, committee, r.keys) && Quorate(c, committee, s.keys)
    ensures m in committee && Equivocates(m, b, r, c, s)
  {
    var vs, ws := VerifiedVotes(b.votes, HashBlock(b), r.keys), VerifiedVotes(c.votes, HashBlock(c), s.keys);
    m := QuorumsIntersect(committee, HashBlock(b), vs, HashBlock(c), ws);
    EndorsersSigned(b, committee, r.keys);
    EndorsersSigned(c, committee, s.keys);
  }
}
