/** The chain object of pkg/chain/chain.go, writing through the block rows of pkg/state/store.go. */
module ChainNode {
  import opened Hashing
  import opened Bft
  import opened Agreement
  import opened ChainStore

  class Store {
    var blocks: map<nat, Block>
    var head: Option<nat>
    var txIndex: map<Hash, nat>

    function Rows(): Disk
      reads this
    {
      Disk(blocks, head, txIndex)
    }

    constructor ()
      ensures Rows() == FRESH.disk
    {
      blocks, head, txIndex := map[], None, map[];
    }

    method Put(b: Block)
      modifies this
      ensures Rows() == Apply(old(Rows()), PutBlock(b))
    {
      blocks := blocks[b.height := b];
    }

    method AdvanceHead(h: nat)
      modifies this
      ensures Rows() == Apply(old(Rows()), SetHead(h))
    {
      head := Some(h);
    }

    method Index(id: Hash, h: nat)
      modifies this
      ensures Rows() == Apply(old(Rows()), IndexTx(id, h))
    {
      txIndex := txIndex[id := h];
    }

    method GetTxHeight(id: Hash) returns (h: Option<nat>)
      ensures h == if id in txIndex then Some(txIndex[id]) else None
    {
      if id in txIndex { h := Some(txIndex[id]); } else { h := None; }
    }
  }

  class Chain {
    const store: Store
    var headHeight: nat
    var headHash: Hash

    /** The node this object stands for in the crash model. */
    ghost function AsNode(): Node
      reads this, store
    {
      Node(store.Rows(), Some((headHeight, headHash)))
    }

    constructor (store: Store, headHeight: nat, headHash: Hash)
      ensures this.store == store && this.headHeight == headHeight && this.headHash == headHash
    {
      this.store, this.headHeight, this.headHash := store, headHeight, headHash;
    }

    method NextBlock(epoch: nat, batch: seq<Hash>, txRoot: Hash, stateRoot: Hash, daRoot: Hash, proposer: Hash, time: int)
      returns (b: Block)
      ensures b.height == headHeight + 1 && b.prevHash == headHash && b.votes == [] && b.batch == batch && !b.dualTrack
      ensures (b.epoch, b.timestamp, b.txRoot, b.stateRoot, b.daRoot, b.proposer) == (epoch, time, txRoot, stateRoot, daRoot, proposer)
      ensures forall votes, committee, keys | Quorate(b.(votes := votes), committee, keys) ::
                AppendOk(headHeight, headHash, b.(votes := votes), committee, keys)
    {
      b := Block(headHeight + 1, epoch, headHash, time, batch, txRoot, stateRoot, daRoot, proposer, [], false);
    }

    /** Accepts exactly the blocks the gate admits, performs exactly the writes of one append, and
        changes nothing when it refuses. */
    method Append(b: Block, committee: seq<Hash>, keys: Keys) returns (ok: bool)
      modifies this, store
      ensures ok <==>
        && b.height == old(headHeight) + 1 && b.prevHash == old(headHash)
        && 2 * |set m | m in committee && (exists v ::
                  v in b.votes && v.validator == m && v.stateRoot == HashBlock(b)
                  && keys.lookup(m).Some? && keys.verify(keys.lookup(m).value, HashBlock(b), v.sig))| > |committee|
      ensures ok <==> old(AppendOk(headHeight, headHash, b, committee, keys))
      ensures ok ==> store.Rows() == ApplyAll(old(store.Rows()), AppendWrites(b))
      ensures ok ==> headHeight == b.height && headHash == HashBlock(b)
      ensures !ok ==> store.Rows() == old(store.Rows()) && headHeight == old(headHeight) && headHash == old(headHash)
      ensures forall rules: Rules | rules.keys == keys && rules.committee(b.height) == committee ::
                AsNode() == StepAppend(old(AsNode()), b, rules, NoFault)
    {
      AppendOkIff(headHeight, headHash, b, committee, keys);
      if b.height != headHeight + 1 { return false; }
      if b.prevHash != headHash { return false; }
      var candidate := HashBlock(b);
      var verified := CheckVotes(b.votes, candidate, keys);
      var _, quorum := TallyVotes(committee, candidate, verified);
      if !quorum { return false; }

      Persist(b, candidate);
      return true;
    }

    /** Block first, head second, index last: the order crash recovery depends on. */
    method Persist(b: Block, candidate: Hash)
      modifies this, store
      ensures store.Rows() == ApplyAll(old(store.Rows()), AppendWrites(b))
      ensures headHeight == b.height && headHash == candidate
    {
      ghost var ws, d := AppendWrites(b), store.Rows();
      assert ws[..0] == [] && ws[..1][..0] == ws[..0] && ws[..2][..1] == ws[..1];
      store.Put(b);
      assert store.Rows() == ApplyAll(d, ws[..1]);
      store.AdvanceHead(b.height);
      headHeight := b.height;
      headHash := candidate;
      for i := 0 to |b.batch|
        invariant store.Rows() == ApplyAll(d, ws[..i + 2])
        invariant headHeight == b.height && headHash == candidate
      {
        assert ws[..i + 3][..i + 2] == ws[..i + 2];
        store.Index(b.batch[i], b.height);
      }
      assert ws[..|b.batch| + 2] == ws;
    }
  }

  method CheckVotes(votes: seq<Vote>, candidate: Hash, keys: Keys) returns (verified: seq<Vote>)
    ensures verified == VerifiedVotes(votes, candidate, keys)
  {
    verified := [];
    for i := 0 to |votes|
      invariant verified == VerifiedVotes(votes[..i], candidate, keys)
    {
      var v := votes[i];
      assert votes[..i + 1][..i] == votes[..i];
      var pk := keys.lookup(v.validator);
      if pk.None? { continue; }
      if !keys.verify(pk.value, candidate, v.sig) { continue; }
      verified := verified + [v];
    }
    assert votes[..|votes|] == votes;
  }

  /** Loads the persisted head, or writes a genesis block when there is none. */
  method OpenChain(store: Store, genesisTime: int) returns (c: Chain?)
    modifies store
    ensures var n := StepOpen(Node(old(store.Rows()), None), genesisTime, NoFault);
      && store.Rows() == n.disk
      && (c != null <==> n.up.Some?)
      && (c != null ==> c.store == store && (c.headHeight, c.headHash) == n.up.value)
    ensures c == null <==> old(store.head).Some? && old(store.head).value !in old(store.blocks)
    ensures old(store.head).None? ==>
      && c != null && (c.headHeight, c.headHash) == (0, HashBlock(Genesis(genesisTime)))
      && store.head == Some(0) && store.blocks == old(store.blocks)[0 := Genesis(genesisTime)] && store.txIndex == old(store.txIndex)
    ensures old(store.head).Some? ==>
      && store.Rows() == old(store.Rows())
      && (c != null ==> (c.headHeight, c.headHash) == (store.head.value, HashBlock(store.blocks[store.head.value])))
  {
    ghost var d := store.Rows();
    if store.head.Some? {
      var h := store.head.value;
      if h !in store.blocks { return null; }
      c := new Chain(store, h, HashBlock(store.blocks[h]));
      return c;
    }
    var genesis := Genesis(genesisTime);
    store.Put(genesis);
    store.AdvanceHead(0);
    GenesisPrefix(d, genesisTime, 2);
    assert GenesisWrites(genesisTime)[..2] == GenesisWrites(genesisTime);
    c := new Chain(store, 0, HashBlock(genesis));
  }
}
