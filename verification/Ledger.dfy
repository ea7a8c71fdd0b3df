/** The state the transaction pipeline works on, as values: store rows (pkg/state/store.go), the
    three commitment trees with their root histories (pkg/zk/tree.go, pkg/zk/roots.go), vault and
    parameters; and the shape of a transaction (pkg/types/models.go). */
module Ledger {
  import opened Hashing
  import opened Epoch
  import opened Governance

  // ---------------------------------------------------------------- records

  /** A trait value is literal text or the hex form of a commitment. */
  datatype TraitText = Literal(text: string) | Hex(h: Hash)

  datatype NFT = NFT(id: Hash, owner: Hash, mintedAt: nat, traits: map<string, TraitText>, tp: nat, slashed: bool)

  /** What a proposal does if it passes; fixed by its first vote. */
  datatype Effects = Effects(paramKey: string, newValue: string,
                             mintAmount: uint64, mintOutCommit: Hash, mintStaked: bool, stakePositionCommit: Hash,
                             slashTarget: Hash, slashBurn: bool, unlockTarget: Hash, assetTarget: string, unwindDualSign: bool)

  datatype Applied = Applied(param: bool, mint: bool, slash: bool, unlock: bool, asset: bool, unwind: bool)

  datatype Proposal = Proposal(id: string, epoch: nat, commitments: map<Hash, Hash>, openings: map<Hash, bool>,
                               effects: Effects, applied: Applied,
                               tallied: bool, approve: nat, reject: nat, passed: bool)

  datatype Rows = Rows(spent: set<Hash>, nfts: map<Hash, NFT>, byOwner: map<Hash, Hash>,
                       proposals: map<string, Proposal>, containers: map<string, Hash>, assets: set<string>)

  /** A commitment tree and the roots it has had; either may be unconfigured. */
  datatype Tree = Tree(leaves: Option<seq<Hash>>, roots: Option<set<Hash>>)

  datatype World = World(rows: Rows, stateTree: seq<Hash>, notes: Tree, eligibility: Tree, stakes: Tree,
                         vault: Option<Vault>, gov: Option<Params>)

  // ---------------------------------------------------------------- transactions

  datatype Kind = Transfer | Mint | Vote | BankDeposit | BankWithdraw | NFTTrait | ContainerSync
                | VoteReveal | NFTMint | Unstake | NFTTransfer | Undefined(code: nat)

  datatype TransferInputs = TransferInputs(root: Hash, nullifiers: seq<Hash>, outCommits: seq<Hash>, fee: uint64)
  datatype UnstakeInputs = UnstakeInputs(root: Hash, principal: uint64, startEpoch: uint64, finalAmount: uint64)
  datatype BankInputs = BankInputs(asset: string, price: real, atr: real, buffer: real)
  datatype VoteInputs = VoteInputs(proposal: string, commitment: Hash, effects: Effects, mintProof: string, stakeProof: string)
  datatype RevealInputs = RevealInputs(proposal: string, approve: bool, nonce: Hash)
  datatype EligibilityProof = EligibilityProof(proof: string, root: Hash, nullifier: Hash)
  datatype TraitInputs = TraitInputs(key: string, delta: Hash)
  datatype MintInputs = MintInputs(owner: Hash, nonce: uint64, issuedAt: int, attestor: string, sig: string, voterCommitment: Hash)
  datatype MoveInputs = MoveInputs(target: Hash, newOwner: Hash)

  /** Byte strings are `string`; `memo` is the memo when it is exactly 32 bytes long. */
  datatype Tx = Tx(kind: Kind, txid: Hash, nullifier: Hash, commitments: seq<Hash>, proof: string, feeCommit: Hash,
                   memo: Option<Hash>, sig: string, signer: string, classicalSig: string, classicalKey: string,
                   container: Option<string>, transfer: Option<TransferInputs>, unstake: Option<UnstakeInputs>,
                   bank: Option<BankInputs>, vote: Option<VoteInputs>, opening: Option<RevealInputs>,
                   eligibility: Option<EligibilityProof>, traitUpdate: Option<TraitInputs>,
                   mint: Option<MintInputs>, move: Option<MoveInputs>)

  datatype Quote = Quote(price: real, atr: real)

  /** An oracle answer: agreed now, or only a last agreed snapshot (if any). */
  datatype Reading = Agreed(quote: Quote) | Unavailable(lastGood: Option<Quote>)

  /** What the node supplies: proof and signature checks, clocks, configuration. None is "not configured". */
  datatype Env = Env(
    zk: Option<(string, TransferInputs) -> bool>,
    unstakeZK: Option<(string, UnstakeInputs, Hash, Hash) -> bool>,
    eligibilityZK: Option<(EligibilityProof, Hash) -> bool>,
    mintZK: Option<(string, nat, Hash) -> bool>,
    stakeZK: Option<(string, nat, nat, Hash) -> bool>,
    verifySig: (string, Hash, string) -> bool,
    verifyClassical: (string, Hash, string) -> bool,
    attestors: seq<string>,
    rootOf: seq<Hash> -> Hash,
    size: Tx -> Option<nat>,
    held: Hash -> bool,
    oracle: Option<string -> Reading>, tolerance: real,
    parse: string -> Option<real>,
    epoch: uint64, height: nat, now: int)

  // ---------------------------------------------------------------- hashes

  function AddressOf(key: string): Hash {
    Sum([OfText(key)])
  }

  function TxIdOf(proof: string, commitments: seq<Hash>, nullifier: Hash): Hash {
    Sum([OfText(proof)] + seq(|commitments|, i requires 0 <= i < |commitments| => OfHash(commitments[i])) + [OfHash(nullifier)])
  }

  function NftIdOf(owner: Hash, nonce: uint64): Hash {
    Sum([OfHash(owner), OfWord(nonce)])
  }

  function AttestationOf(owner: Hash, nonce: uint64, issuedAt: int): Hash {
    Sum([OfHash(owner), OfWord(nonce), OfWord(issuedAt)])
  }

  function VoteScope(proposal: string): Hash {
    Sum([OfText("shadowforge-vote-eligibility-scope-v1"), OfText(proposal)])
  }

  /** The sealed ballot. */
  function BallotSeal(voter: Hash, approve: bool, nonce: Hash): Hash {
    Sum([OfHash(voter), OfFlag(approve), OfHash(nonce)])
  }

  lemma {:induction false} SealOpensOneWay(voter: Hash, approve: bool, nonce: Hash, voter': Hash, approve': bool, nonce': Hash)
    requires BallotSeal(voter, approve, nonce) == BallotSeal(voter', approve', nonce')
    ensures voter == voter' && approve == approve' && nonce == nonce'
  {
    var p, q := BallotSeal(voter, approve, nonce).parts, BallotSeal(voter', approve', nonce').parts;
    assert p[0] == q[0] && p[1] == q[1] && p[2] == q[2];
  }

  // ---------------------------------------------------------------- store rows

  function PutNFT(r: Rows, n: NFT): Rows {
    r.(nfts := r.nfts[n.id := n], byOwner := r.byOwner[n.owner := n.id])
  }

  function DeleteNFT(r: Rows, n: NFT): Rows {
    r.(nfts := r.nfts - {n.id}, byOwner := r.byOwner - {n.owner})
  }

  function TransferNFTOwner(r: Rows, oldOwner: Hash, n: NFT): Rows {
    PutNFT(r.(byOwner := r.byOwner - {oldOwner}), n)
  }

  function NFTByOwner(r: Rows, owner: Hash): Option<NFT> {
    if owner in r.byOwner && r.byOwner[owner] in r.nfts then Some(r.nfts[r.byOwner[owner]]) else None
  }

  function PutProposal(r: Rows, p: Proposal): Rows {
    r.(proposals := r.proposals[p.id := p])
  }

  // ---------------------------------------------------------------- trees

  const CAPACITY := 0x1_0000_0000

  predicate HasRoom(t: Tree, k: nat) {
    t.leaves.Some? ==> |t.leaves.value| + k <= CAPACITY
  }

  /** Inserts the commitments and records the new root, as far as each part is configured. */
  function Insert(t: Tree, cs: seq<Hash>, rootOf: seq<Hash> -> Hash): Tree {
    if t.leaves.None? then t
    else
      var leaves := t.leaves.value + cs;
      Tree(Some(leaves), if t.roots.Some? then Some(t.roots.value + {rootOf(leaves)}) else None)
  }

  predicate KnowsRoot(t: Tree, root: Hash) {
    t.roots.Some? && root in t.roots.value
  }
}
