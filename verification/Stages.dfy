/** The five stages of pkg/tx/pipeline.go and the epoch-boundary tally, as functions on the ledger. */
module Stages {
  import opened Hashing
  import opened Epoch
  import opened Governance
  import opened Ledger
  import Staking

  const TX_TTL := 60_000 // milliseconds
  const MAX_TX_SIZE := 262_144
  const ATTESTATION_TTL := 900_000 // milliseconds
  const NATIVE_ASSET := "SFG"
  const TRANSFERABLE := "transferable"
  const DELTA_SUFFIX := "_last_delta_commitment"

  datatype Outcome = Committed | Rejected(stage: nat)

  /** The nullifiers a transaction reserves and spends. */
  function Nullifiers(tx: Tx): seq<Hash> {
    if tx.kind.Transfer? then (if tx.transfer.Some? then tx.transfer.value.nullifiers else [])
    else if tx.kind.Unstake? then [tx.nullifier]
    else []
  }

  function SetOf(ns: seq<Hash>): set<Hash> {
    set n | n in ns
  }

  // ---------------------------------------------------------------- stage 1

  predicate Reservable(w: World, pending: set<Hash>, ns: seq<Hash>) {
    forall n :: n in ns ==> n !in pending && n !in w.rows.spent
  }

  predicate Stage1Transfer(w: World, pending: set<Hash>, tx: Tx, env: Env) {
    tx.transfer.Some? &&
    var pub := tx.transfer.value;
    && pub.nullifiers != [] && Reservable(w, pending, pub.nullifiers)
    && env.zk.Some?
    && (w.notes.roots.Some? ==> pub.root in w.notes.roots.value)
    && env.zk.value(tx.proof, pub)
  }

  predicate Stage1Unstake(w: World, pending: set<Hash>, tx: Tx, env: Env) {
    tx.unstake.Some? && |tx.commitments| == 1 &&
    var pub := tx.unstake.value;
    && Reservable(w, pending, [tx.nullifier])
    && env.unstakeZK.Some? && KnowsRoot(w.stakes, pub.root)
    && pub.finalAmount == Staking.FinalAmount(pub.principal, pub.startEpoch, env.epoch)
    && env.unstakeZK.value(tx.proof, pub, tx.nullifier, tx.commitments[0])
  }

  predicate Stage1(w: World, pending: set<Hash>, tx: Tx, env: Env) {
    if tx.kind.Transfer? then Stage1Transfer(w, pending, tx, env)
    else if tx.kind.Unstake? then Stage1Unstake(w, pending, tx, env)
    else true
  }

  // ---------------------------------------------------------------- stages 2 and 3

  predicate Signed(w: World, tx: Tx, env: Env) {
    && tx.txid == TxIdOf(tx.proof, tx.commitments, tx.nullifier)
    && tx.sig != "" && tx.signer != ""
    && env.verifySig(tx.signer, tx.txid, tx.sig)
    && (tx.classicalSig != "" || tx.classicalKey != "" ==>
          && (w.gov.Some? ==> w.gov.value.dualSign)
          && tx.classicalSig != "" && tx.classicalKey != ""
          && env.verifyClassical(tx.classicalKey, tx.txid, tx.classicalSig))
  }

  predicate VoteWellFormed(tx: Tx) {
    tx.vote.Some? && tx.eligibility.Some? &&
    var (e, pub) := (tx.vote.value.effects, tx.vote.value);
    e.mintAmount != 0 ==>
      if e.mintStaked then pub.stakeProof != "" && e.stakePositionCommit != ZERO
      else pub.mintProof != "" && e.mintOutCommit != ZERO
  }

  predicate WellFormed(tx: Tx) {
    match tx.kind
    case Transfer => tx.feeCommit != ZERO
    case Mint => true
    case Vote => VoteWellFormed(tx)
    case BankDeposit => tx.bank.Some?
    case BankWithdraw => tx.bank.Some?
    case NFTTrait => tx.traitUpdate.Some?
    case ContainerSync => true
    case VoteReveal => tx.opening.Some? && tx.eligibility.Some?
    case NFTMint => tx.mint.Some?
    case Unstake => tx.unstake.Some? && tx.proof != "" && tx.nullifier != ZERO
    case NFTTransfer => tx.move.Some? && tx.move.value.target != ZERO
    case Undefined(_) => false
  }

  predicate Stage2(w: World, tx: Tx, env: Env, submittedAt: Option<int>) {
    && !tx.kind.Undefined?
    && (submittedAt.Some? ==> env.now - submittedAt.value <= TX_TTL)
    && (env.size(tx).Some? ==> env.size(tx).value <= MAX_TX_SIZE)
    && Signed(w, tx, env)
    && !env.held(AddressOf(tx.signer))
    && WellFormed(tx)
  }

  predicate Stage3(tx: Tx) {
    && (tx.kind.Transfer? ==> tx.transfer.Some? && tx.transfer.value.outCommits != [])
    && (tx.container.Some? ==> tx.container.value != "")
  }

  // ---------------------------------------------------------------- stage 4, one function per kind

  /** Working state after stage 4, and whether it succeeded. */
  datatype Exec = Exec(world: World, ok: bool)

  function ExecTransfer(w: World, tx: Tx, env: Env): Exec
    requires tx.transfer.Some?
  {
    var outs := tx.transfer.value.outCommits;
    if !HasRoom(w.notes, |outs|) then Exec(w, false)
    else Exec(w.(stateTree := w.stateTree + outs, notes := Insert(w.notes, outs, env.rootOf)), true)
  }

  function Multiple(w: World, deposit: bool): real {
    if w.gov.Some? then (if deposit then w.gov.value.ratios.depositATR else w.gov.value.ratios.withdrawATR)
    else if deposit then 2.5 else 1.5
  }

  function Abs(x: real): real {
    if x < 0.0 then -x else x
  }

  predicate WithinTolerance(claimed: real, actual: real, tolerance: real) {
    if actual <= 0.0 then claimed == 0.0 else Abs(claimed - actual) / actual <= tolerance
  }

  predicate OraclePriceOk(deposit: bool, pub: BankInputs, env: Env) {
    env.oracle.Some? ==>
      var reading := env.oracle.value(pub.asset);
      var quote := if reading.Agreed? then Some(reading.quote) else if deposit then None else reading.lastGood;
      var tolerance := if env.tolerance <= 0.0 then 0.02 else env.tolerance;
      && quote.Some?
      && WithinTolerance(pub.price, quote.value.price, tolerance)
      && WithinTolerance(pub.atr, quote.value.atr, tolerance)
  }

  function ExecBank(w: World, tx: Tx, env: Env): Exec
    requires tx.bank.Some?
  {
    var pub, deposit := tx.bank.value, tx.kind.BankDeposit?;
    if (pub.asset != "" && pub.asset != NATIVE_ASSET && pub.asset !in w.rows.assets)
       || pub.buffer != Multiple(w, deposit) * pub.atr || !OraclePriceOk(deposit, pub, env)
    then Exec(w, false)
    else Exec(w.(stateTree := w.stateTree + tx.commitments), true)
  }

  function ExecTrait(w: World, tx: Tx): Exec
    requires tx.traitUpdate.Some?
  {
    if tx.commitments == [] || tx.commitments[0] !in w.rows.nfts then Exec(w, false)
    else
      var n, pub := w.rows.nfts[tx.commitments[0]], tx.traitUpdate.value;
      Exec(w.(rows := PutNFT(w.rows, n.(traits := n.traits[pub.key + DELTA_SUFFIX := Hex(pub.delta)]))), true)
  }

  /** The anonymous voter behind an eligibility proof, if it checks out. */
  function EligibleVoter(w: World, proof: Option<EligibilityProof>, proposal: string, env: Env): Option<Hash> {
    if env.eligibilityZK.None? || proof.None? || !KnowsRoot(w.eligibility, proof.value.root)
       || !env.eligibilityZK.value(proof.value, VoteScope(proposal))
    then None
    else Some(proof.value.nullifier)
  }

  function MintFee(amount: uint64): nat {
    amount / 10
  }

  predicate MintClaimOk(pub: VoteInputs, env: Env) {
    var e := pub.effects;
    e.mintAmount != 0 ==>
      if e.mintStaked then
        env.stakeZK.Some? && env.stakeZK.value(pub.stakeProof, e.mintAmount, env.epoch, e.stakePositionCommit)
      else
        env.mintZK.Some? && env.mintZK.value(pub.mintProof, e.mintAmount - MintFee(e.mintAmount), e.mintOutCommit)
  }

  /** Checks made once, when the first vote binds a proposal's effects. */
  predicate EffectsOk(w: World, pub: VoteInputs, env: Env) {
    var e := pub.effects;
    && MintClaimOk(pub, env)
    && (e.slashTarget != ZERO ==> e.slashTarget in w.rows.nfts)
    && (e.unlockTarget != ZERO ==> e.unlockTarget in w.rows.nfts)
    && (e.assetTarget != "" ==> e.assetTarget != NATIVE_ASSET && e.assetTarget !in w.rows.assets)
    && (e.unwindDualSign && w.gov.Some? ==> w.gov.value.dualSign)
  }

  const NOTHING_APPLIED := Applied(false, false, false, false, false, false)

  function NewProposal(pub: VoteInputs, epoch: nat): Proposal {
    Proposal(pub.proposal, epoch, map[], map[], pub.effects, NOTHING_APPLIED, false, 0, 0, false)
  }

  function ExecVote(w: World, tx: Tx, env: Env): Exec
    requires tx.vote.Some?
  {
    var pub := tx.vote.value;
    var voter := EligibleVoter(w, tx.eligibility, pub.proposal, env);
    if voter.None? || (pub.proposal !in w.rows.proposals && !EffectsOk(w, pub, env)) then Exec(w, false)
    else
      var p := if pub.proposal in w.rows.proposals then w.rows.proposals[pub.proposal] else NewProposal(pub, env.epoch);
      if p.tallied || voter.value in p.commitments then Exec(w, false)
      else Exec(w.(rows := PutProposal(w.rows, p.(commitments := p.commitments[voter.value := pub.commitment]))), true)
  }

  function ExecReveal(w: World, tx: Tx, env: Env): Exec
    requires tx.opening.Some?
  {
    var pub := tx.opening.value;
    var voter := EligibleVoter(w, tx.eligibility, pub.proposal, env);
    if voter.None? || pub.proposal !in w.rows.proposals then Exec(w, false)
    else
      var p := w.rows.proposals[pub.proposal];
      if p.tallied || voter.value !in p.commitments
         || (voter.value in p.openings && p.openings[voter.value]) // a revealed "reject" may come again
         || BallotSeal(voter.value, pub.approve, pub.nonce) != p.commitments[voter.value]
      then Exec(w, false)
      else Exec(w.(rows := PutProposal(w.rows, p.(openings := p.openings[voter.value := pub.approve]))), true)
  }

  function ExecContainer(w: World, tx: Tx): Exec {
    if tx.container.None? || tx.commitments == [] then Exec(w, false)
    else
      var id, root := tx.container.value, tx.commitments[0];
      if id in w.rows.containers && tx.memo != Some(root) then Exec(w, false)
      else Exec(w.(rows := w.rows.(containers := w.rows.containers[id := root])), true)
  }

  predicate AttestationOk(pub: MintInputs, env: Env) {
    var age := env.now - pub.issuedAt;
    && pub.attestor in env.attestors
    && env.verifySig(pub.attestor, AttestationOf(pub.owner, pub.nonce, pub.issuedAt), pub.sig)
    && 0 <= age <= ATTESTATION_TTL
  }

  function FreshNFT(pub: MintInputs, height: nat): NFT {
    NFT(NftIdOf(pub.owner, pub.nonce), pub.owner, height, map[], 0, false)
  }

  /** The record is stored before the eligibility tree is asked for room. */
  function ExecNFTMint(w: World, tx: Tx, env: Env): Exec
    requires tx.mint.Some?
  {
    var pub := tx.mint.value;
    if NFTByOwner(w.rows, pub.owner).Some? || !AttestationOk(pub, env) then Exec(w, false)
    else
      var w1 := w.(rows := PutNFT(w.rows, FreshNFT(pub, env.height)));
      if !HasRoom(w.eligibility, 1) then Exec(w1, false)
      else Exec(w1.(eligibility := Insert(w1.eligibility, [pub.voterCommitment], env.rootOf)), true)
  }

  function ExecUnstake(w: World, tx: Tx, env: Env): Exec
    requires |tx.commitments| == 1
  {
    if !HasRoom(w.notes, 1) then Exec(w, false)
    else if w.notes.leaves.None? then Exec(w, true)
    else Exec(w.(stateTree := w.stateTree + tx.commitments, notes := Insert(w.notes, tx.commitments, env.rootOf)), true)
  }

  predicate Transferable(n: NFT) {
    TRANSFERABLE in n.traits && n.traits[TRANSFERABLE] == Literal("true")
  }

  function ExecNFTTransfer(w: World, tx: Tx): Exec
    requires tx.move.Some?
  {
    var pub := tx.move.value;
    if pub.target !in w.rows.nfts then Exec(w, false)
    else
      var n, holder := w.rows.nfts[pub.target], NFTByOwner(w.rows, pub.newOwner);
      if AddressOf(tx.signer) != n.owner || n.slashed || !Transferable(n)
         || (holder.Some? && holder.value.id != pub.target)
      then Exec(w, false)
      else Exec(w.(rows := TransferNFTOwner(w.rows, n.owner, n.(owner := pub.newOwner))), true)
  }

  function Stage4(w: World, tx: Tx, env: Env): Exec
    requires WellFormed(tx)
    requires tx.kind.Transfer? ==> tx.transfer.Some?
    requires tx.kind.Unstake? ==> |tx.commitments| == 1
  {
    match tx.kind
    case Transfer => ExecTransfer(w, tx, env)
    case Mint => Exec(w, true)
    case Vote => ExecVote(w, tx, env)
    case BankDeposit => ExecBank(w, tx, env)
    case BankWithdraw => ExecBank(w, tx, env)
    case NFTTrait => ExecTrait(w, tx)
    case ContainerSync => ExecContainer(w, tx)
    case VoteReveal => ExecReveal(w, tx, env)
    case NFTMint => ExecNFTMint(w, tx, env)
    case Unstake => ExecUnstake(w, tx, env)
    case NFTTransfer => ExecNFTTransfer(w, tx)
  }

  // ---------------------------------------------------------------- stage 5

  /** Test-and-set on each nullifier in turn; stops at the first already spent. */
  function MarkSpent(spent: set<Hash>, ns: seq<Hash>): (set<Hash>, bool)
    decreases |ns|
  {
    if ns == [] then (spent, true)
    else if ns[0] in spent then (spent, false)
    else MarkSpent(spent + {ns[0]}, ns[1..])
  }

  function CollectTransferFee(w: World, tx: Tx): World {
    if tx.kind.Transfer? && tx.transfer.Some? && w.vault.Some?
    then w.(vault := Some(CollectFee(w.vault.value, AsInt64(tx.transfer.value.fee) as real))) else w
  }

  function Stage5(w: World, tx: Tx): Exec {
    var (spent, ok) := MarkSpent(w.rows.spent, Nullifiers(tx));
    var w1 := w.(rows := w.rows.(spent := spent));
    if ok then Exec(CollectTransferFee(w1, tx), true) else Exec(w1, false)
  }

  // ---------------------------------------------------------------- one transaction

  datatype Result = Result(world: World, pending: set<Hash>, outcome: Outcome)

  function ProcessOne(w: World, pending: set<Hash>, tx: Tx, env: Env, submittedAt: Option<int>): Result {
    if !Stage1(w, pending, tx, env) then Result(w, pending, Rejected(1))
    else
      var ns := SetOf(Nullifiers(tx));
      var released := pending - ns;
      if !Stage2(w, tx, env, submittedAt) then Result(w, released, Rejected(2))
      else if !Stage3(tx) then Result(w, released, Rejected(3))
      else
        var e4 := Stage4(w, tx, env);
        if !e4.ok then Result(e4.world, released, Rejected(4))
        else
          var e5 := Stage5(e4.world, tx);
          if !e5.ok then Result(e5.world, released, Rejected(5))
          else Result(e5.world, released, Committed)
  }

  /** The outcomes of a batch and the state it leaves. */
  function Batch(w: World, pending: set<Hash>, entries: seq<(Tx, Option<int>)>, env: Env): (World, set<Hash>, seq<Outcome>)
    decreases |entries|
  {
    if entries == [] then (w, pending, [])
    else
      var (w1, p1, os) := Batch(w, pending, entries[..|entries| - 1], env);
      var last := entries[|entries| - 1];
      var r := ProcessOne(w1, p1, last.0, env, last.1);
      (r.world, r.pending, os + [r.outcome])
  }

  // ---------------------------------------------------------------- the tally

  predicate Due(p: Proposal, epoch: nat) {
    !p.tallied && p.epoch < epoch
  }

  /** The record with its counts, before any effect is applied. */
  function Counted(p: Proposal, eligible: nat): Proposal {
    var t := Verdict(|Choosing(p.openings, true)|, |Choosing(p.openings, false)|, eligible, MIN_TURNOUT);
    p.(tallied := true, approve := t.approve, reject := t.reject, passed := t.passed)
  }

  function ApplyParam(w: World, p: Proposal, env: Env): (r: (World, Proposal))
    ensures r.0 == w.(gov := r.0.gov, vault := r.0.vault)
    ensures r.1 == p.(applied := p.applied.(param := r.1.applied.param))
  {
    if !p.passed || p.effects.paramKey == "" || w.gov.None? then (w, p)
    else
      var g := ChangeParam(w.gov.value, p.effects.paramKey, env.parse(p.effects.newValue));
      if g.None? then (w, p)
      else
        var vault := if IsVaultShareKey(p.effects.paramKey) && w.vault.Some? then Some(w.vault.value.(splits := SplitsOf(g.value))) else w.vault;
        (w.(gov := g, vault := vault), p.(applied := p.applied.(param := true)))
  }

  function ApplyMint(w: World, p: Proposal, env: Env): (r: (World, Proposal))
    ensures r.0 == w.(notes := r.0.notes, stakes := r.0.stakes, stateTree := r.0.stateTree, vault := r.0.vault)
    ensures r.1 == p.(applied := p.applied.(mint := r.1.applied.mint))
  {
    var e := p.effects;
    if !p.passed || e.mintAmount == 0 then (w, p)
    else if e.mintStaked then
      if w.stakes.leaves.None? || !HasRoom(w.stakes, 1) then (w, p)
      else (w.(stakes := Insert(w.stakes, [e.stakePositionCommit], env.rootOf)), p.(applied := p.applied.(mint := true)))
    else if w.notes.leaves.None? || !HasRoom(w.notes, 1) then (w, p)
    else
      var vault := if w.vault.Some? then Some(CollectFee(w.vault.value, AsInt64(MintFee(e.mintAmount)) as real)) else None;
      (w.(notes := Insert(w.notes, [e.mintOutCommit], env.rootOf), stateTree := w.stateTree + [e.mintOutCommit], vault := vault),
       p.(applied := p.applied.(mint := true)))
  }

  function ApplySlash(w: World, p: Proposal): (r: (World, Proposal))
    ensures r.0 == w.(rows := w.rows.(nfts := r.0.rows.nfts, byOwner := r.0.rows.byOwner))
    ensures r.1 == p.(applied := p.applied.(slash := r.1.applied.slash))
  {
    var e := p.effects;
    if !p.passed || e.slashTarget == ZERO || e.slashTarget !in w.rows.nfts then (w, p)
    else
      var n := w.rows.nfts[e.slashTarget];
      var rows := if e.slashBurn then DeleteNFT(w.rows, n.(slashed := true, tp := 0)) else PutNFT(w.rows, n.(slashed := true));
      (w.(rows := rows), p.(applied := p.applied.(slash := true)))
  }

  function ApplyUnlock(w: World, p: Proposal): (r: (World, Proposal))
    ensures r.0 == w.(rows := w.rows.(nfts := r.0.rows.nfts, byOwner := r.0.rows.byOwner))
    ensures r.1 == p.(applied := p.applied.(unlock := r.1.applied.unlock))
  {
    var e := p.effects;
    if !p.passed || e.unlockTarget == ZERO || e.unlockTarget !in w.rows.nfts then (w, p)
    else
      var n := w.rows.nfts[e.unlockTarget];
      (w.(rows := PutNFT(w.rows, n.(traits := n.traits[TRANSFERABLE := Literal("true")]))), p.(applied := p.applied.(unlock := true)))
  }

  function ApplyAsset(w: World, p: Proposal): (r: (World, Proposal))
    ensures r.0 == w.(rows := w.rows.(assets := r.0.rows.assets)) && w.rows.assets <= r.0.rows.assets
    ensures r.1 == p.(applied := p.applied.(asset := r.1.applied.asset))
  {
    if !p.passed || p.effects.assetTarget == "" then (w, p)
    else (w.(rows := w.rows.(assets := w.rows.assets + {p.effects.assetTarget})), p.(applied := p.applied.(asset := true)))
  }

  function ApplyUnwind(w: World, p: Proposal): (r: (World, Proposal))
    ensures r.0 == w.(gov := r.0.gov)
    ensures r.1 == p.(applied := p.applied.(unwind := r.1.applied.unwind))
  {
    if !p.passed || !p.effects.unwindDualSign || w.gov.None? then (w, p)
    else (w.(gov := Some(w.gov.value.(dualSign := false))), p.(applied := p.applied.(unwind := true)))
  }

  /** The effects on store rows and the dual-sign flag, in source order. */
  function ApplyRowEffects(w: World, p: Proposal): (r: (World, Proposal))
    ensures r.0 == w.(gov := r.0.gov,
                      rows := w.rows.(nfts := r.0.rows.nfts, byOwner := r.0.rows.byOwner, assets := r.0.rows.assets))
    ensures r.1 == p.(applied := r.1.applied) && r.1.applied.mint == p.applied.mint && r.1.applied.param == p.applied.param
  {
    var (w3, p3) := ApplySlash(w, p);
    var (w4, p4) := ApplyUnlock(w3, p3);
    var (w5, p5) := ApplyAsset(w4, p4);
    ApplyUnwind(w5, p5)
  }

  /** All effects of one counted proposal, in the order the source runs them. */
  function ApplyEffects(w: World, p: Proposal, env: Env): (r: (World, Proposal))
    ensures r.0.rows == w.rows.(nfts := r.0.rows.nfts, byOwner := r.0.rows.byOwner, assets := r.0.rows.assets)
    ensures r.0.eligibility == w.eligibility
    ensures r.1 == p.(applied := r.1.applied)
  {
    var (w1, p1) := ApplyParam(w, p, env);
    var (w2, p2) := ApplyMint(w1, p1, env);
    ApplyRowEffects(w2, p2)
  }

  function TallyOne(w: World, p: Proposal, eligible: nat, env: Env): (r: World)
    ensures r.rows.spent == w.rows.spent && r.rows.containers == w.rows.containers && r.eligibility == w.eligibility
    ensures p.id in r.rows.proposals && r.rows.proposals == w.rows.proposals[p.id := r.rows.proposals[p.id]]
    ensures r.rows.proposals[p.id] == Counted(p, eligible).(applied := r.rows.proposals[p.id].applied)
  {
    var (w1, p1) := ApplyEffects(w, Counted(p, eligible), env);
    w1.(rows := PutProposal(w1.rows, p1))
  }

  function TallyEach(w: World, order: seq<Proposal>, epoch: nat, eligible: nat, env: Env): World
    decreases |order|
  {
    if order == [] then w
    else
      var w1 := TallyEach(w, order[..|order| - 1], epoch, eligible, env);
      var p := order[|order| - 1];
      if Due(p, epoch) then TallyOne(w1, p, eligible, env) else w1
  }

  /** order lists every stored proposal once. */
  ghost predicate IsListing(order: seq<Proposal>, proposals: map<string, Proposal>) {
    && (forall i, j :: 0 <= i < j < |order| ==> order[i].id != order[j].id)
    && (forall i :: 0 <= i < |order| ==> order[i].id in proposals && proposals[order[i].id] == order[i])
    && (forall id :: id in proposals ==> exists i :: 0 <= i < |order| && order[i].id == id)
  }

  /** The electorate is counted once, before any proposal takes effect. */
  function TallyDue(w: World, order: seq<Proposal>, epoch: nat, env: Env): World {
    TallyEach(w, order, epoch, |w.rows.nfts|, env)
  }
}
