/** Exactly which transactions the pipeline accepts, and what each leaves, told flatly from the transaction,
    the ledger and the node's configuration instead of stage by stage (pkg/tx/pipeline.go:219-1217). */
module Acceptance {
  import opened Hashing
  import opened Epoch
  import opened Governance
  import opened Ledger
  import opened Stages
  import opened Atomicity
  import opened BallotRuns
  import Staking

  predicate Accepted(w: World, pending: set<Hash>, tx: Tx, env: Env, at: Option<int>) {
    ProcessOne(w, pending, tx, env, at).outcome == Committed
  }

  function Left(w: World, pending: set<Hash>, tx: Tx, env: Env, at: Option<int>): World {
    ProcessOne(w, pending, tx, env, at).world
  }

  /** What every kind must bring: it is young and small enough, its id is its own hash, its signature verifies
      (and so does the second one, if it has one and dual signing is still in force), its signer is not on hold,
      and a container it names has a name. */
  predicate Presentable(w: World, tx: Tx, env: Env, at: Option<int>) {
    && (at.Some? ==> env.now - at.value <= 60_000)
    && (env.size(tx).Some? ==> env.size(tx).value <= 262_144)
    && tx.txid == TxIdOf(tx.proof, tx.commitments, tx.nullifier)
    && tx.signer != "" && tx.sig != "" && env.verifySig(tx.signer, tx.txid, tx.sig)
    && (if tx.classicalKey == "" && tx.classicalSig == "" then true
        else && tx.classicalKey != "" && tx.classicalSig != "" && env.verifyClassical(tx.classicalKey, tx.txid, tx.classicalSig)
             && (w.gov.None? || w.gov.value.dualSign))
    && !env.held(AddressOf(tx.signer))
    && tx.container != Some("")
  }

  /** Neither reserved nor spent. */
  predicate Unspent(w: World, pending: set<Hash>, n: Hash) {
    n !in pending && n !in w.rows.spent
  }

  /** The insertion of leaves into a tree, as far as it is configured. */
  predicate Inserted(t: Tree, cs: seq<Hash>, rootOf: seq<Hash> -> Hash, t': Tree) {
    if t.leaves.None? then t' == t
    else && t'.leaves == Some(t.leaves.value + cs)
         && t'.roots == if t.roots.None? then None else Some(t.roots.value + {rootOf(t.leaves.value + cs)})
  }

  lemma {:induction false} InsertInserts(t: Tree, cs: seq<Hash>, rootOf: seq<Hash> -> Hash)
    ensures Inserted(t, cs, rootOf, Insert(t, cs, rootOf))
  {
  }

  // ---------------------------------------------------------------- how the stages add up

  lemma {:induction false} PresentableIff(w: World, tx: Tx, env: Env, at: Option<int>)
    ensures Presentable(w, tx, env, at) && WellFormed(tx) && !tx.kind.Undefined? && (tx.kind.Transfer? ==> tx.transfer.Some? && tx.transfer.value.outCommits != [])
       <==> Stage2(w, tx, env, at) && Stage3(tx)
  {
    hide WellFormed, TxIdOf, AddressOf;
  }

  /** The kinds that spend nothing are accepted as soon as stage 4 succeeds, and leave what it leaves. */
  lemma {:induction false} WithoutSpending(w: World, pending: set<Hash>, tx: Tx, env: Env, at: Option<int>)
    requires !tx.kind.Transfer? && !tx.kind.Unstake?
    ensures Accepted(w, pending, tx, env, at) <==>
      Presentable(w, tx, env, at) && WellFormed(tx) && !tx.kind.Undefined? && Stage4(w, tx, env).ok
    ensures Accepted(w, pending, tx, env, at) ==> Left(w, pending, tx, env, at) == Stage4(w, tx, env).world
  {
    hide ProcessOne, WellFormed, Presentable, Stage2, Stage3;
    ProcessInStages(w, pending, tx, env, at);
    PresentableIff(w, tx, env, at);
    if Stage2(w, tx, env, at) && Stage3(tx) && WellFormed(tx) {
      SpendsNothing(Stage4(w, tx, env).world, tx);
    }
  }

  lemma {:induction false} SpendsNothing(w: World, tx: Tx)
    requires !tx.kind.Transfer? && !tx.kind.Unstake?
    ensures Stage5(w, tx) == Exec(w, true)
  {
  }

  /** The two that spend. */
  lemma {:induction false} Spending(w: World, pending: set<Hash>, tx: Tx, env: Env, at: Option<int>)
    requires tx.kind.Transfer? || tx.kind.Unstake?
    ensures Accepted(w, pending, tx, env, at) <==>
      && Stage1(w, pending, tx, env) && Presentable(w, tx, env, at) && WellFormed(tx)
      && (tx.kind.Transfer? ==> tx.transfer.Some? && tx.transfer.value.outCommits != [])
      && Stage4(w, tx, env).ok && NoRepeats(Nullifiers(tx))
    ensures Accepted(w, pending, tx, env, at) ==>
      && WellFormed(tx) && (tx.kind.Transfer? ==> tx.transfer.Some?) && (tx.kind.Unstake? ==> |tx.commitments| == 1)
      && Left(w, pending, tx, env, at) == Stage5(Stage4(w, tx, env).world, tx).world
  {
    hide ProcessOne, WellFormed, Presentable, Stage2, Stage3, Nullifiers, Stage4, Stage5;
    ProcessInStages(w, pending, tx, env, at);
    PresentableIff(w, tx, env, at);
    if Admitted(w, pending, tx, env, at) {
      Stage5FailsIffRepeated(w, pending, tx, env, at);
    }
  }

  /** Stage 5 of an admitted transaction: its nullifiers are spent, and a transfer's fee is shared out. */
  lemma {:induction false} AfterSpending(w: World, tx: Tx)
    requires Stage5(w, tx).ok
    ensures var v := Stage5(w, tx).world;
      v == w.(rows := w.rows.(spent := w.rows.spent + SetOf(Nullifiers(tx))), vault := v.vault)
    ensures Stage5(w, tx).world.vault ==
      if tx.kind.Transfer? && tx.transfer.Some? && w.vault.Some?
      then Some(CollectFee(w.vault.value, AsInt64(tx.transfer.value.fee) as real)) else w.vault
  {
    MarkSpentMeaning(w.rows.spent, Nullifiers(tx));
  }

  // ---------------------------------------------------------------- transfer

  lemma {:induction false} TransferAcceptedIff(w: World, pending: set<Hash>, tx: Tx, env: Env, at: Option<int>)
    requires tx.kind.Transfer?
    ensures Accepted(w, pending, tx, env, at) <==>
      && Presentable(w, tx, env, at) && tx.feeCommit != ZERO && tx.transfer.Some?
      && var pub := tx.transfer.value;
         && pub.nullifiers != [] && pub.outCommits != []
         && (forall i, j :: 0 <= i < j < |pub.nullifiers| ==> pub.nullifiers[i] != pub.nullifiers[j])
         && (forall n <- pub.nullifiers :: Unspent(w, pending, n))
         && (w.notes.roots.Some? ==> pub.root in w.notes.roots.value)
         && env.zk.Some? && env.zk.value(tx.proof, pub)
         && (w.notes.leaves.Some? ==> |w.notes.leaves.value| + |pub.outCommits| <= 0x1_0000_0000)
  {
    hide Accepted, Presentable;
    Spending(w, pending, tx, env, at);
  }

  /** An accepted transfer spends its nullifiers, appends its outputs and pays each pool its share of the fee;
      nothing else changes. */
  lemma {:induction false} TransferLeaves(w: World, pending: set<Hash>, tx: Tx, env: Env, at: Option<int>)
    requires tx.kind.Transfer? && Accepted(w, pending, tx, env, at)
    ensures tx.transfer.Some?
    ensures var (pub, r) := (tx.transfer.value, Left(w, pending, tx, env, at));
      && r.rows == w.rows.(spent := w.rows.spent + set n <- pub.nullifiers)
      && Inserted(w.notes, pub.outCommits, env.rootOf, r.notes)
      && r.stateTree == w.stateTree + pub.outCommits
      && r.eligibility == w.eligibility && r.stakes == w.stakes && r.gov == w.gov
      && (w.vault.None? ==> r.vault.None?)
      && (w.vault.Some? ==> r.vault.Some? && Shared(w.vault.value, AsInt64(pub.fee) as real, r.vault.value))
  {
    hide Accepted, Left, Presentable, Stage1, Inserted;
    Spending(w, pending, tx, env, at);
    var e := Stage4(w, tx, env).world;
    InsertInserts(w.notes, tx.transfer.value.outCommits, env.rootOf);
    OkStage5(w, pending, tx, env, at);
    AfterSpending(e, tx);
    assert (set n <- tx.transfer.value.nullifiers) == SetOf(tx.transfer.value.nullifiers);
  }

  lemma {:induction false} OkStage5(w: World, pending: set<Hash>, tx: Tx, env: Env, at: Option<int>)
    requires (tx.kind.Transfer? || tx.kind.Unstake?) && Accepted(w, pending, tx, env, at)
    ensures WellFormed(tx) && (tx.kind.Transfer? ==> tx.transfer.Some?) && (tx.kind.Unstake? ==> |tx.commitments| == 1)
    ensures Stage4(w, tx, env).ok && Stage5(Stage4(w, tx, env).world, tx).ok
  {
    hide ProcessOne, Stage4, Stage5;
    Spending(w, pending, tx, env, at);
    ProcessInStages(w, pending, tx, env, at);
  }

  /** Each pool gains the amount times its own share. */
  predicate Shared(v: Vault, amount: real, v': Vault) {
    && v'.splits == v.splits
    && v'.epochBonus == v.epochBonus + amount * v.splits.epochBonus
    && v'.burned == v.burned + amount * v.splits.burn
    && v'.audit == v.audit + amount * v.splits.audit
    && v'.remainder == v.remainder + amount * v.splits.remainder
  }

  // ---------------------------------------------------------------- unstake

  /** The new note must be worth exactly the redemption of the position: principal and two percent a year. */
  lemma {:induction false} UnstakeAcceptedIff(w: World, pending: set<Hash>, tx: Tx, env: Env, at: Option<int>)
    requires tx.kind.Unstake?
    ensures Accepted(w, pending, tx, env, at) <==>
      && Presentable(w, tx, env, at) && tx.proof != "" && tx.nullifier != ZERO && |tx.commitments| == 1 && tx.unstake.Some?
      && var pub := tx.unstake.value;
         && Unspent(w, pending, tx.nullifier)
         && w.stakes.roots.Some? && pub.root in w.stakes.roots.value
         && pub.finalAmount == Staking.Redemption(pub.principal, Staking.MillisHeld(pub.startEpoch, env.epoch))
         && env.unstakeZK.Some? && env.unstakeZK.value(tx.proof, pub, tx.nullifier, tx.commitments[0])
         && (w.notes.leaves.Some? ==> |w.notes.leaves.value| + 1 <= 0x1_0000_0000)
  {
    hide Accepted, Presentable, Staking.FinalAmount, Staking.Redemption, Staking.MillisHeld;
    Spending(w, pending, tx, env, at);
    if tx.unstake.Some? {
      Staking.FinalAmountIsRedemption(tx.unstake.value.principal, tx.unstake.value.startEpoch, env.epoch);
    }
  }

  /** On every span where the clock's promise holds that is the principal and the floor of its exact accrual. */
  lemma {:induction false} AcceptedUnstakeIsExact(w: World, pending: set<Hash>, tx: Tx, env: Env, at: Option<int>)
    requires tx.kind.Unstake? && Accepted(w, pending, tx, env, at)
    requires tx.unstake.Some? && TailCountHarmless(tx.unstake.value.startEpoch, env.epoch)
    ensures var pub := tx.unstake.value;
      var sum := pub.principal + Staking.Accrued(pub.principal, Clamped(PlainSum(pub.startEpoch, env.epoch)));
      sum <= 0xffff_ffff_ffff_ffff ==> pub.finalAmount == sum
  {
    hide Accepted, Presentable, Unspent, Staking.FinalAmount, Staking.Redemption, Staking.MillisHeld, Staking.Accrued, PlainSum;
    UnstakeAcceptedIff(w, pending, tx, env, at);
    var pub := tx.unstake.value;
    Staking.FinalAmountIsRedemption(pub.principal, pub.startEpoch, env.epoch);
    Staking.FinalAmountIsExact(pub.principal, pub.startEpoch, env.epoch);
  }

  lemma {:induction false} UnstakeLeaves(w: World, pending: set<Hash>, tx: Tx, env: Env, at: Option<int>)
    requires tx.kind.Unstake? && Accepted(w, pending, tx, env, at)
    ensures var r := Left(w, pending, tx, env, at);
      && r.rows == w.rows.(spent := w.rows.spent + {tx.nullifier})
      && Inserted(w.notes, tx.commitments, env.rootOf, r.notes)
      && r.stateTree == (if w.notes.leaves.None? then w.stateTree else w.stateTree + tx.commitments)
      && r.eligibility == w.eligibility && r.stakes == w.stakes && r.vault == w.vault && r.gov == w.gov
  {
    hide Accepted, Left, Presentable, Stage1, Inserted;
    Spending(w, pending, tx, env, at);
    var e := Stage4(w, tx, env).world;
    InsertInserts(w.notes, tx.commitments, env.rootOf);
    OkStage5(w, pending, tx, env, at);
    AfterSpending(e, tx);
    assert SetOf([tx.nullifier]) == {tx.nullifier};
  }

  // ---------------------------------------------------------------- votes and reveals

  /** The anonymous voter's proof anchors to a recorded eligibility root and verifies for this proposal. */
  predicate MayVote(w: World, e: EligibilityProof, proposal: string, env: Env) {
    && w.eligibility.roots.Some? && e.root in w.eligibility.roots.value
    && env.eligibilityZK.Some? && env.eligibilityZK.value(e, VoteScope(proposal))
  }

  /** A mint a vote binds carries the proof its path needs, and the commitment it will insert. */
  predicate MintClaimed(pub: VoteInputs) {
    var e := pub.effects;
    && (e.mintAmount > 0 && e.mintStaked ==> pub.stakeProof != "" && e.stakePositionCommit != ZERO)
    && (e.mintAmount > 0 && !e.mintStaked ==> pub.mintProof != "" && e.mintOutCommit != ZERO)
  }

  /** What the first vote on a proposal may bind: a proven mint (of the amount less a tenth, unless staked),
      existing NFTs, an asset neither native nor known, and a retirement of dual signing still in force. */
  predicate Bindable(w: World, pub: VoteInputs, env: Env) {
    var e := pub.effects;
    && (e.mintAmount > 0 && e.mintStaked ==>
          env.stakeZK.Some? && env.stakeZK.value(pub.stakeProof, e.mintAmount, env.epoch, e.stakePositionCommit))
    && (e.mintAmount > 0 && !e.mintStaked ==>
          env.mintZK.Some? && env.mintZK.value(pub.mintProof, e.mintAmount - e.mintAmount / 10, e.mintOutCommit))
    && (e.slashTarget == ZERO || e.slashTarget in w.rows.nfts)
    && (e.unlockTarget == ZERO || e.unlockTarget in w.rows.nfts)
    && (e.assetTarget == "" || (e.assetTarget != "SFG" && e.assetTarget !in w.rows.assets))
    && (!e.unwindDualSign || w.gov.None? || w.gov.value.dualSign)
  }

  lemma {:induction false} VoteAcceptedIff(w: World, pending: set<Hash>, tx: Tx, env: Env, at: Option<int>)
    requires tx.kind.Vote?
    ensures Accepted(w, pending, tx, env, at) <==>
      && Presentable(w, tx, env, at) && tx.vote.Some? && tx.eligibility.Some?
      && var (pub, e) := (tx.vote.value, tx.eligibility.value);
         && MintClaimed(pub) && MayVote(w, e, pub.proposal, env)
         && if pub.proposal in w.rows.proposals
            then !w.rows.proposals[pub.proposal].tallied && e.nullifier !in w.rows.proposals[pub.proposal].commitments
            else Bindable(w, pub, env)
  {
    hide Accepted, Left, Presentable;
    WithoutSpending(w, pending, tx, env, at);
  }

  /** An accepted vote stores its sealed ballot under the voter's nullifier, in the proposal it names or in a
      new one with its effects; nothing else changes. */
  lemma {:induction false} VoteLeaves(w: World, pending: set<Hash>, tx: Tx, env: Env, at: Option<int>)
    requires tx.kind.Vote? && Accepted(w, pending, tx, env, at) && KeyedByProposal(w)
    ensures tx.vote.Some? && tx.eligibility.Some?
    ensures var (pub, v, r) := (tx.vote.value, tx.eligibility.value.nullifier, Left(w, pending, tx, env, at));
      && r == w.(rows := w.rows.(proposals := r.rows.proposals))
      && r.rows.proposals.Keys == w.rows.proposals.Keys + {pub.proposal}
      && (forall id :: id in w.rows.proposals && id != pub.proposal ==> r.rows.proposals[id] == w.rows.proposals[id])
      && var q := r.rows.proposals[pub.proposal];
         if pub.proposal in w.rows.proposals then
           var p := w.rows.proposals[pub.proposal]; q == p.(commitments := p.commitments[v := pub.commitment])
         else
           && q.id == pub.proposal && q.epoch == env.epoch && q.effects == pub.effects
           && q.commitments == map[v := pub.commitment] && q.openings == map[] && !q.tallied && !q.passed
           && q.applied == Applied(false, false, false, false, false, false) && q.approve == 0 && q.reject == 0
  {
    hide Accepted, Left, Presentable, Bindable, EffectsOk;
    WithoutSpending(w, pending, tx, env, at);
  }

  predicate KeyedByProposal(w: World) {
    forall id :: id in w.rows.proposals ==> w.rows.proposals[id].id == id
  }

  lemma {:induction false} RevealAcceptedIff(w: World, pending: set<Hash>, tx: Tx, env: Env, at: Option<int>)
    requires tx.kind.VoteReveal?
    ensures Accepted(w, pending, tx, env, at) <==>
      && Presentable(w, tx, env, at) && tx.opening.Some? && tx.eligibility.Some?
      && var (pub, e) := (tx.opening.value, tx.eligibility.value);
         && MayVote(w, e, pub.proposal, env) && pub.proposal in w.rows.proposals
         && var p := w.rows.proposals[pub.proposal];
            && !p.tallied && e.nullifier in p.commitments
            && p.commitments[e.nullifier] == Sum([OfHash(e.nullifier), OfFlag(pub.approve), OfHash(pub.nonce)])
            && !(e.nullifier in p.openings && p.openings[e.nullifier])
  {
    hide Accepted, Left, Presentable;
    WithoutSpending(w, pending, tx, env, at);
  }

  lemma {:induction false} RevealLeaves(w: World, pending: set<Hash>, tx: Tx, env: Env, at: Option<int>)
    requires tx.kind.VoteReveal? && Accepted(w, pending, tx, env, at) && KeyedByProposal(w)
    ensures tx.opening.Some? && tx.eligibility.Some? && tx.opening.value.proposal in w.rows.proposals
    ensures var (pub, v, r) := (tx.opening.value, tx.eligibility.value.nullifier, Left(w, pending, tx, env, at));
      var p := w.rows.proposals[pub.proposal];
      r == w.(rows := w.rows.(proposals := w.rows.proposals[pub.proposal := p.(openings := p.openings[v := pub.approve])]))
  {
    hide Accepted, Left, Presentable;
    WithoutSpending(w, pending, tx, env, at);
  }

  // ---------------------------------------------------------------- NFTs

  lemma {:induction false} NFTMintAcceptedIff(w: World, pending: set<Hash>, tx: Tx, env: Env, at: Option<int>)
    requires tx.kind.NFTMint?
    ensures Accepted(w, pending, tx, env, at) <==>
      && Presentable(w, tx, env, at) && tx.mint.Some?
      && var pub := tx.mint.value;
         && !(pub.owner in w.rows.byOwner && w.rows.byOwner[pub.owner] in w.rows.nfts)
         && pub.attestor in env.attestors
         && env.verifySig(pub.attestor, Sum([OfHash(pub.owner), OfWord(pub.nonce), OfWord(pub.issuedAt)]), pub.sig)
         && pub.issuedAt <= env.now && env.now - pub.issuedAt <= 900_000
         && (w.eligibility.leaves.Some? ==> |w.eligibility.leaves.value| + 1 <= 0x1_0000_0000)
  {
    hide Accepted, Left, Presentable;
    WithoutSpending(w, pending, tx, env, at);
  }

  lemma {:induction false} NFTMintLeaves(w: World, pending: set<Hash>, tx: Tx, env: Env, at: Option<int>)
    requires tx.kind.NFTMint? && Accepted(w, pending, tx, env, at)
    ensures tx.mint.Some?
    ensures var (pub, r) := (tx.mint.value, Left(w, pending, tx, env, at));
      var id := Sum([OfHash(pub.owner), OfWord(pub.nonce)]);
      && r == w.(rows := r.rows, eligibility := r.eligibility)
      && r.rows == w.rows.(nfts := w.rows.nfts[id := NFT(id, pub.owner, env.height, map[], 0, false)],
                           byOwner := w.rows.byOwner[pub.owner := id])
      && Inserted(w.eligibility, [pub.voterCommitment], env.rootOf, r.eligibility)
  {
    hide Accepted, Left, Presentable, Inserted;
    WithoutSpending(w, pending, tx, env, at);
    InsertInserts(w.eligibility, [tx.mint.value.voterCommitment], env.rootOf);
  }

  lemma {:induction false} NFTTransferAcceptedIff(w: World, pending: set<Hash>, tx: Tx, env: Env, at: Option<int>)
    requires tx.kind.NFTTransfer?
    ensures Accepted(w, pending, tx, env, at) <==>
      && Presentable(w, tx, env, at) && tx.move.Some?
      && var to := tx.move.value;
         && to.target != ZERO && to.target in w.rows.nfts
         && var n := w.rows.nfts[to.target];
            && n.owner == Sum([OfText(tx.signer)]) && !n.slashed
            && "transferable" in n.traits && n.traits["transferable"] == Literal("true")
            && (to.newOwner in w.rows.byOwner && w.rows.byOwner[to.newOwner] in w.rows.nfts ==>
                  w.rows.nfts[w.rows.byOwner[to.newOwner]].id == to.target)
  {
    hide Accepted, Left, Presentable;
    WithoutSpending(w, pending, tx, env, at);
  }

  lemma {:induction false} NFTTransferLeaves(w: World, pending: set<Hash>, tx: Tx, env: Env, at: Option<int>)
    requires tx.kind.NFTTransfer? && Accepted(w, pending, tx, env, at)
    requires forall id :: id in w.rows.nfts ==> w.rows.nfts[id].id == id
    ensures tx.move.Some? && tx.move.value.target in w.rows.nfts
    ensures var (to, r) := (tx.move.value, Left(w, pending, tx, env, at)); var n := w.rows.nfts[to.target];
      r == w.(rows := w.rows.(nfts := w.rows.nfts[to.target := n.(owner := to.newOwner)],
                              byOwner := (w.rows.byOwner - {n.owner})[to.newOwner := to.target]))
  {
    hide Accepted, Left, Presentable;
    WithoutSpending(w, pending, tx, env, at);
  }

  lemma {:induction false} TraitAcceptedIff(w: World, pending: set<Hash>, tx: Tx, env: Env, at: Option<int>)
    requires tx.kind.NFTTrait?
    ensures Accepted(w, pending, tx, env, at) <==>
      Presentable(w, tx, env, at) && tx.traitUpdate.Some? && tx.commitments != [] && tx.commitments[0] in w.rows.nfts
  {
    hide Accepted, Left, Presentable;
    WithoutSpending(w, pending, tx, env, at);
  }

  lemma {:induction false} TraitLeaves(w: World, pending: set<Hash>, tx: Tx, env: Env, at: Option<int>)
    requires tx.kind.NFTTrait? && Accepted(w, pending, tx, env, at)
    requires forall id :: id in w.rows.nfts ==> w.rows.nfts[id].id == id
    ensures tx.traitUpdate.Some? && tx.commitments != [] && tx.commitments[0] in w.rows.nfts
    ensures var (pub, id, r) := (tx.traitUpdate.value, tx.commitments[0], Left(w, pending, tx, env, at));
      var n := w.rows.nfts[id];
      r == w.(rows := w.rows.(nfts := w.rows.nfts[id := n.(traits := n.traits[pub.key + "_last_delta_commitment" := Hex(pub.delta)])],
                              byOwner := w.rows.byOwner[n.owner := id]))
  {
    hide Accepted, Left, Presentable;
    WithoutSpending(w, pending, tx, env, at);
  }

  // ---------------------------------------------------------------- bank, containers, mints

  /** The price and volatility a bank transaction claims are within the tolerance of the oracle's; a withdrawal
      may use the last agreed reading when there is no agreement. */
  predicate PricedFairly(tx: Tx, pub: BankInputs, env: Env) {
    env.oracle.Some? ==>
      var reading := env.oracle.value(pub.asset);
      var tolerance := if env.tolerance > 0.0 then env.tolerance else 0.02;
      var quotes := if reading.Agreed? then [reading.quote]
                    else if tx.kind.BankWithdraw? && reading.lastGood.Some? then [reading.lastGood.value] else [];
      && quotes != []
      && Near(pub.price, quotes[0].price, tolerance) && Near(pub.atr, quotes[0].atr, tolerance)
  }

  /** Off by at most the fraction t of a positive reading; a reading that is not positive must be claimed as zero. */
  predicate Near(claimed: real, actual: real, t: real) {
    if actual > 0.0 then actual - t * actual <= claimed <= actual + t * actual else claimed == 0.0
  }

  lemma {:induction false} NearIff(claimed: real, actual: real, t: real)
    ensures WithinTolerance(claimed, actual, t) <==> Near(claimed, actual, t)
  {
    if actual > 0.0 {
      QuotientAtMost(claimed - actual, actual, t);
      QuotientAtMost(actual - claimed, actual, t);
    }
  }

  lemma {:induction false} QuotientAtMost(x: real, a: real, t: real)
    requires a > 0.0
    ensures x / a <= t <==> x <= t * a
  {
    var q := x / a;
    assert q * a == x;
    if q <= t { assert (t - q) * a >= 0.0; } else { assert (q - t) * a > 0.0; }
  }

  /** The multiple of the volatility that must be set aside: governed, or 2.5 in and 1.5 out. */
  function Required(w: World, tx: Tx): real {
    if tx.kind.BankDeposit? then (if w.gov.Some? then w.gov.value.ratios.depositATR else 2.5)
    else (if w.gov.Some? then w.gov.value.ratios.withdrawATR else 1.5)
  }

  lemma {:induction false} PricedFairlyIff(tx: Tx, pub: BankInputs, env: Env)
    requires tx.kind.BankDeposit? || tx.kind.BankWithdraw?
    ensures OraclePriceOk(tx.kind.BankDeposit?, pub, env) <==> PricedFairly(tx, pub, env)
  {
    hide WithinTolerance, Near;
    forall c, a, t ensures WithinTolerance(c, a, t) <==> Near(c, a, t) { NearIff(c, a, t); }
  }

  lemma {:induction false} BankAcceptedIff(w: World, pending: set<Hash>, tx: Tx, env: Env, at: Option<int>)
    requires tx.kind.BankDeposit? || tx.kind.BankWithdraw?
    ensures Accepted(w, pending, tx, env, at) <==>
      && Presentable(w, tx, env, at) && tx.bank.Some?
      && var pub := tx.bank.value;
         && (pub.asset == "" || pub.asset == "SFG" || pub.asset in w.rows.assets)
         && pub.buffer == Required(w, tx) * pub.atr
         && PricedFairly(tx, pub, env)
    ensures Accepted(w, pending, tx, env, at) ==>
      Left(w, pending, tx, env, at) == w.(stateTree := w.stateTree + tx.commitments)
  {
    hide Accepted, Left, Presentable, PricedFairly, OraclePriceOk;
    WithoutSpending(w, pending, tx, env, at);
    if tx.bank.Some? { PricedFairlyIff(tx, tx.bank.value, env); }
  }

  lemma {:induction false} ContainerAcceptedIff(w: World, pending: set<Hash>, tx: Tx, env: Env, at: Option<int>)
    requires tx.kind.ContainerSync?
    ensures Accepted(w, pending, tx, env, at) <==>
      && Presentable(w, tx, env, at) && tx.container.Some? && tx.commitments != []
      && (tx.container.value in w.rows.containers ==> tx.memo == Some(tx.commitments[0]))
    ensures Accepted(w, pending, tx, env, at) ==>
      Left(w, pending, tx, env, at) ==
      w.(rows := w.rows.(containers := w.rows.containers[tx.container.value := tx.commitments[0]]))
  {
    hide Accepted, Left, Presentable;
    WithoutSpending(w, pending, tx, env, at);
  }

  /** A direct mint is a marker: it changes nothing. A kind the node does not know is never accepted. */
  lemma {:induction false} MintAndUnknownAcceptedIff(w: World, pending: set<Hash>, tx: Tx, env: Env, at: Option<int>)
    requires tx.kind.Mint? || tx.kind.Undefined?
    ensures Accepted(w, pending, tx, env, at) <==> tx.kind.Mint? && Presentable(w, tx, env, at)
    ensures Accepted(w, pending, tx, env, at) ==> Left(w, pending, tx, env, at) == w
  {
    hide Accepted, Left, Presentable;
    WithoutSpending(w, pending, tx, env, at);
  }
}
