/** NFT ownership over whole runs: one NFT per wallet, and how an NFT can change hands. */
module NftRuns {
  import opened Hashing
  import opened Epoch
  import opened Governance
  import opened Ledger
  import opened Stages
  import opened Atomicity
  import opened Runs
  import opened TallyRuns
  import opened BallotRuns

  /** The owner index and the records are exact inverses. */
  predicate IndexInv(r: Rows) {
    && (forall id :: id in r.nfts ==> r.nfts[id].id == id && r.nfts[id].owner in r.byOwner && r.byOwner[r.nfts[id].owner] == id)
    && (forall o :: o in r.byOwner ==> r.byOwner[o] in r.nfts && r.nfts[r.byOwner[o]].owner == o)
  }

  /** One NFT per wallet, and the index finds it. */
  lemma {:induction false} OnePerWallet(r: Rows, a: Hash, b: Hash)
    requires IndexInv(r) && a in r.nfts && b in r.nfts
    ensures r.nfts[a].owner == r.nfts[b].owner <==> a == b
    ensures NFTByOwner(r, r.nfts[a].owner) == Some(r.nfts[a])
  {
  }

  // ---------------------------------------------------------------- row operations

  lemma {:induction false} PutExistingKeeps(r: Rows, n: NFT)
    requires IndexInv(r) && n.id in r.nfts && r.nfts[n.id].owner == n.owner
    ensures IndexInv(PutNFT(r, n))
  {
  }

  /** Storing a freshly minted record keeps the index exact precisely when its id is not in use. */
  lemma {:induction false} PutFreshKeepsIff(r: Rows, n: NFT)
    requires IndexInv(r) && n.owner !in r.byOwner
    ensures IndexInv(PutNFT(r, n)) <==> n.id !in r.nfts
  {
    var s := PutNFT(r, n);
    if n.id in r.nfts {
      var previous := r.nfts[n.id].owner;
      assert previous in s.byOwner && s.byOwner[previous] == n.id && s.nfts[n.id].owner == n.owner;
    }
  }

  lemma {:induction false} DeleteKeeps(r: Rows, n: NFT)
    requires IndexInv(r) && n.id in r.nfts && r.nfts[n.id].owner == n.owner
    ensures IndexInv(DeleteNFT(r, n))
  {
  }

  lemma {:induction false} MoveKeeps(r: Rows, n: NFT, newOwner: Hash)
    requires IndexInv(r) && n.id in r.nfts && r.nfts[n.id] == n
    requires newOwner in r.byOwner ==> r.byOwner[newOwner] == n.id
    ensures IndexInv(TransferNFTOwner(r, n.owner, n.(owner := newOwner)))
  {
    var s := TransferNFTOwner(r, n.owner, n.(owner := newOwner));
    forall id | id in s.nfts
      ensures s.nfts[id].id == id && s.nfts[id].owner in s.byOwner && s.byOwner[s.nfts[id].owner] == id
    {
      if id != n.id { assert r.nfts[id].owner != n.owner; }
    }
  }

  // ---------------------------------------------------------------- one transaction

  /** Every key trait transactions write ends in a suffix that `transferable` does not have. */
  lemma {:induction false} TraitKeyNeverTransferable(key: string)
    ensures key + DELTA_SUFFIX != TRANSFERABLE
  {
    var k := key + DELTA_SUFFIX;
    assert k[|k| - 1] == DELTA_SUFFIX[|DELTA_SUFFIX| - 1] == 't';
    assert TRANSFERABLE[|TRANSFERABLE| - 1] == 'e';
  }

  function MintedId(pub: MintInputs): Hash {
    NftIdOf(pub.owner, pub.nonce)
  }

  /** Stage 4 stores the record of this mint, under an id that is in use. */
  predicate StoresUsedId(w: World, tx: Tx, env: Env) {
    && tx.kind.NFTMint? && tx.mint.Some?
    && NFTByOwner(w.rows, tx.mint.value.owner).None? && AttestationOk(tx.mint.value, env)
    && MintedId(tx.mint.value) in w.rows.nfts
  }

  /** The transaction gets that far. */
  predicate Reuses(w: World, pending: set<Hash>, tx: Tx, env: Env, at: Option<int>) {
    Admitted(w, pending, tx, env, at) && StoresUsedId(w, tx, env)
  }

  /** The only way a transaction moves an NFT: its owner signs, it is unlocked and not slashed. */
  predicate OwnerMoved(n: NFT, newOwner: Hash, tx: Tx) {
    && tx.kind.NFTTransfer? && tx.move == Some(MoveInputs(n.id, newOwner))
    && AddressOf(tx.signer) == n.owner && !n.slashed && Transferable(n)
  }

  /** Records present before and after keep their owner unless moved, and gain no transfer right. */
  predicate NftsStep(a: Rows, b: Rows, tx: Tx) {
    && (forall id :: id in a.nfts && id in b.nfts ==>
          a.nfts[id].owner == b.nfts[id].owner || OwnerMoved(a.nfts[id], b.nfts[id].owner, tx))
    && (forall id :: id in b.nfts && Transferable(b.nfts[id]) ==> id in a.nfts && Transferable(a.nfts[id]))
    && (forall id :: id in a.nfts ==> id in b.nfts)
  }

  lemma {:induction false} TraitStep(w: World, tx: Tx)
    requires IndexInv(w.rows) && tx.traitUpdate.Some?
    ensures IndexInv(ExecTrait(w, tx).world.rows) && NftsStep(w.rows, ExecTrait(w, tx).world.rows, tx)
  {
    TraitKeyNeverTransferable(tx.traitUpdate.value.key);
  }

  /** A mint's rows: the record stored, if the wallet has none and the attestation is good; else nothing. */
  lemma {:induction false} MintRows(w: World, tx: Tx, env: Env)
    requires tx.mint.Some?
    ensures ExecNFTMint(w, tx, env).world.rows ==
      if NFTByOwner(w.rows, tx.mint.value.owner).None? && AttestationOk(tx.mint.value, env)
      then PutNFT(w.rows, FreshNFT(tx.mint.value, env.height)) else w.rows
  {
  }

  lemma {:induction false} FreshPut(r: Rows, n: NFT, tx: Tx)
    requires IndexInv(r) && NFTByOwner(r, n.owner).None? && n.traits == map[]
    ensures IndexInv(PutNFT(r, n)) <==> n.id !in r.nfts
    ensures n.id !in r.nfts ==> NftsStep(r, PutNFT(r, n), tx)
  {
    assert n.owner !in r.byOwner;
    PutFreshKeepsIff(r, n);
    hide IndexInv;
  }

  /** What a mint does to the records, its derived id free or not. */
  lemma {:induction false} MintStep(w: World, tx: Tx, env: Env)
    requires IndexInv(w.rows) && tx.mint.Some? && tx.kind.NFTMint?
    ensures var r := ExecNFTMint(w, tx, env).world.rows;
      && (IndexInv(r) <==> !StoresUsedId(w, tx, env))
      && (!StoresUsedId(w, tx, env) ==> NftsStep(w.rows, r, tx))
      && forall id :: id in w.rows.nfts && id != MintedId(tx.mint.value) ==> id in r.nfts && r.nfts[id] == w.rows.nfts[id]
  {
    hide IndexInv, NftsStep, AttestationOk, NFTByOwner, ExecNFTMint;
    var n := FreshNFT(tx.mint.value, env.height);
    MintRows(w, tx, env);
    if NFTByOwner(w.rows, n.owner).None? {
      FreshPut(w.rows, n, tx);
    }
    SameNftsKeep(w.rows, w.rows, w.rows, tx);
  }

  /** An accepted mint keeps the index exact precisely when its derived id was free. */
  lemma {:induction false} AcceptedMintKeepsIndexIff(w: World, tx: Tx, env: Env)
    requires IndexInv(w.rows) && tx.kind.NFTMint? && tx.mint.Some? && ExecNFTMint(w, tx, env).ok
    ensures IndexInv(ExecNFTMint(w, tx, env).world.rows) <==> MintedId(tx.mint.value) !in w.rows.nfts
  {
    MintStep(w, tx, env);
  }

  lemma {:induction false} MoveStep(w: World, tx: Tx)
    requires IndexInv(w.rows) && tx.move.Some? && tx.kind.NFTTransfer?
    ensures IndexInv(ExecNFTTransfer(w, tx).world.rows) && NftsStep(w.rows, ExecNFTTransfer(w, tx).world.rows, tx)
  {
    var e, pub := ExecNFTTransfer(w, tx), tx.move.value;
    if e.ok {
      var n := w.rows.nfts[pub.target];
      MoveKeeps(w.rows, n, pub.newOwner);
    }
  }

  lemma {:induction false} OtherKindsKeepNfts(w: World, tx: Tx, env: Env)
    requires WellFormed(tx) && !tx.kind.NFTTrait? && !tx.kind.NFTMint? && !tx.kind.NFTTransfer?
    requires tx.kind.Transfer? ==> tx.transfer.Some?
    requires tx.kind.Unstake? ==> |tx.commitments| == 1
    ensures var r := Stage4(w, tx, env).world.rows; r.nfts == w.rows.nfts && r.byOwner == w.rows.byOwner
  {
  }

  predicate SameNfts(a: Rows, b: Rows) {
    a.nfts == b.nfts && a.byOwner == b.byOwner
  }

  /** Stage 4 of any kind: the index breaks exactly when a mint stores a used id. */
  lemma {:induction false} Stage4Nfts(w: World, tx: Tx, env: Env)
    requires IndexInv(w.rows) && WellFormed(tx)
    requires tx.kind.Transfer? ==> tx.transfer.Some?
    requires tx.kind.Unstake? ==> |tx.commitments| == 1
    ensures var e := Stage4(w, tx, env);
      && (IndexInv(e.world.rows) <==> !StoresUsedId(w, tx, env))
      && (!StoresUsedId(w, tx, env) ==> NftsStep(w.rows, e.world.rows, tx))
      && (StoresUsedId(w, tx, env) ==>
            forall id :: id in w.rows.nfts && id != MintedId(tx.mint.value) ==> id in e.world.rows.nfts && e.world.rows.nfts[id] == w.rows.nfts[id])
      && (!e.ok && !tx.kind.NFTMint? ==> SameNfts(e.world.rows, w.rows))
  {
    hide StoresUsedId, IndexInv, NftsStep, ExecTrait, ExecNFTMint, ExecNFTTransfer;
    if tx.kind.NFTTrait? { NotAMint(w, tx, env); TraitStep(w, tx); }
    else if tx.kind.NFTMint? { MintStep(w, tx, env); }
    else if tx.kind.NFTTransfer? { NotAMint(w, tx, env); MoveStep(w, tx); }
    else {
      NotAMint(w, tx, env);
      OtherKindsKeepNfts(w, tx, env);
      SameNftsKeep(w.rows, w.rows, Stage4(w, tx, env).world.rows, tx);
    }
    Stage4Trace(w, tx, env);
  }

  lemma {:induction false} NotAMint(w: World, tx: Tx, env: Env)
    ensures !tx.kind.NFTMint? ==> !StoresUsedId(w, tx, env)
  {
  }

  lemma {:induction false} SameNftsKeep(a: Rows, b: Rows, c: Rows, tx: Tx)
    requires SameNfts(b, c)
    ensures IndexInv(c) <==> IndexInv(b)
    ensures NftsStep(a, c, tx) <==> NftsStep(a, b, tx)
    ensures NftsStep(b, c, tx)
  {
  }

  /** A whole transaction keeps the index exact unless it reuses an id; then it breaks it, and disturbs no
      other record. */
  lemma {:induction false} TxNfts(w: World, pending: set<Hash>, tx: Tx, env: Env, at: Option<int>)
    requires IndexInv(w.rows)
    ensures var r := ProcessOne(w, pending, tx, env, at);
      && (IndexInv(r.world.rows) <==> !Reuses(w, pending, tx, env, at))
      && (!Reuses(w, pending, tx, env, at) ==> NftsStep(w.rows, r.world.rows, tx))
      && (Reuses(w, pending, tx, env, at) ==>
            forall id :: id in w.rows.nfts && id != MintedId(tx.mint.value) ==> id in r.world.rows.nfts && r.world.rows.nfts[id] == w.rows.nfts[id])
      && (r.world.rows.nfts != w.rows.nfts && !tx.kind.NFTMint? ==> r.outcome == Committed && Signed(w, tx, env))
  {
    hide ProcessOne, IndexInv, NftsStep, StoresUsedId, Signed, MarkSpent;
    ProcessInStages(w, pending, tx, env, at);
    var r := ProcessOne(w, pending, tx, env, at);
    if Admitted(w, pending, tx, env, at) {
      Stage4Nfts(w, tx, env);
      var e := Stage4(w, tx, env);
      assert SameNfts(Stage5(e.world, tx).world.rows, e.world.rows);
      assert SameNfts(e.world.rows, r.world.rows);
      SameNftsKeep(w.rows, e.world.rows, r.world.rows, tx);
      NftKindsSpendNothing(e.world, tx);
      if tx.kind.Transfer? || tx.kind.Unstake? { OtherKindsKeepNfts(w, tx, env); }
    } else {
      SameNftsKeep(w.rows, w.rows, r.world.rows, tx);
    }
  }

  /** Only transfers and unstakes can fail in stage 5. */
  lemma {:induction false} NftKindsSpendNothing(w: World, tx: Tx)
    ensures !Stage5(w, tx).ok ==> tx.kind.Transfer? || tx.kind.Unstake?
  {
  }

  // ---------------------------------------------------------------- one settled proposal

  /** A settled proposal keeps owners, may burn, and grants a transfer right only to its own target on a pass. */
  predicate NftsSettled(a: Rows, b: Rows, p: Proposal) {
    && (forall id :: id in b.nfts ==> id in a.nfts && b.nfts[id].owner == a.nfts[id].owner)
    && (forall id :: id in b.nfts && Transferable(b.nfts[id]) ==>
          Transferable(a.nfts[id]) || (p.passed && p.applied.unlock && p.effects.unlockTarget == id))
  }

  lemma {:induction false} SlashNfts(w: World, p: Proposal)
    requires IndexInv(w.rows)
    ensures IndexInv(ApplySlash(w, p).0.rows) && NftsSettled(w.rows, ApplySlash(w, p).0.rows, p)
    ensures forall id :: id in ApplySlash(w, p).0.rows.nfts ==>
      Transferable(ApplySlash(w, p).0.rows.nfts[id]) == Transferable(w.rows.nfts[id])
  {
    var e := p.effects;
    if p.passed && e.slashTarget != ZERO && e.slashTarget in w.rows.nfts {
      var n := w.rows.nfts[e.slashTarget];
      if e.slashBurn { DeleteKeeps(w.rows, n.(slashed := true, tp := 0)); } else { PutExistingKeeps(w.rows, n.(slashed := true)); }
    }
  }

  lemma {:induction false} UnlockNfts(w: World, p: Proposal)
    requires IndexInv(w.rows)
    ensures IndexInv(ApplyUnlock(w, p).0.rows) && NftsSettled(w.rows, ApplyUnlock(w, p).0.rows, ApplyUnlock(w, p).1)
  {
    var e := p.effects;
    if p.passed && e.unlockTarget != ZERO && e.unlockTarget in w.rows.nfts {
      var n := w.rows.nfts[e.unlockTarget];
      PutExistingKeeps(w.rows, n.(traits := n.traits[TRANSFERABLE := Literal("true")]));
    }
  }

  lemma {:induction false} RowEffectsNfts(w: World, p: Proposal)
    requires IndexInv(w.rows)
    ensures var (w', p') := ApplyRowEffects(w, p); IndexInv(w'.rows) && NftsSettled(w.rows, w'.rows, p')
  {
    var (w3, p3) := ApplySlash(w, p);
    SlashNfts(w, p);
    UnlockNfts(w3, p3);
  }

  lemma {:induction false} EffectsNfts(w: World, p: Proposal, env: Env)
    requires IndexInv(w.rows)
    ensures var (w', p') := ApplyEffects(w, p, env); IndexInv(w'.rows) && NftsSettled(w.rows, w'.rows, p')
  {
    var (w1, p1) := ApplyParam(w, p, env);
    var (w2, p2) := ApplyMint(w1, p1, env);
    RowEffectsNfts(w2, p2);
  }

  // ---------------------------------------------------------------- transfer rights come from votes

  /** Some tallied, passed proposal has unlocked this id. */
  predicate UnlockedByVote(r: Rows, id: Hash) {
    exists pid :: pid in r.proposals && Unlocks(r.proposals[pid], id)
  }

  predicate Unlocks(p: Proposal, id: Hash) {
    p.tallied && p.passed && p.applied.unlock && p.effects.unlockTarget == id
  }

  predicate UnlockInv(r: Rows) {
    forall id :: id in r.nfts && Transferable(r.nfts[id]) ==> UnlockedByVote(r, id)
  }

  lemma {:induction false} UnlockSurvives(a: Rows, b: Rows, id: Hash)
    requires AllEvolve(a, b) && UnlockedByVote(a, id)
    ensures UnlockedByVote(b, id)
  {
    var pid :| pid in a.proposals && Unlocks(a.proposals[pid], id);
    assert Unlocks(b.proposals[pid], id);
  }

  lemma {:induction false} IndexOfSame(a: Rows, b: Rows)
    requires IndexInv(a) && SameNfts(a, b)
    ensures IndexInv(b)
  {
  }

  lemma {:induction false} TallyOneNfts(w: World, p: Proposal, eligible: nat, env: Env)
    requires IndexInv(w.rows) && UnlockInv(w.rows) && p.id in w.rows.proposals && w.rows.proposals[p.id] == p && !p.tallied
    ensures var r := TallyOne(w, p, eligible, env).rows;
      && IndexInv(r) && UnlockInv(r)
      && forall id :: id in r.nfts ==> id in w.rows.nfts && r.nfts[id].owner == w.rows.nfts[id].owner
  {
    hide ApplyEffects, IndexInv;
    var (w1, p1) := ApplyEffects(w, Counted(p, eligible), env);
    EffectsNfts(w, Counted(p, eligible), env);
    var r := TallyOne(w, p, eligible, env).rows;
    assert SameNfts(r, w1.rows) && r.proposals[p.id] == p1;
    IndexOfSame(w1.rows, r);
    forall id | id in r.nfts && Transferable(r.nfts[id]) ensures UnlockedByVote(r, id) {
      if Transferable(w.rows.nfts[id]) {
        var pid :| pid in w.rows.proposals && Unlocks(w.rows.proposals[pid], id);
        assert pid != p.id && Unlocks(r.proposals[pid], id);
      } else {
        assert Unlocks(r.proposals[p.id], id);
      }
    }
  }

  lemma {:induction false} WalkNfts(w: World, order: seq<Proposal>, epoch: nat, eligible: nat, env: Env)
    requires IndexInv(w.rows) && UnlockInv(w.rows) && KeyedById(w.rows.proposals) && Unrepeated(order, w.rows.proposals)
    ensures var r := TallyEach(w, order, epoch, eligible, env).rows;
      && IndexInv(r) && UnlockInv(r)
      && forall id :: id in r.nfts ==> id in w.rows.nfts && r.nfts[id].owner == w.rows.nfts[id].owner
    decreases |order|
  {
    if order != [] {
      var front, last := order[..|order| - 1], order[|order| - 1];
      FrontUnrepeated(order, w.rows.proposals);
      WalkNfts(w, front, epoch, eligible, env);
      WalkSettlesDue(w, front, epoch, eligible, env);
      InFrontOrLast(order, w.rows.proposals, last);
      if Due(last, epoch) { TallyOneNfts(TallyEach(w, front, epoch, eligible, env), last, eligible, env); }
    }
  }

  // ---------------------------------------------------------------- whole runs

  ghost predicate NftInv(r: Rows) {
    IndexInv(r) && UnlockInv(r) && ProposalsInv(r)
  }

  /** Why an NFT's owner may differ after a step. */
  ghost predicate MovedByOwner(n: Node, op: Op, id: Hash, newOwner: Hash)
    requires id in n.world.rows.nfts
  {
    && op.Submit? && OwnerMoved(n.world.rows.nfts[id], newOwner, op.tx) && Signed(n.world, op.tx, op.env)
    && ProcessOne(n.world, n.pending, op.tx, op.env, op.submittedAt).outcome == Committed
    && UnlockedByVote(n.world.rows, id)
  }

  predicate OpReuses(n: Node, op: Op) {
    op.Submit? && Reuses(n.world, n.pending, op.tx, op.env, op.submittedAt)
  }

  /** Records a step may disturb, apart from owners moving their own: only the one whose id a mint reuses. */
  ghost predicate OwnersKept(n: Node, op: Op) {
    forall id :: id in n.world.rows.nfts && id in Step(n, op).world.rows.nfts ==>
      var newOwner := Step(n, op).world.rows.nfts[id].owner;
      || newOwner == n.world.rows.nfts[id].owner
      || MovedByOwner(n, op, id, newOwner)
      || (OpReuses(n, op) && id == MintedId(op.tx.mint.value))
  }

  lemma {:induction false} SubmitNfts(n: Node, op: Op)
    requires NftInv(n.world.rows) && op.Submit?
    ensures NftInv(Step(n, op).world.rows) <==> !OpReuses(n, op)
    ensures OwnersKept(n, op)
  {
    hide ProcessOne, Reuses, IndexInv, Signed, ProposalsInv, Transferable;
    StepBallots(n, op);
    TxNfts(n.world, n.pending, op.tx, op.env, op.submittedAt);
    var after := Step(n, op).world.rows;
    if !OpReuses(n, op) {
      forall id | id in after.nfts && Transferable(after.nfts[id]) ensures UnlockedByVote(after, id) {
        UnlockSurvives(n.world.rows, after, id);
      }
    }
  }

  lemma {:induction false} TallyNfts(n: Node, op: Op)
    requires NftInv(n.world.rows) && op.Tally?
    ensures NftInv(Step(n, op).world.rows) && OwnersKept(n, op)
  {
    hide TallyEach, IndexInv, UnlockInv, MovedByOwner;
    StepBallots(n, op);
    if IsListing(op.order, n.world.rows.proposals) {
      WalkNfts(n.world, op.order, op.epoch, |n.world.rows.nfts|, op.tallyEnv);
    }
  }

  /** A step keeps records and owner index exact inverses, and transfer rights voted, if and only if it is not
      a mint that reuses an id: one that passes stages 1 to 3 for a wallet without an NFT, with a good
      attestation, under a derived id in use. */
  lemma {:induction false} StepKeepsIndexIff(n: Node, op: Op)
    requires NftInv(n.world.rows)
    ensures NftInv(Step(n, op).world.rows) <==> !OpReuses(n, op)
    ensures OwnersKept(n, op)
  {
    hide Step, NftInv, OwnersKept, Reuses;
    if op.Submit? { SubmitNfts(n, op); } else { TallyNfts(n, op); }
  }

  /** In every run without such a mint the owner index and the records stay exact inverses, and whatever is
      transferable was unlocked by a tallied, passed proposal. */
  lemma {:induction false} IndexExactOverRuns(n: Node, ops: seq<Op>, k: nat)
    requires NftInv(n.world.rows) && k <= |ops|
    requires forall i :: 0 <= i < k ==> !OpReuses(Before(n, ops, i), ops[i])
    ensures NftInv(Before(n, ops, k).world.rows)
    decreases k
  {
    hide Step, NftInv, OpReuses;
    if k > 0 {
      IndexExactOverRuns(n, ops, k - 1);
      BeforeStep(n, ops, k - 1);
      StepKeepsIndexIff(Before(n, ops, k - 1), ops[k - 1]);
    } else {
      assert ops[..0] == [];
    }
  }

  /** Over a whole run the index is exact at every moment if and only if no step of it reuses an id. */
  lemma {:induction false} IndexExactIff(n: Node, ops: seq<Op>)
    requires NftInv(n.world.rows)
    ensures (forall k :: 0 <= k <= |ops| ==> NftInv(Before(n, ops, k).world.rows))
       <==> (forall i :: 0 <= i < |ops| ==> !OpReuses(Before(n, ops, i), ops[i]))
  {
    hide Step, NftInv, OpReuses;
    if forall i :: 0 <= i < |ops| ==> !OpReuses(Before(n, ops, i), ops[i]) {
      forall k | 0 <= k <= |ops| ensures NftInv(Before(n, ops, k).world.rows) { IndexExactOverRuns(n, ops, k); }
    }
    if forall k :: 0 <= k <= |ops| ==> NftInv(Before(n, ops, k).world.rows) {
      forall i | 0 <= i < |ops| ensures !OpReuses(Before(n, ops, i), ops[i]) {
        BeforeStep(n, ops, i);
        assert NftInv(Before(n, ops, i).world.rows) && NftInv(Before(n, ops, i + 1).world.rows);
        StepKeepsIndexIff(Before(n, ops, i), ops[i]);
      }
    }
  }

  /** Up to the first reuse of an id an existing NFT changes hands only by a committed transfer its current
      owner signed, on an unslashed record, after a passed and tallied proposal unlocked that very NFT; and the
      first reuse overwrites only the record of the id it reuses. */
  lemma {:induction false} OwnershipHistory(n: Node, ops: seq<Op>, k: nat, id: Hash)
    requires NftInv(n.world.rows) && k < |ops|
    requires forall i :: 0 <= i < k ==> !OpReuses(Before(n, ops, i), ops[i])
    requires id in Before(n, ops, k).world.rows.nfts && id in Before(n, ops, k + 1).world.rows.nfts
    requires Before(n, ops, k).world.rows.nfts[id].owner != Before(n, ops, k + 1).world.rows.nfts[id].owner
    ensures MovedByOwner(Before(n, ops, k), ops[k], id, Before(n, ops, k + 1).world.rows.nfts[id].owner)
         || (OpReuses(Before(n, ops, k), ops[k]) && id == MintedId(ops[k].tx.mint.value))
  {
    hide Step, NftInv, OpReuses, MovedByOwner;
    IndexExactOverRuns(n, ops, k);
    BeforeStep(n, ops, k);
    StepKeepsIndexIff(Before(n, ops, k), ops[k]);
  }

  // ---------------------------------------------------------------- how an id comes to be reused

  /** Once the wallet an NFT was minted for has transferred it away, minting again for that wallet with the
      same nonce reuses the id, and breaks the index. */
  lemma {:induction false} RemintAfterTransferBreaksIndex(n: Node, move: Op, remint: Op)
    requires NftInv(n.world.rows) && move.Submit? && move.tx.kind.NFTTransfer? && move.tx.move.Some?
    requires ProcessOne(n.world, n.pending, move.tx, move.env, move.submittedAt).outcome == Committed
    requires remint.Submit? && remint.tx.kind.NFTMint? && remint.tx.mint.Some?
    requires var (pub, to) := (remint.tx.mint.value, move.tx.move.value);
      && MintedId(pub) == to.target && to.target in n.world.rows.nfts
      && n.world.rows.nfts[to.target].owner == pub.owner && to.newOwner != pub.owner
    requires var m := Step(n, move);
      Admitted(m.world, m.pending, remint.tx, remint.env, remint.submittedAt) && AttestationOk(remint.tx.mint.value, remint.env)
    ensures OpReuses(Step(n, move), remint) && !NftInv(Step(Step(n, move), remint).world.rows)
  {
    var m, pub := Step(n, move), remint.tx.mint.value;
    StepKeepsIndexIff(n, move);
    CommittedMove(n.world, n.pending, move.tx, move.env, move.submittedAt);
    assert NftInv(m.world.rows);
    assert m.world.rows.nfts[MintedId(pub)].owner != pub.owner;
    hide NftInv, Step, Admitted, AttestationOk, ProcessOne;
    NoNftAfterMove(n.world.rows, m.world.rows, pub.owner, MintedId(pub));
    StepKeepsIndexIff(m, remint);
  }

  /** A committed transfer leaves the record in place, with its new owner, and the old owner's entry is gone. */
  lemma {:induction false} CommittedMove(w: World, pending: set<Hash>, tx: Tx, env: Env, at: Option<int>)
    requires tx.kind.NFTTransfer? && tx.move.Some? && ProcessOne(w, pending, tx, env, at).outcome == Committed
    ensures var to, r := tx.move.value, ProcessOne(w, pending, tx, env, at).world.rows;
      && to.target in w.rows.nfts && SameNfts(r, TransferNFTOwner(w.rows, w.rows.nfts[to.target].owner, w.rows.nfts[to.target].(owner := to.newOwner)))
  {
    ProcessInStages(w, pending, tx, env, at);
  }

  lemma {:induction false} NoNftAfterMove(a: Rows, b: Rows, owner: Hash, id: Hash)
    requires IndexInv(a) && IndexInv(b) && id in a.nfts && a.nfts[id].owner == owner
    requires id in b.nfts && b.nfts[id].owner != owner
    requires SameNfts(b, TransferNFTOwner(a, owner, a.nfts[id].(owner := b.nfts[id].owner)))
    ensures NFTByOwner(b, owner).None?
  {
  }

  /** A ledger meeting every invariant, and a mint that breaks its index: the NFT was unlocked by a vote and
      has moved to another wallet, so the wallet it was minted for may mint again. */
  lemma {:induction false} ReusedMintIdBreaksIndex(env: Env, tx: Tx, first: Hash, second: Hash, voter: Hash, nonce: Hash)
    requires first != second && tx.kind.NFTMint? && tx.mint.Some? && tx.mint.value.owner == first
    requires AttestationOk(tx.mint.value, env)
    ensures var w := AfterTransfer(MintedId(tx.mint.value), second, voter, nonce);
      NftInv(w.rows) && ExecNFTMint(w, tx, env).ok && !IndexInv(ExecNFTMint(w, tx, env).world.rows)
  {
    var id := MintedId(tx.mint.value);
    var w := AfterTransfer(id, second, voter, nonce);
    var p := UnlockPassed(id, voter, nonce);
    assert w.rows.proposals["unlock"] == p;
    assert Opens(p.commitments[voter], voter, true);
    assert Unlocks(p, id);
    MintStep(w, tx, env);
  }

  function UnlockPassed(id: Hash, voter: Hash, nonce: Hash): Proposal {
    Proposal("unlock", 0, map[voter := BallotSeal(voter, true, nonce)], map[voter := true],
             Effects("", "", 0, ZERO, false, ZERO, ZERO, false, id, "", false),
             NOTHING_APPLIED.(unlock := true), true, 1, 0, true)
  }

  function AfterTransfer(id: Hash, holder: Hash, voter: Hash, nonce: Hash): World {
    var held := NFT(id, holder, 0, map[TRANSFERABLE := Literal("true")], 0, false);
    var none := Tree(None, None);
    World(Rows({}, map[id := held], map[holder := id], map["unlock" := UnlockPassed(id, voter, nonce)], map[], {}),
          [], none, none, none, None, None)
  }
}
