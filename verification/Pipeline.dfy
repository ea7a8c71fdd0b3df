/** The pipeline object of pkg/tx/pipeline.go over the store of pkg/state/store.go: each method is
    proved to do to the state what its stage function says. */
module Pipeline {
  import opened Hashing
  import opened Epoch
  import opened Governance
  import opened Ledger
  import opened Stages
  import opened TallyRuns
  import Merkle
  import Staking

  class Store {
    var spent: set<Hash>
    var nfts: map<Hash, NFT>
    var byOwner: map<Hash, Hash>
    var proposals: map<string, Proposal>
    var containers: map<string, Hash>
    var assets: set<string>

    function View(): Rows
      reads this
    {
      Rows(spent, nfts, byOwner, proposals, containers, assets)
    }

    constructor ()
      ensures View() == Rows({}, map[], map[], map[], map[], {})
    {
      spent, nfts, byOwner, proposals, containers, assets := {}, map[], map[], map[], map[], {};
    }

    /** Test-and-set. */
    method MarkNullifierSpent(n: Hash) returns (ok: bool)
      modifies this
      ensures ok <==> n !in old(spent)
      ensures View() == if ok then old(View()).(spent := old(spent) + {n}) else old(View())
    {
      if n in spent { return false; }
      spent := spent + {n};
      return true;
    }

    method SaveNFT(n: NFT)
      modifies this
      ensures View() == PutNFT(old(View()), n)
    {
      nfts := nfts[n.id := n];
      byOwner := byOwner[n.owner := n.id];
    }

    method RemoveNFT(n: NFT)
      modifies this
      ensures View() == DeleteNFT(old(View()), n)
    {
      nfts := nfts - {n.id};
      byOwner := byOwner - {n.owner};
    }

    method MoveNFT(oldOwner: Hash, n: NFT)
      modifies this
      ensures View() == TransferNFTOwner(old(View()), oldOwner, n)
    {
      byOwner := byOwner - {oldOwner};
      SaveNFT(n);
    }

    method GetNFTByOwner(owner: Hash) returns (n: Option<NFT>)
      ensures n == NFTByOwner(View(), owner)
    {
      if owner !in byOwner { return None; }
      var id := byOwner[owner];
      if id !in nfts { return None; }
      return Some(nfts[id]);
    }

    method SaveProposal(p: Proposal)
      modifies this
      ensures View() == PutProposal(old(View()), p)
    {
      proposals := proposals[p.id := p];
    }

    /** Every stored proposal once, in some order. */
    method ListProposals() returns (order: seq<Proposal>)
      requires KeyedById(proposals)
      ensures IsListing(order, proposals)
    {
      order := [];
      var left := proposals.Keys;
      while left != {}
        invariant left <= proposals.Keys
        invariant Unrepeated(order, proposals)
        invariant forall i :: 0 <= i < |order| ==> order[i].id !in left
        invariant forall id :: id in proposals ==> id in left || exists i :: 0 <= i < |order| && order[i].id == id
        decreases left
      {
        var id :| id in left;
        var before := order;
        order := order + [proposals[id]];
        left := left - {id};
        assert order[|before|].id == id;
        forall k | k in proposals && k !in left ensures exists i :: 0 <= i < |order| && order[i].id == k {
          if k != id {
            var i :| 0 <= i < |before| && before[i].id == k;
            assert order[i].id == k;
          }
        }
      }
    }
  }

  class Pipeline {
    const env: Env
    const store: Store
    const tree: Merkle.MerkleTree
    var notes: Tree
    var eligibility: Tree
    var stakes: Tree
    var vault: Option<Vault>
    var gov: Option<Params>
    var pending: set<Hash>

    function View(): World
      reads this, store, tree
    {
      World(store.View(), tree.leaves, notes, eligibility, stakes, vault, gov)
    }

    constructor (env: Env, store: Store, tree: Merkle.MerkleTree, notes: Tree, eligibility: Tree, stakes: Tree,
                 vault: Option<Vault>, gov: Option<Params>)
      ensures this.env == env && this.store == store && this.tree == tree && pending == {}
      ensures View() == World(store.View(), tree.leaves, notes, eligibility, stakes, vault, gov)
    {
      this.env, this.store, this.tree := env, store, tree;
      this.notes, this.eligibility, this.stakes, this.vault, this.gov := notes, eligibility, stakes, vault, gov;
      pending := {};
    }

    // -------------------------------------------------------------- reservations

    method ReserveNullifiers(ns: seq<Hash>) returns (ok: bool)
      ensures ok <==> Reservable(View(), pending, ns)
    {
      for i := 0 to |ns|
        invariant forall k :: 0 <= k < i ==> ns[k] !in pending
      {
        if ns[i] in pending { return false; }
      }
      for i := 0 to |ns|
        invariant forall k :: 0 <= k < i ==> ns[k] !in store.spent
      {
        if ns[i] in store.spent { return false; }
      }
      return true;
    }

    method MarkReserved(ns: seq<Hash>)
      modifies this`pending
      ensures pending == old(pending) + SetOf(ns)
    {
      for i := 0 to |ns|
        invariant pending == old(pending) + SetOf(ns[..i])
      {
        assert ns[..i + 1] == ns[..i] + [ns[i]];
        pending := pending + {ns[i]};
      }
      assert ns[..|ns|] == ns;
    }

    /** Drops a transaction's reservations, whether it was rejected or finalised. */
    method Release(tx: Tx)
      modifies this`pending
      ensures pending == old(pending) - SetOf(Nullifiers(tx))
    {
      var ns := Nullifiers(tx);
      for i := 0 to |ns|
        invariant pending == old(pending) - SetOf(ns[..i])
      {
        assert ns[..i + 1] == ns[..i] + [ns[i]];
        pending := pending - {ns[i]};
      }
      assert ns[..|ns|] == ns;
    }

    // -------------------------------------------------------------- stage 1

    method Stage1SenderLeave(tx: Tx) returns (ok: bool)
      modifies this`pending
      ensures ok <==> old(Stage1(View(), pending, tx, env))
      ensures pending == if ok then old(pending) + SetOf(Nullifiers(tx)) else old(pending)
    {
      if tx.kind.Transfer? {
        ok := CheckTransfer(tx);
      } else if tx.kind.Unstake? {
        ok := CheckUnstake(tx);
      } else {
        return true;
      }
      if ok { MarkReserved(Nullifiers(tx)); }
    }

    method CheckTransfer(tx: Tx) returns (ok: bool)
      ensures ok <==> Stage1Transfer(View(), pending, tx, env)
    {
      if tx.transfer.None? || tx.transfer.value.nullifiers == [] { return false; }
      var pub := tx.transfer.value;
      var free := ReserveNullifiers(pub.nullifiers);
      if !free || env.zk.None? { return false; }
      if notes.roots.Some? && pub.root !in notes.roots.value { return false; }
      return env.zk.value(tx.proof, pub);
    }

    method CheckUnstake(tx: Tx) returns (ok: bool)
      ensures ok <==> Stage1Unstake(View(), pending, tx, env)
    {
      if tx.unstake.None? || |tx.commitments| != 1 { return false; }
      var pub := tx.unstake.value;
      var free := ReserveNullifiers([tx.nullifier]);
      if !free || env.unstakeZK.None? || !KnowsRoot(stakes, pub.root) { return false; }
      if pub.finalAmount != Staking.FinalAmount(pub.principal, pub.startEpoch, env.epoch) { return false; }
      return env.unstakeZK.value(tx.proof, pub, tx.nullifier, tx.commitments[0]);
    }

    // -------------------------------------------------------------- stage 4

    method AppendAll(cs: seq<Hash>)
      modifies tree
      ensures tree.leaves == old(tree.leaves) + cs
    {
      for i := 0 to |cs|
        invariant tree.leaves == old(tree.leaves) + cs[..i]
      {
        var _ := tree.Append(cs[i]);
      }
    }

    method SendTransfer(tx: Tx) returns (ok: bool)
      requires tx.transfer.Some?
      modifies this, tree
      ensures Exec(View(), ok) == old(ExecTransfer(View(), tx, env)) && pending == old(pending)
    {
      var outs := tx.transfer.value.outCommits;
      if !HasRoom(notes, |outs|) { return false; }
      AppendAll(outs);
      notes := Insert(notes, outs, env.rootOf);
      return true;
    }

    method SendBank(tx: Tx) returns (ok: bool)
      requires tx.bank.Some?
      modifies tree
      ensures Exec(View(), ok) == old(ExecBank(View(), tx, env))
    {
      var pub, deposit := tx.bank.value, tx.kind.BankDeposit?;
      if pub.asset != "" && pub.asset != NATIVE_ASSET && pub.asset !in store.assets { return false; }
      var multiple := if deposit then 2.5 else 1.5;
      if gov.Some? { multiple := if deposit then gov.value.ratios.depositATR else gov.value.ratios.withdrawATR; }
      if pub.buffer != multiple * pub.atr { return false; }
      if !OraclePriceOk(deposit, pub, env) { return false; }
      AppendAll(tx.commitments);
      return true;
    }

    method SendTrait(tx: Tx) returns (ok: bool)
      requires tx.traitUpdate.Some?
      modifies store
      ensures Exec(View(), ok) == old(ExecTrait(View(), tx))
    {
      if tx.commitments == [] || tx.commitments[0] !in store.nfts { return false; }
      var n, pub := store.nfts[tx.commitments[0]], tx.traitUpdate.value;
      store.SaveNFT(n.(traits := n.traits[pub.key + DELTA_SUFFIX := Hex(pub.delta)]));
      return true;
    }

    method SendVote(tx: Tx) returns (ok: bool)
      requires tx.vote.Some?
      modifies store
      ensures Exec(View(), ok) == old(ExecVote(View(), tx, env))
    {
      var pub := tx.vote.value;
      var voter := EligibleVoter(View(), tx.eligibility, pub.proposal, env);
      if voter.None? { return false; }
      var p: Proposal;
      if pub.proposal in store.proposals {
        p := store.proposals[pub.proposal];
      } else {
        if !EffectsOk(View(), pub, env) { return false; }
        p := NewProposal(pub, env.epoch);
      }
      if p.tallied || voter.value in p.commitments { return false; }
      store.SaveProposal(p.(commitments := p.commitments[voter.value := pub.commitment]));
      return true;
    }

    method SendReveal(tx: Tx) returns (ok: bool)
      requires tx.opening.Some?
      modifies store
      ensures Exec(View(), ok) == old(ExecReveal(View(), tx, env))
    {
      var pub := tx.opening.value;
      var voter := EligibleVoter(View(), tx.eligibility, pub.proposal, env);
      if voter.None? || pub.proposal !in store.proposals { return false; }
      var p, v := store.proposals[pub.proposal], voter.value;
      if p.tallied || v !in p.commitments { return false; }
      if v in p.openings && p.openings[v] { return false; }
      if BallotSeal(v, pub.approve, pub.nonce) != p.commitments[v] { return false; }
      store.SaveProposal(p.(openings := p.openings[v := pub.approve]));
      return true;
    }

    method SendContainer(tx: Tx) returns (ok: bool)
      modifies store
      ensures Exec(View(), ok) == old(ExecContainer(View(), tx))
    {
      if tx.container.None? || tx.commitments == [] { return false; }
      var id, root := tx.container.value, tx.commitments[0];
      if id in store.containers && tx.memo != Some(root) { return false; }
      store.containers := store.containers[id := root];
      return true;
    }

    method SendNFTMint(tx: Tx) returns (ok: bool)
      requires tx.mint.Some?
      modifies this, store
      ensures Exec(View(), ok) == old(ExecNFTMint(View(), tx, env)) && pending == old(pending)
    {
      var pub := tx.mint.value;
      var held := store.GetNFTByOwner(pub.owner);
      if held.Some? || !AttestationOk(pub, env) { return false; }
      store.SaveNFT(FreshNFT(pub, env.height));
      if !HasRoom(eligibility, 1) { return false; }
      eligibility := Insert(eligibility, [pub.voterCommitment], env.rootOf);
      return true;
    }

    method SendUnstake(tx: Tx) returns (ok: bool)
      requires |tx.commitments| == 1
      modifies this, tree
      ensures Exec(View(), ok) == old(ExecUnstake(View(), tx, env)) && pending == old(pending)
    {
      if notes.leaves.None? { return true; }
      if !HasRoom(notes, 1) { return false; }
      notes := Insert(notes, tx.commitments, env.rootOf);
      AppendAll(tx.commitments);
      return true;
    }

    method SendNFTTransfer(tx: Tx) returns (ok: bool)
      requires tx.move.Some?
      modifies store
      ensures Exec(View(), ok) == old(ExecNFTTransfer(View(), tx))
    {
      var pub := tx.move.value;
      if pub.target !in store.nfts { return false; }
      var n := store.nfts[pub.target];
      if AddressOf(tx.signer) != n.owner { return false; }
      var holder := store.GetNFTByOwner(pub.newOwner);
      if n.slashed || !Transferable(n) { return false; }
      if holder.Some? && holder.value.id != pub.target { return false; }
      store.MoveNFT(n.owner, n.(owner := pub.newOwner));
      return true;
    }

    method Stage4SendExec(tx: Tx) returns (ok: bool)
      requires WellFormed(tx)
      requires tx.kind.Transfer? ==> tx.transfer.Some?
      requires tx.kind.Unstake? ==> |tx.commitments| == 1
      modifies this, store, tree
      ensures Exec(View(), ok) == old(Stage4(View(), tx, env)) && pending == old(pending)
    {
      match tx.kind
      case Transfer => ok := SendTransfer(tx);
      case Mint => ok := true;
      case Vote => ok := SendVote(tx);
      case BankDeposit => ok := SendBank(tx);
      case BankWithdraw => ok := SendBank(tx);
      case NFTTrait => ok := SendTrait(tx);
      case ContainerSync => ok := SendContainer(tx);
      case VoteReveal => ok := SendReveal(tx);
      case NFTMint => ok := SendNFTMint(tx);
      case Unstake => ok := SendUnstake(tx);
      case NFTTransfer => ok := SendNFTTransfer(tx);
    }

    // -------------------------------------------------------------- stage 5

    method SpendAll(ns: seq<Hash>) returns (ok: bool)
      modifies store
      ensures (store.spent, ok) == old(MarkSpent(store.spent, ns))
      ensures store.View() == old(store.View()).(spent := store.spent)
    {
      for i := 0 to |ns|
        invariant MarkSpent(old(store.spent), ns) == MarkSpent(store.spent, ns[i..])
        invariant store.View() == old(store.View()).(spent := store.spent)
      {
        assert ns[i..][1..] == ns[i + 1..];
        ok := store.MarkNullifierSpent(ns[i]);
        if !ok { return; }
      }
      ok := true;
    }

    method Stage5PlaceFinal(tx: Tx) returns (ok: bool)
      modifies this, store
      ensures Exec(View(), ok) == old(Stage5(View(), tx)) && pending == old(pending)
    {
      ok := SpendAll(Nullifiers(tx));
      if ok && tx.kind.Transfer? && tx.transfer.Some? && vault.Some? {
        vault := Some(CollectFee(vault.value, AsInt64(tx.transfer.value.fee) as real));
      }
    }

    // -------------------------------------------------------------- one transaction, one batch

    method ProcessOneTx(tx: Tx, submittedAt: Option<int>) returns (outcome: Outcome)
      modifies this, store, tree
      ensures Result(View(), pending, outcome) == old(ProcessOne(View(), pending, tx, env, submittedAt))
    {
      ghost var w, reserved := View(), pending;
      var ok := Stage1SenderLeave(tx);
      if !ok { return Rejected(1); }
      assert reserved + SetOf(Nullifiers(tx)) - SetOf(Nullifiers(tx)) == reserved - SetOf(Nullifiers(tx));
      assert View() == w;
      if !Stage2(View(), tx, env, submittedAt) { Release(tx); return Rejected(2); }
      if !Stage3(tx) { Release(tx); return Rejected(3); }
      ok := Stage4SendExec(tx);
      if !ok { Release(tx); return Rejected(4); }
      ok := Stage5PlaceFinal(tx);
      Release(tx);
      return if ok then Committed else Rejected(5);
    }
 
    /** Entries are independent: each one's outcome is that of ProcessOne in the state the earlier ones left. */
    method ProcessBatch(entries: seq<(Tx, Option<int>)>) returns (outcomes: seq<Outcome>)
      modifies this, store, tree
      ensures (View(), pending, outcomes) == old(Batch(View(), pending, entries, env))
    {
      outcomes := [];
      ghost var w, reserved := View(), pending;
      for i := 0 to |entries|
        invariant (View(), pending, outcomes) == Batch(w, reserved, entries[..i], env)
      {
        assert entries[..i + 1][..i] == entries[..i];
        var o := ProcessOneTx(entries[i].0, entries[i].1);
        outcomes := outcomes + [o];
      }
      assert entries[..|entries|] == entries;
    }

    // -------------------------------------------------------------- the tally

    method ApplyParamChange(p: Proposal) returns (q: Proposal)
      modifies this
      ensures (View(), q) == old(ApplyParam(View(), p, env)) && pending == old(pending)
    {
      q := p;
      if p.passed && p.effects.paramKey != "" && gov.Some? {
        var g := ChangeParam(gov.value, p.effects.paramKey, env.parse(p.effects.newValue));
        if g.Some? {
          gov := g;
          q := p.(applied := p.applied.(param := true));
          if IsVaultShareKey(p.effects.paramKey) && vault.Some? {
            vault := Some(vault.value.(splits := SplitsOf(g.value)));
          }
        }
      }
    }

    method ExecuteMint(p: Proposal) returns (q: Proposal)
      modifies this, tree
      ensures (View(), q) == old(ApplyMint(View(), p, env)) && pending == old(pending)
    {
      q := p;
      var e := p.effects;
      if p.passed && e.mintAmount > 0 && e.mintStaked {
        if stakes.leaves.Some? && HasRoom(stakes, 1) {
          stakes := Insert(stakes, [e.stakePositionCommit], env.rootOf);
          q := p.(applied := p.applied.(mint := true));
        }
      } else if p.passed && e.mintAmount > 0 {
        if notes.leaves.Some? && HasRoom(notes, 1) {
          notes := Insert(notes, [e.mintOutCommit], env.rootOf);
          var _ := tree.Append(e.mintOutCommit);
          q := p.(applied := p.applied.(mint := true));
          if vault.Some? { vault := Some(CollectFee(vault.value, AsInt64(MintFee(e.mintAmount)) as real)); }
        }
      }
    }

    method ExecuteRowEffects(p: Proposal) returns (q: Proposal)
      modifies this, store
      ensures (View(), q) == old(ApplyRowEffects(View(), p)) && pending == old(pending)
    {
      q := ExecuteSlash(p);
      q := ExecuteUnlock(q);
      if q.passed && q.effects.assetTarget != "" {
        store.assets := store.assets + {q.effects.assetTarget};
        q := q.(applied := q.applied.(asset := true));
      }
      if q.passed && q.effects.unwindDualSign && gov.Some? {
        gov := Some(gov.value.(dualSign := false));
        q := q.(applied := q.applied.(unwind := true));
      }
    }

    method ExecuteSlash(p: Proposal) returns (q: Proposal)
      modifies store
      ensures (View(), q) == old(ApplySlash(View(), p))
    {
      q := p;
      var id := p.effects.slashTarget;
      if p.passed && id != ZERO && id in store.nfts {
        var n := store.nfts[id].(slashed := true);
        if p.effects.slashBurn { store.RemoveNFT(n.(tp := 0)); } else { store.SaveNFT(n); }
        q := p.(applied := p.applied.(slash := true));
      }
    }

    method ExecuteUnlock(p: Proposal) returns (q: Proposal)
      modifies store
      ensures (View(), q) == old(ApplyUnlock(View(), p))
    {
      q := p;
      var id := p.effects.unlockTarget;
      if p.passed && id != ZERO && id in store.nfts {
        var n := store.nfts[id];
        store.SaveNFT(n.(traits := n.traits[TRANSFERABLE := Literal("true")]));
        q := p.(applied := p.applied.(unlock := true));
      }
    }

    method SettleProposal(p: Proposal, eligible: nat)
      modifies this, store, tree
      ensures View() == old(TallyOne(View(), p, eligible, env)) && pending == old(pending)
    {
      var ballots := BallotsOf(p.openings);
      var t := Governance.Tally(ballots, eligible, MIN_TURNOUT);
      TallyIgnoresOrder(ballots, p.openings, true);
      TallyIgnoresOrder(ballots, p.openings, false);
      var q := p.(tallied := true, approve := t.approve, reject := t.reject, passed := t.passed);
      q := ApplyParamChange(q);
      q := ExecuteMint(q);
      q := ExecuteRowEffects(q);
      store.SaveProposal(q);
    }

    /** Settles every due proposal of some listing of the store. */
    method TallyDueProposals(epoch: nat) returns (ghost order: seq<Proposal>)
      requires KeyedById(store.proposals)
      modifies this, store, tree
      ensures IsListing(order, old(store.proposals))
      ensures View() == old(TallyDue(View(), order, epoch, env)) && pending == old(pending)
    {
      var all := store.ListProposals();
      var eligible := |store.nfts|;
      ghost var w := View();
      for i := 0 to |all|
        invariant View() == TallyEach(w, all[..i], epoch, eligible, env) && pending == old(pending)
      {
        assert all[..i + 1][..i] == all[..i];
        if Due(all[i], epoch) { SettleProposal(all[i], eligible); }
      }
      assert all[..|all|] == all;
      order := all;
    }
  }

  /** Walks the reveal map in an arbitrary order. */
  method BallotsOf(openings: map<Hash, bool>) returns (ballots: seq<Ballot>)
    ensures Lists(ballots, openings)
  {
    ballots := [];
    var left := openings.Keys;
    while left != {}
      invariant left <= openings.Keys
      invariant forall i, j :: 0 <= i < j < |ballots| ==> ballots[i].voter != ballots[j].voter
      invariant Voters(ballots) == openings.Keys - left
      invariant forall i :: 0 <= i < |ballots| ==> ballots[i].voter in openings && openings[ballots[i].voter] == ballots[i].approve
      decreases left
    {
      var v :| v in left;
      forall i | 0 <= i < |ballots| ensures ballots[i].voter != v { assert ballots[i] in ballots; }
      var b := Ballot(v, openings[v]);
      assert Voters(ballots + [b]) == Voters(ballots) + {v};
      ballots := ballots + [b];
      left := left - {v};
    }
  }
}
