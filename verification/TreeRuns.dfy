/** The commitment trees over whole runs: roots that proofs may anchor to, and where leaves come from. */
module TreeRuns {
  import opened Hashing
  import opened Epoch
  import opened Governance
  import opened Ledger
  import opened Stages
  import opened Runs
  import opened TallyRuns
  import opened BallotRuns

  // ---------------------------------------------------------------- roots

  predicate RootOfPrefix(leaves: seq<Hash>, root: Hash, rootOf: seq<Hash> -> Hash) {
    exists k :: 0 <= k <= |leaves| && root == rootOf(leaves[..k])
  }

  /** Every recorded root is the root the tree had at some length. */
  predicate Anchored(t: Tree, rootOf: seq<Hash> -> Hash) {
    t.leaves.Some? && t.roots.Some? ==> forall r :: r in t.roots.value ==> RootOfPrefix(t.leaves.value, r, rootOf)
  }

  lemma {:induction false} InsertKeepsAnchored(t: Tree, cs: seq<Hash>, rootOf: seq<Hash> -> Hash)
    requires Anchored(t, rootOf)
    ensures Anchored(Insert(t, cs, rootOf), rootOf)
  {
    if t.leaves.Some? && t.roots.Some? {
      var leaves := t.leaves.value + cs;
      assert leaves[..|leaves|] == leaves;
      forall r | r in t.roots.value ensures RootOfPrefix(leaves, r, rootOf) {
        var k :| 0 <= k <= |t.leaves.value| && r == rootOf(t.leaves.value[..k]);
        assert leaves[..k] == t.leaves.value[..k];
      }
    }
  }

  predicate AllAnchored(w: World, rootOf: seq<Hash> -> Hash) {
    Anchored(w.notes, rootOf) && Anchored(w.eligibility, rootOf) && Anchored(w.stakes, rootOf)
  }

  /** The note-tree leaves a transaction carries. */
  function Outputs(tx: Tx): seq<Hash> {
    if tx.kind.Transfer? && tx.transfer.Some? then tx.transfer.value.outCommits
    else if tx.kind.Unstake? then tx.commitments
    else []
  }

  /** Outputs are placed by an accepted transaction, and also by one that only stage 5 refuses. */
  predicate Placed(tx: Tx, outcome: Outcome) {
    (tx.kind.Transfer? || tx.kind.Unstake?) && (outcome == Committed || outcome == Rejected(5))
  }

  /** How stage 4 may change the trees: stakes never, notes only by an accepted kind's outputs. */
  lemma {:induction false} Stage4Trees(w: World, tx: Tx, env: Env)
    requires WellFormed(tx)
    requires tx.kind.Transfer? ==> tx.transfer.Some?
    requires tx.kind.Unstake? ==> |tx.commitments| == 1
    ensures var e := Stage4(w, tx, env);
      && e.world.stakes == w.stakes
      && e.world.notes == (if e.ok && (tx.kind.Transfer? || tx.kind.Unstake?) then Insert(w.notes, Outputs(tx), env.rootOf) else w.notes)
      && (e.world.eligibility == w.eligibility
          || (tx.kind.NFTMint? && e.world.eligibility == Insert(w.eligibility, [tx.mint.value.voterCommitment], env.rootOf)))
  {
  }

  lemma {:induction false} TxTrees(w: World, pending: set<Hash>, tx: Tx, env: Env, at: Option<int>)
    ensures var r := ProcessOne(w, pending, tx, env, at);
      && r.world.stakes == w.stakes
      && r.world.notes == (if Placed(tx, r.outcome) then Insert(w.notes, Outputs(tx), env.rootOf) else w.notes)
      && (r.world.eligibility == w.eligibility || exists cs :: r.world.eligibility == Insert(w.eligibility, cs, env.rootOf))
  {
    hide ProcessOne, MarkSpent, Signed, Outputs;
    ProcessInStages(w, pending, tx, env, at);
    if Stage1(w, pending, tx, env) && Stage2(w, tx, env, at) && Stage3(tx) {
      Stage4Trees(w, tx, env);
      var e := Stage4(w, tx, env).world;
      var s := Stage5(e, tx).world;
      assert s.notes == e.notes && s.eligibility == e.eligibility && s.stakes == e.stakes;
      var r := ProcessOne(w, pending, tx, env, at).world;
      assert r.eligibility == e.eligibility;
      if r.eligibility != w.eligibility {
        assert r.eligibility == Insert(w.eligibility, [tx.mint.value.voterCommitment], env.rootOf);
      }
    }
  }

  /** What settling one proposal inserts: nothing, or the one leaf its effects name, in the tree its path names. */
  lemma {:induction false} EffectsTrees(w: World, p: Proposal, env: Env)
    requires !p.applied.mint
    ensures var (w', p') := ApplyEffects(w, p, env);
      && (!p'.applied.mint ==> w'.notes == w.notes && w'.stakes == w.stakes)
      && (p'.applied.mint && p.effects.mintStaked ==>
            && w.stakes.leaves.Some? && w'.notes == w.notes
            && w'.stakes == Insert(w.stakes, [p.effects.stakePositionCommit], env.rootOf))
      && (p'.applied.mint && !p.effects.mintStaked ==>
            && w.notes.leaves.Some? && w'.stakes == w.stakes
            && w'.notes == Insert(w.notes, [p.effects.mintOutCommit], env.rootOf))
  {
    hide ApplyParam, ApplyMint, ApplyRowEffects;
    var (w1, p1) := ApplyParam(w, p, env);
    var (w2, p2) := ApplyMint(w1, p1, env);
    ParamKeepsTrees(w, p, env);
    MintTrees(w1, p1, env);
    RowEffectsKeepTrees(w2, p2);
  }

  lemma {:induction false} ParamKeepsTrees(w: World, p: Proposal, env: Env)
    ensures var (w', p') := ApplyParam(w, p, env);
      w'.notes == w.notes && w'.stakes == w.stakes && p'.applied.mint == p.applied.mint && p'.effects == p.effects
  {
  }

  lemma {:induction false} RowEffectsKeepTrees(w: World, p: Proposal)
    ensures var (w', p') := ApplyRowEffects(w, p);
      w'.notes == w.notes && w'.stakes == w.stakes && p'.applied.mint == p.applied.mint
  {
  }

  lemma {:induction false} MintTrees(w: World, p: Proposal, env: Env)
    requires !p.applied.mint
    ensures var (w', p') := ApplyMint(w, p, env);
      && (!p'.applied.mint ==> w'.notes == w.notes && w'.stakes == w.stakes)
      && (p'.applied.mint && p.effects.mintStaked ==>
            && w.stakes.leaves.Some? && w'.notes == w.notes
            && w'.stakes == Insert(w.stakes, [p.effects.stakePositionCommit], env.rootOf))
      && (p'.applied.mint && !p.effects.mintStaked ==>
            && w.notes.leaves.Some? && w'.stakes == w.stakes
            && w'.notes == Insert(w.notes, [p.effects.mintOutCommit], env.rootOf))
  {
  }

  lemma {:induction false} WalkAnchored(w: World, order: seq<Proposal>, epoch: nat, eligible: nat, env: Env)
    requires AllAnchored(w, env.rootOf) && forall i :: 0 <= i < |order| ==> MintPending(order[i])
    ensures AllAnchored(TallyEach(w, order, epoch, eligible, env), env.rootOf)
    decreases |order|
  {
    if order != [] {
      var front, last := order[..|order| - 1], order[|order| - 1];
      WalkAnchored(w, front, epoch, eligible, env);
      if Due(last, epoch) {
        var mid, c := TallyEach(w, front, epoch, eligible, env), Counted(last, eligible);
        EffectsTrees(mid, c, env);
        InsertKeepsAnchored(mid.notes, [c.effects.mintOutCommit], env.rootOf);
        InsertKeepsAnchored(mid.stakes, [c.effects.stakePositionCommit], env.rootOf);
      }
    }
  }

  /** An untallied record has executed nothing yet. */
  predicate MintPending(p: Proposal) {
    !p.tallied ==> !p.applied.mint
  }

  predicate AllMintPending(r: Rows) {
    forall id :: id in r.proposals ==> MintPending(r.proposals[id])
  }

  lemma {:induction false} StepMintPending(n: Node, op: Op)
    requires ProposalsInv(n.world.rows) && AllMintPending(n.world.rows)
    ensures AllMintPending(Step(n, op).world.rows)
  {
    hide ProcessOne, TallyDue, BallotInv;
    var w := n.world;
    match op
    case Submit(tx, env, at) =>
      TxProposals(w, n.pending, tx, env, at);
    case Tally(order, epoch, env) =>
      if IsListing(order, w.rows.proposals) {
        var after := TallyDue(w, order, epoch, env).rows.proposals;
        TallySettlesExactlyTheDue(w, order, epoch, env, "");
        forall id | id in w.rows.proposals ensures MintPending(after[id]) {
          TallySettlesExactlyTheDue(w, order, epoch, env, id);
        }
      }
  }

  function RootFn(op: Op): seq<Hash> -> Hash {
    if op.Submit? then op.env.rootOf else op.tallyEnv.rootOf
  }

  lemma {:induction false} StepAnchored(n: Node, op: Op, rootOf: seq<Hash> -> Hash)
    requires AllAnchored(n.world, rootOf) && RootFn(op) == rootOf && AllMintPending(n.world.rows)
    ensures AllAnchored(Step(n, op).world, rootOf)
  {
    match op
    case Submit(tx, env, at) =>
      TxTrees(n.world, n.pending, tx, env, at);
      var e := Step(n, op).world;
      InsertKeepsAnchored(n.world.notes, Outputs(tx), rootOf);
      if e.eligibility != n.world.eligibility {
        var cs :| e.eligibility == Insert(n.world.eligibility, cs, rootOf);
        InsertKeepsAnchored(n.world.eligibility, cs, rootOf);
      }
    case Tally(order, epoch, env) =>
      if IsListing(order, n.world.rows.proposals) {
        WalkAnchored(n.world, order, epoch, |n.world.rows.nfts|, env);
      }
  }

  lemma {:induction false} RootsAnchoredOverRuns(n: Node, ops: seq<Op>, k: nat, rootOf: seq<Hash> -> Hash)
    requires AllAnchored(n.world, rootOf) && ProposalsInv(n.world.rows) && AllMintPending(n.world.rows)
    requires k <= |ops| && forall i :: 0 <= i < |ops| ==> RootFn(ops[i]) == rootOf
    ensures AllAnchored(Before(n, ops, k).world, rootOf) && AllMintPending(Before(n, ops, k).world.rows)
    decreases k
  {
    hide AllAnchored, ProposalsInv, MintPending, Step, AllEvolve;
    if k > 0 {
      RootsAnchoredOverRuns(n, ops, k - 1, rootOf);
      BeforeStep(n, ops, k - 1);
      SealedBallots(n, ops, 0, k - 1);
      StepAnchored(Before(n, ops, k - 1), ops[k - 1], rootOf);
      StepMintPending(Before(n, ops, k - 1), ops[k - 1]);
    }
  }

  /** A transfer is accepted only against a root the canonical note tree really had, an unstake only
      against one the stake tree had. */
  lemma {:induction false} AcceptedSpendIsAnchored(n: Node, ops: seq<Op>, k: nat, rootOf: seq<Hash> -> Hash)
    requires AllAnchored(n.world, rootOf) && ProposalsInv(n.world.rows) && AllMintPending(n.world.rows)
    requires forall i :: 0 <= i < |ops| ==> RootFn(ops[i]) == rootOf
    requires AcceptedAt(n, ops, k)
    ensures var (w, tx) := (Before(n, ops, k).world, ops[k].tx);
      && (tx.kind.Transfer? && w.notes.leaves.Some? && w.notes.roots.Some? ==>
            RootOfPrefix(w.notes.leaves.value, tx.transfer.value.root, rootOf))
      && (tx.kind.Unstake? && w.stakes.leaves.Some? ==> RootOfPrefix(w.stakes.leaves.value, tx.unstake.value.root, rootOf))
  {
    RootsAnchoredOverRuns(n, ops, k, rootOf);
  }
}
