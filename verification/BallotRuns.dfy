/** Sealed ballots over whole runs. */
module BallotRuns {
  import opened Hashing
  import opened Epoch
  import opened Governance
  import opened Ledger
  import opened Stages
  import opened Runs
  import opened TallyRuns

  /** Only committed voters have revealed, and each revealed choice opens its commitment. */
  ghost predicate BallotInv(p: Proposal) {
    forall v :: v in p.openings ==> v in p.commitments && Opens(p.commitments[v], v, p.openings[v])
  }

  ghost predicate Opens(seal: Hash, voter: Hash, choice: bool) {
    exists nonce :: seal == BallotSeal(voter, choice, nonce)
  }

  ghost predicate ProposalsInv(r: Rows) {
    KeyedById(r.proposals) && forall id :: id in r.proposals ==> BallotInv(r.proposals[id])
  }

  predicate Extends<K, V(==)>(a: map<K, V>, b: map<K, V>) {
    forall k :: k in a ==> k in b && b[k] == a[k]
  }

  /** What a stored proposal may turn into: ballots and openings only accumulate, bound effects stay,
      and a tallied record is final. */
  predicate Evolves(p: Proposal, q: Proposal) {
    && q.id == p.id && q.epoch == p.epoch && q.effects == p.effects
    && Extends(p.commitments, q.commitments) && Extends(p.openings, q.openings)
    && (p.tallied ==> q == p)
  }

  lemma {:induction false} EvolvesTransitive(p: Proposal, q: Proposal, r: Proposal)
    requires Evolves(p, q) && Evolves(q, r)
    ensures Evolves(p, r)
  {
  }

  ghost predicate AllEvolve(a: Rows, b: Rows) {
    forall id :: id in a.proposals ==> id in b.proposals && Evolves(a.proposals[id], b.proposals[id])
  }

  /** A commitment opens to one choice only. */
  lemma {:induction false} OpeningUnique(seal: Hash, voter: Hash, a: bool, b: bool)
    requires Opens(seal, voter, a) && Opens(seal, voter, b)
    ensures a == b
  {
    var m :| seal == BallotSeal(voter, a, m);
    var n :| seal == BallotSeal(voter, b, n);
    SealOpensOneWay(voter, a, m, voter, b, n);
  }

  lemma {:induction false} VoteStep(w: World, tx: Tx, env: Env)
    requires tx.vote.Some? && ProposalsInv(w.rows)
    ensures ProposalsInv(ExecVote(w, tx, env).world.rows)
    ensures AllEvolve(w.rows, ExecVote(w, tx, env).world.rows)
  {
  }

  lemma {:induction false} RevealStep(w: World, tx: Tx, env: Env)
    requires tx.opening.Some? && ProposalsInv(w.rows)
    ensures ProposalsInv(ExecReveal(w, tx, env).world.rows)
    ensures AllEvolve(w.rows, ExecReveal(w, tx, env).world.rows)
  {
    var e, pub := ExecReveal(w, tx, env), tx.opening.value;
    if e.ok {
      var p := w.rows.proposals[pub.proposal];
      var v := EligibleVoter(w, tx.eligibility, pub.proposal, env).value;
      OpeningAdded(p, v, pub.approve, pub.nonce);
      var q := p.(openings := p.openings[v := pub.approve]);
      hide BallotInv, Evolves;
      assert e.world.rows.proposals == w.rows.proposals[pub.proposal := q];
      EvolvesItself(w.rows);
    }
  }

  lemma {:induction false} EvolvesItself(r: Rows)
    ensures AllEvolve(r, r)
  {
  }

  /** Opening a sealed ballot keeps the record an evolution of itself: a choice already there is the same. */
  lemma {:induction false} OpeningAdded(p: Proposal, v: Hash, approve: bool, nonce: Hash)
    requires BallotInv(p) && !p.tallied && v in p.commitments && p.commitments[v] == BallotSeal(v, approve, nonce)
    ensures var q := p.(openings := p.openings[v := approve]); BallotInv(q) && Evolves(p, q) && q.id == p.id
  {
    assert Opens(p.commitments[v], v, approve);
    if v in p.openings { OpeningUnique(p.commitments[v], v, p.openings[v], approve); }
  }

  /** Transactions of other kinds do not touch proposals. */
  lemma {:induction false} OtherKindsKeepProposals(w: World, tx: Tx, env: Env)
    requires WellFormed(tx) && !tx.kind.Vote? && !tx.kind.VoteReveal?
    requires tx.kind.Transfer? ==> tx.transfer.Some?
    requires tx.kind.Unstake? ==> |tx.commitments| == 1
    ensures Stage4(w, tx, env).world.rows.proposals == w.rows.proposals
  {
  }

  /** What a transaction may do to the proposals: nothing, one vote, or one reveal. */
  lemma {:induction false} TxProposals(w: World, pending: set<Hash>, tx: Tx, env: Env, at: Option<int>)
    ensures var r := ProcessOne(w, pending, tx, env, at); var b := r.world.rows.proposals;
      || b == w.rows.proposals
      || (tx.kind.Vote? && tx.vote.Some? && r.outcome == Committed && b == ExecVote(w, tx, env).world.rows.proposals)
      || (tx.kind.VoteReveal? && tx.opening.Some? && r.outcome == Committed && b == ExecReveal(w, tx, env).world.rows.proposals)
  {
    hide ProcessOne, ExecVote, ExecReveal, MarkSpent, Signed;
    ProcessInStages(w, pending, tx, env, at);
    FailedBallotsKeepProposals(w, tx, env);
    if Stage1(w, pending, tx, env) && Stage2(w, tx, env, at) && Stage3(tx) {
      if !tx.kind.Vote? && !tx.kind.VoteReveal? { OtherKindsKeepProposals(w, tx, env); }
      Stage5KeepsProposals(Stage4(w, tx, env).world, tx);
    }
  }

  lemma {:induction false} ProcessInStages(w: World, pending: set<Hash>, tx: Tx, env: Env, at: Option<int>)
    ensures var r := ProcessOne(w, pending, tx, env, at);
      if Stage1(w, pending, tx, env) && Stage2(w, tx, env, at) && Stage3(tx) then
        var e := Stage4(w, tx, env);
        var f := Stage5(e.world, tx);
        && r.world == (if e.ok then f.world else e.world)
        && r.outcome == (if !e.ok then Rejected(4) else if !f.ok then Rejected(5) else Committed)
      else r.world == w && (r.outcome == Rejected(1) || r.outcome == Rejected(2) || r.outcome == Rejected(3))
  {
  }

  /** Votes and reveals spend no nullifiers, so stage 5 cannot refuse them. */
  lemma {:induction false} Stage5KeepsProposals(w: World, tx: Tx)
    ensures Stage5(w, tx).world.rows.proposals == w.rows.proposals
    ensures tx.kind.Vote? || tx.kind.VoteReveal? ==> Stage5(w, tx).ok
  {
  }

  lemma {:induction false} FailedBallotsKeepProposals(w: World, tx: Tx, env: Env)
    ensures tx.vote.Some? && !ExecVote(w, tx, env).ok ==> ExecVote(w, tx, env).world == w
    ensures tx.opening.Some? && !ExecReveal(w, tx, env).ok ==> ExecReveal(w, tx, env).world == w
  {
  }

  lemma {:induction false} SameProposalsEvolve(a: Rows, b: Rows, c: Rows)
    requires ProposalsInv(b) && AllEvolve(a, b) && c.proposals == b.proposals
    ensures ProposalsInv(c) && AllEvolve(a, c)
  {
  }

  lemma {:induction false} TxStep(w: World, pending: set<Hash>, tx: Tx, env: Env, at: Option<int>)
    requires ProposalsInv(w.rows)
    ensures var after := ProcessOne(w, pending, tx, env, at).world.rows; ProposalsInv(after) && AllEvolve(w.rows, after)
  {
    hide ProcessOne, ExecVote, ExecReveal;
    TxProposals(w, pending, tx, env, at);
    var after := ProcessOne(w, pending, tx, env, at).world.rows;
    if after.proposals == w.rows.proposals {
      SameProposalsEvolve(w.rows, w.rows, after);
    } else if tx.kind.Vote? {
      VoteStep(w, tx, env);
      SameProposalsEvolve(w.rows, ExecVote(w, tx, env).world.rows, after);
    } else {
      RevealStep(w, tx, env);
      SameProposalsEvolve(w.rows, ExecReveal(w, tx, env).world.rows, after);
    }
  }

  lemma {:induction false} TallyStep(w: World, order: seq<Proposal>, epoch: nat, env: Env)
    requires ProposalsInv(w.rows) && IsListing(order, w.rows.proposals)
    ensures var after := TallyDue(w, order, epoch, env).rows; ProposalsInv(after) && AllEvolve(w.rows, after)
  {
    var after := TallyDue(w, order, epoch, env).rows.proposals;
    forall id | id in w.rows.proposals
      ensures id in after && Evolves(w.rows.proposals[id], after[id]) && after[id].id == id && BallotInv(after[id])
    {
      TallySettlesExactlyTheDue(w, order, epoch, env, id);
    }
    TallySettlesExactlyTheDue(w, order, epoch, env, "");
  }

  lemma {:induction false} StepBallots(n: Node, op: Op)
    requires ProposalsInv(n.world.rows)
    ensures ProposalsInv(Step(n, op).world.rows) && AllEvolve(n.world.rows, Step(n, op).world.rows)
  {
    match op
    case Submit(tx, env, at) => TxStep(n.world, n.pending, tx, env, at);
    case Tally(order, epoch, env) => if IsListing(order, n.world.rows.proposals) { TallyStep(n.world, order, epoch, env); }
  }

  /** Between any two moments of any run every proposal only evolves, and at every moment revealed
      choices are openings of committed ballots. */
  lemma {:induction false} SealedBallots(n: Node, ops: seq<Op>, j: nat, k: nat)
    requires ProposalsInv(n.world.rows) && j <= k <= |ops|
    ensures ProposalsInv(Before(n, ops, k).world.rows)
    ensures AllEvolve(Before(n, ops, j).world.rows, Before(n, ops, k).world.rows)
    decreases k
  {
    if k > 0 {
      SealedBallots(n, ops, if j < k then j else k - 1, k - 1);
      BeforeStep(n, ops, k - 1);
      StepBallots(Before(n, ops, k - 1), ops[k - 1]);
      if j < k {
        var a, b, c := Before(n, ops, j).world.rows, Before(n, ops, k - 1).world.rows, Before(n, ops, k).world.rows;
        forall id | id in a.proposals ensures id in c.proposals && Evolves(a.proposals[id], c.proposals[id]) {
          EvolvesTransitive(a.proposals[id], b.proposals[id], c.proposals[id]);
        }
      }
    }
  }

  /** What a voter has revealed stays revealed with the same choice, and no other choice could ever open
      the stored commitment. */
  lemma {:induction false} RevealedChoiceIsFinal(n: Node, ops: seq<Op>, j: nat, k: nat, id: string, voter: Hash)
    requires ProposalsInv(n.world.rows) && j <= k <= |ops|
    requires var r := Before(n, ops, j).world.rows; id in r.proposals && voter in r.proposals[id].openings
    ensures var (p, r) := (Before(n, ops, j).world.rows.proposals[id], Before(n, ops, k).world.rows);
      && id in r.proposals && voter in r.proposals[id].openings && voter in r.proposals[id].commitments
      && r.proposals[id].openings[voter] == p.openings[voter]
      && forall choice :: Opens(r.proposals[id].commitments[voter], voter, choice) <==> choice == p.openings[voter]
  {
    SealedBallots(n, ops, j, k);
    var q := Before(n, ops, k).world.rows.proposals[id];
    forall choice | Opens(q.commitments[voter], voter, choice) ensures choice == q.openings[voter] {
      OpeningUnique(q.commitments[voter], voter, choice, q.openings[voter]);
    }
  }

  lemma {:induction false} BornByVote(w: World, pending: set<Hash>, tx: Tx, env: Env, at: Option<int>, id: string)
    requires ProposalsInv(w.rows)
    requires id !in w.rows.proposals && id in ProcessOne(w, pending, tx, env, at).world.rows.proposals
    ensures tx.kind.Vote? && tx.vote.Some? && tx.vote.value.proposal == id
    ensures ProcessOne(w, pending, tx, env, at).outcome == Committed
    ensures var p := ProcessOne(w, pending, tx, env, at).world.rows.proposals[id];
      && p.effects == tx.vote.value.effects && p.epoch == env.epoch && !p.tallied && p.openings == map[]
      && EffectsOk(w, tx.vote.value, env)
  {
    hide ProcessOne, EffectsOk;
    TxProposals(w, pending, tx, env, at);
  }

  /** A proposal comes into being only by an accepted vote, which passed the checks on what it binds. */
  lemma {:induction false} ProposalsBornByVotes(n: Node, op: Op, id: string)
    requires ProposalsInv(n.world.rows)
    requires id !in n.world.rows.proposals && id in Step(n, op).world.rows.proposals
    ensures op.Submit? && op.tx.kind.Vote? && op.tx.vote.Some? && op.tx.vote.value.proposal == id
    ensures ProcessOne(n.world, n.pending, op.tx, op.env, op.submittedAt).outcome == Committed
    ensures var p := Step(n, op).world.rows.proposals[id];
      && p.effects == op.tx.vote.value.effects && p.epoch == op.env.epoch && !p.tallied && p.openings == map[]
      && EffectsOk(n.world, op.tx.vote.value, op.env)
  {
    hide ProcessOne, TallyDue, EffectsOk;
    match op
    case Submit(tx, env, at) => BornByVote(n.world, n.pending, tx, env, at, id);
    case Tally(order, epoch, env) => TallySettlesExactlyTheDue(n.world, order, epoch, env, id);
  }
}
