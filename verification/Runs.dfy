/** Whole runs of the pipeline: any sequence of transactions and tallies, any configuration per step. */
module Runs {
  import opened Hashing
  import opened Epoch
  import opened Governance
  import opened Ledger
  import opened Stages
  import opened Atomicity

  datatype Op =
    | Submit(tx: Tx, env: Env, submittedAt: Option<int>)
    | Tally(order: seq<Proposal>, epoch: nat, tallyEnv: Env)

  datatype Node = Node(world: World, pending: set<Hash>)

  /** A tally walks a listing of the stored proposals; no other tally exists. */
  ghost function Step(n: Node, op: Op): Node {
    match op
    case Submit(tx, env, at) => var r := ProcessOne(n.world, n.pending, tx, env, at); Node(r.world, r.pending)
    case Tally(order, epoch, env) =>
      if IsListing(order, n.world.rows.proposals) then n.(world := TallyDue(n.world, order, epoch, env)) else n
  }

  ghost function Run(n: Node, ops: seq<Op>): Node
    decreases |ops|
  {
    if ops == [] then n else Step(Run(n, ops[..|ops| - 1]), ops[|ops| - 1])
  }

  /** The state before the k-th step. */
  ghost function Before(n: Node, ops: seq<Op>, k: nat): Node
    requires k <= |ops|
  {
    Run(n, ops[..k])
  }

  ghost predicate AcceptedAt(n: Node, ops: seq<Op>, k: nat) {
    && k < |ops| && ops[k].Submit?
    && var b := Before(n, ops, k);
       ProcessOne(b.world, b.pending, ops[k].tx, ops[k].env, ops[k].submittedAt).outcome == Committed
  }

  lemma {:induction false} BeforeStep(n: Node, ops: seq<Op>, k: nat)
    requires k < |ops|
    ensures Before(n, ops, k + 1) == Step(Before(n, ops, k), ops[k])
  {
    assert ops[..k + 1][..k] == ops[..k];
  }

  // ---------------------------------------------------------------- no double spend

  lemma {:induction false} TallyKeepsSpent(w: World, order: seq<Proposal>, epoch: nat, eligible: nat, env: Env)
    ensures TallyEach(w, order, epoch, eligible, env).rows.spent == w.rows.spent
    decreases |order|
  {
    if order != [] { TallyKeepsSpent(w, order[..|order| - 1], epoch, eligible, env); }
  }

  lemma {:induction false} StepSpent(n: Node, op: Op)
    ensures n.world.rows.spent <= Step(n, op).world.rows.spent
    ensures Step(n, op).pending == n.pending
  {
    match op
    case Submit(tx, env, at) => SpentGrowsPendingStays(n.world, n.pending, tx, env, at);
    case Tally(order, epoch, env) => TallyKeepsSpent(n.world, order, epoch, |n.world.rows.nfts|, env);
  }

  lemma {:induction false} BeforeFirst(n: Node, ops: seq<Op>)
    ensures Before(n, ops, 0) == n
  {
    assert ops[..0] == [];
  }

  lemma {:induction false} SpentMonotone(n: Node, ops: seq<Op>, j: nat, k: nat)
    requires j <= k <= |ops|
    ensures Before(n, ops, j).world.rows.spent <= Before(n, ops, k).world.rows.spent
    ensures Before(n, ops, k).pending == n.pending
    decreases k
  {
    hide Step, Run, Before;
    if k == 0 {
      BeforeFirst(n, ops);
    } else {
      BeforeStep(n, ops, k - 1);
      StepSpent(Before(n, ops, k - 1), ops[k - 1]);
      SpentMonotone(n, ops, if j < k then j else k - 1, k - 1);
    }
  }

  /** Over any run no nullifier is spent twice: accepted transactions list theirs without repeats, never
      one that was spent at the start, and no two of them share one; reservations never accumulate. */
  lemma {:induction false} NoDoubleSpend(n: Node, ops: seq<Op>, i: nat, j: nat)
    requires i < j && AcceptedAt(n, ops, i) && AcceptedAt(n, ops, j)
    ensures NoRepeats(Nullifiers(ops[j].tx)) && SetOf(Nullifiers(ops[j].tx)) !! n.world.rows.spent
    ensures SetOf(Nullifiers(ops[i].tx)) !! SetOf(Nullifiers(ops[j].tx))
    ensures SetOf(Nullifiers(ops[i].tx)) + SetOf(Nullifiers(ops[j].tx)) <= Run(n, ops).world.rows.spent
    ensures Run(n, ops).pending == n.pending
  {
    assert ops[..|ops|] == ops && ops[..0] == [];
    SpentAfterAcceptance(n, ops, i);
    SpentAfterAcceptance(n, ops, j);
    SpentMonotone(n, ops, i + 1, j);
    SpentMonotone(n, ops, 0, j);
    SpentMonotone(n, ops, i + 1, |ops|);
    SpentMonotone(n, ops, j + 1, |ops|);
    var b := Before(n, ops, j);
    AcceptedSpends(b.world, b.pending, ops[j].tx, ops[j].env, ops[j].submittedAt);
  }

  lemma {:induction false} SpentAfterAcceptance(n: Node, ops: seq<Op>, k: nat)
    requires AcceptedAt(n, ops, k)
    ensures SetOf(Nullifiers(ops[k].tx)) <= Before(n, ops, k + 1).world.rows.spent
  {
    BeforeStep(n, ops, k);
    var b := Before(n, ops, k);
    AcceptedSpends(b.world, b.pending, ops[k].tx, ops[k].env, ops[k].submittedAt);
  }

  // ---------------------------------------------------------------- batches

  function Submits(entries: seq<(Tx, Option<int>)>, env: Env): (ops: seq<Op>)
    ensures |ops| == |entries|
    ensures forall i :: 0 <= i < |ops| ==> ops[i] == Submit(entries[i].0, env, entries[i].1)
  {
    seq(|entries|, i requires 0 <= i < |entries| => Submit(entries[i].0, env, entries[i].1))
  }

  /** A batch is a run of submissions, and its outcomes are the acceptances of that run. */
  lemma {:induction false} BatchIsRun(n: Node, entries: seq<(Tx, Option<int>)>, env: Env)
    ensures var (w, pending, outcomes) := Batch(n.world, n.pending, entries, env);
      && Run(n, Submits(entries, env)) == Node(w, pending)
      && |outcomes| == |entries|
      && forall k :: 0 <= k < |entries| ==> (outcomes[k] == Committed <==> AcceptedAt(n, Submits(entries, env), k))
    decreases |entries|
  {
    hide ProcessOne;
    var ops := Submits(entries, env);
    if entries != [] {
      var front := entries[..|entries| - 1];
      BatchIsRun(n, front, env);
      var ops' := Submits(front, env);
      assert ops[..|ops| - 1] == ops';
      forall k | 0 <= k < |front| ensures AcceptedAt(n, ops, k) <==> AcceptedAt(n, ops', k) {
        assert ops[..k] == ops'[..k];
      }
    }
  }
}
