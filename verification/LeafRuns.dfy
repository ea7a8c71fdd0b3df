/** Where the leaves of the note and stake trees come from, over whole runs. */
module LeafRuns {
  import opened Hashing
  import opened Epoch
  import opened Governance
  import opened Ledger
  import opened Stages
  import opened Runs
  import opened TallyRuns
  import opened BallotRuns
  import opened TreeRuns

  /** A leaf is the commitment a settled proposal minted, an output of a transaction, or one that was
      there at the start. */
  datatype Source = Voted(id: string) | OutputOf(step: nat, index: nat) | Initial(index: nat)

  predicate Minted(p: Proposal, staked: bool) {
    p.applied.mint && p.effects.mintStaked == staked
  }

  function MintCommit(p: Proposal): Hash {
    if p.effects.mintStaked then p.effects.stakePositionCommit else p.effects.mintOutCommit
  }

  function Leaves(t: Tree): seq<Hash> {
    if t.leaves.Some? then t.leaves.value else []
  }

  /** src names a source for every leaf, never one twice; each proposal that minted is the source of one. */
  predicate Accounted(leaves: seq<Hash>, src: seq<Source>, proposals: map<string, Proposal>, staked: bool) {
    && |src| == |leaves|
    && (forall i :: 0 <= i < |src| && src[i].Voted? ==>
          src[i].id in proposals && Minted(proposals[src[i].id], staked) && leaves[i] == MintCommit(proposals[src[i].id]))
    && (forall i, j :: 0 <= i < j < |src| ==> src[i] != src[j])
    && (forall id :: id in proposals && Minted(proposals[id], staked) ==> Voted(id) in src)
  }

  /** The sources of one transaction's outputs. */
  function Entries(step: nat, count: nat): (r: seq<Source>)
    ensures |r| == count && forall i :: 0 <= i < count ==> r[i] == OutputOf(step, i)
  {
    seq(count, i requires 0 <= i => OutputOf(step, i))
  }

  lemma {:induction false} OutputsAccounted(leaves: seq<Hash>, src: seq<Source>, a: map<string, Proposal>, b: map<string, Proposal>,
                                            staked: bool, step: nat, cs: seq<Hash>)
    requires Accounted(leaves, src, a, staked) && forall x <- src :: x.OutputOf? ==> x.step < step
    requires forall id :: id in a ==> id in b && (a[id].applied.mint ==> b[id] == a[id])
    requires forall id :: id in b && b[id].applied.mint ==> id in a && a[id].applied.mint
    ensures Accounted(leaves + cs, src + Entries(step, |cs|), b, staked)
  {
  }

  lemma {:induction false} MintAccounted(leaves: seq<Hash>, src: seq<Source>, a: map<string, Proposal>, q: Proposal, staked: bool)
    returns (src': seq<Source>)
    requires Accounted(leaves, src, a, staked) && Minted(q, staked)
    requires q.id in a ==> !a[q.id].applied.mint
    ensures Accounted(leaves + [MintCommit(q)], src', a[q.id := q], staked) && src' == src + [Voted(q.id)]
  {
    src' := src + [Voted(q.id)];
    assert Voted(q.id) !in src;
  }

  /** Witnesses for both trees at once. */
  datatype Ledgers = Ledgers(notes: seq<Source>, stakes: seq<Source>)

  predicate Books(w: World, l: Ledgers) {
    && Accounted(Leaves(w.notes), l.notes, w.rows.proposals, false)
    && Accounted(Leaves(w.stakes), l.stakes, w.rows.proposals, true)
    && forall i :: 0 <= i < |l.stakes| ==> l.stakes[i].Voted?
  }

  /** The note tree and its sources only gained leaves that proposals minted. */
  predicate GrownByVotes(w: World, l: Ledgers, w': World, l': Ledgers) {
    && (w.notes.leaves.Some? ==> w'.notes.leaves.Some?)
    && Leaves(w.notes) <= Leaves(w'.notes) && l.notes <= l'.notes
    && forall i :: |l.notes| <= i < |l'.notes| ==> l'.notes[i].Voted?
  }

  lemma {:induction false} TallyOneBooks(w: World, p: Proposal, eligible: nat, env: Env, l: Ledgers) returns (l': Ledgers)
    requires Books(w, l) && p.id in w.rows.proposals && w.rows.proposals[p.id] == p && !p.applied.mint
    ensures Books(TallyOne(w, p, eligible, env), l') && GrownByVotes(w, l, TallyOne(w, p, eligible, env), l')
  {
    var c := Counted(p, eligible);
    var (w1, q) := ApplyEffects(w, c, env);
    EffectsTrees(w, c, env);
    l' := SettledBooks(w, l, w1, q, env);
    var done := TallyOne(w, p, eligible, env);
    assert done.rows.proposals == w.rows.proposals[q.id := q] && done.notes == w1.notes && done.stakes == w1.stakes;
  }

  /** Storing a settled record next to the tree its mint went into. */
  lemma {:induction false} SettledBooks(w: World, l: Ledgers, w1: World, q: Proposal, env: Env) returns (l': Ledgers)
    requires Books(w, l) && q.id in w.rows.proposals && !w.rows.proposals[q.id].applied.mint
    requires !q.applied.mint ==> w1.notes == w.notes && w1.stakes == w.stakes
    requires q.applied.mint && q.effects.mintStaked ==>
      Leaves(w1.notes) == Leaves(w.notes) && Leaves(w1.stakes) == Leaves(w.stakes) + [MintCommit(q)]
    requires q.applied.mint && !q.effects.mintStaked ==>
      Leaves(w1.stakes) == Leaves(w.stakes) && Leaves(w1.notes) == Leaves(w.notes) + [MintCommit(q)]
    ensures Accounted(Leaves(w1.notes), l'.notes, w.rows.proposals[q.id := q], false)
    ensures Accounted(Leaves(w1.stakes), l'.stakes, w.rows.proposals[q.id := q], true)
    ensures forall i :: 0 <= i < |l'.stakes| ==> l'.stakes[i].Voted?
    ensures l'.notes == l.notes || l'.notes == l.notes + [Voted(q.id)]
  {
    var before := w.rows.proposals;
    var ns, ss := l.notes, l.stakes;
    if q.applied.mint && q.effects.mintStaked {
      ss := MintAccounted(Leaves(w.stakes), l.stakes, before, q, true);
      OtherBookKept(Leaves(w.notes), l.notes, before, q, false);
    } else if q.applied.mint {
      ns := MintAccounted(Leaves(w.notes), l.notes, before, q, false);
      OtherBookKept(Leaves(w.stakes), l.stakes, before, q, true);
    } else {
      OtherBookKept(Leaves(w.notes), l.notes, before, q, false);
      OtherBookKept(Leaves(w.stakes), l.stakes, before, q, true);
    }
    l' := Ledgers(ns, ss);
  }

  lemma {:induction false} OtherBookKept(leaves: seq<Hash>, src: seq<Source>, a: map<string, Proposal>, q: Proposal, staked: bool)
    requires Accounted(leaves, src, a, staked) && !Minted(q, staked) && q.id in a && !a[q.id].applied.mint
    ensures Accounted(leaves, src, a[q.id := q], staked)
  {
  }

  lemma {:induction false} WalkBooks(w: World, order: seq<Proposal>, epoch: nat, eligible: nat, env: Env, l: Ledgers)
    returns (l': Ledgers)
    requires Books(w, l) && AllMintPending(w.rows) && KeyedById(w.rows.proposals) && Unrepeated(order, w.rows.proposals)
    ensures Books(TallyEach(w, order, epoch, eligible, env), l')
    ensures GrownByVotes(w, l, TallyEach(w, order, epoch, eligible, env), l')
    decreases |order|
  {
    hide Books, TallyOne;
    l' := l;
    if order != [] {
      var front, last := order[..|order| - 1], order[|order| - 1];
      FrontUnrepeated(order, w.rows.proposals);
      l' := WalkBooks(w, front, epoch, eligible, env, l);
      WalkSettlesDue(w, front, epoch, eligible, env);
      InFrontOrLast(order, w.rows.proposals, last);
      if Due(last, epoch) { l' := TallyOneBooks(TallyEach(w, front, epoch, eligible, env), last, eligible, env, l'); }
    }
  }

  /** The outputs step j put into the note tree. */
  ghost predicate PlacedAt(n: Node, ops: seq<Op>, j: nat) {
    && j < |ops| && ops[j].Submit?
    && var b := Before(n, ops, j);
       Placed(ops[j].tx, ProcessOne(b.world, b.pending, ops[j].tx, ops[j].env, ops[j].submittedAt).outcome)
  }

  /** Among the sources are exactly the outputs placed in the first k steps. */
  ghost predicate OutputsBooked(n: Node, ops: seq<Op>, k: nat, leaves: seq<Hash>, src: seq<Source>) {
    && |src| == |leaves|
    && (forall i :: 0 <= i < |src| && src[i].OutputOf? ==>
          && src[i].step < k && PlacedAt(n, ops, src[i].step)
          && src[i].index < |Outputs(ops[src[i].step].tx)| && leaves[i] == Outputs(ops[src[i].step].tx)[src[i].index])
    && (forall j, x :: 0 <= j < k && PlacedAt(n, ops, j) && 0 <= x < |Outputs(ops[j].tx)| ==> OutputOf(j, x) in src)
  }

  /** The books after a transaction: its outputs, if it placed them, and nothing else. */
  function Booked(l: Ledgers, step: nat, tx: Tx, outcome: Outcome): Ledgers {
    if Placed(tx, outcome) then l.(notes := l.notes + Entries(step, |Outputs(tx)|)) else l
  }

  lemma {:induction false} TxBooks(n: Node, tx: Tx, env: Env, at: Option<int>, l: Ledgers, step: nat)
    requires Books(n.world, l) && ProposalsInv(n.world.rows) && AllMintPending(n.world.rows)
    requires n.world.notes.leaves.Some? && forall x <- l.notes :: x.OutputOf? ==> x.step < step
    ensures var r := ProcessOne(n.world, n.pending, tx, env, at); Books(r.world, Booked(l, step, tx, r.outcome))
  {
    hide ProcessOne, ProposalsInv, AllMintPending, Outputs;
    var w, r := n.world, ProcessOne(n.world, n.pending, tx, env, at);
    var e := r.world;
    TxTrees(w, n.pending, tx, env, at);
    TxKeepsMints(w, n.pending, tx, env, at);
    var cs := if Placed(tx, r.outcome) then Outputs(tx) else [];
    assert Leaves(e.notes) == Leaves(w.notes) + cs;
    OutputsAccounted(Leaves(w.notes), l.notes, w.rows.proposals, e.rows.proposals, false, step, cs);
    OutputsAccounted(Leaves(w.stakes), l.stakes, w.rows.proposals, e.rows.proposals, true, step, []);
    assert Leaves(w.stakes) + [] == Leaves(w.stakes) && l.stakes + Entries(step, 0) == l.stakes;
    assert l.notes + Entries(step, 0) == l.notes;
  }

  /** Transactions never mark a mint as executed, nor touch a record that has one. */
  lemma {:induction false} TxKeepsMints(w: World, pending: set<Hash>, tx: Tx, env: Env, at: Option<int>)
    requires ProposalsInv(w.rows) && AllMintPending(w.rows)
    ensures var b := ProcessOne(w, pending, tx, env, at).world.rows.proposals;
      && (forall id :: id in w.rows.proposals ==> id in b && (w.rows.proposals[id].applied.mint ==> b[id] == w.rows.proposals[id]))
      && (forall id :: id in b && b[id].applied.mint ==> id in w.rows.proposals && w.rows.proposals[id].applied.mint)
  {
    hide ProcessOne, BallotInv;
    TxProposals(w, pending, tx, env, at);
  }

  lemma {:induction false} TxOutputs(n: Node, ops: seq<Op>, k: nat, l: Ledgers)
    requires k < |ops| && ops[k].Submit?
    requires OutputsBooked(n, ops, k, Leaves(Before(n, ops, k).world.notes), l.notes)
    requires Before(n, ops, k).world.notes.leaves.Some?
    ensures var b := Before(n, ops, k);
      var r := ProcessOne(b.world, b.pending, ops[k].tx, ops[k].env, ops[k].submittedAt);
      OutputsBooked(n, ops, k + 1, Leaves(r.world.notes), Booked(l, k, ops[k].tx, r.outcome).notes)
  {
    hide ProcessOne, Outputs, Before;
    var b, tx := Before(n, ops, k), ops[k].tx;
    TxTrees(b.world, b.pending, tx, ops[k].env, ops[k].submittedAt);
    var l' := Booked(l, k, tx, ProcessOne(b.world, b.pending, tx, ops[k].env, ops[k].submittedAt).outcome);
    assert PlacedAt(n, ops, k) <==> Placed(tx, ProcessOne(b.world, b.pending, tx, ops[k].env, ops[k].submittedAt).outcome);
    forall j, x | 0 <= j < k + 1 && PlacedAt(n, ops, j) && 0 <= x < |Outputs(ops[j].tx)| ensures OutputOf(j, x) in l'.notes {
      if j == k { assert l'.notes[|l.notes| + x] == OutputOf(j, x); } else { assert OutputOf(j, x) in l.notes; }
    }
  }

  lemma {:induction false} TallyOutputs(n: Node, ops: seq<Op>, k: nat, w: World, l: Ledgers, w': World, l': Ledgers)
    requires OutputsBooked(n, ops, k, Leaves(w.notes), l.notes) && GrownByVotes(w, l, w', l')
    requires k < |ops| && !ops[k].Submit? && |l'.notes| == |Leaves(w'.notes)|
    ensures OutputsBooked(n, ops, k + 1, Leaves(w'.notes), l'.notes)
  {
    hide Before, ProcessOne, Outputs, Placed, Leaves;
    assert !PlacedAt(n, ops, k);
    hide PlacedAt;
    var leaves, leaves' := Leaves(w.notes), Leaves(w'.notes);
    forall i | 0 <= i < |l'.notes| && l'.notes[i].OutputOf? ensures i < |l.notes| && l'.notes[i] == l.notes[i] && leaves'[i] == leaves[i] {}
    forall j, x | 0 <= j < k + 1 && PlacedAt(n, ops, j) && 0 <= x < |Outputs(ops[j].tx)| ensures OutputOf(j, x) in l'.notes {
      assert OutputOf(j, x) in l.notes;
    }
  }

  predicate NoOutputs(l: Ledgers) {
    forall x <- l.notes :: !x.OutputOf?
  }

  /** Conservation of leaves over any run. The stake tree is, position by position, the commitments of
      distinct settled proposals. Every leaf the note tree gains is either the commitment of its own settled
      proposal or a given output of a given placed transaction; no source appears twice, and no minting
      proposal and no placed output is missing. */
  lemma {:induction false} LeavesExactlyOnce(n: Node, ops: seq<Op>, k: nat, l: Ledgers) returns (l': Ledgers)
    requires Books(n.world, l) && NoOutputs(l) && ProposalsInv(n.world.rows) && AllMintPending(n.world.rows)
    requires k <= |ops| && n.world.notes.leaves.Some?
    ensures var w := Before(n, ops, k).world;
      && Books(w, l') && OutputsBooked(n, ops, k, Leaves(w.notes), l'.notes)
      && AllMintPending(w.rows) && w.notes.leaves.Some?
    decreases k
  {
    hide Books, OutputsBooked, AllMintPending, ProposalsInv, Step;
    l' := l;
    if k == 0 {
      NothingBooked(n, ops, l);
    } else {
      l' := LeavesExactlyOnce(n, ops, k - 1, l);
      l' := StepBooks(n, ops, k - 1, l');
    }
  }

  lemma {:induction false} NothingBooked(n: Node, ops: seq<Op>, l: Ledgers)
    requires Books(n.world, l) && NoOutputs(l)
    ensures Before(n, ops, 0) == n && OutputsBooked(n, ops, 0, Leaves(n.world.notes), l.notes)
  {
    assert ops[..0] == [];
  }

  lemma {:induction false} StepBooks(n: Node, ops: seq<Op>, k: nat, l: Ledgers) returns (l': Ledgers)
    requires k < |ops| && ProposalsInv(n.world.rows)
    requires var w := Before(n, ops, k).world;
      && Books(w, l) && OutputsBooked(n, ops, k, Leaves(w.notes), l.notes)
      && AllMintPending(w.rows) && w.notes.leaves.Some?
    ensures var w := Before(n, ops, k + 1).world;
      && Books(w, l') && OutputsBooked(n, ops, k + 1, Leaves(w.notes), l'.notes)
      && AllMintPending(w.rows) && w.notes.leaves.Some?
  {
    hide ProcessOne, Before, AllMintPending, ProposalsInv, TallyEach;
    var b := Before(n, ops, k);
    BeforeStep(n, ops, k);
    SealedBallots(n, ops, 0, k);
    StepMintPending(b, ops[k]);
    match ops[k]
    case Submit(tx, env, at) =>
      TxBooks(b, tx, env, at, l, k);
      TxOutputs(n, ops, k, l);
      TxTrees(b.world, b.pending, tx, env, at);
      l' := Booked(l, k, tx, ProcessOne(b.world, b.pending, tx, env, at).outcome);
    case Tally(order, epoch, env) =>
      l' := l;
      if IsListing(order, b.world.rows.proposals) {
        l' := WalkBooks(b.world, order, epoch, |b.world.rows.nfts|, env, l);
      }
      TallyOutputs(n, ops, k, b.world, l, Before(n, ops, k + 1).world, l');
  }
}
