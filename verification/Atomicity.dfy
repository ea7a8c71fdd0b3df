/** Per-transaction atomicity of the pipeline, and exactly when it fails. */
module Atomicity {
  import opened Hashing
  import opened Epoch
  import opened Governance
  import opened Ledger
  import opened Stages

  predicate NoRepeats(ns: seq<Hash>) {
    forall i, j :: 0 <= i < j < |ns| ==> ns[i] != ns[j]
  }

  /** The store's test-and-set succeeds on exactly the duplicate-free lists of unspent nullifiers. */
  lemma {:induction false} MarkSpentMeaning(spent: set<Hash>, ns: seq<Hash>)
    ensures var (after, ok) := MarkSpent(spent, ns);
      && (ok <==> NoRepeats(ns) && SetOf(ns) !! spent)
      && (ok ==> after == spent + SetOf(ns))
      && spent <= after <= spent + SetOf(ns)
    decreases |ns|
  {
    if ns != [] {
      MarkSpentMeaning(spent + {ns[0]}, ns[1..]);
      assert ns == [ns[0]] + ns[1..];
      assert SetOf(ns) == {ns[0]} + SetOf(ns[1..]);
      if NoRepeats(ns) {
        assert ns[0] !in ns[1..];
        forall i, j | 0 <= i < j < |ns[1..]| ensures ns[1..][i] != ns[1..][j] { assert ns[i + 1] != ns[j + 1]; }
      } else {
        var i, j :| 0 <= i < j < |ns| && ns[i] == ns[j];
        if i == 0 { assert ns[1..][j - 1] == ns[0]; } else { assert ns[1..][i - 1] == ns[1..][j - 1]; }
      }
    }
  }

  predicate Admitted(w: World, pending: set<Hash>, tx: Tx, env: Env, submittedAt: Option<int>) {
    Stage1(w, pending, tx, env) && Stage2(w, tx, env, submittedAt) && Stage3(tx)
  }

  /** A mint whose record is stored although the eligibility tree turns out to be full. */
  predicate MintWithoutRoom(w: World, pending: set<Hash>, tx: Tx, env: Env, submittedAt: Option<int>) {
    && Admitted(w, pending, tx, env, submittedAt) && tx.kind.NFTMint?
    && NFTByOwner(w.rows, tx.mint.value.owner).None? && AttestationOk(tx.mint.value, env)
    && !HasRoom(w.eligibility, 1)
  }

  /** A transfer that lists one nullifier twice: its outputs are in the trees before stage 5 refuses it. */
  predicate RepeatedSpend(w: World, pending: set<Hash>, tx: Tx, env: Env, submittedAt: Option<int>) {
    && Admitted(w, pending, tx, env, submittedAt) && tx.kind.Transfer?
    && HasRoom(w.notes, |tx.transfer.value.outCommits|)
    && !NoRepeats(tx.transfer.value.nullifiers)
  }

  /** Stage 4 never touches the spent set, and a stage-4 refusal leaves no trace except that of a mint. */
  lemma {:induction false} Stage4Trace(w: World, tx: Tx, env: Env)
    requires WellFormed(tx)
    requires tx.kind.Transfer? ==> tx.transfer.Some?
    requires tx.kind.Unstake? ==> |tx.commitments| == 1
    ensures var e := Stage4(w, tx, env);
      && e.world.rows.spent == w.rows.spent
      && (!e.ok && !tx.kind.NFTMint? ==> e.world == w)
  {
  }

  lemma {:induction false} MintLeavesTrace(w: World, tx: Tx, env: Env)
    requires tx.mint.Some?
    ensures var e := ExecNFTMint(w, tx, env);
      !e.ok ==> (e.world == w <==> NFTByOwner(w.rows, tx.mint.value.owner).Some? || !AttestationOk(tx.mint.value, env))
    ensures ExecNFTMint(w, tx, env).ok <==>
      NFTByOwner(w.rows, tx.mint.value.owner).None? && AttestationOk(tx.mint.value, env) && HasRoom(w.eligibility, 1)
  {
    var n := FreshNFT(tx.mint.value, env.height);
    var rows := PutNFT(w.rows, n);
    if rows == w.rows {
      assert w.rows.byOwner[n.owner] == n.id && w.rows.nfts[n.id] == n;
    }
  }

  /** Stage 5 fails for one reason only: a repeated nullifier. */
  lemma {:induction false} Stage5FailsIffRepeated(w: World, pending: set<Hash>, tx: Tx, env: Env, submittedAt: Option<int>)
    requires Admitted(w, pending, tx, env, submittedAt)
    ensures var e := Stage4(w, tx, env);
      e.ok ==> (Stage5(e.world, tx).ok <==> NoRepeats(Nullifiers(tx)))
  {
    Stage4Trace(w, tx, env);
    var e := Stage4(w, tx, env);
    if e.ok {
      MarkSpentMeaning(e.world.rows.spent, Nullifiers(tx));
      assert SetOf(Nullifiers(tx)) !! w.rows.spent;
    }
  }

  /** A rejected transaction leaves the whole ledger as it was, unless it is one of the two kinds above;
      and then it always leaves a trace. */
  lemma {:induction false} RejectedLeavesNoTraceIff(w: World, pending: set<Hash>, tx: Tx, env: Env, submittedAt: Option<int>)
    requires ProcessOne(w, pending, tx, env, submittedAt).outcome.Rejected?
    ensures ProcessOne(w, pending, tx, env, submittedAt).world == w
       <==> !MintWithoutRoom(w, pending, tx, env, submittedAt) && !RepeatedSpend(w, pending, tx, env, submittedAt)
  {
    if Admitted(w, pending, tx, env, submittedAt) {
      Stage4Trace(w, tx, env);
      Stage5FailsIffRepeated(w, pending, tx, env, submittedAt);
      var e := Stage4(w, tx, env);
      if tx.kind.NFTMint? {
        MintLeavesTrace(w, tx, env);
      } else if tx.kind.Transfer? && e.ok {
        var s := Stage5(e.world, tx).world;
        assert |s.stateTree| == |w.stateTree| + |tx.transfer.value.outCommits|;
      }
    }
  }

  /** Which stage speaks last: stage 5 is the rejecting one exactly for a repeated nullifier. */
  lemma {:induction false} Stage5RejectionIff(w: World, pending: set<Hash>, tx: Tx, env: Env, submittedAt: Option<int>)
    ensures ProcessOne(w, pending, tx, env, submittedAt).outcome == Rejected(5)
       <==> RepeatedSpend(w, pending, tx, env, submittedAt)
  {
    if Admitted(w, pending, tx, env, submittedAt) {
      Stage5FailsIffRepeated(w, pending, tx, env, submittedAt);
    }
  }

  /** What acceptance means for nullifiers: none was spent or reserved, none repeats, all are spent afterwards. */
  lemma {:induction false} AcceptedSpends(w: World, pending: set<Hash>, tx: Tx, env: Env, submittedAt: Option<int>)
    requires ProcessOne(w, pending, tx, env, submittedAt).outcome == Committed
    ensures NoRepeats(Nullifiers(tx)) && SetOf(Nullifiers(tx)) !! w.rows.spent && SetOf(Nullifiers(tx)) !! pending
    ensures ProcessOne(w, pending, tx, env, submittedAt).world.rows.spent == w.rows.spent + SetOf(Nullifiers(tx))
  {
    Stage4Trace(w, tx, env);
    MarkSpentMeaning(w.rows.spent, Nullifiers(tx));
  }

  /** Spent nullifiers stay spent and reservations never outlive their transaction. */
  lemma {:induction false} SpentGrowsPendingStays(w: World, pending: set<Hash>, tx: Tx, env: Env, submittedAt: Option<int>)
    ensures var r := ProcessOne(w, pending, tx, env, submittedAt);
      w.rows.spent <= r.world.rows.spent && r.pending == pending
  {
    if Admitted(w, pending, tx, env, submittedAt) {
      Stage4Trace(w, tx, env);
      MarkSpentMeaning(w.rows.spent, Nullifiers(tx));
    }
  }
}
