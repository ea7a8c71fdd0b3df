/** Where the vault's money comes from, over whole runs (pkg/tx/pipeline.go:1190-1217 and 1330-1357,
    pkg/vault/vault.go:60-71). */
module FeeRuns {
  import opened Hashing
  import opened Epoch
  import opened Governance
  import opened Ledger
  import opened Stages
  import opened Runs
  import opened TallyRuns
  import opened BallotRuns
  import opened TreeRuns
  import opened LeafRuns

  /** A fee is paid by the transaction of one step, or withheld from the mint of one proposal. */
  datatype Payer = AtStep(step: nat) | MintOf(id: string)

  /** `fee` is what is owed; the vault is credited with its int64 conversion. */
  datatype Credit = Credit(payer: Payer, fee: uint64, splits: Splits)

  /** The vault after a list of credits, each divided by the shares of its time. */
  function Collected(v: Vault, cs: seq<Credit>): Vault {
    if cs == [] then v
    else
      var last := cs[|cs| - 1];
      CollectFee(Collected(v, cs[..|cs| - 1]).(splits := last.splits), AsInt64(last.fee) as real)
  }

  /** The pools hold what the credits brought; the shares in force are the vault's own. */
  predicate Holds(v: Vault, v0: Vault, cs: seq<Credit>) {
    v == Collected(v0, cs).(splits := v.splits)
  }

  lemma {:induction false} OneMoreCredit(v: Vault, v0: Vault, cs: seq<Credit>, s: Splits, payer: Payer, fee: uint64)
    requires Holds(v, v0, cs)
    ensures Holds(CollectFee(v.(splits := s), AsInt64(fee) as real), v0, cs + [Credit(payer, fee, s)])
  {
    assert (cs + [Credit(payer, fee, s)])[..|cs|] == cs;
  }

  function Pools(v: Vault): real {
    v.epochBonus + v.burned + v.audit + v.remainder
  }

  /** What the credited fees add up to. */
  function Owed(cs: seq<Credit>): nat {
    if cs == [] then 0 else Owed(cs[..|cs| - 1]) + cs[|cs| - 1].fee
  }

  /** How many of them do not fit an int64. */
  function Wrapped(cs: seq<Credit>): nat {
    if cs == [] then 0 else Wrapped(cs[..|cs| - 1]) + if cs[|cs| - 1].fee < TWO_63 then 0 else 1
  }

  predicate Whole(s: Splits) {
    s.epochBonus + s.burn + s.audit + s.remainder == 1.0
  }

  lemma {:induction false} CreditIsFeeIff(fee: uint64)
    ensures AsInt64(fee) == fee - (if fee < TWO_63 then 0 else TWO_64)
    ensures AsInt64(fee) == fee <==> fee < TWO_63
    ensures AsInt64(fee) < 0 <==> fee >= TWO_63
  {
    assert AsInt64(fee) == if fee < TWO_63 then fee else fee - TWO_64;
  }

  /** While the shares in force add up to one, the pools together gain the fees, less 2^64 for each that does
      not fit an int64. */
  lemma {:induction false} PoolsGain(v: Vault, cs: seq<Credit>)
    requires forall c <- cs :: Whole(c.splits)
    ensures Pools(Collected(v, cs)) == Pools(v) + (Owed(cs) - TWO_64 * Wrapped(cs)) as real
  {
    hide Pools, CollectFee, Whole, AsInt64;
    if cs != [] {
      var front, last := cs[..|cs| - 1], cs[|cs| - 1];
      PoolsGain(v, front);
      PoolsGainOneFee(Collected(v, front), last.splits, AsInt64(last.fee) as real);
      CreditIsFeeIff(last.fee);
    }
  }

  lemma {:induction false} WrappedNoneIff(cs: seq<Credit>)
    ensures Wrapped(cs) == 0 <==> forall c <- cs :: c.fee < TWO_63
  {
    if cs != [] {
      WrappedNoneIff(cs[..|cs| - 1]);
      assert cs == cs[..|cs| - 1] + [cs[|cs| - 1]];
    }
  }

  /** So they gain exactly the fees if and only if every fee is below 2^63. */
  lemma {:induction false} PoolsGainTheFees(v: Vault, cs: seq<Credit>)
    requires forall c <- cs :: Whole(c.splits)
    ensures Pools(Collected(v, cs)) == Pools(v) + Owed(cs) as real <==> forall c <- cs :: c.fee < TWO_63
  {
    hide Pools, Collected, Whole, Owed, Wrapped;
    PoolsGain(v, cs);
    WrappedNoneIff(cs);
  }

  lemma {:induction false} PoolsGainOneFee(v: Vault, s: Splits, x: real)
    requires Whole(s)
    ensures Pools(CollectFee(v.(splits := s), x)) == Pools(v) + x
  {
    SharesOfOne(x, s);
  }

  lemma {:induction false} SharesOfOne(x: real, s: Splits)
    requires Whole(s)
    ensures x * s.epochBonus + x * s.burn + x * s.audit + x * s.remainder == x
  {
    assert x * s.epochBonus + x * s.burn + x * s.audit + x * s.remainder
        == x * (s.epochBonus + s.burn + s.audit + s.remainder);
  }

  // ---------------------------------------------------------------- single steps

  function FeeOf(tx: Tx): uint64
    requires tx.transfer.Some?
  {
    tx.transfer.value.fee
  }

  predicate Pays(tx: Tx, outcome: Outcome) {
    tx.kind.Transfer? && tx.transfer.Some? && outcome == Committed
  }

  lemma {:induction false} Stage4KeepsVault(w: World, tx: Tx, env: Env)
    requires WellFormed(tx)
    requires tx.kind.Transfer? ==> tx.transfer.Some?
    requires tx.kind.Unstake? ==> |tx.commitments| == 1
    ensures Stage4(w, tx, env).world.vault == w.vault
  {
  }

  lemma {:induction false} TxVault(w: World, pending: set<Hash>, tx: Tx, env: Env, at: Option<int>)
    requires w.vault.Some?
    ensures var r := ProcessOne(w, pending, tx, env, at);
      r.world.vault == if Pays(tx, r.outcome) then Some(CollectFee(w.vault.value, AsInt64(FeeOf(tx)) as real)) else w.vault
  {
    hide ProcessOne, CollectFee, Signed;
    ProcessInStages(w, pending, tx, env, at);
    if Stage1(w, pending, tx, env) && Stage2(w, tx, env, at) && Stage3(tx) {
      Stage4KeepsVault(w, tx, env);
    }
  }

  /** One accepted transfer credits its fee to the pools if and only if the fee is below 2^63; from there on
      it drains them. */
  lemma {:induction false} TransferFeeIff(w: World, pending: set<Hash>, tx: Tx, env: Env, at: Option<int>)
    requires w.vault.Some? && Whole(w.vault.value.splits) && Pays(tx, ProcessOne(w, pending, tx, env, at).outcome)
    ensures var v := ProcessOne(w, pending, tx, env, at).world.vault;
      && v.Some?
      && (Pools(v.value) == Pools(w.vault.value) + FeeOf(tx) as real <==> FeeOf(tx) < TWO_63)
      && (Pools(v.value) < Pools(w.vault.value) <==> FeeOf(tx) >= TWO_63)
  {
    hide ProcessOne, Pools, CollectFee, Whole, AsInt64;
    TxVault(w, pending, tx, env, at);
    CreditIsFeeIff(FeeOf(tx));
    var v := w.vault.value;
    assert v.(splits := v.splits) == v;
    PoolsGainOneFee(v, v.splits, AsInt64(FeeOf(tx)) as real);
  }

  /** The smallest such fee takes 2^63 out of the pools. */
  lemma {:induction false} HugeFeeDrainsThePools(v: Vault, s: Splits)
    requires Whole(s)
    ensures Pools(Collected(v, [Credit(AtStep(0), TWO_63, s)])) == Pools(v) - TWO_63 as real
  {
    var cs := [Credit(AtStep(0), TWO_63, s)];
    assert cs[..0] == [];
    assert Owed(cs) == TWO_63 && Wrapped(cs) == 1;
    hide Pools, Collected, Whole;
    PoolsGain(v, cs);
  }

  function MintFeeOf(p: Proposal): uint64 {
    MintFee(p.effects.mintAmount)
  }

  lemma {:induction false} MintVault(w: World, p: Proposal, env: Env)
    requires w.vault.Some? && !p.applied.mint
    ensures var (w', q) := ApplyMint(w, p, env);
      w'.vault == if Minted(q, false) then Some(CollectFee(w.vault.value, AsInt64(MintFeeOf(p)) as real)) else w.vault
  {
  }

  lemma {:induction false} ParamVault(w: World, p: Proposal, env: Env)
    requires w.vault.Some?
    ensures var (w', q) := ApplyParam(w, p, env);
      w'.vault.Some? && w'.vault.value == w.vault.value.(splits := w'.vault.value.splits)
  {
  }

  /** Settling a proposal may change the shares, and then withholds the fee of a note mint, if it mints one. */
  lemma {:induction false} SettleVault(w: World, p: Proposal, eligible: nat, env: Env)
    requires w.vault.Some? && !p.applied.mint
    ensures var after := TallyOne(w, p, eligible, env); var q := after.rows.proposals[p.id];
      && after.vault.Some? && q.effects == p.effects
      && var v := w.vault.value.(splits := after.vault.value.splits);
         after.vault.value == if Minted(q, false) then CollectFee(v, AsInt64(MintFeeOf(q)) as real) else v
  {
    hide ApplyParam, ApplyMint, ApplyRowEffects;
    var c := Counted(p, eligible);
    var (w1, p1) := ApplyParam(w, c, env);
    ParamVault(w, c, env);
    MintVault(w1, p1, env);
  }

  // ---------------------------------------------------------------- the books

  predicate Credited(cs: seq<Credit>, payer: Payer) {
    exists i :: 0 <= i < |cs| && cs[i].payer == payer
  }

  predicate PaidOnce(cs: seq<Credit>) {
    forall i, j :: 0 <= i < j < |cs| ==> cs[i].payer != cs[j].payer
  }

  /** Among the credits are exactly the fees of the note mints carried out so far. */
  predicate MintsCredited(cs: seq<Credit>, proposals: map<string, Proposal>) {
    && (forall c <- cs :: c.payer.MintOf? ==>
          c.payer.id in proposals && Minted(proposals[c.payer.id], false) && c.fee == MintFeeOf(proposals[c.payer.id]))
    && forall id :: id in proposals && Minted(proposals[id], false) ==> Credited(cs, MintOf(id))
  }

  ghost predicate PaidAt(n: Node, ops: seq<Op>, j: nat) {
    AcceptedAt(n, ops, j) && ops[j].tx.kind.Transfer? && ops[j].tx.transfer.Some?
  }

  /** Among the credits are exactly the fees of the transfers accepted in the first k steps. */
  ghost predicate StepsCredited(n: Node, ops: seq<Op>, k: nat, cs: seq<Credit>) {
    && (forall c <- cs :: c.payer.AtStep? ==> c.payer.step < k && PaidAt(n, ops, c.payer.step) && c.fee == FeeOf(ops[c.payer.step].tx))
    && forall j :: 0 <= j < k && PaidAt(n, ops, j) ==> Credited(cs, AtStep(j))
  }

  predicate Audited(w: World, v0: Vault, cs: seq<Credit>) {
    w.vault.Some? && Holds(w.vault.value, v0, cs) && PaidOnce(cs) && MintsCredited(cs, w.rows.proposals)
  }

  lemma {:induction false} CreditedGrows(cs: seq<Credit>, c: Credit)
    ensures forall p :: Credited(cs + [c], p) <==> Credited(cs, p) || p == c.payer
  {
    forall p ensures Credited(cs + [c], p) <==> Credited(cs, p) || p == c.payer {
      if Credited(cs, p) { var i :| 0 <= i < |cs| && cs[i].payer == p; assert (cs + [c])[i].payer == p; }
      assert (cs + [c])[|cs|].payer == c.payer;
    }
  }

  lemma {:induction false} StillMinted(cs: seq<Credit>, a: map<string, Proposal>, b: map<string, Proposal>)
    requires MintsCredited(cs, a)
    requires forall id :: id in a ==> id in b && (a[id].applied.mint ==> b[id] == a[id])
    requires forall id :: id in b && b[id].applied.mint ==> id in a && a[id].applied.mint
    ensures MintsCredited(cs, b)
  {
  }

  lemma {:induction false} MintCredited(cs: seq<Credit>, a: map<string, Proposal>, q: Proposal, s: Splits)
    requires MintsCredited(cs, a) && PaidOnce(cs) && q.id in a && !a[q.id].applied.mint && Minted(q, false)
    ensures var cs' := cs + [Credit(MintOf(q.id), MintFeeOf(q), s)]; MintsCredited(cs', a[q.id := q]) && PaidOnce(cs')
  {
    var c := Credit(MintOf(q.id), MintFeeOf(q), s);
    CreditedGrows(cs, c);
    forall x <- cs ensures x.payer != MintOf(q.id) {}
    hide Minted, Credited;
  }

  lemma {:induction false} NoMintCredited(cs: seq<Credit>, a: map<string, Proposal>, q: Proposal)
    requires MintsCredited(cs, a) && q.id in a && !a[q.id].applied.mint && !Minted(q, false)
    ensures MintsCredited(cs, a[q.id := q])
  {
  }

  lemma {:induction false} SettleAudited(w: World, p: Proposal, eligible: nat, env: Env, v0: Vault, cs: seq<Credit>)
    returns (cs': seq<Credit>)
    requires Audited(w, v0, cs) && p.id in w.rows.proposals && w.rows.proposals[p.id] == p && !p.applied.mint
    ensures Audited(TallyOne(w, p, eligible, env), v0, cs') && GrownByMints(cs, cs')
  {
    var after := TallyOne(w, p, eligible, env);
    var q := after.rows.proposals[p.id];
    SettleVault(w, p, eligible, env);
    assert after.rows.proposals == w.rows.proposals[q.id := q];
    var s := after.vault.value.splits;
    hide TallyOne, CollectFee, Collected, PaidOnce, MintsCredited;
    cs' := cs;
    if Minted(q, false) {
      cs' := cs + [Credit(MintOf(q.id), MintFeeOf(q), s)];
      OneMoreCredit(w.vault.value, v0, cs, s, MintOf(q.id), MintFeeOf(q));
      MintCredited(cs, w.rows.proposals, q, s);
    } else {
      NoMintCredited(cs, w.rows.proposals, q);
    }
  }

  /** A tally credits mints only. */
  predicate GrownByMints(cs: seq<Credit>, cs': seq<Credit>) {
    cs <= cs' && forall i :: |cs| <= i < |cs'| ==> cs'[i].payer.MintOf?
  }

  lemma {:induction false} WalkAudited(w: World, order: seq<Proposal>, epoch: nat, eligible: nat, env: Env, v0: Vault, cs: seq<Credit>)
    returns (cs': seq<Credit>)
    requires Audited(w, v0, cs) && AllMintPending(w.rows) && KeyedById(w.rows.proposals) && Unrepeated(order, w.rows.proposals)
    ensures Audited(TallyEach(w, order, epoch, eligible, env), v0, cs') && GrownByMints(cs, cs')
    decreases |order|
  {
    hide Audited, TallyOne;
    cs' := cs;
    if order != [] {
      var front, last := order[..|order| - 1], order[|order| - 1];
      FrontUnrepeated(order, w.rows.proposals);
      cs' := WalkAudited(w, front, epoch, eligible, env, v0, cs);
      WalkSettlesDue(w, front, epoch, eligible, env);
      InFrontOrLast(order, w.rows.proposals, last);
      if Due(last, epoch) { cs' := SettleAudited(TallyEach(w, front, epoch, eligible, env), last, eligible, env, v0, cs'); }
    }
  }

  /** The credits after a transaction. */
  function CreditsAfter(cs: seq<Credit>, step: nat, tx: Tx, outcome: Outcome, s: Splits): seq<Credit> {
    if Pays(tx, outcome) then cs + [Credit(AtStep(step), FeeOf(tx), s)] else cs
  }

  lemma {:induction false} TxAudited(n: Node, tx: Tx, env: Env, at: Option<int>, v0: Vault, cs: seq<Credit>, step: nat)
    requires Audited(n.world, v0, cs) && ProposalsInv(n.world.rows) && AllMintPending(n.world.rows)
    requires forall c <- cs :: c.payer.AtStep? ==> c.payer.step < step
    ensures var r := ProcessOne(n.world, n.pending, tx, env, at);
      Audited(r.world, v0, CreditsAfter(cs, step, tx, r.outcome, n.world.vault.value.splits))
  {
    hide ProcessOne, ProposalsInv, AllMintPending, CollectFee, Collected;
    var w, r := n.world, ProcessOne(n.world, n.pending, tx, env, at);
    TxVault(w, n.pending, tx, env, at);
    TxKeepsMints(w, n.pending, tx, env, at);
    StillMinted(cs, w.rows.proposals, r.world.rows.proposals);
    if Pays(tx, r.outcome) {
      var s := w.vault.value.splits;
      OneMoreCredit(w.vault.value, v0, cs, s, AtStep(step), FeeOf(tx));
      CreditedGrows(cs, Credit(AtStep(step), FeeOf(tx), s));
      hide Credited;
    }
  }

  lemma {:induction false} TxSteps(n: Node, ops: seq<Op>, k: nat, cs: seq<Credit>, s: Splits)
    requires k < |ops| && ops[k].Submit? && StepsCredited(n, ops, k, cs)
    ensures var b := Before(n, ops, k);
      var r := ProcessOne(b.world, b.pending, ops[k].tx, ops[k].env, ops[k].submittedAt);
      StepsCredited(n, ops, k + 1, CreditsAfter(cs, k, ops[k].tx, r.outcome, s))
  {
    hide ProcessOne, Before;
    CreditedGrows(cs, Credit(AtStep(k), if PaidAt(n, ops, k) then FeeOf(ops[k].tx) else 0, s));
    hide Credited;
  }

  lemma {:induction false} TallySteps(n: Node, ops: seq<Op>, k: nat, cs: seq<Credit>, cs': seq<Credit>)
    requires k < |ops| && !ops[k].Submit? && StepsCredited(n, ops, k, cs) && GrownByMints(cs, cs')
    ensures StepsCredited(n, ops, k + 1, cs')
  {
    forall j | 0 <= j < k + 1 && PaidAt(n, ops, j) ensures Credited(cs', AtStep(j)) {
      var i :| 0 <= i < |cs| && cs[i].payer == AtStep(j);
      assert cs'[i].payer == AtStep(j);
    }
  }

  predicate NoStepsYet(cs: seq<Credit>) {
    forall c <- cs :: !c.payer.AtStep?
  }

  /** Conservation of fees over any run: what the vault's pools have gained is exactly one credit per
      accepted transfer, of its fee, and one per executed note mint, of the tenth withheld from it, each
      divided by the shares in force at the time. Nobody pays twice and nobody who owes is missing. */
  lemma {:induction false} FeesExactlyOnce(n: Node, ops: seq<Op>, k: nat, v0: Vault, cs: seq<Credit>) returns (cs': seq<Credit>)
    requires Audited(n.world, v0, cs) && NoStepsYet(cs) && ProposalsInv(n.world.rows) && AllMintPending(n.world.rows)
    requires k <= |ops|
    ensures var w := Before(n, ops, k).world;
      Audited(w, v0, cs') && StepsCredited(n, ops, k, cs') && AllMintPending(w.rows)
    decreases k
  {
    hide Audited, StepsCredited, AllMintPending, ProposalsInv, Step;
    cs' := cs;
    if k == 0 {
      NothingPaid(n, ops, cs);
    } else {
      cs' := FeesExactlyOnce(n, ops, k - 1, v0, cs);
      cs' := StepAudited(n, ops, k - 1, v0, cs');
    }
  }

  /** While the shares add up to one, the vault's pools have gained exactly the fees it was owed if and only
      if every one was below 2^63; only transfers can owe more. */
  lemma {:induction false} VaultGainsTheFeesIff(w: World, v0: Vault, cs: seq<Credit>)
    requires Audited(w, v0, cs) && forall c <- cs :: Whole(c.splits)
    ensures Pools(w.vault.value) == Pools(v0) + Owed(cs) as real <==> forall c <- cs :: c.fee < TWO_63
    ensures forall c <- cs :: c.fee >= TWO_63 ==> c.payer.AtStep?
  {
    assert Pools(w.vault.value) == Pools(Collected(v0, cs));
    hide Pools, Collected, Whole, Owed, PaidOnce;
    PoolsGainTheFees(v0, cs);
  }

  lemma {:induction false} NothingPaid(n: Node, ops: seq<Op>, cs: seq<Credit>)
    requires NoStepsYet(cs)
    ensures Before(n, ops, 0) == n && StepsCredited(n, ops, 0, cs)
  {
    assert ops[..0] == [];
  }

  lemma {:induction false} StepAudited(n: Node, ops: seq<Op>, k: nat, v0: Vault, cs: seq<Credit>) returns (cs': seq<Credit>)
    requires k < |ops| && ProposalsInv(n.world.rows)
    requires var w := Before(n, ops, k).world; Audited(w, v0, cs) && StepsCredited(n, ops, k, cs) && AllMintPending(w.rows)
    ensures var w := Before(n, ops, k + 1).world; Audited(w, v0, cs') && StepsCredited(n, ops, k + 1, cs') && AllMintPending(w.rows)
  {
    hide ProcessOne, Before, AllMintPending, ProposalsInv, TallyEach;
    var b := Before(n, ops, k);
    BeforeStep(n, ops, k);
    SealedBallots(n, ops, 0, k);
    StepMintPending(b, ops[k]);
    match ops[k]
    case Submit(tx, env, at) =>
      var s := b.world.vault.value.splits;
      TxAudited(b, tx, env, at, v0, cs, k);
      TxSteps(n, ops, k, cs, s);
      cs' := CreditsAfter(cs, k, tx, ProcessOne(b.world, b.pending, tx, env, at).outcome, s);
    case Tally(order, epoch, env) =>
      cs' := cs;
      if IsListing(order, b.world.rows.proposals) {
        cs' := WalkAudited(b.world, order, epoch, |b.world.rows.nfts|, env, v0, cs);
      }
      TallySteps(n, ops, k, cs, cs');
  }
}
