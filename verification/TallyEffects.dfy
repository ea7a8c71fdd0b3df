/** What a tally does to everything but the proposals, told from the effects and verdicts of the due proposals
    (pkg/tx/pipeline.go:1269-1445, pkg/nft/nft.go:177-182 and 314-319, pkg/governance/params.go). */
module TallyEffects {
  import opened Hashing
  import opened Epoch
  import opened Governance
  import opened Ledger
  import opened Stages
  import opened TallyRuns

  // ---------------------------------------------------------------- which effects carry

  /** More voters revealed approval than rejection, and at least a fifth of a non-empty electorate revealed. */
  predicate Passes(p: Proposal, eligible: nat) {
    && |set v | v in p.openings && p.openings[v]| > |set v | v in p.openings && !p.openings[v]|
    && eligible > 0 && 5 * |p.openings| >= eligible
  }

  /** The proposal is due at this epoch, and passes. */
  predicate Carries(p: Proposal, epoch: nat, eligible: nat) {
    !p.tallied && p.epoch < epoch && Passes(p, eligible)
  }

  predicate Burns(p: Proposal, id: Hash) {
    id != ZERO && p.effects.slashTarget == id && p.effects.slashBurn
  }

  predicate Freezes(p: Proposal, id: Hash) {
    id != ZERO && p.effects.slashTarget == id && !p.effects.slashBurn
  }

  predicate Unlocks(p: Proposal, id: Hash) {
    id != ZERO && p.effects.unlockTarget == id
  }

  predicate BurnCarries(order: seq<Proposal>, epoch: nat, eligible: nat, id: Hash) {
    exists p :: p in order && Carries(p, epoch, eligible) && Burns(p, id)
  }

  predicate FreezeCarries(order: seq<Proposal>, epoch: nat, eligible: nat, id: Hash) {
    exists p :: p in order && Carries(p, epoch, eligible) && Freezes(p, id)
  }

  predicate UnlockCarries(order: seq<Proposal>, epoch: nat, eligible: nat, id: Hash) {
    exists p :: p in order && Carries(p, epoch, eligible) && Unlocks(p, id)
  }

  lemma {:induction false} CountedPasses(p: Proposal, eligible: nat)
    ensures Counted(p, eligible).passed <==> Passes(p, eligible)
    ensures Counted(p, eligible).effects == p.effects && Counted(p, eligible).id == p.id
    ensures Counted(p, eligible).applied == p.applied
  {
    PassedMeans(p, eligible);
    assert Choosing(p.openings, true) == set v | v in p.openings && p.openings[v];
    assert Choosing(p.openings, false) == set v | v in p.openings && !p.openings[v];
  }

  // ---------------------------------------------------------------- NFTs

  predicate KeyedNfts(nfts: map<Hash, NFT>) {
    forall id :: id in nfts ==> nfts[id].id == id
  }

  /** The record a tally leaves of one it does not burn. */
  function Marked(n: NFT, frozen: bool, unlocked: bool): NFT {
    n.(slashed := n.slashed || frozen, traits := if unlocked then n.traits["transferable" := Literal("true")] else n.traits)
  }

  predicate NftsAfter(a: map<Hash, NFT>, b: map<Hash, NFT>, id: Hash, burned: bool, frozen: bool, unlocked: bool) {
    && (id in b <==> id in a && !burned)
    && (id in b ==> b[id] == Marked(a[id], frozen, unlocked))
  }

  lemma {:induction false} StoreNft(r: Rows, n: NFT, id: Hash)
    requires KeyedNfts(r.nfts) && n.id in r.nfts
    ensures KeyedNfts(PutNFT(r, n).nfts)
    ensures id != n.id ==> (id in PutNFT(r, n).nfts <==> id in r.nfts) && (id in r.nfts ==> PutNFT(r, n).nfts[id] == r.nfts[id])
    ensures n.id in PutNFT(r, n).nfts && PutNFT(r, n).nfts[n.id] == n
  {
  }

  lemma {:induction false} BurnNft(r: Rows, n: NFT, id: Hash)
    requires KeyedNfts(r.nfts)
    ensures KeyedNfts(DeleteNFT(r, n).nfts)
    ensures id in DeleteNFT(r, n).nfts <==> id in r.nfts && id != n.id
    ensures id in DeleteNFT(r, n).nfts ==> DeleteNFT(r, n).nfts[id] == r.nfts[id]
  {
  }

  lemma {:induction false} SlashNft(w: World, p: Proposal, id: Hash)
    requires KeyedNfts(w.rows.nfts)
    ensures var b := ApplySlash(w, p).0.rows.nfts;
      KeyedNfts(b) && NftsAfter(w.rows.nfts, b, id, p.passed && Burns(p, id), p.passed && Freezes(p, id), false)
  {
    var e := p.effects;
    if p.passed && e.slashTarget != ZERO && e.slashTarget in w.rows.nfts {
      var n := w.rows.nfts[e.slashTarget];
      assert n.id == e.slashTarget;
      hide KeyedNfts, PutNFT, DeleteNFT;
      if e.slashBurn {
        BurnNft(w.rows, n.(slashed := true, tp := 0), id);
      } else {
        StoreNft(w.rows, n.(slashed := true), id);
      }
    }
  }

  lemma {:induction false} UnlockNft(w: World, p: Proposal, id: Hash)
    requires KeyedNfts(w.rows.nfts)
    ensures var b := ApplyUnlock(w, p).0.rows.nfts;
      KeyedNfts(b) && NftsAfter(w.rows.nfts, b, id, false, false, p.passed && Unlocks(p, id))
  {
  }

  lemma {:induction false} SettleNft(w: World, p: Proposal, eligible: nat, env: Env, id: Hash)
    requires KeyedNfts(w.rows.nfts)
    ensures var b := TallyOne(w, p, eligible, env).rows.nfts; var yes := Passes(p, eligible);
      KeyedNfts(b) && NftsAfter(w.rows.nfts, b, id, yes && Burns(p, id), yes && Freezes(p, id), yes && Unlocks(p, id))
  {
    hide ApplyParam, ApplyMint, ApplySlash, ApplyUnlock, ApplyAsset, ApplyUnwind, Counted, Passes;
    var c := Counted(p, eligible);
    CountedPasses(p, eligible);
    var (w1, p1) := ApplyParam(w, c, env);
    var (w2, p2) := ApplyMint(w1, p1, env);
    var (w3, p3) := ApplySlash(w2, p2);
    SlashNft(w2, p2, id);
    UnlockNft(w3, p3, id);
    hide KeyedNfts;
  }

  lemma {:induction false} CarriersGrow(front: seq<Proposal>, last: Proposal, epoch: nat, eligible: nat, id: Hash)
    ensures var yes := Carries(last, epoch, eligible); var order := front + [last];
      && (BurnCarries(order, epoch, eligible, id) <==> BurnCarries(front, epoch, eligible, id) || (yes && Burns(last, id)))
      && (FreezeCarries(order, epoch, eligible, id) <==> FreezeCarries(front, epoch, eligible, id) || (yes && Freezes(last, id)))
      && (UnlockCarries(order, epoch, eligible, id) <==> UnlockCarries(front, epoch, eligible, id) || (yes && Unlocks(last, id)))
  {
    hide Carries, Burns, Freezes, Unlocks;
  }

  lemma {:induction false} MarkedTwice(n: NFT, f: bool, u: bool, f': bool, u': bool)
    ensures Marked(Marked(n, f, u), f', u') == Marked(n, f || f', u || u')
  {
  }

  lemma {:induction false} AfterBoth(a: map<Hash, NFT>, b: map<Hash, NFT>, c: map<Hash, NFT>, id: Hash,
                                     x: bool, f: bool, u: bool, x': bool, f': bool, u': bool)
    requires NftsAfter(a, b, id, x, f, u) && NftsAfter(b, c, id, x', f', u')
    ensures NftsAfter(a, c, id, x || x', f || f', u || u')
  {
    if id in a { MarkedTwice(a[id], f, u, f', u'); }
    hide Marked;
  }

  /** What a walk over `order` has made of an NFT. */
  ghost predicate Walked(a: map<Hash, NFT>, b: map<Hash, NFT>, order: seq<Proposal>, epoch: nat, eligible: nat, id: Hash) {
    NftsAfter(a, b, id, BurnCarries(order, epoch, eligible, id), FreezeCarries(order, epoch, eligible, id),
              UnlockCarries(order, epoch, eligible, id))
  }

  lemma {:induction false} WalkedNothing(a: map<Hash, NFT>, epoch: nat, eligible: nat, id: Hash)
    ensures Walked(a, a, [], epoch, eligible, id)
  {
    if id in a { assert Marked(a[id], false, false) == a[id]; }
  }

  lemma {:induction false} WalkedOn(a: map<Hash, NFT>, b: map<Hash, NFT>, c: map<Hash, NFT>, front: seq<Proposal>, last: Proposal,
                                    epoch: nat, eligible: nat, id: Hash)
    requires Walked(a, b, front, epoch, eligible, id)
    requires var yes := Carries(last, epoch, eligible);
      NftsAfter(b, c, id, yes && Burns(last, id), yes && Freezes(last, id), yes && Unlocks(last, id))
    ensures Walked(a, c, front + [last], epoch, eligible, id)
  {
    hide Carries, Burns, Freezes, Unlocks, NftsAfter, BurnCarries, FreezeCarries, UnlockCarries;
    CarriersGrow(front, last, epoch, eligible, id);
    var yes := Carries(last, epoch, eligible);
    AfterBoth(a, b, c, id,
              BurnCarries(front, epoch, eligible, id), FreezeCarries(front, epoch, eligible, id), UnlockCarries(front, epoch, eligible, id),
              yes && Burns(last, id), yes && Freezes(last, id), yes && Unlocks(last, id));
  }

  lemma {:induction false} StayedSame(a: map<Hash, NFT>, id: Hash)
    ensures NftsAfter(a, a, id, false, false, false)
  {
    if id in a { assert Marked(a[id], false, false) == a[id]; }
  }

  lemma {:induction false} WalkNft(w: World, order: seq<Proposal>, epoch: nat, eligible: nat, env: Env, id: Hash)
    requires KeyedNfts(w.rows.nfts)
    ensures var b := TallyEach(w, order, epoch, eligible, env).rows.nfts;
      KeyedNfts(b) && Walked(w.rows.nfts, b, order, epoch, eligible, id)
    decreases |order|
  {
    hide KeyedNfts, TallyOne, Burns, Freezes, Unlocks, Passes, NftsAfter, Walked;
    if order == [] {
      WalkedNothing(w.rows.nfts, epoch, eligible, id);
    } else {
      var front, last := order[..|order| - 1], order[|order| - 1];
      assert order == front + [last];
      WalkNft(w, front, epoch, eligible, env, id);
      var mid := TallyEach(w, front, epoch, eligible, env);
      if Due(last, epoch) { SettleNft(mid, last, eligible, env, id); } else { StayedSame(mid.rows.nfts, id); }
      WalkedOn(w.rows.nfts, mid.rows.nfts, TallyEach(w, order, epoch, eligible, env).rows.nfts, front, last, epoch, eligible, id);
    }
  }

  /** Some stored proposal is due and passes, and does this to this NFT. */
  predicate BurnedBy(w: World, epoch: nat, pid: string, id: Hash) {
    pid in w.rows.proposals && Carries(w.rows.proposals[pid], epoch, |w.rows.nfts|) && Burns(w.rows.proposals[pid], id)
  }

  predicate FrozenBy(w: World, epoch: nat, pid: string, id: Hash) {
    pid in w.rows.proposals && Carries(w.rows.proposals[pid], epoch, |w.rows.nfts|) && Freezes(w.rows.proposals[pid], id)
  }

  predicate UnlockedBy(w: World, epoch: nat, pid: string, id: Hash) {
    pid in w.rows.proposals && Carries(w.rows.proposals[pid], epoch, |w.rows.nfts|) && Unlocks(w.rows.proposals[pid], id)
  }

  lemma {:induction false} Listed(order: seq<Proposal>, proposals: map<string, Proposal>)
    requires IsListing(order, proposals)
    ensures forall p <- order :: p.id in proposals && proposals[p.id] == p
    ensures forall pid :: pid in proposals ==> proposals[pid] in order
  {
    forall pid | pid in proposals ensures proposals[pid] in order {
      var i :| 0 <= i < |order| && order[i].id == pid;
    }
  }

  /** After a tally an NFT is gone exactly if a due, passed burn named it. One still there is slashed exactly if
      it was or a due, passed freeze named it, transferable exactly if it was or a due, passed unlock named it,
      and otherwise as it was. The order of the tally makes no difference. */
  lemma {:induction false} TallyNft(w: World, order: seq<Proposal>, epoch: nat, env: Env, id: Hash)
    requires IsListing(order, w.rows.proposals) && KeyedNfts(w.rows.nfts)
    ensures var (a, b) := (w.rows.nfts, TallyDue(w, order, epoch, env).rows.nfts);
      && (id in b <==> id in a && !exists pid :: BurnedBy(w, epoch, pid, id))
      && (id in b ==>
            && (b[id].slashed <==> a[id].slashed || exists pid :: FrozenBy(w, epoch, pid, id))
            && (Transferable(b[id]) <==> Transferable(a[id]) || exists pid :: UnlockedBy(w, epoch, pid, id))
            && (forall k :: k != "transferable" ==> (k in b[id].traits <==> k in a[id].traits))
            && (forall k :: k != "transferable" && k in a[id].traits ==> b[id].traits[k] == a[id].traits[k])
            && (b[id].id, b[id].owner, b[id].mintedAt, b[id].tp) == (a[id].id, a[id].owner, a[id].mintedAt, a[id].tp))
  {
    hide TallyEach, Carries, Burns, Freezes, Unlocks, BurnCarries, FreezeCarries, UnlockCarries, BurnedBy, FrozenBy, UnlockedBy, KeyedNfts,
      IsListing, Transferable;
    Listed(order, w.rows.proposals);
    var n := |w.rows.nfts|;
    WalkNft(w, order, epoch, n, env, id);
    CarriersListed(w, order, epoch, id);
    if id in w.rows.nfts {
      MarkedMeans(w.rows.nfts[id], FreezeCarries(order, epoch, n, id), UnlockCarries(order, epoch, n, id));
    }
    hide Marked;
  }

  lemma {:induction false} MarkedMeans(n: NFT, frozen: bool, unlocked: bool)
    ensures var m := Marked(n, frozen, unlocked);
      && (m.slashed <==> n.slashed || frozen) && (Transferable(m) <==> Transferable(n) || unlocked)
      && (forall k :: k != "transferable" ==> (k in m.traits <==> k in n.traits))
      && (forall k :: k != "transferable" && k in n.traits ==> m.traits[k] == n.traits[k])
      && (m.id, m.owner, m.mintedAt, m.tp) == (n.id, n.owner, n.mintedAt, n.tp)
  {
  }

  lemma {:induction false} CarriersListed(w: World, order: seq<Proposal>, epoch: nat, id: Hash)
    requires forall p <- order :: p.id in w.rows.proposals && w.rows.proposals[p.id] == p
    requires forall pid :: pid in w.rows.proposals ==> w.rows.proposals[pid] in order
    ensures BurnCarries(order, epoch, |w.rows.nfts|, id) <==> exists pid :: BurnedBy(w, epoch, pid, id)
    ensures FreezeCarries(order, epoch, |w.rows.nfts|, id) <==> exists pid :: FrozenBy(w, epoch, pid, id)
    ensures UnlockCarries(order, epoch, |w.rows.nfts|, id) <==> exists pid :: UnlockedBy(w, epoch, pid, id)
  {
    hide Carries, Burns, Freezes, Unlocks;
    var n := |w.rows.nfts|;
    if BurnCarries(order, epoch, n, id) {
      var p :| p in order && Carries(p, epoch, n) && Burns(p, id);
      assert BurnedBy(w, epoch, p.id, id);
    }
    if FreezeCarries(order, epoch, n, id) {
      var p :| p in order && Carries(p, epoch, n) && Freezes(p, id);
      assert FrozenBy(w, epoch, p.id, id);
    }
    if UnlockCarries(order, epoch, n, id) {
      var p :| p in order && Carries(p, epoch, n) && Unlocks(p, id);
      assert UnlockedBy(w, epoch, p.id, id);
    }
  }

  // ---------------------------------------------------------------- assets

  predicate Authorises(p: Proposal, asset: string) {
    asset != "" && p.effects.assetTarget == asset
  }

  predicate AssetCarries(order: seq<Proposal>, epoch: nat, eligible: nat, asset: string) {
    exists p :: p in order && Carries(p, epoch, eligible) && Authorises(p, asset)
  }

  lemma {:induction false} SettleAsset(w: World, p: Proposal, eligible: nat, env: Env, asset: string)
    ensures asset in TallyOne(w, p, eligible, env).rows.assets <==>
      asset in w.rows.assets || (Passes(p, eligible) && Authorises(p, asset))
  {
    hide ApplyParam, ApplyMint, ApplySlash, ApplyUnlock, ApplyUnwind, Counted, Passes;
    CountedPasses(p, eligible);
  }

  lemma {:induction false} WalkAsset(w: World, order: seq<Proposal>, epoch: nat, eligible: nat, env: Env, asset: string)
    ensures asset in TallyEach(w, order, epoch, eligible, env).rows.assets <==>
      asset in w.rows.assets || AssetCarries(order, epoch, eligible, asset)
    decreases |order|
  {
    hide TallyOne, Authorises, Passes;
    if order != [] {
      var front, last := order[..|order| - 1], order[|order| - 1];
      assert order == front + [last];
      WalkAsset(w, front, epoch, eligible, env, asset);
      if Due(last, epoch) { SettleAsset(TallyEach(w, front, epoch, eligible, env), last, eligible, env, asset); }
    }
  }

  /** After a tally an asset is authorised exactly if it was or a due, passed proposal names it. */
  lemma {:induction false} TallyAsset(w: World, order: seq<Proposal>, epoch: nat, env: Env, asset: string)
    requires IsListing(order, w.rows.proposals)
    ensures asset in TallyDue(w, order, epoch, env).rows.assets <==>
      asset in w.rows.assets
      || exists pid :: pid in w.rows.proposals && Carries(w.rows.proposals[pid], epoch, |w.rows.nfts|) && Authorises(w.rows.proposals[pid], asset)
  {
    hide TallyEach, Carries, Authorises;
    Listed(order, w.rows.proposals);
    WalkAsset(w, order, epoch, |w.rows.nfts|, env, asset);
    if AssetCarries(order, epoch, |w.rows.nfts|, asset) {
      var p :| p in order && Carries(p, epoch, |w.rows.nfts|) && Authorises(p, asset);
      assert w.rows.proposals[p.id] == p;
    }
  }

  // ---------------------------------------------------------------- parameters

  datatype Setting =
    | DepositATR | WithdrawATR | BankFee | RefundCap | CycleSurcharge
    | EpochBonusShare | BurnShare | AuditShare | RemainderShare | SilentSpike

  function KeyOf(s: Setting): string {
    match s
    case DepositATR => "DepositATRMultiple"
    case WithdrawATR => "WithdrawATRMultiple"
    case BankFee => "BankFeeRate"
    case RefundCap => "RefundCap"
    case CycleSurcharge => "CycleSurchargeRate"
    case EpochBonusShare => "VaultEpochBonusShare"
    case BurnShare => "VaultBurnShare"
    case AuditShare => "VaultAuditShare"
    case RemainderShare => "VaultRemainderShare"
    case SilentSpike => "SilentTxSpikePercent"
  }

  function ValueOf(g: Params, s: Setting): real {
    match s
    case DepositATR => g.ratios.depositATR
    case WithdrawATR => g.ratios.withdrawATR
    case BankFee => g.ratios.bankFee
    case RefundCap => g.ratios.refundCap
    case CycleSurcharge => g.ratios.cycleSurcharge
    case EpochBonusShare => g.ratios.epochBonusShare
    case BurnShare => g.ratios.burnShare
    case AuditShare => g.ratios.auditShare
    case RemainderShare => g.ratios.remainderShare
    case SilentSpike => g.ratios.silentSpike
  }

  predicate IsShare(s: Setting) {
    s.EpochBonusShare? || s.BurnShare? || s.AuditShare? || s.RemainderShare?
  }

  /** Length and first letter tell the ten keys apart. */
  lemma {:induction false} KeysDiffer(s: Setting, t: Setting)
    ensures KeyOf(s) == KeyOf(t) ==> s == t
  {
    var a, b := KeyOf(s), KeyOf(t);
    assert a == b ==> |a| == |b| && a[0] == b[0];
  }

  lemma {:induction false} ChangeOne(g: Params, s: Setting, v: real)
    ensures ChangeParam(g, KeyOf(s), Some(v)).Some?
    ensures var h := ChangeParam(g, KeyOf(s), Some(v)).value;
      h.dualSign == g.dualSign && forall t :: ValueOf(h, t) == if t == s then v else ValueOf(g, t)
    ensures IsVaultShareKey(KeyOf(s)) <==> IsShare(s)
  {
    KeysDiffer(s, DepositATR); KeysDiffer(s, WithdrawATR); KeysDiffer(s, BankFee); KeysDiffer(s, RefundCap);
    KeysDiffer(s, CycleSurcharge); KeysDiffer(s, EpochBonusShare); KeysDiffer(s, BurnShare); KeysDiffer(s, AuditShare);
    KeysDiffer(s, RemainderShare); KeysDiffer(s, SilentSpike);
  }

  lemma {:induction false} ChangeNone(g: Params, key: string, v: Option<real>)
    ensures ChangeParam(g, key, v).Some? <==> v.Some? && exists s :: KeyOf(s) == key
  {
    if ChangeParam(g, key, v).Some? {
      assert key == KeyOf(DepositATR) || key == KeyOf(WithdrawATR) || key == KeyOf(BankFee) || key == KeyOf(RefundCap)
          || key == KeyOf(CycleSurcharge) || key == KeyOf(EpochBonusShare) || key == KeyOf(BurnShare) || key == KeyOf(AuditShare)
          || key == KeyOf(RemainderShare) || key == KeyOf(SilentSpike);
    }
    if s :| KeyOf(s) == key { if v.Some? { ChangeOne(g, s, v.value); } }
  }

  /** The proposal, once passed, gives this setting a readable value. */
  predicate Sets(p: Proposal, s: Setting, env: Env) {
    p.effects.paramKey == KeyOf(s) && env.parse(p.effects.newValue).Some?
  }

  function NewValue(p: Proposal, env: Env): real
    requires env.parse(p.effects.newValue).Some?
  {
    env.parse(p.effects.newValue).value
  }

  /** One settled proposal: each setting it sets takes its value, the others stay; dual signing ends if it says so. */
  lemma {:induction false} SettleParam(w: World, p: Proposal, eligible: nat, env: Env, s: Setting)
    requires w.gov.Some?
    ensures var g := TallyOne(w, p, eligible, env).gov; var yes := Passes(p, eligible);
      && g.Some?
      && ValueOf(g.value, s) == (if yes && Sets(p, s, env) then NewValue(p, env) else ValueOf(w.gov.value, s))
      && g.value.dualSign == (w.gov.value.dualSign && !(yes && p.effects.unwindDualSign))
  {
    hide ApplyMint, ApplySlash, ApplyUnlock, ApplyAsset, Counted, Passes, ChangeParam, KeyOf, IsVaultShareKey, SplitsOf;
    var c := Counted(p, eligible);
    CountedPasses(p, eligible);
    var (w1, p1) := ApplyParam(w, c, env);
    ParamValue(w, c, env, s);
    var (w2, p2) := ApplyMint(w1, p1, env);
    hide ApplyParam, ValueOf, Sets;
    UnwindValue(w2, p2, s);
    assert TallyOne(w, p, eligible, env).gov == ApplyRowEffects(w2, p2).0.gov;
  }

  lemma {:induction false} EmptyIsNoKey(s: Setting)
    ensures KeyOf(s) != ""
  {
  }

  lemma {:induction false} ParamValue(w: World, p: Proposal, env: Env, s: Setting)
    requires w.gov.Some?
    ensures var g := ApplyParam(w, p, env).0.gov;
      && g.Some? && g.value.dualSign == w.gov.value.dualSign
      && ValueOf(g.value, s) == if p.passed && Sets(p, s, env) then NewValue(p, env) else ValueOf(w.gov.value, s)
  {
    hide ChangeParam, KeyOf, ValueOf;
    var v := env.parse(p.effects.newValue);
    ChangeNone(w.gov.value, p.effects.paramKey, v);
    EmptyIsNoKey(s);
    if v.Some? && exists t :: KeyOf(t) == p.effects.paramKey {
      var t :| KeyOf(t) == p.effects.paramKey;
      ChangeOne(w.gov.value, t, v.value);
      KeysDiffer(s, t);
    }
  }

  lemma {:induction false} UnwindValue(w: World, p: Proposal, s: Setting)
    requires w.gov.Some?
    ensures var g := ApplyRowEffects(w, p).0.gov;
      && g.Some? && ValueOf(g.value, s) == ValueOf(w.gov.value, s)
      && g.value.dualSign == (w.gov.value.dualSign && !(p.passed && p.effects.unwindDualSign))
  {
    hide ApplySlash, ApplyUnlock, ApplyAsset;
  }

  predicate UnwindCarries(order: seq<Proposal>, epoch: nat, eligible: nat) {
    exists p :: p in order && Carries(p, epoch, eligible) && p.effects.unwindDualSign
  }

  lemma {:induction false} WalkGov(w: World, order: seq<Proposal>, epoch: nat, eligible: nat, env: Env)
    requires w.gov.Some?
    ensures var g := TallyEach(w, order, epoch, eligible, env).gov;
      g.Some? && (g.value.dualSign <==> w.gov.value.dualSign && !UnwindCarries(order, epoch, eligible))
    decreases |order|
  {
    hide TallyOne, Passes;
    if order != [] {
      var front, last := order[..|order| - 1], order[|order| - 1];
      assert order == front + [last];
      WalkGov(w, front, epoch, eligible, env);
      if Due(last, epoch) { SettleParam(TallyEach(w, front, epoch, eligible, env), last, eligible, env, BankFee); }
    }
  }

  predicate RetiredBy(w: World, epoch: nat, pid: string) {
    pid in w.rows.proposals && Carries(w.rows.proposals[pid], epoch, |w.rows.nfts|) && w.rows.proposals[pid].effects.unwindDualSign
  }

  /** After a tally dual signing is in force exactly if it was and no due, passed proposal retires it. */
  lemma {:induction false} TallyDualSign(w: World, order: seq<Proposal>, epoch: nat, env: Env)
    requires IsListing(order, w.rows.proposals) && w.gov.Some?
    ensures var g := TallyDue(w, order, epoch, env).gov;
      && g.Some?
      && (g.value.dualSign <==> (w.gov.value.dualSign && !exists pid :: RetiredBy(w, epoch, pid)))
  {
    hide TallyEach, Carries;
    Listed(order, w.rows.proposals);
    WalkGov(w, order, epoch, |w.rows.nfts|, env);
    if UnwindCarries(order, epoch, |w.rows.nfts|) {
      var p :| p in order && Carries(p, epoch, |w.rows.nfts|) && p.effects.unwindDualSign;
      assert RetiredBy(w, epoch, p.id);
    }
  }

  predicate SetAt(order: seq<Proposal>, epoch: nat, eligible: nat, env: Env, s: Setting, i: nat) {
    i < |order| && Carries(order[i], epoch, eligible) && Sets(order[i], s, env)
  }

  /** The value a walk leaves a setting with, from the value it starts with. */
  function Latest(order: seq<Proposal>, epoch: nat, eligible: nat, env: Env, s: Setting, init: real): real {
    if order == [] then init
    else
      var last := order[|order| - 1];
      if Carries(last, epoch, eligible) && Sets(last, s, env) then NewValue(last, env)
      else Latest(order[..|order| - 1], epoch, eligible, env, s, init)
  }

  lemma {:induction false} WalkSetting(w: World, order: seq<Proposal>, epoch: nat, eligible: nat, env: Env, s: Setting)
    requires w.gov.Some?
    ensures var g := TallyEach(w, order, epoch, eligible, env).gov;
      g.Some? && ValueOf(g.value, s) == Latest(order, epoch, eligible, env, s, ValueOf(w.gov.value, s))
    decreases |order|
  {
    hide TallyOne, Passes, ValueOf, Sets;
    if order != [] {
      var front, last := order[..|order| - 1], order[|order| - 1];
      WalkSetting(w, front, epoch, eligible, env, s);
      if Due(last, epoch) { SettleParam(TallyEach(w, front, epoch, eligible, env), last, eligible, env, s); }
    }
  }

  lemma {:induction false} SetInFront(order: seq<Proposal>, epoch: nat, eligible: nat, env: Env, s: Setting, i: nat)
    requires i + 1 < |order|
    ensures SetAt(order[..|order| - 1], epoch, eligible, env, s, i) <==> SetAt(order, epoch, eligible, env, s, i)
  {
  }

  lemma {:induction false} LatestAt(order: seq<Proposal>, epoch: nat, eligible: nat, env: Env, s: Setting, init: real, i: nat)
    requires SetAt(order, epoch, eligible, env, s, i) && forall j: nat | i < j < |order| :: !SetAt(order, epoch, eligible, env, s, j)
    ensures Latest(order, epoch, eligible, env, s, init) == NewValue(order[i], env)
    decreases |order|
  {
    hide Carries, Sets;
    var n := |order| - 1;
    if i < n {
      assert !SetAt(order, epoch, eligible, env, s, n);
      forall j: nat | j < n ensures SetAt(order[..n], epoch, eligible, env, s, j) <==> SetAt(order, epoch, eligible, env, s, j) {
        SetInFront(order, epoch, eligible, env, s, j);
      }
      LatestAt(order[..n], epoch, eligible, env, s, init, i);
    }
  }

  lemma {:induction false} LatestNone(order: seq<Proposal>, epoch: nat, eligible: nat, env: Env, s: Setting, init: real)
    requires forall j: nat | j < |order| :: !SetAt(order, epoch, eligible, env, s, j)
    ensures Latest(order, epoch, eligible, env, s, init) == init
    decreases |order|
  {
    hide Carries, Sets;
    if order != [] {
      var n := |order| - 1;
      assert !SetAt(order, epoch, eligible, env, s, n);
      forall j: nat | j < n ensures !SetAt(order[..n], epoch, eligible, env, s, j) { SetInFront(order, epoch, eligible, env, s, j); }
      LatestNone(order[..n], epoch, eligible, env, s, init);
    }
  }

  /** Proposal i of the walk is the last that sets this setting. */
  predicate SetsLast(order: seq<Proposal>, epoch: nat, eligible: nat, env: Env, s: Setting, i: nat) {
    SetAt(order, epoch, eligible, env, s, i) && forall j: nat | i < j < |order| :: !SetAt(order, epoch, eligible, env, s, j)
  }

  /** After a tally a setting has the value given by the last due, passed proposal of the walk that gives it a
      readable one, and its old value if there is none. */
  lemma {:induction false} TallySetting(w: World, order: seq<Proposal>, epoch: nat, env: Env, s: Setting)
    requires w.gov.Some?
    ensures var (g, n) := (TallyDue(w, order, epoch, env).gov, |w.rows.nfts|);
      && g.Some?
      && (forall i: nat :: SetsLast(order, epoch, n, env, s, i) ==> ValueOf(g.value, s) == NewValue(order[i], env))
      && ((forall i: nat :: !SetAt(order, epoch, n, env, s, i)) ==> ValueOf(g.value, s) == ValueOf(w.gov.value, s))
  {
    hide TallyEach, ValueOf, Carries, KeyOf;
    var n := |w.rows.nfts|;
    WalkSetting(w, order, epoch, n, env, s);
    var init := ValueOf(w.gov.value, s);
    forall i: nat | SetsLast(order, epoch, n, env, s, i) ensures Latest(order, epoch, n, env, s, init) == NewValue(order[i], env) {
      LatestAt(order, epoch, n, env, s, init, i);
    }
    if forall i: nat :: !SetAt(order, epoch, n, env, s, i) { LatestNone(order, epoch, n, env, s, init); }
  }

  // ---------------------------------------------------------------- vault shares

  /** The vault divides by the governed shares. */
  predicate Governed(v: Splits, g: Params) {
    && v.epochBonus == ValueOf(g, EpochBonusShare) && v.burn == ValueOf(g, BurnShare)
    && v.audit == ValueOf(g, AuditShare) && v.remainder == ValueOf(g, RemainderShare)
  }

  lemma {:induction false} ParamShares(w: World, p: Proposal, env: Env)
    requires w.gov.Some? && w.vault.Some?
    ensures var (w', p') := ApplyParam(w, p, env);
      && w'.gov.Some? && w'.vault.Some?
      && (Governed(w.vault.value.splits, w.gov.value) ==> Governed(w'.vault.value.splits, w'.gov.value))
      && ((exists s :: IsShare(s) && p.passed && Sets(p, s, env)) ==> Governed(w'.vault.value.splits, w'.gov.value))
      && (!(exists s :: IsShare(s) && p.passed && Sets(p, s, env)) ==> w'.vault == w.vault)
  {
    hide ChangeParam, KeyOf, IsVaultShareKey;
    var v := env.parse(p.effects.newValue);
    ChangeNone(w.gov.value, p.effects.paramKey, v);
    forall s ensures KeyOf(s) != "" { EmptyIsNoKey(s); }
    if v.Some? && exists t :: KeyOf(t) == p.effects.paramKey {
      var t :| KeyOf(t) == p.effects.paramKey;
      ChangeOne(w.gov.value, t, v.value);
      forall s ensures KeyOf(s) == KeyOf(t) ==> s == t { KeysDiffer(s, t); }
    }
  }

  predicate SetsShare(p: Proposal, env: Env) {
    exists s :: IsShare(s) && Sets(p, s, env)
  }

  lemma {:induction false} SettleShares(w: World, p: Proposal, eligible: nat, env: Env)
    requires w.gov.Some? && w.vault.Some?
    ensures var after := TallyOne(w, p, eligible, env);
      && after.gov.Some? && after.vault.Some?
      && (Governed(w.vault.value.splits, w.gov.value) ==> Governed(after.vault.value.splits, after.gov.value))
      && (Passes(p, eligible) && SetsShare(p, env) ==> Governed(after.vault.value.splits, after.gov.value))
      && (!(Passes(p, eligible) && SetsShare(p, env)) ==> after.vault.value.splits == w.vault.value.splits)
  {
    hide ApplyMint, ApplySlash, ApplyUnlock, ApplyAsset, Counted, Passes, ChangeParam, KeyOf, IsVaultShareKey, SplitsOf;
    var c := Counted(p, eligible);
    CountedPasses(p, eligible);
    var (w1, p1) := ApplyParam(w, c, env);
    ParamShares(w, c, env);
    assert forall s :: Sets(c, s, env) <==> Sets(p, s, env);
    hide ApplyParam, Sets;
    var (w2, p2) := ApplyMint(w1, p1, env);
    MintKeepsShares(w1, p1, env);
    forall s ensures ValueOf(ApplyRowEffects(w2, p2).0.gov.value, s) == ValueOf(w1.gov.value, s) { UnwindValue(w2, p2, s); }
    UnwindValue(w2, p2, BankFee);
    assert TallyOne(w, p, eligible, env).gov == ApplyRowEffects(w2, p2).0.gov;
    assert TallyOne(w, p, eligible, env).vault == w2.vault;
    hide TallyOne, ValueOf, ApplyRowEffects;
  }

  lemma {:induction false} MintKeepsShares(w: World, p: Proposal, env: Env)
    requires w.vault.Some?
    ensures var v := ApplyMint(w, p, env).0.vault; v.Some? && v.value.splits == w.vault.value.splits
    ensures ApplyMint(w, p, env).0.gov == w.gov
  {
  }

  predicate ShareCarries(order: seq<Proposal>, epoch: nat, eligible: nat, env: Env) {
    exists p :: p in order && Carries(p, epoch, eligible) && SetsShare(p, env)
  }

  /** After a tally that changes a vault share the vault divides by the governed shares; one that changes none
      leaves its shares alone. A vault that did follow the parameters still does. */
  lemma {:induction false} TallyShares(w: World, order: seq<Proposal>, epoch: nat, eligible: nat, env: Env)
    requires w.gov.Some? && w.vault.Some?
    ensures var after := TallyEach(w, order, epoch, eligible, env);
      && after.gov.Some? && after.vault.Some?
      && (Governed(w.vault.value.splits, w.gov.value) ==> Governed(after.vault.value.splits, after.gov.value))
      && (ShareCarries(order, epoch, eligible, env) ==> Governed(after.vault.value.splits, after.gov.value))
      && (!ShareCarries(order, epoch, eligible, env) ==> after.vault.value.splits == w.vault.value.splits)
    decreases |order|
  {
    hide TallyOne, Passes, Governed, SetsShare;
    if order != [] {
      var front, last := order[..|order| - 1], order[|order| - 1];
      assert order == front + [last];
      TallyShares(w, front, epoch, eligible, env);
      if Due(last, epoch) { SettleShares(TallyEach(w, front, epoch, eligible, env), last, eligible, env); }
    }
  }

  // ---------------------------------------------------------------- what a settled record says was done

  /** The marks of one settled proposal: set exactly for what its verdict, its effects and the ledger allow. */
  lemma {:induction false} SettledMarks(w: World, p: Proposal, eligible: nat, env: Env)
    requires KeyedNfts(w.rows.nfts)
    ensures p.id in TallyOne(w, p, eligible, env).rows.proposals
    ensures var q := TallyOne(w, p, eligible, env).rows.proposals[p.id]; var e := p.effects; var yes := Passes(p, eligible);
      && q.tallied && q.passed == yes && q.effects == e
      && (q.applied.param <==> p.applied.param || (yes && w.gov.Some? && Readable(p, env)))
      && (q.applied.mint <==> p.applied.mint || (yes && e.mintAmount > 0 && Mintable(if e.mintStaked then w.stakes else w.notes)))
      && (q.applied.slash <==> p.applied.slash || (yes && e.slashTarget != ZERO && e.slashTarget in w.rows.nfts))
      && (q.applied.unlock <==> p.applied.unlock || (yes && e.unlockTarget != ZERO && e.unlockTarget in w.rows.nfts && !Burns(p, e.unlockTarget)))
      && (q.applied.asset <==> p.applied.asset || (yes && e.assetTarget != ""))
      && (q.applied.unwind <==> p.applied.unwind || (yes && e.unwindDualSign && w.gov.Some?))
  {
    hide Counted, Passes, ChangeParam, KeyOf, ApplyParam, ApplyMint, ApplySlash, ApplyUnlock, ApplyAsset, ApplyUnwind;
    var c := Counted(p, eligible);
    CountedPasses(p, eligible);
    CountedTallied(p, eligible);
    var (w1, p1) := ApplyParam(w, c, env);
    ParamMark(w, c, env);
    var (w2, p2) := ApplyMint(w1, p1, env);
    MintMark(w1, p1, env);
    RowMarks(w2, p2);
    hide KeyedNfts, Mintable, Burns;
    assert TallyOne(w, p, eligible, env).rows.proposals[p.id] == ApplyRowEffects(w2, p2).1;
  }

  /** The effect names a known parameter, with a value that can be read. */
  predicate Readable(p: Proposal, env: Env) {
    env.parse(p.effects.newValue).Some? && exists s :: KeyOf(s) == p.effects.paramKey
  }

  predicate Mintable(t: Tree) {
    t.leaves.Some? && |t.leaves.value| + 1 <= 0x1_0000_0000
  }

  lemma {:induction false} CountedTallied(p: Proposal, eligible: nat)
    ensures Counted(p, eligible).tallied
  {
  }

  lemma {:induction false} ParamMark(w: World, p: Proposal, env: Env)
    ensures var (w', q) := ApplyParam(w, p, env);
      && (q.applied.param <==> p.applied.param || (p.passed && w.gov.Some? && Readable(p, env)))
      && w'.gov.Some? == w.gov.Some?
  {
    hide ChangeParam, KeyOf;
    forall s ensures KeyOf(s) != "" { EmptyIsNoKey(s); }
    if w.gov.Some? { ChangeNone(w.gov.value, p.effects.paramKey, env.parse(p.effects.newValue)); }
  }

  lemma {:induction false} MintMark(w: World, p: Proposal, env: Env)
    ensures ApplyMint(w, p, env).1.applied.mint <==> (p.applied.mint || MintDone(w, p))
  {
    hide ApplyMint, MintDone;
    if p.effects.mintStaked { StakedMark(w, p, env); } else { NoteMark(w, p, env); }
  }

  lemma {:induction false} StakedMark(w: World, p: Proposal, env: Env)
    requires p.effects.mintStaked
    ensures ApplyMint(w, p, env).1.applied.mint <==> (p.applied.mint || MintDone(w, p))
  {
    hide Insert, CollectFee;
    assert HasRoom(w.stakes, 1) <==> w.stakes.leaves.None? || Mintable(w.stakes);
  }

  lemma {:induction false} NoteMark(w: World, p: Proposal, env: Env)
    requires !p.effects.mintStaked
    ensures ApplyMint(w, p, env).1.applied.mint <==> (p.applied.mint || MintDone(w, p))
  {
    hide Insert, CollectFee;
    assert HasRoom(w.notes, 1) <==> w.notes.leaves.None? || Mintable(w.notes);
  }

  predicate MintDone(w: World, p: Proposal) {
    p.passed && p.effects.mintAmount > 0 && Mintable(if p.effects.mintStaked then w.stakes else w.notes)
  }

  lemma {:induction false} RowMarks(w: World, p: Proposal)
    requires KeyedNfts(w.rows.nfts)
    ensures var q := ApplyRowEffects(w, p).1; var e := p.effects;
      && (q.applied.slash <==> p.applied.slash || (p.passed && e.slashTarget != ZERO && e.slashTarget in w.rows.nfts))
      && (q.applied.unlock <==> p.applied.unlock || UnlockDone(w, p))
      && (q.applied.asset <==> p.applied.asset || (p.passed && e.assetTarget != ""))
      && (q.applied.unwind <==> p.applied.unwind || (p.passed && e.unwindDualSign && w.gov.Some?))
  {
    hide KeyedNfts, ApplySlash, ApplyUnlock, ApplyAsset, ApplyUnwind;
    var (w3, p3) := ApplySlash(w, p);
    SlashNft(w, p, p.effects.unlockTarget);
    SlashMark(w, p);
    var (w4, p4) := ApplyUnlock(w3, p3);
    UnlockMark(w3, p3);
    var (w5, p5) := ApplyAsset(w4, p4);
    LastMarks(w4, p4);
  }

  predicate UnlockDone(w: World, p: Proposal) {
    p.passed && p.effects.unlockTarget != ZERO && p.effects.unlockTarget in w.rows.nfts && !Burns(p, p.effects.unlockTarget)
  }

  lemma {:induction false} SlashMark(w: World, p: Proposal)
    ensures ApplySlash(w, p).1.applied.slash <==>
      p.applied.slash || (p.passed && p.effects.slashTarget != ZERO && p.effects.slashTarget in w.rows.nfts)
  {
  }

  lemma {:induction false} UnlockMark(w: World, p: Proposal)
    ensures ApplyUnlock(w, p).1.applied.unlock <==>
      p.applied.unlock || (p.passed && p.effects.unlockTarget != ZERO && p.effects.unlockTarget in w.rows.nfts)
  {
  }

  lemma {:induction false} LastMarks(w: World, p: Proposal)
    ensures var (w', q) := ApplyAsset(w, p);
      && (q.applied.asset <==> p.applied.asset || (p.passed && p.effects.assetTarget != ""))
      && (ApplyUnwind(w', q).1.applied.unwind <==> p.applied.unwind || (p.passed && p.effects.unwindDualSign && w.gov.Some?))
  {
  }
}
