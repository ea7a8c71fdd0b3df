/** The ledger a node starts from, and that every hypothesis of the whole-run theorems holds of it. */
module EmptyLedger {
  import opened Hashing
  import opened Governance
  import opened Ledger
  import opened Stages
  import opened BallotRuns
  import opened NftRuns
  import opened TreeRuns
  import opened LeafRuns
  import opened FeeRuns

  /** No rows and empty trees; a root history may or may not hold the empty tree's root. */
  function Empty(roots: set<Hash>, v: Vault, gov: Params): World {
    var t := Tree(Some([]), Some(roots));
    World(Rows({}, map[], map[], map[], map[], {}), [], t, t, t, Some(v), Some(gov))
  }

  lemma {:induction false} EmptyLedgerMeetsAll(roots: set<Hash>, v: Vault, gov: Params, rootOf: seq<Hash> -> Hash)
    requires roots <= {rootOf([])}
    ensures var w := Empty(roots, v, gov);
      && NftInv(w.rows) && AllMintPending(w.rows) && AllAnchored(w, rootOf)
      && Books(w, Ledgers([], [])) && NoOutputs(Ledgers([], []))
      && Audited(w, v, []) && NoStepsYet([])
  {
    forall r | r in roots ensures RootOfPrefix([], r, rootOf) {
      var none: seq<Hash> := [];
      assert none[..0] == none;
      assert r == rootOf(none[..0]);
    }
  }
}
