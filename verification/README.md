# ShadowForge L1: verified models

These Dafny modules model the state machines and the exact arithmetic of the ShadowForge layer-1 node and
prove what they keep over every run. Mutable objects of the source (stores, pipeline, chain, tree, mempool,
revolver, rate limiter, interpreter, emitter scope) are classes whose methods are proved equal to a
specification function; whole-run theorems are lemmas about those functions.

- **Transactions and governance.** `Ledger` holds the rows and trees, `Stages` the five stages and the tally as
  functions, `Pipeline` the objects that carry them out. `Runs` lets transactions and tallies follow each other
  in any order, each under its own configuration. `Acceptance` tells the same pipeline flatly: which
  transactions of each kind are accepted, if and only if what, and what each leaves; `TallyEffects` does so for the
  effects of a tally. On top stand `Atomicity`, `TallyRuns`, `BallotRuns`,
  `NftRuns`, `TreeRuns`, `LeafRuns` and `FeeRuns`, and `EmptyLedger` shows that a new node meets their
  hypotheses; `Interleaving` runs many transactions at once, one critical
  section at a time. `Governance` counts ballots, changes parameters and splits fees.
- **Chain.** `Bft` counts votes, `Agreement` compares chains grown by accepted appends, `ChainStore` crashes a
  node between any two store writes, `ChainNode` is the chain object, `Committee` the rotation.
- **ShadowRust.** `Ast`, `Interp` (reference semantics), `Codegen` (emitter and a small Go-like target with its
  compile rules) and `CompilerProof`.
- **Trees, time, money.** `Merkle`, `Epoch`, `Staking`.
- **Queues.** `Mempool` and `Outage` over the shared `Filtering`, `RateLimiter`, `Revolver`.

Hashes are terms of a free datatype, so two hashes are equal only when everything hashed is. Signatures, proof
verifiers, the oracle, the parsers of decimal texts and of governance values, the clock and the monitor's verdict
are parameters of the step that uses them, and the theorems hold for every choice of them.

## Where the code differs from its description

- `ElapsedMillis` is described as clamped at the largest int64. The count of capped epochs is converted to a
  signed integer first, so some spans of 2^63 epochs or more come out wrong, even negative.
  `Epoch.ElapsedIsClampedSumIff` says exactly which; `Epoch.ElapsedCanBeNegative` is an input.
- A rejected transaction is described as leaving no trace. In the ledger two kinds leave one, and only those two
  (`Atomicity.RejectedLeavesNoTraceIff`): a transfer that lists one nullifier twice, whose outputs are in the
  trees before stage 5 refuses it, and an NFT mint when the eligibility tree is full. Outside the ledger, stage 2
  also records transactions with the silent-transaction monitor before later stages may refuse them.
- The nullifier reservation set is described as the guard within a batch. Under concurrent calls it is not
  exclusive, because the check and the write are separate critical sections: some schedule lets two calls hold one
  nullifier exactly when two calls list it whose nullifiers are otherwise free (`Interleaving.ExclusivityFailsIff`).
  The store's test-and-set is what keeps spends disjoint.
- A mint checks that the wallet has no NFT but not that the derived id is unused. The owner index stays exact over
  a run if and only if no mint that reaches the store reuses an id (`NftRuns.IndexExactIff`). One way there is to
  transfer an NFT away and mint again with the same nonce (`NftRuns.RemintAfterTransferBreaksIndex`).
- A transfer's fee goes to the vault as a signed 64-bit integer. A fee of 2^63 or more is taken out of the pools
  instead of added (`FeeRuns.HugeFeeDrainsThePools`); the pools gain exactly the fees if and only if every fee is
  smaller (`FeeRuns.VaultGainsTheFeesIff`).
- A voter who revealed "reject" may reveal again; the choice cannot change (`BallotRuns.RevealedChoiceIsFinal`).
- The emitter drops the address of a fee route nested in a larger expression or in the amount
  (`CompilerProof.NestedRouteDropped`); `CompilerProof.FeesDeliveredIff` says when all fees survive.
- The mempool is described as refusing a transaction that is still pending. It refuses exactly the ids admitted, or
  put back, within the duplicate window, pending or not (`Mempool.DuplicateIff`); so a transaction that has waited
  longer can be pending twice (`Mempool.StalePendingReadmitted`). The outage backlog behaves alike, except that
  putting an entry back does not renew its window (`Outage.BacklogDuplicateIff`).
- A drained batch is described as one entry when the first alone is over the byte limit. That is so exactly when no
  entry without a serialised size comes right behind it (`Mempool.OversizedFirstAloneIff`); the source holds such
  entries to be impossible for well-formed transactions, and still handles them.
- A fresh joiner is described as unable to monopolise the next five stages. It holds exactly one of them from
  eight queued entries on; with two or fewer it holds four or all five (`Revolver.JoinerShare`).
- After a crash inside an append the transaction index may miss ids of the last block, because the head moves
  first (`ChainStore.IndexAfterInterruptedAppend`).

## Model

| member | source | states |
|---|---|---|
| Pipeline.Pipeline.ReserveNullifiers | pkg/tx/pipeline.go:368-388 | succeeds exactly when no listed nullifier is reserved or spent |
| Pipeline.Pipeline.Stage1SenderLeave | pkg/tx/pipeline.go:250-361 | accepts exactly the stage-1 conditions; reserves the transaction's nullifiers only then |
| Pipeline.Pipeline.Stage4SendExec | pkg/tx/pipeline.go:621-1069 | performs the stage-4 effect of each transaction kind, reservations untouched |
| Pipeline.Pipeline.Stage5PlaceFinal | pkg/tx/pipeline.go:1190-1217 | marks nullifiers by test-and-set, then collects the fee |
| Pipeline.Pipeline.ProcessOneTx | pkg/tx/pipeline.go:219-243 | the whole state, reservations and outcome after one transaction are those of the staged function |
| Pipeline.Pipeline.ProcessBatch | pkg/tx/pipeline.go:209-217 | a batch is its transactions one after another, each outcome that of the state it met |
| Pipeline.Pipeline.TallyDueProposals | pkg/tx/pipeline.go:1269-1445 | settles the due records of some listing of the store, in that order |
| Pipeline.Store.MarkNullifierSpent | pkg/state/store.go:216-224 | test-and-set: succeeds exactly on an unspent nullifier, and changes nothing otherwise |
| Pipeline.Store.MoveNFT | pkg/state/store.go:303-308 | drops the old owner's index entry and stores record and new entry |
| Acceptance.TransferAcceptedIff | pkg/tx/pipeline.go:262-303 | a transfer is accepted if and only if it is presentable, its nullifiers are fresh and distinct, its root is known, its proof verifies, it has outputs, and the tree has room |
| Acceptance.TransferLeaves | pkg/tx/pipeline.go:623-654 | an accepted transfer spends its nullifiers, appends its outputs, shares its fee over the pools, and changes nothing else |
| Acceptance.UnstakeAcceptedIff | pkg/tx/pipeline.go:310-361 | an unstake is accepted if and only if it is presentable, its nullifier is fresh, its stake root is recorded, its proof verifies, the tree has room, and it claims exactly the redemption of its position |
| Acceptance.AcceptedUnstakeIsExact | pkg/tx/pipeline.go:310-361 | where the clock is exact and the sum fits, an accepted unstake pays the principal and the floor of its accrual |
| Acceptance.UnstakeLeaves | pkg/tx/pipeline.go:1007-1031 | an accepted unstake spends its nullifier, appends its one note, and changes nothing else |
| Acceptance.VoteAcceptedIff | pkg/tx/pipeline.go:737-883 | a vote is accepted if and only if it is presentable, its voter is proven eligible, its mint claim is complete, and it is a first ballot on an open proposal or may bind the effects of a new one |
| Acceptance.VoteLeaves | pkg/tx/pipeline.go:737-883 | an accepted vote stores its sealed ballot, in the proposal or in a new one with its effects, and changes nothing else |
| Acceptance.RevealAcceptedIff | pkg/tx/pipeline.go:884-921 | a reveal is accepted if and only if it is presentable, its voter is eligible and committed, it opens the commitment, the proposal is open, and no approval was revealed before |
| Acceptance.RevealLeaves | pkg/tx/pipeline.go:884-921 | an accepted reveal records its choice and changes nothing else |
| Acceptance.NFTMintAcceptedIff | pkg/tx/pipeline.go:960-1005 | an NFT mint is accepted if and only if it is presentable, the wallet has none, a known attestor signed it within a quarter of an hour, and the eligibility tree has room |
| Acceptance.NFTMintLeaves | pkg/tx/pipeline.go:960-1005 | an accepted mint stores a fresh record, its index entry and one eligibility leaf |
| Acceptance.NFTTransferAcceptedIff | pkg/tx/pipeline.go:1032-1064 | an NFT transfer is accepted if and only if it is presentable and its owner signs, on an existing, unslashed, unlocked record, to a wallet without another NFT |
| Acceptance.NFTTransferLeaves | pkg/tx/pipeline.go:1032-1064 | an accepted NFT transfer changes the owner and the two index entries, and nothing else |
| Acceptance.TraitAcceptedIff | pkg/tx/pipeline.go:710-735 | a trait transaction is accepted if and only if it is presentable and names an existing NFT |
| Acceptance.TraitLeaves | pkg/tx/pipeline.go:710-735 | an accepted trait transaction writes one suffixed trait of that NFT |
| Acceptance.BankAcceptedIff | pkg/tx/pipeline.go:655-708 | a bank transaction is accepted if and only if it is presentable, its asset is known, its buffer is the governed multiple, and its prices are within tolerance of the oracle's |
| Acceptance.ContainerAcceptedIff | pkg/tx/pipeline.go:929-958 | a container sync is accepted if and only if it is presentable and complete and, from the second on, its memo repeats the root; it stores the root |
| Acceptance.MintAndUnknownAcceptedIff | pkg/tx/pipeline.go:923-928 | a direct mint only has to be presentable and changes nothing; an unknown kind is never accepted |
| Acceptance.PresentableIff | pkg/tx/pipeline.go:445-614 | stages 2 and 3 together are the size, age, id, signature, hold and container checks and the kind's own |
| Atomicity.MarkSpentMeaning | pkg/tx/pipeline.go:1190-1200 | stage 5's marking succeeds exactly on duplicate-free lists of unspent nullifiers, and then marks all of them |
| Atomicity.RejectedLeavesNoTraceIff | pkg/tx/pipeline.go:219-243 | a rejected transaction leaves the whole ledger unchanged if and only if it is neither a repeated-nullifier transfer nor a mint without room |
| Atomicity.Stage5RejectionIff | pkg/tx/pipeline.go:1190-1217 | stage 5 is the rejecting stage exactly for an otherwise valid transfer with a repeated nullifier |
| Atomicity.AcceptedSpends | pkg/tx/pipeline.go:368-439 | an accepted transaction's nullifiers were neither spent nor reserved, do not repeat, and are exactly what is newly spent |
| Runs.NoDoubleSpend | pkg/tx/pipeline.go:209-243 | over any run two accepted transactions share no nullifier, none was spent before, all stay spent, and no reservation is left behind |
| Runs.BatchIsRun | pkg/tx/pipeline.go:209-217 | processing a batch reaches the state, and accepts the entries, of the run of its transactions |
| Interleaving.NoDoubleSpendInterleaved | pkg/tx/pipeline.go:368-396 | under every schedule of critical sections, accepted transactions have duplicate-free, pairwise disjoint, previously unspent nullifiers |
| Interleaving.BothHoldIff | pkg/tx/pipeline.go:368-396 | from any start two calls hold reservations at once under some schedule if and only if neither lists a nullifier reserved or spent at the start |
| Interleaving.ExclusivityFailsIff | pkg/tx/pipeline.go:368-396 | some schedule makes two calls hold one nullifier if and only if two calls with otherwise free lists share it |
| Interleaving.ReservationsAreNotExclusive | pkg/tx/pipeline.go:368-396 | its smallest instance: two calls with one nullifier |
| TallyRuns.TallySettlesExactlyTheDue | pkg/tx/pipeline.go:1269-1300 | after a tally at an epoch exactly the untallied records of earlier epochs changed, each counted and tallied |
| TallyRuns.TallyAgainDoesNothing | pkg/tx/pipeline.go:1269-1300 | tallying again, in any order and at the same or an earlier epoch, changes nothing |
| TallyRuns.PassedMeans | pkg/governance/vote.go:86-110 | the counts are the voters per choice; passing is a majority with five times the votes at least the non-zero electorate |
| TallyEffects.TallyNft | pkg/tx/pipeline.go:1360-1405 | after a tally an NFT is gone if and only if a due, passed burn named it; one still there is slashed, or transferable, if and only if it was or a due, passed proposal made it so, and is otherwise unchanged |
| TallyEffects.TallyAsset | pkg/tx/pipeline.go:1407-1424 | an asset is authorised if and only if it was or a due, passed proposal names it |
| TallyEffects.TallyDualSign | pkg/tx/pipeline.go:1426-1439 | dual signing is in force if and only if it was and no due, passed proposal retires it |
| TallyEffects.TallySetting | pkg/tx/pipeline.go:1294-1306 | each setting has the value of the last due, passed proposal that gives it a readable one, else its old value |
| TallyEffects.TallyShares | pkg/tx/pipeline.go:1294-1306 | the vault divides by the governed shares after any tally that changes one, and keeps its shares otherwise |
| TallyEffects.SettledMarks | pkg/tx/pipeline.go:1284-1440 | a settled record is marked with exactly the effects its verdict, its contents and the ledger allow, its mint included |
| Governance.Tally | pkg/governance/vote.go:86-110 | counts the first choice of each distinct voter and gives the verdict with its turnout floor |
| Governance.TallyIgnoresOrder | pkg/tx/pipeline.go:1276-1284 | whatever order the reveal map is walked in, the counted voters per choice are the same |
| Governance.PassingMeans | pkg/governance/vote.go:98-110 | under the fifth-of-the-electorate floor, passing is approve > reject and 5 * cast >= eligible > 0 |
| BallotRuns.SealedBallots | pkg/tx/pipeline.go:737-921 | between any two moments of any run ballots and openings only accumulate, bound effects stay, tallied records are frozen, and every opening opens a committed ballot |
| BallotRuns.RevealedChoiceIsFinal | pkg/tx/pipeline.go:884-921 | a revealed choice never changes and is the only one that opens the stored commitment |
| BallotRuns.ProposalsBornByVotes | pkg/tx/pipeline.go:737-883 | a proposal appears only by an accepted vote, with that vote's effects, after their checks |
| BallotRuns.TxProposals | pkg/tx/pipeline.go:621-921 | a transaction does to the proposals nothing, one vote or one reveal |
| NftRuns.OnePerWallet | pkg/state/store.go:263-284 | under the index invariant two records of one owner are the same and the index finds it |
| NftRuns.StepKeepsIndexIff | pkg/tx/pipeline.go:960-1005 | from an exact index with voted transfer rights a step keeps both if and only if it is not a mint that stores a used id; refused mints are harmless |
| NftRuns.IndexExactOverRuns | pkg/state/store.go:257-308 | records and owner index stay exact inverses under mint, trait, transfer, freeze, burn and unlock in any order, as long as no mint stores a used id |
| NftRuns.IndexExactIff | pkg/state/store.go:257-308 | over a whole run the index is exact at every moment if and only if no mint of it stores a used id |
| NftRuns.AcceptedMintKeepsIndexIff | pkg/tx/pipeline.go:960-1005 | an accepted mint keeps the index exact if and only if its derived id was free |
| NftRuns.ReusedMintIdBreaksIndex | pkg/tx/pipeline.go:960-1005 | a ledger meeting every invariant and a mint that is accepted and breaks its index |
| NftRuns.RemintAfterTransferBreaksIndex | pkg/tx/pipeline.go:960-1064 | after any committed transfer of an NFT away from the wallet it was minted for, an attested mint for that wallet with the same nonce breaks the index |
| NftRuns.OwnershipHistory | pkg/tx/pipeline.go:1032-1064 | up to the first reused mint id an NFT changes owner only by an accepted transfer signed by its owner, unslashed, unlocked by a tallied and passed proposal; that first mint overwrites only the record it reuses |
| NftRuns.TraitKeyNeverTransferable | pkg/tx/pipeline.go:710-735 | no trait transaction can write the key that makes an NFT transferable |
| TreeRuns.RootsAnchoredOverRuns | pkg/tx/pipeline.go:640-654 | every recorded root is the root the tree had at some length, over any run |
| TreeRuns.AcceptedSpendIsAnchored | pkg/tx/pipeline.go:262-361 | an accepted transfer or unstake anchors to a root its canonical tree really had |
| LeafRuns.LeavesExactlyOnce | pkg/tx/pipeline.go:1300-1357 | over any run each gained leaf is one settled proposal's mint or one given output of one transaction; none twice, none missing |
| FeeRuns.FeesExactlyOnce | pkg/tx/pipeline.go:1190-1217 | over any run the vault's gain is exactly one credit per accepted transfer and one per executed note mint, each divided by the shares of its time |
| FeeRuns.PoolsGainTheFees | pkg/vault/vault.go:66-71 | while the shares add up to one, the pools together gain exactly the fees if and only if every fee is below 2^63 |
| FeeRuns.VaultGainsTheFeesIff | pkg/tx/pipeline.go:1190-1217 | the same of the vault any run leaves; only transfers can owe more |
| FeeRuns.TransferFeeIff | pkg/tx/pipeline.go:1202-1204 | one accepted transfer adds its fee to the pools if and only if it is below 2^63, and lowers them otherwise |
| FeeRuns.HugeFeeDrainsThePools | pkg/tx/pipeline.go:1202-1204 | a fee of 2^63 takes 2^63 out of the pools |
| EmptyLedger.EmptyLedgerMeetsAll | pkg/tx/pipeline.go:195-197 | the ledger of a new node meets the starting hypotheses of every whole-run theorem |
| Agreement.AccountableAgreement | pkg/chain/chain.go:118-169 | two nodes with one genesis and the same committees agree on every common header, or a committee member signed both headers at the first fork |
| Agreement.NoEquivocationNoFork | pkg/chain/chain.go:118-169 | without equivocating members there is no fork |
| Agreement.EqualHeadersBelow | pkg/chain/chain.go:118-130 | equal headers at a height force equal headers at every height below |
| Bft.QuorumsIntersect | pkg/consensus/bft.go:11-16 | two quorums for different candidates share a voter in the committee |
| Bft.TallyVotes | pkg/consensus/bft.go:36-56 | counts the distinct committee members endorsing the candidate and decides the quorum by them |
| ChainNode.Chain.Append | pkg/chain/chain.go:118-169 | accepts exactly the blocks that extend the head and carry, for more than half of the committee, a vote for this header whose signature verifies under the member's registered key; writes block, head and index; changes nothing otherwise |
| Agreement.AppendOkIff | pkg/chain/chain.go:118-146 | the gate of the crash model and of the agreement theorems is that same condition |
| ChainNode.Chain.NextBlock | pkg/chain/chain.go:92-108 | the proposed block passes the gate once it carries a quorum |
| ChainNode.OpenChain | pkg/chain/chain.go:41-71 | loads the stored head, or writes genesis first |
| ChainStore.RecoveryAfterAnyHistory | pkg/chain/chain.go:41-71 | after any history of opens, appends, crashes and store errors the committed blocks are a contiguous, linked, quorate chain that only grew, and opening finds its tip |
| ChainStore.IndexOfIsGreatestHeight | pkg/state/store.go:664-699 | the index maps an id to the greatest height whose batch contains it |
| ChainStore.IndexExactWithoutFaults | pkg/chain/chain.go:150-169 | without faults the stored index is exact after any run |
| ChainStore.IndexAfterInterruptedAppend | pkg/chain/chain.go:150-169 | an append stopped after k writes leaves the index exact if and only if the head had not moved or the written ids cover the batch |
| Committee.AssignCommittee | pkg/consensus/assignment.go:53-70 | returns the window of the ring at the height, empty below two ids or without a count |
| Committee.CommitteeDistinct | pkg/consensus/assignment.go:53-70 | members of a committee are distinct |
| Committee.EachProposesOnce | pkg/consensus/assignment.go:53-70 | over n consecutive heights every id proposes at exactly one, and which one |
| Committee.EachServesCountTimes | pkg/consensus/assignment.go:53-70 | over n consecutive heights every id serves in exactly count committees |
| Committee.LessThan | pkg/consensus/assignment.go:76-88 | the byte-wise comparator decides the lexicographic order |
| Committee.LessIsStrictTotal | pkg/consensus/assignment.go:76-88 | the id order is irreflexive, total and transitive |
| Committee.CommitteeDependsOnlyOnTheSet | pkg/consensus/assignment.go:76-88 | nodes that saw the same online set in any order assign the same committee |
| Interp.Interpreter.Eval | interp/interp.go:235-296 | the value and fee events of an expression, or its fault, with earlier events kept |
| Interp.BinaryValue | interp/interp.go:277-322 | what each operator computes from its two values, division by zero and unknown operators included |
| Interp.LeafValues | interp/interp.go:235-275 | literals parse, names are looked up in the environment before the oracle, and the first fault stops an evaluation |
| Interp.EventOrder | interp/interp.go:256-274 | fees are recorded inside out and left to right, each with its route's value |
| Interp.Interpreter.RunStatement | interp/interp.go:117-233 | a statement's effect on variables and events, faults included |
| Interp.ConditionalRuns | interp/interp.go:127-135 | a conditional's body runs exactly when its condition is not zero, a validate block's always |
| Interp.QueueInsertRecorded | interp/interp.go:161-171 | a queue insert leaves one event with its positions' values in order, or faults and leaves none |
| Interp.BankDepositRecorded | interp/interp.go:173-179 | a bank deposit leaves one event with its value, unless that faults |
| Interp.MintAndShardOnlyEvaluate | interp/interp.go:147-156 | mints and shards only evaluate |
| Interp.TraitUpdate | interp/interp.go:197-219 | an update adds to, takes from or replaces one trait, absent ones counting as zero |
| Codegen.ExprGo | codegen/codegen.go:251-286 | the emitted expression, and exactly its unbound names added to the free set |
| Codegen.GenTx | codegen/codegen.go:122-158 | accepts exactly the emittable transaction statements and emits their function: lines, free names, last whole-line fee route |
| Codegen.AcceptsIffKnown | codegen/codegen.go:122-149 | a statement is accepted if and only if its body only assigns and every operator in it is known |
| CompilerProof.EmitKeepsValue | codegen/codegen.go:251-286 | an emitted expression has the interpreter's value or its fault |
| CompilerProof.RuntimeAgrees | codegen/runtime/runtime.go:51-88 | the runtime helpers compute what the interpreter's operators do |
| CompilerProof.CompilesIffSourceOk | codegen/codegen.go:122-158 | for sources that name neither `runtime` nor `nil`, the emitted function compiles if and only if assigned names are legal and fresh, reads follow assignments, and every assignment is used |
| CompilerProof.MeaningPreserved | codegen/codegen.go:122-158 | called with the interpreter's values for its free names, the function fails with the interpreter's fault or makes the interpreter's transfer with the last whole-line route's fee |
| CompilerProof.FeesDeliveredIff | codegen/codegen.go:281-282 | the fee delivered is among those recorded, and is all of them exactly when no route is nested and at most one assignment routes |
| CompilerProof.NestedRouteDropped | codegen/codegen.go:281-282 | an accepted, compiling statement that pays two fees interpreted and one compiled |
| Merkle.MerkleTree.Append | pkg/state/merkle.go:34-37 | adds one leaf at the end |
| Merkle.MerkleTree.TruncateTo | pkg/state/merkle.go:45-53 | keeps the first n leaves, and nothing changes when n is out of range |
| Merkle.MerkleTree.CurrentRoot | pkg/state/merkle.go:59-80 | the level-by-level loop computes the recursive root |
| Merkle.RootOfHalves | pkg/state/merkle.go:63-80 | the root over two equal halves of a power of two is the ordered pair of their roots |
| Merkle.MerkleTree.MakeProof | pkg/state/merkle.go:93-125 | siblings and directions of an in-range index, none otherwise |
| Merkle.VerifyMerkleProof | pkg/state/merkle.go:129-139 | accepts exactly the proofs whose path climbs from the leaf to the root, surplus directions ignored |
| Merkle.ProofsVerify | pkg/state/merkle.go:93-125 | every proof of an in-range index verifies, for any leaf count |
| Merkle.VerifiedPathForcesLeaf | pkg/state/merkle.go:127-139 | a verifying path of the tree's depth authenticates exactly the leaf its directions reach |
| Merkle.VerifiedPathForcesSiblings | pkg/state/merkle.go:127-139 | with the directions of an index, leaf and siblings are both forced |
| Merkle.RootInjectiveAtLength | pkg/state/merkle.go:63-80 | at one length equal roots and equal leaf lists are the same thing |
| Merkle.RootsAgreeIffSlotsAgree | pkg/state/merkle.go:63-80 | exactly which leaf lists of one depth share a root |
| Merkle.DuplicateLastCollides | pkg/state/merkle.go:69-72 | an odd list and the same list with its last leaf repeated share a root |
| Merkle.RollBack | pkg/state/merkle.go:39-53 | truncating after any appends restores leaves and root |
| Epoch.RoundingIgnoresReduction | pkg/consensus/epoch.go:37-53 | rounding to nearest gives the same after reducing the fraction |
| Epoch.RoundedIsNearest | pkg/consensus/epoch.go:37-53 | the rounded quotient is the nearest integer, ties up |
| Epoch.DurationIsNearest | pkg/consensus/epoch.go:37-64 | below the one-year cap a duration is the millisecond nearest to an hour times 1.1 to the n |
| Epoch.CappedExactlyFrom96 | pkg/consensus/epoch.go:37-64 | a duration is the one-year cap exactly from epoch 96 on |
| Epoch.DurationMonotone | pkg/consensus/epoch.go:37-64 | durations never decrease |
| Epoch.ElapsedMillis | pkg/consensus/epoch.go:83-109 | the loop with its capped tail returns the specified total |
| Epoch.ElapsedIsClampedSumIff | pkg/consensus/epoch.go:83-109 | that total is the plain sum clamped at the largest int64 if and only if the capped count does not wrap harmfully |
| Epoch.ElapsedCanBeNegative | pkg/consensus/epoch.go:83-109 | a span whose elapsed time comes out negative |
| Epoch.ElapsedAdditive | pkg/consensus/epoch.go:83-109 | elapsed time adds up over adjacent spans when nothing clamps |
| Epoch.CurrentEpoch | pkg/consensus/epoch.go:121-142 | terminates with the epoch that contains the instant, or 0 before genesis |
| Epoch.EpochUnique | pkg/consensus/epoch.go:111-142 | at most one epoch contains an instant |
| Epoch.ContainsIsLargest | pkg/consensus/epoch.go:115-117 | the epoch containing an instant is the largest whose preceding epochs all fit |
| Staking.YieldIsAccrued | pkg/staking/yield.go:80-105 | the yield is the floor of the exact accrual over the clamped plain sum, clamped once at 64 bits |
| Staking.YieldMonotone | pkg/staking/yield.go:80-105 | more principal or a later end never earns less, saturated or not |
| Staking.SplittingPrincipalNeverPays | pkg/staking/yield.go:80-105 | any split of a position earns no more, and loses less than one unit per extra part |
| Staking.SplittingSpanNeverPays | pkg/staking/yield.go:80-105 | splitting the span earns no more and loses at most one unit |
| Staking.CappedYearsEarnTwoPercent | pkg/staking/yield.go:80-105 | k full capped epochs earn exactly floor(2k percent) |
| Staking.RedemptionCoversPrincipalIff | pkg/staking/yield.go:110-112 | a redemption is at least the principal exactly when the sum fits 64 bits |
| Staking.FinalAmountIsRedemption | pkg/staking/yield.go:80-112 | on every span a redemption is the principal and two percent a year of it, rounded down, saturating and wrapping as 64 bits do |
| Staking.FinalAmountIsExact | pkg/staking/yield.go:80-112 | where the clock is exact that is the principal and the floor of its accrual, and the exact wrapped value where the sum does not fit |
| Staking.CappedYearsRedeem | pkg/staking/yield.go:80-112 | after k full capped epochs a redemption pays the principal and floor(2k percent) of it |
| Mempool.Queue.Submit | pkg/tx/mempool.go:85-97 | which refusal applies, in order, and the queue and duplicate record after an admission |
| Mempool.Queue.DrainBatchBytes | pkg/tx/mempool.go:135-169 | removes the longest front of the queue within both limits, the one the runs use, and forgets exactly the expired ids |
| Mempool.Queue.Remove | pkg/tx/mempool.go:246-263 | keeps exactly the entries not named, in order |
| Mempool.DrainIsMaximal | pkg/tx/mempool.go:118-159 | with sizes everywhere the batch is within both limits and one more would break one, or it is the one oversized first entry |
| Mempool.BytesAdd | pkg/tx/mempool.go:145-160 | the running size of a batch is the sum of its entries' sizes |
| Mempool.OversizedFirstAloneIff | pkg/tx/mempool.go:129-159 | an oversized first entry is drained alone if and only if no entry without a size comes right behind it within the count limit |
| Mempool.EveryEntryAccounted | pkg/tx/mempool.go:85-263 | over any run each admitted entry is pending, drained or removed exactly once, and the cap holds |
| Mempool.SubmitsAreSpaced | pkg/tx/mempool.go:80-97 | two admissions of one id by Submit are at least the duplicate window apart |
| Mempool.DuplicateIff | pkg/tx/mempool.go:80-97 | after any run a submission is refused as a duplicate if and only if its id was admitted or put back within the window |
| Mempool.SubmitAdmittedIff | pkg/tx/mempool.go:80-97 | after any run a submission is admitted if and only if it is no duplicate and what was admitted and has not left is below the cap |
| Mempool.PendingDuplicateRefused | pkg/tx/mempool.go:80-97 | so an id pending for less than the window is refused |
| Mempool.StalePendingReadmitted | pkg/tx/mempool.go:80-97 | and one pending for longer, with room in the queue and no younger admission, becomes pending twice |
| Mempool.StalePendingIsReadmitted | pkg/tx/mempool.go:80-97 | the smallest run in which an id is pending twice |
| Outage.Controller.Enqueue | pkg/consensus/outage.go:98-113 | forgets expired ids, then takes the transaction in unless its id is remembered |
| Outage.Controller.BuildMegabatch | pkg/consensus/outage.go:172-190 | removes the front of the backlog, up to ten normal batches |
| Outage.Controller.MaybeClear | pkg/consensus/outage.go:202-219 | lowers the flag exactly when it may be lowered, and says so |
| Outage.BacklogAccounted | pkg/consensus/outage.go:98-190 | over any run each transaction taken in is backlogged, drained or removed, exactly once |
| Outage.FlagIffOpen | pkg/consensus/outage.go:82-96 | the flag is up exactly while a declared outage has not been cleared |
| Outage.ClearsIff | pkg/consensus/outage.go:199-219 | a request to clear succeeds if and only if an outage is open, the backlog is within the threshold, and a clean cycle has committed since the last declaration |
| Outage.BacklogDuplicateIff | pkg/consensus/outage.go:98-113 | an id is refused if and only if it was enqueued within the window, whatever was put back, drained or removed since |
| RateLimiter.Bucket.Take | pkg/net/ratelimit.go:23-37 | refills, then takes one token if there is one |
| RateLimiter.Limiter.Allow | pkg/net/ratelimit.go:75-105 | the answer, every bucket and every cooldown after one message |
| RateLimiter.TokensStayInRange | pkg/net/ratelimit.go:23-37 | tokens stay within [0, capacity] over any run |
| RateLimiter.RateBound | pkg/net/ratelimit.go:71-105 | in any interval one peer gets at most capacity + rate * length messages of one kind through |
| RateLimiter.NothingDuringCooldown | pkg/net/ratelimit.go:83-105 | after a bucket's refusal nothing limited from that peer passes before the cooldown ends |
| RateLimiter.CooldownEnds | pkg/net/ratelimit.go:83-105 | a peer that stays silent is let through exactly from the end of the cooldown on, when a cooldown refills a token |
| RateLimiter.DroppedIff | pkg/net/ratelimit.go:83-113 | a peer is dropped exactly while a cooldown after one of its overdrafts lasts |
| RateLimiter.AllowedIff | pkg/net/ratelimit.go:71-105 | a message gets through if and only if its kind is not limited, or its peer is not cooling down and no interval ending now would exceed capacity + rate * length |
| Revolver.Queue.InsertValidator | pkg/consensus/revolver.go:99-126 | five insertions at the computed indices, or nothing for an id already queued |
| Revolver.JoinThenRemoveRestores | pkg/consensus/revolver.go:105-126 | a join adds exactly five copies and keeps everybody else in order; removal restores the queue |
| Revolver.JoinerPositions | pkg/consensus/revolver.go:74-113 | in a queue of nine or more the copies end at 2, 5, 7, 12 and n + 4, and nowhere else |
| Revolver.JoinerShare | pkg/consensus/revolver.go:78-103 | how many of the next five places the joiner holds, for every queue length |

## Left out

- Store errors outside the chain: a failing key-value read or write inside the pipeline is not modelled; the chain model has them at every write.
- Ledger: the note, eligibility and stake trees, the vault and the governance parameters are values of the pipeline's state, so sharing one tree object between components is not captured; 32-byte values are not reduced to field elements.
- Stages: the stage hint bits, the error texts and the internals of the silent-transaction monitor, the oracle quorum and every zero-knowledge circuit are not modelled; their verdicts are parameters.
- Pipeline.Store.ListProposals: gives some listing rather than key order; the theorems hold for every order.
- LeafRuns.LeavesExactlyOnce: stated for a node with a note tree attached; without one there are no leaves to account for.
- FeeRuns.FeesExactlyOnce: stated for a node with a vault attached; without one no fee is collected.
- Interleaving.NoDoubleSpendInterleaved: models the nullifier sets only; whatever else a stage checks is an arbitrary outcome.
- Agreement: the batch is bound to a header only through the transaction root, so two nodes that agree on headers agree on batches as far as that root commits to them; heights are unbounded naturals.
- Committee: the library sort is any sorted permutation, shown unique; its algorithm is not modelled.
- Codegen: the other statement generators, identifier sanitising, text rendering and positional parameter order are not modelled; a call passes its arguments by name.
- CompilerProof.CompilesIffSourceOk: names `runtime` and `nil` are treated as reserved, although Go compiles a few sources that shadow them, such as `runtime` in the last assignment; for sources that name neither the condition is exact.
- Interp.ApplyOp: numbers are exact reals in place of big rationals.
- RateLimiter: tokens and seconds are exact reals in place of 64-bit floats, so rounding is not captured.
- Mempool: the serialised size of a transaction is a field, absent where marshalling would fail; the maximum size is fixed per mempool.
- Revolver: the low-trust waiting list, heartbeats and cooldown clocks are single-branch rules and would add only easy members.
- Outage: the detection ratio, a single comparison of floats, and the overflow of the batch size times ten are not modelled.
- Network hosts, query server, clients, key stores, sentinels, bank formulas, containers and wallets are outside the model.
