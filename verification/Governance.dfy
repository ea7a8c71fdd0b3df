/** Ballot counting of pkg/governance/vote.go and the parameters of pkg/governance/params.go that
    a passed vote may change. */
module Governance {
  import opened Hashing

  datatype Ballot = Ballot(voter: Hash, approve: bool)

  datatype Tallied = Tallied(approve: nat, reject: nat, turnout: real, passed: bool)

  const MIN_TURNOUT := 0.2

  /** The voters whose first ballot is the given choice. */
  function FirstChoices(ballots: seq<Ballot>, choice: bool): set<Hash> {
    if ballots == [] then {}
    else
      var front, last := ballots[..|ballots| - 1], ballots[|ballots| - 1];
      FirstChoices(front, choice) + if last.voter !in Voters(front) && last.approve == choice then {last.voter} else {}
  }

  function Voters(ballots: seq<Ballot>): set<Hash> {
    set b | b in ballots :: b.voter
  }

  function Verdict(approve: nat, reject: nat, eligible: int, minTurnout: real): Tallied {
    var turnout := if eligible > 0 then (approve + reject) as real / eligible as real else 0.0;
    Tallied(approve, reject, turnout, approve > reject && !(minTurnout > 0.0 && turnout < minTurnout))
  }

  method Tally(ballots: seq<Ballot>, eligible: int, minTurnout: real) returns (t: Tallied)
    ensures t == Verdict(|FirstChoices(ballots, true)|, |FirstChoices(ballots, false)|, eligible, minTurnout)
  {
    var seen: set<Hash> := {};
    var approve, reject := 0, 0;
    for i := 0 to |ballots|
      invariant seen == Voters(ballots[..i])
      invariant approve == |FirstChoices(ballots[..i], true)| && reject == |FirstChoices(ballots[..i], false)|
      invariant FirstChoices(ballots[..i], true) <= seen && FirstChoices(ballots[..i], false) <= seen
    {
      var b := ballots[i];
      NextBallot(ballots, i);
      if b.voter in seen { continue; }
      seen := seen + {b.voter};
      if b.approve { approve := approve + 1; } else { reject := reject + 1; }
    }
    assert ballots[..|ballots|] == ballots;
    t := Verdict(approve, reject, eligible, minTurnout);
  }

  lemma {:induction false} NextBallot(ballots: seq<Ballot>, i: nat)
    requires i < |ballots|
    ensures var b, before := ballots[i], ballots[..i];
      && Voters(ballots[..i + 1]) == Voters(before) + {b.voter}
      && forall choice :: FirstChoices(ballots[..i + 1], choice)
           == FirstChoices(before, choice) + if b.voter !in Voters(before) && b.approve == choice then {b.voter} else {}
  {
    assert ballots[..i + 1] == ballots[..i] + [ballots[i]];
    assert ballots[..i + 1][..i] == ballots[..i];
  }

  /** ballots lists each revealed choice once, in some order. */
  predicate Lists(ballots: seq<Ballot>, openings: map<Hash, bool>) {
    && (forall i, j :: 0 <= i < j < |ballots| ==> ballots[i].voter != ballots[j].voter)
    && Voters(ballots) == openings.Keys
    && forall i :: 0 <= i < |ballots| ==> ballots[i].voter in openings && openings[ballots[i].voter] == ballots[i].approve
  }

  function Choosing(openings: map<Hash, bool>, choice: bool): set<Hash> {
    set v | v in openings && openings[v] == choice
  }

  function Choosers(ballots: seq<Ballot>, choice: bool): set<Hash> {
    set b | b in ballots && b.approve == choice :: b.voter
  }

  lemma {:induction false} ChoosersGrow(front: seq<Ballot>, last: Ballot, choice: bool)
    ensures Choosers(front + [last], choice) == Choosers(front, choice) + if last.approve == choice then {last.voter} else {}
  {
  }

  lemma {:induction false} FirstChoicesOfDistinct(ballots: seq<Ballot>, choice: bool)
    requires forall i, j :: 0 <= i < j < |ballots| ==> ballots[i].voter != ballots[j].voter
    ensures FirstChoices(ballots, choice) == Choosers(ballots, choice)
    decreases |ballots|
  {
    if ballots != [] {
      var front, last := ballots[..|ballots| - 1], ballots[|ballots| - 1];
      assert ballots == front + [last];
      FirstChoicesOfDistinct(front, choice);
      ChoosersGrow(front, last, choice);
      forall b | b in front ensures b.voter != last.voter {
        var i :| 0 <= i < |front| && front[i] == b;
        assert ballots[i].voter != ballots[|front|].voter;
      }
    }
  }

  /** Whatever order the reveal map is walked in, the counts are the numbers of voters per choice. */
  lemma {:induction false} TallyIgnoresOrder(ballots: seq<Ballot>, openings: map<Hash, bool>, choice: bool)
    requires Lists(ballots, openings)
    ensures FirstChoices(ballots, choice) == Choosing(openings, choice)
  {
    FirstChoicesOfDistinct(ballots, choice);
    forall v | v in Choosing(openings, choice) ensures v in FirstChoices(ballots, choice) {
      assert v in Voters(ballots);
    }
  }

  /** Passing means a majority of at least a fifth of a non-empty electorate. */
  lemma {:induction false} PassingMeans(approve: nat, reject: nat, eligible: int)
    ensures Verdict(approve, reject, eligible, MIN_TURNOUT).passed
       <==> approve > reject && eligible > 0 && 5 * (approve + reject) >= eligible
  {
    if eligible > 0 { QuotientBelowFifth((approve + reject) as real, eligible as real); }
  }

  lemma {:induction false} QuotientBelowFifth(c: real, e: real)
    requires e > 0.0
    ensures c / e < 0.2 <==> 5.0 * c < e
  {
    ScaledComparison(c / e, e);
  }

  lemma {:induction false} ScaledComparison(q: real, e: real)
    requires e > 0.0
    ensures q < 0.2 <==> q * e < 0.2 * e
  {
    if q < 0.2 { assert (0.2 - q) * e > 0.0; } else { assert (q - 0.2) * e >= 0.0; }
  }

  // ---------------------------------------------------------------- parameters

  /** The ratios a vote may change. */
  datatype Ratios = Ratios(depositATR: real, withdrawATR: real, bankFee: real, refundCap: real, cycleSurcharge: real,
                           epochBonusShare: real, burnShare: real, auditShare: real, remainderShare: real, silentSpike: real)

  datatype Params = Params(ratios: Ratios, dualSign: bool)

  predicate IsVaultShareKey(key: string) {
    key == "VaultEpochBonusShare" || key == "VaultBurnShare" || key == "VaultAuditShare" || key == "VaultRemainderShare"
  }

  /** Sets one ratio, or refuses an unknown key or an unreadable value. */
  function ChangeParam(p: Params, key: string, value: Option<real>): Option<Params> {
    if value.None? then None
    else
      var v, r := value.value, p.ratios;
      if key == "DepositATRMultiple" then Some(p.(ratios := r.(depositATR := v)))
      else if key == "WithdrawATRMultiple" then Some(p.(ratios := r.(withdrawATR := v)))
      else if key == "BankFeeRate" then Some(p.(ratios := r.(bankFee := v)))
      else if key == "RefundCap" then Some(p.(ratios := r.(refundCap := v)))
      else if key == "CycleSurchargeRate" then Some(p.(ratios := r.(cycleSurcharge := v)))
      else if key == "VaultEpochBonusShare" then Some(p.(ratios := r.(epochBonusShare := v)))
      else if key == "VaultBurnShare" then Some(p.(ratios := r.(burnShare := v)))
      else if key == "VaultAuditShare" then Some(p.(ratios := r.(auditShare := v)))
      else if key == "VaultRemainderShare" then Some(p.(ratios := r.(remainderShare := v)))
      else if key == "SilentTxSpikePercent" then Some(p.(ratios := r.(silentSpike := v)))
      else None
  }

  // ---------------------------------------------------------------- the fee vault (pkg/vault/vault.go)

  datatype Splits = Splits(epochBonus: real, burn: real, audit: real, remainder: real)

  function SplitsOf(p: Params): Splits {
    Splits(p.ratios.epochBonusShare, p.ratios.burnShare, p.ratios.auditShare, p.ratios.remainderShare)
  }

  datatype Vault = Vault(splits: Splits, epochBonus: real, burned: real, audit: real, remainder: real)

  function CollectFee(v: Vault, amount: real): Vault {
    v.(epochBonus := v.epochBonus + amount * v.splits.epochBonus,
       audit := v.audit + amount * v.splits.audit,
       remainder := v.remainder + amount * v.splits.remainder,
       burned := v.burned + amount * v.splits.burn)
  }
}
