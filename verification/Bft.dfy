/** Vote counting of pkg/consensus/bft.go. */
module Bft {
  import opened Hashing

  datatype Vote = Vote(validator: Hash, stateRoot: Hash, sig: string)

  /** A strict majority of the assigned slots. */
  predicate QuorumMet(slots: int, votes: int) {
    slots > 0 && votes * 2 > slots
  }

  function Members(committee: seq<Hash>): (s: set<Hash>)
    ensures forall m :: m in s <==> m in committee
  {
    set m | m in committee
  }

  /** The distinct committee members with a vote for the candidate. */
  function Endorsers(committee: seq<Hash>, candidate: Hash, votes: seq<Vote>): set<Hash> {
    set v | v in votes && v.stateRoot == candidate && v.validator in committee :: v.validator
  }

  lemma {:induction false} MembersCount(committee: seq<Hash>)
    ensures |Members(committee)| <= |committee|
    decreases |committee|
  {
    if committee == [] {
      assert Members(committee) == {};
    } else {
      var front, last := committee[..|committee| - 1], committee[|committee| - 1];
      assert committee == front + [last];
      MembersCount(front);
      assert Members(committee) == Members(front) + {last};
    }
  }

  method TallyVotes(committee: seq<Hash>, candidate: Hash, votes: seq<Vote>) returns (endorsements: nat, quorum: bool)
    ensures endorsements == |Endorsers(committee, candidate, votes)|
    ensures quorum <==> QuorumMet(|committee|, |Endorsers(committee, candidate, votes)|)
  {
    var inCommittee := Members(committee);
    var counted: set<Hash> := {};
    endorsements := 0;
    for i := 0 to |votes|
      invariant counted == Endorsers(committee, candidate, votes[..i])
      invariant endorsements == |counted|
    {
      var v := votes[i];
      assert votes[..i + 1] == votes[..i] + [v];
      if v.stateRoot != candidate { continue; }
      if v.validator !in inCommittee { continue; }
      if v.validator in counted { continue; }
      counted := counted + {v.validator};
      endorsements := endorsements + 1;
    }
    assert votes[..|votes|] == votes;
    quorum := QuorumMet(|committee|, endorsements);
  }

  lemma {:induction false} DisjointFit(a: set<Hash>, b: set<Hash>, all: set<Hash>)
    requires a <= all && b <= all && a !! b
    ensures |a| + |b| <= |all|
  {
    assert |a + b| == |a| + |b|;
    SubsetSize(a + b, all);
  }

  lemma {:induction false} SubsetSize(a: set<Hash>, b: set<Hash>)
    requires a <= b
    ensures |a| <= |b|
  {
    assert b == a + (b - a);
  }

  /** Two quorums of one committee share a member, whatever the candidates and even if the
      committee list repeats an id. */
  lemma {:induction false} QuorumsIntersect(committee: seq<Hash>, c: Hash, vs: seq<Vote>, d: Hash, ws: seq<Vote>) returns (m: Hash)
    requires QuorumMet(|committee|, |Endorsers(committee, c, vs)|)
    requires QuorumMet(|committee|, |Endorsers(committee, d, ws)|)
    ensures m in Endorsers(committee, c, vs) && m in Endorsers(committee, d, ws) && m in committee
  {
    var a, b := Endorsers(committee, c, vs), Endorsers(committee, d, ws);
    MembersCount(committee);
    if a !! b { DisjointFit(a, b, Members(committee)); }
    m :| m in a && m in b;
  }
}
