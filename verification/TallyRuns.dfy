/** The epoch-boundary tally: which records it settles, and that it settles each exactly once. */
module TallyRuns {
  import opened Hashing
  import opened Epoch
  import opened Governance
  import opened Ledger
  import opened Stages

  /** order holds stored proposals, each at most once. */
  predicate Unrepeated(order: seq<Proposal>, proposals: map<string, Proposal>) {
    && (forall i, j :: 0 <= i < j < |order| ==> order[i].id != order[j].id)
    && (forall i :: 0 <= i < |order| ==> order[i].id in proposals && proposals[order[i].id] == order[i])
  }

  lemma {:induction false} FrontUnrepeated(order: seq<Proposal>, proposals: map<string, Proposal>)
    requires order != [] && Unrepeated(order, proposals)
    ensures Unrepeated(order[..|order| - 1], proposals)
  {
  }

  predicate KeyedById(proposals: map<string, Proposal>) {
    forall id :: id in proposals ==> proposals[id].id == id
  }

  predicate InOrder(order: seq<Proposal>, p: Proposal) {
    exists i :: 0 <= i < |order| && order[i] == p
  }

  /** What became of p: settled with its counts, or left alone. */
  predicate Settled(p: Proposal, q: Proposal, eligible: nat) {
    q == Counted(p, eligible).(applied := q.applied)
  }

  /** Walking any part of a listing settles exactly its due records and touches no other. */
  lemma {:induction false} WalkSettlesDue(w: World, order: seq<Proposal>, epoch: nat, eligible: nat, env: Env)
    requires Unrepeated(order, w.rows.proposals) && KeyedById(w.rows.proposals)
    ensures var after := TallyEach(w, order, epoch, eligible, env).rows.proposals;
      && after.Keys == w.rows.proposals.Keys
      && forall id :: id in w.rows.proposals ==>
           var p := w.rows.proposals[id];
           if InOrder(order, p) && Due(p, epoch) then Settled(p, after[id], eligible) else after[id] == p
    decreases |order|
  {
    if order != [] {
      var front, last := order[..|order| - 1], order[|order| - 1];
      FrontUnrepeated(order, w.rows.proposals);
      WalkSettlesDue(w, front, epoch, eligible, env);
      var mid := TallyEach(w, front, epoch, eligible, env);
      var after := TallyEach(w, order, epoch, eligible, env).rows.proposals;
      assert after == if Due(last, epoch) then mid.rows.proposals[last.id := after[last.id]] else mid.rows.proposals;
      if Due(last, epoch) {
        assert after == TallyOne(mid, last, eligible, env).rows.proposals;
        assert Settled(last, after[last.id], eligible);
      }
      forall id | id in w.rows.proposals
        ensures var p := w.rows.proposals[id];
                if InOrder(order, p) && Due(p, epoch) then Settled(p, after[id], eligible) else after[id] == p
      {
        var p := w.rows.proposals[id];
        InFrontOrLast(order, w.rows.proposals, p);
        assert id == last.id <==> p == last;
      }
    }
  }

  lemma {:induction false} InFrontOrLast(order: seq<Proposal>, proposals: map<string, Proposal>, p: Proposal)
    requires order != [] && Unrepeated(order, proposals)
    ensures var (front, last) := (order[..|order| - 1], order[|order| - 1]);
      (InOrder(order, p) <==> InOrder(front, p) || p == last) && (p.id == last.id ==> !InOrder(front, p))
  {
    var front, last := order[..|order| - 1], order[|order| - 1];
    if InOrder(front, p) { var i :| 0 <= i < |front| && front[i] == p; assert order[i] == p; }
    if InOrder(order, p) { var i :| 0 <= i < |order| && order[i] == p; if i < |front| { assert front[i] == p; } }
    assert order[|order| - 1] == last;
  }

  /** After a tally at epoch E exactly the untallied records of earlier epochs have changed: each is
      tallied, counts its openings per choice, and keeps its ballots and effects. */
  lemma {:induction false} TallySettlesExactlyTheDue(w: World, order: seq<Proposal>, epoch: nat, env: Env, id: string)
    requires IsListing(order, w.rows.proposals)
    ensures var after := TallyDue(w, order, epoch, env).rows.proposals;
      && after.Keys == w.rows.proposals.Keys
      && (id in w.rows.proposals ==>
            var p := w.rows.proposals[id];
            if Due(p, epoch) then Settled(p, after[id], |w.rows.nfts|) && after[id].tallied else after[id] == p)
  {
    WalkSettlesDue(w, order, epoch, |w.rows.nfts|, env);
    if id in w.rows.proposals {
      var i :| 0 <= i < |order| && order[i].id == id;
      assert InOrder(order, w.rows.proposals[id]);
    }
  }

  lemma {:induction false} NothingDueNothingDone(w: World, order: seq<Proposal>, epoch: nat, eligible: nat, env: Env)
    requires forall i :: 0 <= i < |order| ==> !Due(order[i], epoch)
    ensures TallyEach(w, order, epoch, eligible, env) == w
    decreases |order|
  {
    if order != [] { NothingDueNothingDone(w, order[..|order| - 1], epoch, eligible, env); }
  }

  /** Tallying again at the same or an earlier epoch, in whatever order, does nothing at all. */
  lemma {:induction false} TallyAgainDoesNothing(w: World, order: seq<Proposal>, epoch: nat, env: Env,
                              order': seq<Proposal>, epoch': nat, env': Env)
    requires IsListing(order, w.rows.proposals) && epoch' <= epoch
    requires IsListing(order', TallyDue(w, order, epoch, env).rows.proposals)
    ensures TallyDue(TallyDue(w, order, epoch, env), order', epoch', env') == TallyDue(w, order, epoch, env)
  {
    var after := TallyDue(w, order, epoch, env);
    forall i | 0 <= i < |order'| ensures !Due(order'[i], epoch') {
      TallySettlesExactlyTheDue(w, order, epoch, env, order'[i].id);
    }
    NothingDueNothingDone(after, order', epoch', |after.rows.nfts|, env');
  }

  /** A record passes exactly when approvals outnumber rejections and a fifth of a non-empty electorate voted. */
  lemma {:induction false} PassedMeans(p: Proposal, eligible: nat)
    ensures var q := Counted(p, eligible);
      && q.approve == |Choosing(p.openings, true)| && q.reject == |Choosing(p.openings, false)|
      && q.approve + q.reject == |p.openings|
      && (q.passed <==> q.approve > q.reject && eligible > 0 && 5 * |p.openings| >= eligible)
  {
    PassingMeans(|Choosing(p.openings, true)|, |Choosing(p.openings, false)|, eligible);
    var yes, no := Choosing(p.openings, true), Choosing(p.openings, false);
    assert yes !! no && yes + no == p.openings.Keys;
    assert |yes + no| == |yes| + |no|;
  }
}
