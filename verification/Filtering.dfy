/** What the mempool and the outage backlog share: dropping queued items by id, and forgetting ids seen long
    ago. */
module Filtering {
  import opened Hashing

  /** What stays, in order. */
  function Kept<T>(items: seq<T>, id: T -> Hash, drop: set<Hash>): (r: seq<T>)
    ensures |r| <= |items| && forall x <- r :: x in items && id(x) !in drop
  {
    if items == [] then []
    else
      var n := |items| - 1;
      Kept(items[..n], id, drop) + if id(items[n]) in drop then [] else [items[n]]
  }

  /** What goes, in order. */
  function Cut<T>(items: seq<T>, id: T -> Hash, drop: set<Hash>): (r: seq<T>)
    ensures forall x <- r :: x in items && id(x) in drop
  {
    if items == [] then []
    else
      var n := |items| - 1;
      Cut(items[..n], id, drop) + if id(items[n]) in drop then [items[n]] else []
  }

  lemma {:induction false} KeptAndCutPartition<T>(items: seq<T>, id: T -> Hash, drop: set<Hash>)
    ensures multiset(Kept(items, id, drop)) + multiset(Cut(items, id, drop)) == multiset(items)
  {
    if items != [] {
      KeptAndCutPartition(items[..|items| - 1], id, drop);
      assert items == items[..|items| - 1] + [items[|items| - 1]];
    }
  }

  lemma {:induction false} KeepsAll<T>(items: seq<T>, id: T -> Hash, drop: set<Hash>)
    requires drop == {}
    ensures Kept(items, id, drop) == items
  {
    if items != [] {
      KeepsAll(items[..|items| - 1], id, drop);
      assert items == items[..|items| - 1] + [items[|items| - 1]];
    }
  }

  /** What is remembered once ids seen `ttl` ago or earlier are forgotten. */
  function Swept(seen: map<Hash, int>, now: int, ttl: int): map<Hash, int> {
    map id | id in seen && now - seen[id] < ttl :: seen[id]
  }

  method Sweep(seen: map<Hash, int>, now: int, ttl: int) returns (r: map<Hash, int>)
    ensures r == Swept(seen, now, ttl)
  {
    r := seen;
    var ids := seen.Keys;
    while ids != {}
      invariant ids <= seen.Keys
      invariant forall id :: id in r <==> id in seen && (id in ids || now - seen[id] < ttl)
      invariant forall id <- r :: r[id] == seen[id]
    {
      var id :| id in ids;
      if now - r[id] >= ttl { r := r - {id}; }
      ids := ids - {id};
    }
  }
}
