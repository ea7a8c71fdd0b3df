/** The revolver, the queue validators take their stages from: a joiner is scattered through it
    (pkg/consensus/revolver.go:60-126 and 163-202). */
module Revolver {
  import opened Hashing

  datatype QueueItem = QueueItem(nft: Hash, tp: int)

  // ---- the queue as a sequence ----

  function InsertAt(s: seq<QueueItem>, i: nat, v: QueueItem): (r: seq<QueueItem>)
    requires i <= |s|
    ensures |r| == |s| + 1 && r[i] == v
    ensures forall k :: 0 <= k < i ==> r[k] == s[k]
    ensures forall k :: i < k < |r| ==> r[k] == s[k - 1]
  {
    s[..i] + [v] + s[i..]
  }

  predicate Contains(s: seq<QueueItem>, id: Hash) {
    exists k :: 0 <= k < |s| && s[k].nft == id
  }

  /** The queue without an id. */
  function Without(s: seq<QueueItem>, id: Hash): seq<QueueItem> {
    if s == [] then []
    else Without(s[..|s| - 1], id) + if s[|s| - 1].nft == id then [] else [s[|s| - 1]]
  }

  function Copies(s: seq<QueueItem>, id: Hash): nat {
    if s == [] then 0
    else Copies(s[..|s| - 1], id) + if s[|s| - 1].nft == id then 1 else 0
  }

  /** The five target positions for a queue of length n. */
  function Targets(n: nat): seq<nat> { [n, 4, 10, 2, 7] }

  /** The index the j-th of the five insertions uses, in a queue that started with n items. */
  function Index(n: nat, j: nat): nat
    requires j < 5
  {
    Targets(n)[j] % (n + j + 1)
  }

  /** The queue after the first j insertions of a joiner. */
  function Scattered(s: seq<QueueItem>, v: QueueItem, j: nat): (r: seq<QueueItem>)
    requires j <= 5
    ensures |r| == |s| + j
  {
    if j == 0 then s else InsertAt(Scattered(s, v, j - 1), Index(|s|, j - 1), v)
  }

  class Queue {
    var items: seq<QueueItem>

    constructor ()
      ensures items == []
    {
      items := [];
    }

    method InsertValidator(v: QueueItem)
      modifies this
      ensures (exists k :: 0 <= k < |old(items)| && old(items)[k].nft == v.nft) ==> items == old(items)
      ensures items == if Contains(old(items), v.nft) then old(items) else Scattered(old(items), v, 5)
    {
      for i := 0 to |items|
        invariant forall k :: 0 <= k < i ==> items[k].nft != v.nft
      {
        if items[i].nft == v.nft { return; }
      }
      var targets := Targets(|items|);
      for i := 0 to |targets|
        invariant items == Scattered(old(items), v, i)
      {
        var idx := targets[i] % (|items| + 1);
        items := InsertAt(items, idx, v);
      }
    }

    method Remove(id: Hash)
      modifies this
      ensures items == Without(old(items), id)
    {
      var out := [];
      for i := 0 to |items|
        invariant out == Without(items[..i], id)
      {
        assert items[..i + 1][..i] == items[..i];
        if items[i].nft != id { out := out + [items[i]]; }
      }
      assert items[..|items|] == items;
      items := out;
    }

    method PopFront() returns (r: Option<QueueItem>)
      modifies this
      ensures r == if old(items) == [] then None else Some(old(items)[0])
      ensures old(items) == (if r.Some? then [r.value] else []) + items
    {
      if |items| == 0 { return None; }
      r := Some(items[0]);
      items := items[1..];
    }

    method PushBack(v: QueueItem)
      modifies this
      ensures items == old(items) + [v]
    {
      items := items + [v];
    }
  }

  // ---- a join disturbs nobody ----

  lemma {:induction false} WithoutJoins(a: seq<QueueItem>, b: seq<QueueItem>, id: Hash)
    ensures Without(a + b, id) == Without(a, id) + Without(b, id)
    ensures Copies(a + b, id) == Copies(a, id) + Copies(b, id)
  {
    if b == [] {
      assert a + b == a;
    } else {
      var n := |b| - 1;
      WithoutJoins(a, b[..n], id);
      assert (a + b)[..|a + b| - 1] == a + b[..n];
    }
  }

  lemma {:induction false} InsertKeepsOthers(s: seq<QueueItem>, i: nat, v: QueueItem)
    requires i <= |s|
    ensures Without(InsertAt(s, i, v), v.nft) == Without(s, v.nft)
    ensures Copies(InsertAt(s, i, v), v.nft) == Copies(s, v.nft) + 1
  {
    WithoutJoins(s[..i] + [v], s[i..], v.nft);
    WithoutJoins(s[..i], [v], v.nft);
    WithoutJoins(s[..i], s[i..], v.nft);
    assert [v][..0] == [];
    assert Without([v], v.nft) == [] && Copies([v], v.nft) == 1;
    assert s[..i] + s[i..] == s;
  }

  lemma {:induction false} ScatterKeepsOthers(s: seq<QueueItem>, v: QueueItem, j: nat)
    requires j <= 5
    ensures Without(Scattered(s, v, j), v.nft) == Without(s, v.nft)
    ensures Copies(Scattered(s, v, j), v.nft) == Copies(s, v.nft) + j
  {
    if j > 0 {
      ScatterKeepsOthers(s, v, j - 1);
      InsertKeepsOthers(Scattered(s, v, j - 1), Index(|s|, j - 1), v);
    }
  }

  lemma {:induction false} AbsentLeavesAll(s: seq<QueueItem>, id: Hash)
    requires !Contains(s, id)
    ensures Without(s, id) == s && Copies(s, id) == 0
  {
    if s != [] {
      var n := |s| - 1;
      assert s[n].nft != id;
      assert forall k :: 0 <= k < n ==> s[..n][k] == s[k];
      AbsentLeavesAll(s[..n], id);
      assert s == s[..n] + [s[n]];
    }
  }

  /** Joining adds exactly five copies, keeps everybody else in order, and removal undoes it exactly. */
  lemma {:induction false} JoinThenRemoveRestores(s: seq<QueueItem>, v: QueueItem)
    requires !Contains(s, v.nft)
    ensures Copies(Scattered(s, v, 5), v.nft) == 5
    ensures Without(Scattered(s, v, 5), v.nft) == s
  {
    AbsentLeavesAll(s, v.nft);
    ScatterKeepsOthers(s, v, 5);
  }

  // ---- where the copies land ----

  function Shift(i: nat, p: nat): nat { if p < i then p else p + 1 }

  /** The positions an id holds, given as a list. */
  predicate Holds(s: seq<QueueItem>, id: Hash, spots: seq<nat>) {
    forall k :: 0 <= k < |s| ==> (s[k].nft == id <==> k in spots)
  }

  /** Where the copies inserted so far end up after one more insertion at i. */
  function Moved(i: nat, spots: seq<nat>): (r: seq<nat>)
    ensures |r| == |spots| && forall j :: 0 <= j < |r| ==> r[j] == Shift(i, spots[j])
  {
    seq(|spots|, j requires 0 <= j < |spots| => Shift(i, spots[j]))
  }

  lemma {:induction false} InsertMoves(s: seq<QueueItem>, i: nat, v: QueueItem, spots: seq<nat>)
    requires i <= |s| && Holds(s, v.nft, spots)
    ensures Holds(InsertAt(s, i, v), v.nft, Moved(i, spots) + [i])
  {
    var r := InsertAt(s, i, v);
    var moved := Moved(i, spots);
    forall k | 0 <= k < |r| ensures r[k].nft == v.nft <==> k in moved + [i] {
      if k != i {
        var p := if k < i then k else k - 1;
        assert Shift(i, p) == k;
        if p in spots {
          var j :| 0 <= j < |spots| && spots[j] == p;
          assert moved[j] == k;
        }
        if k in moved {
          var j :| 0 <= j < |moved| && moved[j] == k;
          assert spots[j] == p;
        }
      }
    }
  }

  function Spots(n: nat, j: nat): (r: seq<nat>)
    requires j <= 5
    ensures |r| == j
  {
    if j == 0 then [] else Moved(Index(n, j - 1), Spots(n, j - 1)) + [Index(n, j - 1)]
  }

  lemma {:induction false} ScatterHolds(s: seq<QueueItem>, v: QueueItem, j: nat)
    requires !Contains(s, v.nft) && j <= 5
    ensures Holds(Scattered(s, v, j), v.nft, Spots(|s|, j))
  {
    if j > 0 {
      ScatterHolds(s, v, j - 1);
      InsertMoves(Scattered(s, v, j - 1), Index(|s|, j - 1), v, Spots(|s|, j - 1));
    }
  }

  lemma {:induction false} SpotsInFull(n: nat)
    ensures var b, c, d, e := Index(n, 1), Index(n, 2), Index(n, 3), Index(n, 4);
      Spots(n, 5) == [Shift(e, Shift(d, Shift(c, Shift(b, Index(n, 0))))), Shift(e, Shift(d, Shift(c, b))), Shift(e, Shift(d, c)), Shift(e, d), e]
  {
    var a, b, c, d, e := Index(n, 0), Index(n, 1), Index(n, 2), Index(n, 3), Index(n, 4);
    assert Spots(n, 1) == [a];
    assert Spots(n, 2) == [Shift(b, a), b];
    assert Spots(n, 3) == [Shift(c, Shift(b, a)), Shift(c, b), c];
    assert Spots(n, 4) == [Shift(d, Shift(c, Shift(b, a))), Shift(d, Shift(c, b)), Shift(d, c), d];
  }

  lemma {:induction false} Small(a: nat, b: nat)
    requires a < b
    ensures a % b == a
  {
  }

  lemma {:induction false} SpotsOfLongQueue(n: nat)
    requires n >= 9
    ensures Spots(n, 5) == [n + 4, 5, 12, 2, 7]
  {
    Small(n, n + 1);
    Small(4, n + 2);
    Small(10, n + 3);
    Small(2, n + 4);
    Small(7, n + 5);
    SpotsAt(n, n, 4, 10, 2, 7);
  }

  /** In a queue of nine or more the copies end at positions 2, 5, 7, 12 and n + 4, and nowhere else. */
  lemma {:induction false} JoinerPositions(s: seq<QueueItem>, v: QueueItem, k: nat)
    requires !Contains(s, v.nft) && |s| >= 9
    requires k < |s| + 5
    ensures Scattered(s, v, 5)[k].nft == v.nft <==> k == 2 || k == 5 || k == 7 || k == 12 || k == |s| + 4
  {
    hide Spots, Scattered;
    ScatterHolds(s, v, 5);
    SpotsOfLongQueue(|s|);
  }

  // ---- who serves the next five stages ----

  function Share(spots: seq<nat>): nat {
    (if 0 in spots then 1 else 0) + (if 1 in spots then 1 else 0) + (if 2 in spots then 1 else 0) +
    (if 3 in spots then 1 else 0) + (if 4 in spots then 1 else 0)
  }

  lemma {:induction false} CopiesInFive(s: seq<QueueItem>, id: Hash, spots: seq<nat>)
    requires |s| >= 5 && Holds(s, id, spots)
    ensures Copies(s[..5], id) == Share(spots)
  {
    assert s[..5][..4] == s[..4] && s[..4][..3] == s[..3] && s[..3][..2] == s[..2] && s[..2][..1] == s[..1] && s[..1][..0] == [];
    assert Copies(s[..1], id) == if 0 in spots then 1 else 0;
    assert Copies(s[..2], id) == Copies(s[..1], id) + if 1 in spots then 1 else 0;
    assert Copies(s[..3], id) == Copies(s[..2], id) + if 2 in spots then 1 else 0;
    assert Copies(s[..4], id) == Copies(s[..3], id) + if 3 in spots then 1 else 0;
  }

  lemma {:induction false} SpotsAt(n: nat, a: nat, b: nat, c: nat, d: nat, e: nat)
    requires Index(n, 0) == a && Index(n, 1) == b && Index(n, 2) == c && Index(n, 3) == d && Index(n, 4) == e
    ensures Spots(n, 5) == [Shift(e, Shift(d, Shift(c, Shift(b, a)))), Shift(e, Shift(d, Shift(c, b))), Shift(e, Shift(d, c)), Shift(e, d), e]
  {
    SpotsInFull(n);
  }

  lemma {:induction false} SpotsTo2(n: nat)
    requires 0 <= n <= 2
    ensures Spots(n, 5) == if n == 0 then [4, 0, 1, 3, 2] else if n == 1 then [5, 2, 4, 3, 1] else [6, 2, 1, 3, 0]
  {
    hide Spots;
    if n == 0 {
      SpotsAt(0, 0, 0, 1, 2, 2);
    } else if n == 1 {
      SpotsAt(1, 1, 1, 2, 2, 1);
    } else {
      SpotsAt(2, 2, 0, 0, 2, 0);
    }
  }

  lemma {:induction false} SpotsTo5(n: nat)
    requires 3 <= n <= 5
    ensures Spots(n, 5) == if n == 3 then [4, 6, 5, 2, 7] else if n == 4 then [8, 6, 4, 2, 7] else [9, 6, 3, 2, 7]
  {
    hide Spots;
    if n == 3 {
      SpotsAt(3, 3, 4, 4, 2, 7);
    } else if n == 4 {
      SpotsAt(4, 4, 4, 3, 2, 7);
    } else {
      SpotsAt(5, 5, 4, 2, 2, 7);
    }
  }

  lemma {:induction false} SpotsTo8(n: nat)
    requires 6 <= n <= 8
    ensures Spots(n, 5) == if n == 6 then [10, 6, 1, 2, 7] else if n == 7 then [11, 6, 0, 2, 7] else [11, 5, 12, 2, 7]
  {
    hide Spots;
    if n == 6 {
      SpotsAt(6, 6, 4, 1, 2, 7);
    } else if n == 7 {
      SpotsAt(7, 7, 4, 0, 2, 7);
    } else {
      SpotsAt(8, 8, 4, 10, 2, 7);
    }
  }

  lemma {:induction false} ShareOf(n: nat)
    ensures Share(Spots(n, 5)) == if n == 0 then 5 else if n <= 2 then 4 else if n <= 7 then 2 else 1
  {
    hide Spots;
    if n >= 9 { SpotsOfLongQueue(n); } else if n >= 6 { SpotsTo8(n); } else if n >= 3 { SpotsTo5(n); } else { SpotsTo2(n); }
  }

  /** A fresh joiner cannot monopolise the next five stages once eight entries are queued: then it holds
      exactly one of the next five places, and with fewer it holds more. In an almost empty queue it holds
      a majority of them. */
  lemma {:induction false} JoinerShare(s: seq<QueueItem>, v: QueueItem)
    requires !Contains(s, v.nft)
    ensures var r := Scattered(s, v, 5);
      Copies(r[..5], v.nft) == if |s| == 0 then 5 else if |s| <= 2 then 4 else if |s| <= 7 then 2 else 1
  {
    ScatterHolds(s, v, 5);
    ScatterKeepsOthers(s, v, 5);
    CopiesInFive(Scattered(s, v, 5), v.nft, Spots(|s|, 5));
    ShareOf(|s|);
  }
}
