/** The rotating committee of pkg/consensus/assignment.go. */
module Committee {
  import opened Arith
  import opened Epoch

  const MIN_COMMITTEE_SIZE := 2

  function Size(n: nat, count: int): nat {
    if n < MIN_COMMITTEE_SIZE || count <= 0 then 0 else if count > n then n else count
  }

  /** The committee of a height: a window of the ring of online ids. */
  function CommitteeAt<T>(online: seq<T>, height: nat, count: int): (out: seq<T>)
    ensures |out| == Size(|online|, count)
  {
    if Size(|online|, count) == 0 then []
    else seq(Size(|online|, count), i requires 0 <= i => online[(height % |online| + i) % |online|])
  }

  /** The committee k heights into a window that starts at height h. */
  function InWindow<T>(online: seq<T>, h: nat, k: nat, count: int): seq<T> {
    CommitteeAt(online, h + k, count)
  }

  method AssignCommittee<T(0)>(online: seq<T>, height: uint64, count: int) returns (out: seq<T>)
    ensures out == CommitteeAt(online, height, count)
    ensures |out| == if |online| < 2 || count <= 0 then 0 else if count > |online| then |online| else count
  {
    var n := |online|;
    if n < MIN_COMMITTEE_SIZE { return []; }
    var c := count;
    if c > n { c := n; }
    if c <= 0 { return []; }
    var start := height % n;
    var slots := new T[c];
    for i := 0 to c
      invariant forall k :: 0 <= k < i ==> slots[k] == online[(start + k) % n]
    {
      slots[i] := online[(start + i) % n];
    }
    return slots[..];
  }

  predicate Distinct<T(==)>(s: seq<T>) {
    forall i, j :: 0 <= i < j < |s| ==> s[i] != s[j]
  }

  // ---------------------------------------------------------------- positions on the ring

  lemma {:induction false} Wrap(a: nat, b: nat, n: nat)
    requires a < n && b < n
    ensures (a + b) % n == if a + b < n then a + b else a + b - n
  {
    if a + b >= n {
      DivMod(a + b, n);
      QuotientUnique(a + b, n, 1, a + b - n);
    }
  }

  lemma {:induction false} ModOfSum(h: nat, k: nat, n: nat)
    requires k < n
    ensures (h + k) % n == if h % n + k < n then h % n + k else h % n + k - n
  {
    DivMod(h, n);
    DivMod(h + k, n);
    var q, r := h / n, h % n;
    if r + k < n {
      QuotientUnique(h + k, n, q, r + k);
    } else {
      assert (q + 1) * n == q * n + n;
      QuotientUnique(h + k, n, q + 1, r + k - n);
    }
  }

  /** How far past the proposer's seat the ring index j sits, k heights after h. */
  function Offset(j: nat, h: nat, k: nat, n: nat): (i: nat)
    requires j < n && k < n
    ensures i < n
  {
    var s := (h + k) % n;
    if j >= s then j - s else j - s + n
  }

  lemma {:induction false} MemberAtIndex<T>(online: seq<T>, h: nat, k: nat, count: int, j: nat)
    requires Distinct(online) && |online| >= 2 && 1 <= count <= |online|
    requires j < |online| && k < |online|
    ensures online[j] in CommitteeAt(online, h + k, count) <==> Offset(j, h, k, |online|) < count
  {
    var n, out := |online|, CommitteeAt(online, h + k, count);
    var s, o := (h + k) % n, Offset(j, h, k, n);
    Wrap(s, o, n);
    if o < count { assert out[o] == online[j]; }
    if online[j] in out {
      var i :| 0 <= i < |out| && out[i] == online[j];
      Wrap(s, i, n);
      assert (s + i) % n == j;
    }
  }

  lemma {:induction false} CommitteeDistinct<T>(online: seq<T>, height: nat, count: int)
    requires Distinct(online)
    ensures Distinct(CommitteeAt(online, height, count))
  {
    var n, out := |online|, CommitteeAt(online, height, count);
    forall i, j | 0 <= i < j < |out| ensures out[i] != out[j] {
      Wrap(height % n, i, n);
      Wrap(height % n, j, n);
    }
  }

  /** The height offset, within a window of n heights starting at h, at which j sits at offset i. */
  function Turn(j: nat, h: nat, i: nat, n: nat): (k: nat)
    requires j < n && i < n
    ensures k < n
  {
    var s := h % n;
    var d := j - s - i;
    if d >= 0 then d else if d + n >= 0 then d + n else d + 2 * n
  }

  lemma {:induction false} TurnInverts(j: nat, h: nat, k: nat, i: nat, n: nat)
    requires j < n && k < n && i < n
    ensures Offset(j, h, k, n) == i <==> k == Turn(j, h, i, n)
  {
    ModOfSum(h, k, n);
  }

  /** Over any n consecutive heights every id proposes exactly once. */
  lemma {:induction false} EachProposesOnce<T>(online: seq<T>, h: nat, count: int, j: nat)
    requires Distinct(online) && |online| >= 2 && 1 <= count && j < |online|
    ensures forall k :: 0 <= k < |online| ==>
      (InWindow(online, h, k, count)[0] == online[j] <==> k == Turn(j, h, 0, |online|))
  {
    var n := |online|;
    forall k | 0 <= k < n
      ensures InWindow(online, h, k, count)[0] == online[j] <==> k == Turn(j, h, 0, n)
    {
      TurnInverts(j, h, k, 0, n);
      Wrap((h + k) % n, 0, n);
      assert InWindow(online, h, k, count)[0] == online[(h + k) % n];
    }
  }

  /** The heights of the window in which j serves, as offsets from its start. */
  ghost function Service<T(!new)>(online: seq<T>, h: nat, count: int, j: nat): set<nat>
    requires j < |online|
  {
    set k: nat | 0 <= k < |online| && online[j] in InWindow(online, h, k, count)
  }

  function Turns(j: nat, h: nat, count: nat, n: nat): set<nat>
    requires j < n && count <= n
  {
    set i | 0 <= i < count :: Turn(j, h, i, n)
  }

  lemma {:induction false} TurnsCount(j: nat, h: nat, count: nat, n: nat)
    requires j < n && count <= n
    ensures |Turns(j, h, count, n)| == count
    decreases count
  {
    if count == 0 {
      assert Turns(j, h, 0, n) == {};
    } else {
      TurnsCount(j, h, count - 1, n);
      var k := Turn(j, h, count - 1, n);
      if k in Turns(j, h, count - 1, n) {
        var i :| 0 <= i < count - 1 && k == Turn(j, h, i, n);
        TurnInverts(j, h, k, i, n);
        TurnInverts(j, h, k, count - 1, n);
      }
      assert Turns(j, h, count, n) == Turns(j, h, count - 1, n) + {k};
    }
  }

  /** Over any n consecutive heights every id serves in exactly count committees. */
  lemma {:induction false} EachServesCountTimes<T(!new)>(online: seq<T>, h: nat, count: int, j: nat)
    requires Distinct(online) && |online| >= 2 && 1 <= count <= |online| && j < |online|
    ensures |Service(online, h, count, j)| == count
  {
    var n := |online|;
    forall k: nat | k < n
      ensures k in Service(online, h, count, j) <==> k in Turns(j, h, count, n)
    {
      MemberAtIndex(online, h, k, count, j);
      TurnInverts(j, h, k, Offset(j, h, k, n), n);
      if k in Turns(j, h, count, n) {
        var i :| 0 <= i < count && k == Turn(j, h, i, n);
        TurnInverts(j, h, k, i, n);
      }
    }
    assert Service(online, h, count, j) == Turns(j, h, count, n);
    TurnsCount(j, h, count, n);
  }

  // ---------------------------------------------------------------- canonical order

  type Id = s: seq<nat> | |s| == 32 witness seq(32, i => 0)

  predicate LessAt(a: Id, b: Id, k: nat) {
    k < 32 && a[..k] == b[..k] && a[k] < b[k]
  }

  /** Byte-wise lexicographic order. */
  predicate Less(a: Id, b: Id) {
    exists k :: 0 <= k < 32 && LessAt(a, b, k)
  }

  /** The comparator loop. */
  method LessThan(a: Id, b: Id) returns (r: bool)
    ensures r <==> Less(a, b)
  {
    for k := 0 to 32
      invariant a[..k] == b[..k]
    {
      if a[k] != b[k] {
        assert forall m: nat :: LessAt(a, b, m) ==> m == k by { FirstDifference(a, b, k); }
        if a[k] < b[k] { assert LessAt(a, b, k); }
        return a[k] < b[k];
      }
    }
    return false;
  }

  lemma {:induction false} FirstDifference(a: Id, b: Id, k: nat)
    requires k < 32 && a[..k] == b[..k] && a[k] != b[k]
    ensures forall m: nat :: LessAt(a, b, m) ==> m == k
  {
    forall m: nat | m < k ensures a[m] == b[m] { assert a[m] == a[..k][m] == b[..k][m] == b[m]; }
    forall m: nat | k < m < 32 ensures a[..m] != b[..m] { assert a[..m][k] == a[k] && b[..m][k] == b[k]; }
  }

  lemma {:induction false} Differ(a: Id, b: Id, k: nat) returns (d: nat)
    requires k <= 32 && a[..k] == b[..k] && a != b
    ensures d < 32 && a[..d] == b[..d] && a[d] != b[d]
    decreases 32 - k
  {
    if k < 32 && a[k] == b[k] {
      assert a[..k + 1] == a[..k] + [a[k]] && b[..k + 1] == b[..k] + [b[k]];
      d := Differ(a, b, k + 1);
    } else {
      d := k;
    }
  }

  lemma {:induction false} LessTransitive(a: Id, b: Id, c: Id)
    requires Less(a, b) && Less(b, c)
    ensures Less(a, c)
  {
    var i :| 0 <= i < 32 && LessAt(a, b, i);
    var j :| 0 <= j < 32 && LessAt(b, c, j);
    var k := if i < j then i else j;
    assert a[..k] == a[..i][..k] && b[..k] == b[..i][..k] && b[..k] == b[..j][..k] && c[..k] == c[..j][..k];
    if i < j { assert b[i] == b[..j][i] == c[..j][i] == c[i]; }
    if j < i { assert a[j] == a[..i][j] == b[..i][j] == b[j]; }
    assert LessAt(a, c, k);
  }

  /** The order is irreflexive, total and transitive, so sorting leaves no choice. */
  lemma {:induction false} LessIsStrictTotal(a: Id, b: Id)
    ensures a != b ==> (Less(a, b) <==> !Less(b, a))
    ensures !Less(a, a)
    ensures forall c: Id :: Less(a, b) && Less(b, c) ==> Less(a, c)
  {
    if a != b {
      var d := Differ(a, b, 0);
      FirstDifference(a, b, d);
      FirstDifference(b, a, d);
      assert LessAt(a, b, d) || LessAt(b, a, d);
    }
    forall c: Id | Less(a, b) && Less(b, c) ensures Less(a, c) { LessTransitive(a, b, c); }
  }

  /** out is what sorting a copy of ids must produce. */
  ghost predicate SortedCopy(out: seq<Id>, ids: seq<Id>) {
    multiset(out) == multiset(ids) && forall i, j :: 0 <= i < j < |out| ==> !Less(out[j], out[i])
  }

  lemma {:induction false} SortedCopyUnique(a: seq<Id>, b: seq<Id>)
    requires multiset(a) == multiset(b)
    requires forall i, j :: 0 <= i < j < |a| ==> !Less(a[j], a[i])
    requires forall i, j :: 0 <= i < j < |b| ==> !Less(b[j], b[i])
    ensures a == b
    decreases |a|
  {
    assert |a| == |multiset(a)| == |multiset(b)| == |b|;
    if a != [] {
      if a[0] != b[0] {
        assert b[0] in multiset(b) && a[0] in multiset(a);
        assert b[0] in a && a[0] in b;
        LessIsStrictTotal(a[0], b[0]);
        assert false;
      }
      assert a == [a[0]] + a[1..] && b == [b[0]] + b[1..];
      assert multiset(a[1..]) == multiset(a) - multiset{a[0]} == multiset(b[1..]);
      SortedCopyUnique(a[1..], b[1..]);
    }
  }

  /** Two nodes that saw the same online set, in whatever order, assign the same committee. */
  lemma {:induction false} CommitteeDependsOnlyOnTheSet(seenA: seq<Id>, seenB: seq<Id>, a: seq<Id>, b: seq<Id>, height: nat, count: int)
    requires Distinct(seenA) && Distinct(seenB)
    requires forall x :: x in seenA <==> x in seenB
    requires SortedCopy(a, seenA) && SortedCopy(b, seenB)
    ensures CommitteeAt(a, height, count) == CommitteeAt(b, height, count)
  {
    forall x: Id ensures multiset(seenA)[x] == multiset(seenB)[x] {
      DistinctCount(seenA, x);
      DistinctCount(seenB, x);
    }
    assert multiset(seenA) == multiset(seenB);
    SortedCopyUnique(a, b);
  }

  lemma {:induction false} DistinctCount(s: seq<Id>, x: Id)
    requires Distinct(s)
    ensures multiset(s)[x] == if x in s then 1 else 0
    decreases |s|
  {
    if s != [] {
      assert s == [s[0]] + s[1..];
      DistinctCount(s[1..], x);
      assert x in s <==> x == s[0] || x in s[1..];
    }
  }
}
