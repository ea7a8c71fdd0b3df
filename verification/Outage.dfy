/** The outage controller: the backlog that replaces the mempool while an outage lasts, and the flag that says
    whether it does (pkg/consensus/outage.go:45-219). Time is in milliseconds. */
module Outage {
  import opened Hashing
  import opened Filtering

  const MEGABATCH_MULTIPLIER: int := 10
  const SEEN_TTL: int := 600_000

  datatype Tx = Tx(id: Hash, body: string)

  const TX_ID: Tx -> Hash := (t: Tx) => t.id

  datatype State = State(flag: bool, backlog: seq<Tx>, cleanCycles: nat, seen: map<Hash, int>)

  predicate SeenLately(s: State, id: Hash, now: int) {
    id in s.seen && now - s.seen[id] < SEEN_TTL
  }

  /** How many backlogged transactions one recovery batch takes. */
  function Megabatch(normal: int, depth: nat): nat {
    var limit := normal * MEGABATCH_MULTIPLIER;
    if limit <= 0 then 0 else if depth > limit then limit else depth
  }

  predicate MayClear(s: State, threshold: int) {
    s.flag && |s.backlog| <= threshold && s.cleanCycles >= 1
  }

  class Controller {
    const threshold: int
    var flag: bool
    var backlog: seq<Tx>
    var cleanCycles: nat
    var seen: map<Hash, int>

    function View(): State reads this { State(flag, backlog, cleanCycles, seen) }

    constructor (threshold: int)
      ensures View() == State(false, [], 0, map[]) && this.threshold == threshold
    {
      this.threshold := threshold;
      flag, backlog, cleanCycles, seen := false, [], 0, map[];
    }

    method Declare()
      modifies this
      ensures View() == old(View()).(flag := true, cleanCycles := 0)
    {
      flag, cleanCycles := true, 0;
    }

    method Enqueue(t: Tx, now: int) returns (ok: bool)
      modifies this
      ensures ok == !SeenLately(old(View()), t.id, now)
      ensures var swept := Swept(old(seen), now, SEEN_TTL);
        View() == if ok then old(View()).(seen := swept[t.id := now], backlog := old(backlog) + [t]) else old(View()).(seen := swept)
    {
      seen := Sweep(seen, now, SEEN_TTL);
      if t.id in seen && now - seen[t.id] < SEEN_TTL { return false; }
      seen := seen[t.id := now];
      backlog := backlog + [t];
      return true;
    }

    /** Puts back what did not fit a recovery batch. */
    method Reinsert(t: Tx)
      modifies this`backlog
      ensures backlog == old(backlog) + [t]
    {
      backlog := backlog + [t];
    }

    method Remove(ids: seq<Hash>)
      modifies this`backlog
      ensures backlog == Kept(old(backlog), TX_ID, set id <- ids)
    {
      ghost var drop := set id <- ids;
      if |ids| == 0 {
        KeepsAll(backlog, TX_ID, drop);
        return;
      }
      var kept := [];
      for i := 0 to |backlog|
        invariant kept == Kept(backlog[..i], TX_ID, drop)
      {
        assert backlog[..i + 1][..i] == backlog[..i];
        if backlog[i].id !in ids { kept := kept + [backlog[i]]; }
      }
      assert backlog[..|backlog|] == backlog;
      backlog := kept;
    }

    method BuildMegabatch(normal: int) returns (batch: seq<Tx>)
      modifies this`backlog
      ensures old(backlog) == batch + backlog && |batch| == Megabatch(normal, |old(backlog)|)
    {
      var limit := normal * MEGABATCH_MULTIPLIER;
      if limit <= 0 || |backlog| == 0 { return []; }
      var n := if |backlog| > limit then limit else |backlog|;
      batch := backlog[..n];
      backlog := backlog[n..];
    }

    method RecordCleanCycle()
      modifies this`cleanCycles
      ensures cleanCycles == old(cleanCycles) + 1
    {
      cleanCycles := cleanCycles + 1;
    }

    method MaybeClear() returns (cleared: bool)
      modifies this`flag
      ensures cleared == MayClear(old(View()), threshold)
      ensures flag == (old(flag) && !cleared)
    {
      if !flag { return false; }
      if |backlog| > threshold { return false; }
      if cleanCycles < 1 { return false; }
      flag := false;
      return true;
    }
  }

  // ---- runs ----

  datatype Op =
    | Declare
    | Enqueue(tx: Tx)
    | Reinsert(tx: Tx)
    | Remove(ids: set<Hash>)
    | BuildMegabatch(normal: int)
    | CleanCycle
    | MaybeClear

  datatype Event = Event(op: Op, now: int)

  /** The controller together with the books: what was taken in, by whom and when, and what left. */
  datatype World = World(state: State, admitted: seq<Tx>, drained: seq<Tx>, removed: seq<Tx>)

  function Taken(w: World, t: Tx): World {
    w.(state := w.state.(backlog := w.state.backlog + [t]), admitted := w.admitted + [t])
  }

  function Step(threshold: int, w: World, e: Event): World {
    var s := w.state;
    match e.op
    case Declare => w.(state := s.(flag := true, cleanCycles := 0))
    case Enqueue(t) =>
      var swept := Swept(s.seen, e.now, SEEN_TTL);
      if SeenLately(s, t.id, e.now) then w.(state := s.(seen := swept))
      else Taken(w.(state := s.(seen := swept[t.id := e.now])), t)
    case Reinsert(t) => Taken(w, t)
    case Remove(ids) =>
      w.(state := s.(backlog := Kept(s.backlog, TX_ID, ids)), removed := w.removed + Cut(s.backlog, TX_ID, ids))
    case BuildMegabatch(normal) =>
      var n := Megabatch(normal, |s.backlog|);
      w.(state := s.(backlog := s.backlog[n..]), drained := w.drained + s.backlog[..n])
    case CleanCycle => w.(state := s.(cleanCycles := s.cleanCycles + 1))
    case MaybeClear => w.(state := s.(flag := s.flag && !MayClear(s, threshold)))
  }

  const FRESH := World(State(false, [], 0, map[]), [], [], [])

  /** The world after the first k events. */
  function After(threshold: int, events: seq<Event>, k: nat): World
    requires k <= |events|
  {
    if k == 0 then FRESH else Step(threshold, After(threshold, events, k - 1), events[k - 1])
  }

  predicate Balanced(w: World) {
    multiset(w.admitted) == multiset(w.drained) + multiset(w.removed) + multiset(w.state.backlog)
  }

  lemma {:induction false} TakenBalanced(w: World, t: Tx)
    requires Balanced(w)
    ensures Balanced(Taken(w, t))
  {
  }

  lemma {:induction false} BacklogSplit(w: World, w': World, n: nat)
    requires Balanced(w) && n <= |w.state.backlog| && w'.admitted == w.admitted && w'.removed == w.removed
    requires w'.state.backlog == w.state.backlog[n..] && w'.drained == w.drained + w.state.backlog[..n]
    ensures Balanced(w')
  {
    assert w.state.backlog == w.state.backlog[..n] + w.state.backlog[n..];
  }

  lemma {:induction false} BacklogFiltered(w: World, w': World, ids: set<Hash>)
    requires Balanced(w) && w'.admitted == w.admitted && w'.drained == w.drained
    requires w'.state.backlog == Kept(w.state.backlog, TX_ID, ids) && w'.removed == w.removed + Cut(w.state.backlog, TX_ID, ids)
    ensures Balanced(w')
  {
    KeptAndCutPartition(w.state.backlog, TX_ID, ids);
  }

  lemma {:induction false} BooksKept(w: World, w': World)
    requires Balanced(w) && w' == w.(state := w'.state) && w'.state.backlog == w.state.backlog
    ensures Balanced(w')
  {
  }

  lemma {:induction false} StepBalanced(threshold: int, w: World, e: Event)
    requires Balanced(w)
    ensures Balanced(Step(threshold, w, e))
  {
    hide Balanced, SeenLately, MayClear;
    var w' := Step(threshold, w, e);
    match e.op
    case Enqueue(t) =>
      var swept := Swept(w.state.seen, e.now, SEEN_TTL);
      if SeenLately(w.state, t.id, e.now) {
        BooksKept(w, w');
      } else {
        var w1 := w.(state := w.state.(seen := swept[t.id := e.now]));
        BooksKept(w, w1);
        TakenBalanced(w1, t);
      }
    case Reinsert(t) => TakenBalanced(w, t);
    case Remove(ids) => BacklogFiltered(w, w', ids);
    case BuildMegabatch(normal) => BacklogSplit(w, w', Megabatch(normal, |w.state.backlog|));
    case _ => BooksKept(w, w');
  }

  /** Over every run each transaction taken into the backlog is still there, drained or removed, exactly once. */
  lemma {:induction false} BacklogAccounted(threshold: int, events: seq<Event>, k: nat)
    requires k <= |events|
    ensures Balanced(After(threshold, events, k))
  {
    if k > 0 {
      BacklogAccounted(threshold, events, k - 1);
      StepBalanced(threshold, After(threshold, events, k - 1), events[k - 1]);
    }
  }

  // ---- the flag ----

  predicate DeclaredAt(events: seq<Event>, j: nat) {
    j < |events| && events[j].op.Declare?
  }

  predicate ClearedAt(threshold: int, events: seq<Event>, j: nat) {
    j < |events| && events[j].op.MaybeClear? && MayClear(After(threshold, events, j).state, threshold)
  }

  /** Some outage was declared before k and has not been cleared since. */
  predicate OutageOpen(threshold: int, events: seq<Event>, k: nat) {
    exists d: nat :: d < k && DeclaredAt(events, d) && forall c: nat :: d < c < k ==> !ClearedAt(threshold, events, c)
  }

  /** d is the last declaration before k. */
  predicate LastDeclared(events: seq<Event>, d: nat, k: nat) {
    d < k && DeclaredAt(events, d) && forall j: nat :: d < j < k ==> !DeclaredAt(events, j)
  }

  predicate CleanBetween(events: seq<Event>, d: nat, k: nat) {
    exists c: nat :: d < c < k && c < |events| && events[c].op.CleanCycle?
  }

  /** The flag is up exactly while an outage is open. */
  lemma {:induction false} FlagIffOpen(threshold: int, events: seq<Event>, k: nat)
    requires k <= |events|
    ensures After(threshold, events, k).state.flag <==> OutageOpen(threshold, events, k)
  {
    if k > 0 {
      FlagIffOpen(threshold, events, k - 1);
      OpenStep(threshold, events, k - 1);
    }
  }

  lemma {:induction false} OpenStep(threshold: int, events: seq<Event>, k: nat)
    requires k < |events|
    ensures OutageOpen(threshold, events, k + 1) <==>
      DeclaredAt(events, k) || (OutageOpen(threshold, events, k) && !ClearedAt(threshold, events, k))
  {
    hide ClearedAt;
    if DeclaredAt(events, k) {
      assert forall c: nat :: k < c < k + 1 ==> !ClearedAt(threshold, events, c);
    }
    if OutageOpen(threshold, events, k) && !ClearedAt(threshold, events, k) {
      var d: nat :| d < k && DeclaredAt(events, d) && forall c: nat :: d < c < k ==> !ClearedAt(threshold, events, c);
      assert forall c: nat :: d < c < k + 1 ==> !ClearedAt(threshold, events, c);
    }
  }

  /** The counter is positive exactly when a clean cycle has committed since the last declaration. */
  lemma {:induction false} CleanIffSince(threshold: int, events: seq<Event>, d: nat, k: nat)
    requires k <= |events| && LastDeclared(events, d, k)
    ensures After(threshold, events, k).state.cleanCycles >= 1 <==> CleanBetween(events, d, k)
  {
    if k > d + 1 {
      CleanIffSince(threshold, events, d, k - 1);
      assert !DeclaredAt(events, k - 1);
    }
  }

  lemma {:induction false} HasLast(events: seq<Event>, d: nat, k: nat) returns (last: nat)
    requires d < k <= |events| && DeclaredAt(events, d)
    ensures LastDeclared(events, last, k)
    decreases k
  {
    if DeclaredAt(events, k - 1) { last := k - 1; }
    else {
      last := HasLast(events, d, k - 1);
    }
  }

  lemma {:induction false} OneLast(events: seq<Event>, d: nat, e: nat, k: nat)
    requires LastDeclared(events, d, k) && LastDeclared(events, e, k)
    ensures d == e
  {
  }

  /** A request to clear the flag succeeds if and only if an outage is open, the backlog is within the
      threshold, and a clean dual-track cycle has committed since the last declaration. */
  lemma {:induction false} ClearsIff(threshold: int, events: seq<Event>, k: nat)
    requires k < |events| && events[k].op.MaybeClear?
    ensures ClearedAt(threshold, events, k) <==>
      && OutageOpen(threshold, events, k)
      && |After(threshold, events, k).state.backlog| <= threshold
      && exists d: nat :: LastDeclared(events, d, k) && CleanBetween(events, d, k)
  {
    FlagIffOpen(threshold, events, k);
    if OutageOpen(threshold, events, k) {
      var d: nat :| d < k && DeclaredAt(events, d) && forall c: nat :: d < c < k ==> !ClearedAt(threshold, events, c);
      var last := HasLast(events, d, k);
      CleanIffSince(threshold, events, last, k);
      forall e: nat | LastDeclared(events, e, k) ensures e == last { OneLast(events, e, last, k); }
    }
  }

  // ---- duplicates ----

  predicate Ordered(events: seq<Event>) {
    forall i, j :: 0 <= i < j < |events| ==> events[i].now <= events[j].now
  }

  /** Event j took this id in through Enqueue. */
  predicate EnqueuedAt(threshold: int, events: seq<Event>, j: nat, id: Hash) {
    && j < |events| && events[j].op.Enqueue? && events[j].op.tx.id == id
    && !SeenLately(After(threshold, events, j).state, id, events[j].now)
  }

  predicate EnqueuedLately(threshold: int, events: seq<Event>, k: nat, id: Hash, now: int) {
    exists j: nat :: j < k && EnqueuedAt(threshold, events, j, id) && now - events[j].now < SEEN_TTL
  }

  lemma {:induction false} SeenStep(threshold: int, events: seq<Event>, k: nat, id: Hash, now: int)
    requires k < |events| && events[k].now <= now
    ensures SeenLately(After(threshold, events, k + 1).state, id, now) <==>
      || (EnqueuedAt(threshold, events, k, id) && now - events[k].now < SEEN_TTL)
      || (!EnqueuedAt(threshold, events, k, id) && SeenLately(After(threshold, events, k).state, id, now))
  {
  }

  /** An id is refused as a duplicate if and only if Enqueue took it in less than SEEN_TTL ago; what has been
      put back, drained or removed since makes no difference. */
  lemma {:induction false} BacklogDuplicateIff(threshold: int, events: seq<Event>, k: nat, id: Hash, now: int)
    requires Ordered(events) && k <= |events| && (k > 0 ==> events[k - 1].now <= now)
    ensures SeenLately(After(threshold, events, k).state, id, now) <==> EnqueuedLately(threshold, events, k, id, now)
  {
    if k > 0 {
      if k > 1 { assert events[k - 2].now <= events[k - 1].now; }
      BacklogDuplicateIff(threshold, events, k - 1, id, now);
      SeenStep(threshold, events, k - 1, id, now);
      hide EnqueuedAt, SeenLately, After;
      if EnqueuedAt(threshold, events, k - 1, id) && !(now - events[k - 1].now < SEEN_TTL) {
        forall j: nat | j < k ensures now - events[j].now >= SEEN_TTL {
          if j < k - 1 { assert events[j].now <= events[k - 1].now; }
        }
      }
    }
  }
}
