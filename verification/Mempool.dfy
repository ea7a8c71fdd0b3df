/** The mempool: admission with a duplicate window, the batcher's drains, and removal of what was committed
    elsewhere (pkg/tx/mempool.go:46-263). Time is in milliseconds. */
module Mempool {
  import opened Hashing
  import opened Filtering

  const TX_TTL: int := 60_000
  const SEEN_TTL: int := 2 * TX_TTL
  const DEFAULT_MAX_SIZE: int := 100_000

  /** `size` is the length of the transaction's JSON form, None when it has none. */
  datatype Tx = Tx(id: Hash, size: Option<nat>)

  datatype Entry = Entry(tx: Tx, at: int)

  const ENTRY_ID: Entry -> Hash := (e: Entry) => e.tx.id

  datatype Refusal = Full | Duplicate

  datatype Pool = Pool(pending: seq<Entry>, seen: map<Hash, int>)

  function CapOf(maxSize: int): nat {
    if maxSize <= 0 then DEFAULT_MAX_SIZE else maxSize
  }

  // ---- what the operations do ----

  predicate SeenLately(p: Pool, id: Hash, now: int) {
    id in p.seen && now - p.seen[id] < SEEN_TTL
  }

  function Admit(p: Pool, tx: Tx, now: int): Pool {
    Pool(p.pending + [Entry(tx, now)], p.seen[tx.id := now])
  }

  function SubmitRefusal(cap: nat, p: Pool, tx: Tx, now: int): Option<Refusal> {
    if SeenLately(p, tx.id, now) then Some(Duplicate)
    else if |p.pending| >= cap then Some(Full)
    else None
  }

  function Bytes(entries: seq<Entry>): nat {
    if entries == [] then 0
    else Bytes(entries[..|entries| - 1]) + match entries[|entries| - 1].tx.size case Some(n) => n case None => 0
  }

  /** Sizes add up, entry by entry; one without a size counts nothing. */
  lemma {:induction false} BytesAdd(a: seq<Entry>, b: seq<Entry>)
    ensures Bytes(a + b) == Bytes(a) + Bytes(b)
    ensures forall e: Entry :: Bytes([e]) == if e.tx.size.Some? then e.tx.size.value else 0
  {
    forall e: Entry ensures Bytes([e]) == if e.tx.size.Some? then e.tx.size.value else 0 {
      assert [e][..0] == [];
    }
    if b == [] {
      assert a + b == a;
    } else {
      BytesAdd(a, b[..|b| - 1]);
      assert (a + b)[..|a + b| - 1] == a + b[..|b| - 1];
    }
  }

  /** A prefix of n entries may be drained: no entry after the first takes the running size over the limit. */
  predicate Fits(pending: seq<Entry>, maxBytes: int, n: nat)
    requires n <= |pending|
  {
    forall k :: 1 <= k < n && pending[k].tx.size.Some? && maxBytes > 0 ==> Bytes(pending[..k + 1]) <= maxBytes
  }

  function Limit(maxCount: int, length: nat): nat {
    if 0 < maxCount < length then maxCount else length
  }

  /** The longest prefix that fits. */
  predicate Longest(pending: seq<Entry>, maxCount: int, maxBytes: int, n: nat) {
    && n <= Limit(maxCount, |pending|)
    && Fits(pending, maxBytes, n)
    && (n < Limit(maxCount, |pending|) ==> !Fits(pending, maxBytes, n + 1))
  }

  lemma {:induction false} FitsShorter(pending: seq<Entry>, maxBytes: int, m: nat, n: nat)
    ensures m <= n <= |pending| && Fits(pending, maxBytes, n) ==> Fits(pending, maxBytes, m)
  {
  }

  lemma {:induction false} LongestUnique(pending: seq<Entry>, maxCount: int, maxBytes: int, m: nat, n: nat)
    requires Longest(pending, maxCount, maxBytes, m) && Longest(pending, maxCount, maxBytes, n)
    ensures m == n
  {
    FitsShorter(pending, maxBytes, m + 1, n);
    FitsShorter(pending, maxBytes, n + 1, m);
  }

  lemma {:induction false} BytesGrow(entries: seq<Entry>, m: nat, n: nat)
    requires m <= n <= |entries|
    ensures Bytes(entries[..m]) <= Bytes(entries[..n])
    decreases n
  {
    if m < n {
      assert entries[..n][..n - 1] == entries[..n - 1];
      BytesGrow(entries, m, n - 1);
    }
  }

  /** What the drain means when every entry has a size: the batch is within both limits, and one more entry
      would break one of them; unless the first entry alone is too big, and then it is drained alone. */
  lemma {:induction false} DrainIsMaximal(pending: seq<Entry>, maxCount: int, maxBytes: int, n: nat)
    requires Longest(pending, maxCount, maxBytes, n)
    requires maxBytes > 0 && pending != [] && forall e <- pending :: e.tx.size.Some?
    ensures n >= 1
    ensures if Bytes(pending[..1]) > maxBytes then n == 1
            else && Bytes(pending[..n]) <= maxBytes
                 && (n == Limit(maxCount, |pending|) || Bytes(pending[..n + 1]) > maxBytes)
  {
    assert Fits(pending, maxBytes, 1);
    if |pending| >= 2 { BytesGrow(pending, 1, 2); }
    if n < Limit(maxCount, |pending|) {
      assert Fits(pending, maxBytes, n + 1) <==> Bytes(pending[..n + 1]) <= maxBytes;
    }
  }

  /** With sizes anywhere: a first entry that alone is too big is drained alone exactly when no entry without
      a size comes right behind it within the count limit. */
  lemma {:induction false} OversizedFirstAloneIff(pending: seq<Entry>, maxCount: int, maxBytes: int, n: nat)
    requires Longest(pending, maxCount, maxBytes, n)
    requires maxBytes > 0 && pending != [] && Bytes(pending[..1]) > maxBytes
    ensures n == 1 <==> Limit(maxCount, |pending|) == 1 || pending[1].tx.size.Some?
  {
    assert Fits(pending, maxBytes, 1);
    if |pending| >= 2 {
      BytesGrow(pending, 1, 2);
      FitsShorter(pending, maxBytes, 2, n);
      assert Fits(pending, maxBytes, 2) <==> pending[1].tx.size.None?;
    }
  }

  function TheLongest(pending: seq<Entry>, maxCount: int, maxBytes: int, n: nat): (r: nat)
    requires n <= Limit(maxCount, |pending|) && Fits(pending, maxBytes, n)
    ensures Longest(pending, maxCount, maxBytes, r)
    decreases |pending| - n
  {
    if n < Limit(maxCount, |pending|) && Fits(pending, maxBytes, n + 1) then TheLongest(pending, maxCount, maxBytes, n + 1) else n
  }

  // ---- the mempool object ----

  class Queue {
    const maxSize: int
    var pending: seq<Entry>
    var seen: map<Hash, int>

    function Contents(): Pool reads this { Pool(pending, seen) }

    constructor (maxSize: int)
      ensures Contents() == Pool([], map[]) && this.maxSize == maxSize
    {
      this.maxSize, pending, seen := maxSize, [], map[];
    }

    method Submit(tx: Tx, now: int) returns (err: Option<Refusal>)
      modifies this
      ensures err == SubmitRefusal(CapOf(maxSize), old(Contents()), tx, now)
      ensures err.None? <==> !(tx.id in old(seen) && now - old(seen)[tx.id] < 120_000)
                             && |old(pending)| < if maxSize > 0 then maxSize else 100_000
      ensures Contents() == if err.None? then Admit(old(Contents()), tx, now) else old(Contents())
    {
      if tx.id in seen && now - seen[tx.id] < SEEN_TTL { return Some(Duplicate); }
      if |pending| >= CapOf(maxSize) { return Some(Full); }
      seen := seen[tx.id := now];
      pending := pending + [Entry(tx, now)];
      return None;
    }

    /** Puts back an entry this mempool drained itself: no duplicate check. */
    method Reinsert(tx: Tx, now: int) returns (err: Option<Refusal>)
      modifies this
      ensures err == if |old(pending)| >= CapOf(maxSize) then Some(Full) else None
      ensures Contents() == if err.None? then Admit(old(Contents()), tx, now) else old(Contents())
    {
      if |pending| >= CapOf(maxSize) { return Some(Full); }
      seen := seen[tx.id := now];
      pending := pending + [Entry(tx, now)];
      return None;
    }

    method DrainBatch(max: int, now: int) returns (batch: seq<Entry>)
      modifies this
      ensures old(pending) == batch + pending && |batch| == Limit(max, |old(pending)|)
      ensures seen == Swept(old(seen), now, SEEN_TTL)
    {
      seen := Sweep(seen, now, SEEN_TTL);
      var n := max;
      if max <= 0 || max > |pending| { n := |pending|; }
      batch := pending[..n];
      pending := pending[n..];
    }

    /** How many entries fit in one batch. */
    method CountToDrain(maxCount: int, maxBytes: int) returns (n: nat)
      ensures Longest(pending, maxCount, maxBytes, n)
    {
      var limit := |pending|;
      if 0 < maxCount < limit { limit := maxCount; }
      var total := 0;
      n := 0;
      while n < limit
        invariant n <= limit == Limit(maxCount, |pending|)
        invariant total == Bytes(pending[..n]) && Fits(pending, maxBytes, n)
      {
        assert pending[..n + 1][..n] == pending[..n];
        match pending[n].tx.size
        case None =>
          n := n + 1;
        case Some(size) =>
          if maxBytes > 0 && n > 0 && total + size > maxBytes { break; }
          total := total + size;
          n := n + 1;
      }
    }

    method DrainBatchBytes(maxCount: int, maxBytes: int, now: int) returns (batch: seq<Entry>)
      modifies this
      ensures old(pending) == batch + pending && Longest(old(pending), maxCount, maxBytes, |batch|)
      ensures |batch| == TheLongest(old(pending), maxCount, maxBytes, 0)
      ensures seen == Swept(old(seen), now, SEEN_TTL)
    {
      seen := Sweep(seen, now, SEEN_TTL);
      var n := CountToDrain(maxCount, maxBytes);
      LongestUnique(pending, maxCount, maxBytes, n, TheLongest(pending, maxCount, maxBytes, 0));
      batch := pending[..n];
      pending := pending[n..];
    }

    method Remove(ids: seq<Hash>)
      modifies this`pending
      ensures pending == Kept(old(pending), ENTRY_ID, set id <- ids)
    {
      ghost var drop := set id <- ids;
      if |ids| == 0 {
        KeepsAll(pending, ENTRY_ID, drop);
        return;
      }
      var kept := [];
      for i := 0 to |pending|
        invariant kept == Kept(pending[..i], ENTRY_ID, drop)
      {
        assert pending[..i + 1][..i] == pending[..i];
        if pending[i].tx.id !in ids { kept := kept + [pending[i]]; }
      }
      assert pending[..|pending|] == pending;
      pending := kept;
    }

    method Contains(id: Hash) returns (r: bool)
      ensures r <==> exists e <- pending :: e.tx.id == id
    {
      for i := 0 to |pending|
        invariant forall k :: 0 <= k < i ==> pending[k].tx.id != id
      {
        if pending[i].tx.id == id { return true; }
      }
      return false;
    }
  }

  // ---- runs ----

  datatype Op =
    | Submit(tx: Tx)
    | Reinsert(tx: Tx)
    | Drain(max: int)
    | DrainBytes(maxCount: int, maxBytes: int)
    | Remove(ids: set<Hash>)

  datatype Event = Event(op: Op, now: int)

  /** The pool together with the books: every entry ever admitted, drained and removed. */
  datatype World = World(pool: Pool, admitted: seq<Entry>, drained: seq<Entry>, removed: seq<Entry>)

  function DrainedBy(w: World, n: nat, now: int): World
    requires n <= |w.pool.pending|
  {
    w.(pool := Pool(w.pool.pending[n..], Swept(w.pool.seen, now, SEEN_TTL)), drained := w.drained + w.pool.pending[..n])
  }

  function Admitted(w: World, tx: Tx, now: int): World {
    w.(pool := Admit(w.pool, tx, now), admitted := w.admitted + [Entry(tx, now)])
  }

  function Step(cap: nat, w: World, e: Event): World {
    match e.op
    case Submit(tx) => if SubmitRefusal(cap, w.pool, tx, e.now).None? then Admitted(w, tx, e.now) else w
    case Reinsert(tx) => if |w.pool.pending| < cap then Admitted(w, tx, e.now) else w
    case Drain(max) => DrainedBy(w, Limit(max, |w.pool.pending|), e.now)
    case DrainBytes(maxCount, maxBytes) => DrainedBy(w, TheLongest(w.pool.pending, maxCount, maxBytes, 0), e.now)
    case Remove(ids) =>
      w.(pool := w.pool.(pending := Kept(w.pool.pending, ENTRY_ID, ids)), removed := w.removed + Cut(w.pool.pending, ENTRY_ID, ids))
  }

  function Run(cap: nat, events: seq<Event>): World
    decreases |events|
  {
    if events == [] then World(Pool([], map[]), [], [], [])
    else Step(cap, Run(cap, events[..|events| - 1]), events[|events| - 1])
  }

  predicate Ordered(events: seq<Event>) {
    forall i, j :: 0 <= i < j < |events| ==> events[i].now <= events[j].now
  }

  predicate SubmittedAt(cap: nat, events: seq<Event>, i: nat, id: Hash) {
    && i < |events| && events[i].op.Submit? && events[i].op.tx.id == id
    && SubmitRefusal(cap, Run(cap, events[..i]).pool, events[i].op.tx, events[i].now).None?
  }

  predicate Balanced(w: World) {
    multiset(w.admitted) == multiset(w.drained) + multiset(w.removed) + multiset(w.pool.pending)
  }

  lemma {:induction false} DrainBalanced(w: World, n: nat, now: int)
    requires n <= |w.pool.pending| && Balanced(w)
    ensures Balanced(DrainedBy(w, n, now))
  {
    assert w.pool.pending == w.pool.pending[..n] + w.pool.pending[n..];
  }

  lemma {:induction false} AdmitBalanced(w: World, tx: Tx, now: int)
    requires Balanced(w)
    ensures Balanced(Admitted(w, tx, now))
  {
  }

  lemma {:induction false} RemoveBalanced(cap: nat, w: World, ids: set<Hash>, now: int)
    requires Balanced(w)
    ensures Balanced(Step(cap, w, Event(Remove(ids), now)))
  {
    KeptAndCutPartition(w.pool.pending, ENTRY_ID, ids);
  }

  lemma {:induction false} StepBalanced(cap: nat, w: World, e: Event)
    requires Balanced(w) && |w.pool.pending| <= cap
    ensures Balanced(Step(cap, w, e)) && |Step(cap, w, e).pool.pending| <= cap
  {
    hide Balanced;
    match e.op
    case Submit(tx) => AdmitBalanced(w, tx, e.now);
    case Reinsert(tx) => AdmitBalanced(w, tx, e.now);
    case Drain(max) => DrainBalanced(w, Limit(max, |w.pool.pending|), e.now);
    case DrainBytes(maxCount, maxBytes) => DrainBalanced(w, TheLongest(w.pool.pending, maxCount, maxBytes, 0), e.now);
    case Remove(ids) => RemoveBalanced(cap, w, ids, e.now);
  }

  /** Conservation, and the cap: over every run each admitted entry is pending, drained or removed, exactly
      once, and the queue never outgrows its limit. */
  lemma {:induction false} EveryEntryAccounted(cap: nat, events: seq<Event>)
    ensures Balanced(Run(cap, events)) && |Run(cap, events).pool.pending| <= cap
    decreases |events|
  {
    if events != [] {
      EveryEntryAccounted(cap, events[..|events| - 1]);
      StepBalanced(cap, Run(cap, events[..|events| - 1]), events[|events| - 1]);
    }
  }

  predicate RemembersFrom(p: Pool, id: Hash, at: int) {
    id in p.seen && p.seen[id] >= at
  }

  lemma {:induction false} StepRemembers(cap: nat, w: World, e: Event, id: Hash, at: int)
    requires RemembersFrom(w.pool, id, at) && at <= e.now && e.now - at < SEEN_TTL
    ensures RemembersFrom(Step(cap, w, e).pool, id, at)
  {
  }

  /** After an admission at `at`, and until SEEN_TTL later, the id is remembered. */
  lemma {:induction false} Remembered(cap: nat, events: seq<Event>, i: nat, j: nat, id: Hash)
    requires Ordered(events) && SubmittedAt(cap, events, i, id) && i < j <= |events|
    requires events[j - 1].now - events[i].now < SEEN_TTL
    ensures RemembersFrom(Run(cap, events[..j]).pool, id, events[i].now)
    decreases j
  {
    hide SubmitRefusal;
    assert events[..j][..j - 1] == events[..j - 1];
    if j > i + 1 {
      Remembered(cap, events, i, j - 1, id);
      StepRemembers(cap, Run(cap, events[..j - 1]), events[j - 1], id, events[i].now);
    }
  }

  /** Under a clock that never runs backwards, two admissions of one id by Submit are SEEN_TTL apart or more,
      whatever drains, removals and reinsertions happen between them. */
  lemma {:induction false} SubmitsAreSpaced(cap: nat, events: seq<Event>, i: nat, j: nat, id: Hash)
    requires Ordered(events) && i < j
    requires SubmittedAt(cap, events, i, id) && SubmittedAt(cap, events, j, id)
    ensures events[j].now - events[i].now >= SEEN_TTL
  {
    if events[j].now - events[i].now < SEEN_TTL {
      Remembered(cap, events, i, j, id);
    }
  }

  // ---- when exactly a submission is a duplicate ----

  predicate AdmittedWith(w: World, id: Hash, at: int) {
    exists x :: x in w.admitted && x.tx.id == id && x.at == at
  }

  /** The record of seen ids: each id's time is that of an admission, and no younger admission is forgotten. */
  predicate SeenIsLatest(w: World, now: int) {
    && (forall id <- w.pool.seen :: w.pool.seen[id] <= now && AdmittedWith(w, id, w.pool.seen[id]))
    && (forall x <- w.admitted :: x.at <= now && (now - x.at < SEEN_TTL ==> RemembersFrom(w.pool, x.tx.id, x.at)))
  }

  lemma {:induction false} AdmitKeepsSeen(w: World, tx: Tx, now: int)
    requires SeenIsLatest(w, now)
    ensures SeenIsLatest(Admitted(w, tx, now), now)
  {
    var w' := Admitted(w, tx, now);
    assert Entry(tx, now) in w'.admitted;
    forall id | id in w'.pool.seen ensures AdmittedWith(w', id, w'.pool.seen[id]) {
      if id != tx.id {
        var x :| x in w.admitted && x.tx.id == id && x.at == w.pool.seen[id];
        assert x in w'.admitted;
      }
    }
  }

  /** Draining sweeps the record; removals leave it alone. */
  lemma {:induction false} SweepKeepsSeen(w: World, w': World, now: int)
    requires SeenIsLatest(w, now) && w'.admitted == w.admitted
    requires w'.pool.seen == w.pool.seen || w'.pool.seen == Swept(w.pool.seen, now, SEEN_TTL)
    ensures SeenIsLatest(w', now)
  {
    assert forall id, at :: AdmittedWith(w', id, at) <==> AdmittedWith(w, id, at);
    hide AdmittedWith;
  }

  lemma {:induction false} StepKeepsSeen(cap: nat, w: World, e: Event)
    requires SeenIsLatest(w, e.now)
    ensures SeenIsLatest(Step(cap, w, e), e.now)
  {
    hide SeenIsLatest, SubmitRefusal;
    match e.op
    case Submit(tx) => AdmitKeepsSeen(w, tx, e.now);
    case Reinsert(tx) => AdmitKeepsSeen(w, tx, e.now);
    case Drain(_) => SweepKeepsSeen(w, Step(cap, w, e), e.now);
    case DrainBytes(_, _) => SweepKeepsSeen(w, Step(cap, w, e), e.now);
    case Remove(_) => SweepKeepsSeen(w, Step(cap, w, e), e.now);
  }

  lemma {:induction false} RunKeepsSeen(cap: nat, events: seq<Event>, now: int)
    requires Ordered(events) && (events != [] ==> events[|events| - 1].now <= now)
    ensures SeenIsLatest(Run(cap, events), now)
    decreases |events|
  {
    if events != [] {
      var n := |events| - 1;
      RunKeepsSeen(cap, events[..n], events[n].now);
      StepKeepsSeen(cap, Run(cap, events[..n]), events[n]);
    }
  }

  /** Some copy was admitted, by Submit or by Reinsert, less than SEEN_TTL ago. */
  predicate AdmittedLately(w: World, id: Hash, now: int) {
    exists x :: x in w.admitted && x.tx.id == id && now - x.at < SEEN_TTL
  }

  /** After any run a submission is refused as a duplicate if and only if the id was admitted, or put back,
      less than SEEN_TTL ago; whether it is still pending makes no difference. */
  lemma {:induction false} DuplicateIff(cap: nat, events: seq<Event>, tx: Tx, now: int)
    requires Ordered(events) && (events != [] ==> events[|events| - 1].now <= now)
    ensures SubmitRefusal(cap, Run(cap, events).pool, tx, now) == Some(Duplicate) <==> AdmittedLately(Run(cap, events), tx.id, now)
  {
    RunKeepsSeen(cap, events, now);
  }

  /** After any run a submission is admitted if and only if its id was not admitted or put back within the window
      and the entries still queued, all admitted ones less those drained and removed, are fewer than the cap. */
  lemma {:induction false} SubmitAdmittedIff(cap: nat, events: seq<Event>, tx: Tx, now: int)
    requires Ordered(events) && (events != [] ==> events[|events| - 1].now <= now)
    ensures var w := Run(cap, events);
      SubmitRefusal(cap, w.pool, tx, now).None? <==>
        !AdmittedLately(w, tx.id, now) && |w.admitted| - |w.drained| - |w.removed| < cap
  {
    hide AdmittedLately;
    DuplicateIff(cap, events, tx, now);
    EveryEntryAccounted(cap, events);
    var w := Run(cap, events);
    assert |multiset(w.admitted)| == |multiset(w.drained) + multiset(w.removed) + multiset(w.pool.pending)|;
  }

  lemma {:induction false} PendingWasAdmitted(cap: nat, events: seq<Event>, x: Entry)
    requires x in Run(cap, events).pool.pending
    ensures x in Run(cap, events).admitted
  {
    EveryEntryAccounted(cap, events);
    assert multiset(Run(cap, events).pool.pending)[x] > 0;
    assert multiset(Run(cap, events).admitted)[x] > 0;
  }

  /** A transaction still pending is refused as a duplicate as long as its pending entry is younger than
      SEEN_TTL. */
  lemma {:induction false} PendingDuplicateRefused(cap: nat, events: seq<Event>, tx: Tx, now: int, x: Entry)
    requires Ordered(events) && (events != [] ==> events[|events| - 1].now <= now)
    requires x in Run(cap, events).pool.pending && x.tx.id == tx.id && now - x.at < SEEN_TTL
    ensures SubmitRefusal(cap, Run(cap, events).pool, tx, now) == Some(Duplicate)
  {
    PendingWasAdmitted(cap, events, x);
    DuplicateIff(cap, events, tx, now);
  }

  /** Once every admission of it is older than that it is not, although it never left the queue: it is then
      pending twice. */
  lemma {:induction false} StalePendingReadmitted(cap: nat, events: seq<Event>, tx: Tx, now: int, x: Entry)
    requires Ordered(events) && (events != [] ==> events[|events| - 1].now <= now)
    requires x in Run(cap, events).pool.pending && x.tx.id == tx.id && |Run(cap, events).pool.pending| < cap
    requires !AdmittedLately(Run(cap, events), tx.id, now)
    ensures Run(cap, events + [Event(Submit(tx), now)]).pool.pending == Run(cap, events).pool.pending + [Entry(tx, now)]
    ensures x in Run(cap, events + [Event(Submit(tx), now)]).pool.pending
  {
    DuplicateIff(cap, events, tx, now);
    assert (events + [Event(Submit(tx), now)])[..|events|] == events;
  }

  /** The smallest instance. */
  lemma {:induction false} StalePendingIsReadmitted(tx: Tx)
    ensures Run(2, [Event(Submit(tx), 0), Event(Submit(tx), SEEN_TTL)]).pool.pending == [Entry(tx, 0), Entry(tx, SEEN_TTL)]
  {
    var first := [Event(Submit(tx), 0)];
    assert first[..0] == [];
    assert Run(2, first).admitted == [Entry(tx, 0)] && Run(2, first).pool.pending == [Entry(tx, 0)];
    StalePendingReadmitted(2, first, tx, SEEN_TTL, Entry(tx, 0));
    assert first + [Event(Submit(tx), SEEN_TTL)] == [Event(Submit(tx), 0), Event(Submit(tx), SEEN_TTL)];
  }
}
