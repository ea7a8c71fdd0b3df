/** Concurrent transactions: processOne calls interleaved at the grain of their critical sections
    (pkg/tx/pipeline.go:219-243, 368-439 and 1190-1217, pkg/state/store.go:216-224).

    A thread first checks the reservation set under the mutex, then looks its nullifiers up one store
    transaction at a time, then reserves under the mutex, runs stages 2 to 4, and finally marks its
    nullifiers spent one test-and-set at a time. */
module Interleaving {
  import opened Hashing
  import opened Stages
  import opened Atomicity

  datatype Pc =
    | Start
    | Looking(next: nat)       // passed the reservation check; nullifiers before `next` were unspent
    | Reserved                 // holds reservations; stages 2 to 4 under way
    | Spending(next: nat)      // stage 5; nullifiers before `next` are marked
    | Accepted
    | Refused(marked: nat)     // rejected, after marking that many nullifiers

  datatype Thread = Thread(ns: seq<Hash>, pc: Pc)

  datatype State = State(spent: set<Hash>, pending: set<Hash>, threads: seq<Thread>)

  /** `pass` stands for the outcome of everything a step checks besides nullifiers. */
  datatype Action = Action(thread: nat, pass: bool)

  function Step(s: State, a: Action): State {
    if a.thread >= |s.threads| then s
    else
      var t := s.threads[a.thread];
      var ns := SetOf(t.ns);
      match t.pc
      case Start =>
        var free := a.pass && forall n :: n in t.ns ==> n !in s.pending;
        s.(threads := s.threads[a.thread := t.(pc := if free then Looking(0) else Refused(0))])
      case Looking(i) =>
        if i < |t.ns| then
          s.(threads := s.threads[a.thread := t.(pc := if t.ns[i] in s.spent then Refused(0) else Looking(i + 1))])
        else if a.pass then
          s.(pending := s.pending + ns, threads := s.threads[a.thread := t.(pc := Reserved)])
        else s.(threads := s.threads[a.thread := t.(pc := Refused(0))])
      case Reserved =>
        if a.pass then s.(threads := s.threads[a.thread := t.(pc := Spending(0))])
        else s.(pending := s.pending - ns, threads := s.threads[a.thread := t.(pc := Refused(0))])
      case Spending(i) =>
        if i >= |t.ns| then s.(pending := s.pending - ns, threads := s.threads[a.thread := t.(pc := Accepted)])
        else if t.ns[i] in s.spent then
          s.(pending := s.pending - ns, threads := s.threads[a.thread := t.(pc := Refused(i))])
        else s.(spent := s.spent + {t.ns[i]}, threads := s.threads[a.thread := t.(pc := Spending(i + 1))])
      case Accepted => s
      case Refused(_) => s
  }

  function Run(s: State, schedule: seq<Action>): State
    decreases |schedule|
  {
    if schedule == [] then s else Step(Run(s, schedule[..|schedule| - 1]), schedule[|schedule| - 1])
  }

  /** How many of its nullifiers a thread has marked. */
  function Progress(t: Thread): nat {
    match t.pc
    case Spending(i) => i
    case Accepted => |t.ns|
    case Refused(i) => i
    case Start => 0
    case Looking(_) => 0
    case Reserved => 0
  }

  predicate InBounds(t: Thread) {
    Progress(t) <= |t.ns|
  }

  function Marked(t: Thread): set<Hash>
    requires InBounds(t)
  {
    SetOf(t.ns[..Progress(t)])
  }

  /** Everything marked since the start was marked once, by one thread. */
  predicate Inv(s: State, spent0: set<Hash>) {
    && (forall t :: 0 <= t < |s.threads| ==> InBounds(s.threads[t]))
    && (forall t :: 0 <= t < |s.threads| ==>
          NoRepeats(s.threads[t].ns[..Progress(s.threads[t])]) && Marked(s.threads[t]) <= s.spent && Marked(s.threads[t]) !! spent0)
    && (forall t, u :: 0 <= t < u < |s.threads| ==> Marked(s.threads[t]) !! Marked(s.threads[u]))
    && spent0 <= s.spent
  }

  lemma {:induction false} MarkOne(ns: seq<Hash>, i: nat, spent: set<Hash>)
    requires i < |ns| && NoRepeats(ns[..i]) && SetOf(ns[..i]) <= spent && ns[i] !in spent
    ensures NoRepeats(ns[..i + 1]) && SetOf(ns[..i + 1]) == SetOf(ns[..i]) + {ns[i]}
  {
    assert ns[..i + 1] == ns[..i] + [ns[i]];
    assert ns[i] !in SetOf(ns[..i]);
  }

  /** A step changes one thread; it marks at most one nullifier, an unspent one of that thread. */
  lemma {:induction false} StepMarks(s: State, a: Action)
    requires a.thread < |s.threads| && InBounds(s.threads[a.thread])
    ensures var t, s' := s.threads[a.thread], Step(s, a);
      && s'.threads == s.threads[a.thread := s'.threads[a.thread]]
      && var t' := s'.threads[a.thread];
         && t'.ns == t.ns && InBounds(t')
         && ((Progress(t') == Progress(t) && s'.spent == s.spent)
             || (Progress(t') == Progress(t) + 1 && t.ns[Progress(t)] !in s.spent && s'.spent == s.spent + {t.ns[Progress(t)]}))
  {
  }

  lemma {:induction false} StepKeepsInv(s: State, a: Action, spent0: set<Hash>)
    requires Inv(s, spent0)
    ensures Inv(Step(s, a), spent0)
  {
    hide Step;
    if a.thread < |s.threads| {
      var t := s.threads[a.thread];
      StepMarks(s, a);
      if Progress(Step(s, a).threads[a.thread]) == Progress(t) + 1 {
        MarkOne(t.ns, Progress(t), s.spent);
      }
    } else {
      OutOfRange(s, a);
    }
  }

  lemma {:induction false} OutOfRange(s: State, a: Action)
    requires a.thread >= |s.threads|
    ensures Step(s, a) == s
  {
  }

  lemma {:induction false} RunKeepsInv(s: State, schedule: seq<Action>, spent0: set<Hash>)
    requires Inv(s, spent0)
    ensures Inv(Run(s, schedule), spent0)
    decreases |schedule|
  {
    if schedule != [] {
      RunKeepsInv(s, schedule[..|schedule| - 1], spent0);
      StepKeepsInv(Run(s, schedule[..|schedule| - 1]), schedule[|schedule| - 1], spent0);
    }
  }

  predicate AllAtStart(s: State) {
    forall t :: 0 <= t < |s.threads| ==> s.threads[t].pc == Start
  }

  /** Under every schedule of any number of threads: an accepted thread's nullifiers do not repeat, were
      unspent at the start, and are shared with no other accepted thread. */
  lemma {:induction false} NoDoubleSpendInterleaved(s: State, schedule: seq<Action>, t: nat, u: nat)
    requires AllAtStart(s)
    requires var e := Run(s, schedule); t < u < |e.threads| && e.threads[t].pc.Accepted? && e.threads[u].pc.Accepted?
    ensures var e := Run(s, schedule);
      && NoRepeats(e.threads[t].ns) && NoRepeats(e.threads[u].ns)
      && SetOf(e.threads[t].ns) !! s.spent && SetOf(e.threads[u].ns) !! s.spent
      && SetOf(e.threads[t].ns) !! SetOf(e.threads[u].ns)
  {
    RunKeepsInv(s, schedule, s.spent);
    var e := Run(s, schedule);
    assert e.threads[t].ns[..|e.threads[t].ns|] == e.threads[t].ns;
    assert e.threads[u].ns[..|e.threads[u].ns|] == e.threads[u].ns;
  }

  // ---------------------------------------------------------------- when the reservation set is not exclusive

  /** A thread that holds reservations: past reserving, and neither accepted nor refused yet. */
  predicate Holds(pc: Pc) {
    pc.Reserved? || pc.Spending?
  }

  /** None of the list is reserved or spent. */
  predicate FreeIn(ns: seq<Hash>, s: State) {
    forall n <- ns :: n !in s.pending && n !in s.spent
  }

  /** Whoever is past its checks was free at the start, as far as it has checked; what was reserved or spent
      at the start stays so. */
  predicate CheckedSince(s0: State, s: State) {
    && s0.pending <= s.pending && s0.spent <= s.spent && |s.threads| == |s0.threads|
    && forall t :: 0 <= t < |s.threads| ==> s.threads[t].ns == s0.threads[t].ns && ThreadChecked(s0, s.threads[t])
  }

  predicate ThreadChecked(s0: State, t: Thread) {
    && (t.pc.Looking? || Holds(t.pc) ==> forall n <- t.ns :: n !in s0.pending)
    && (t.pc.Looking? ==> t.pc.next <= |t.ns| && forall k :: 0 <= k < t.pc.next ==> t.ns[k] !in s0.spent)
    && (Holds(t.pc) ==> forall n <- t.ns :: n !in s0.spent)
  }

  /** A step changes one thread, and releases only what a thread holding reservations lists. */
  lemma {:induction false} StepChecks(s0: State, s: State, a: Action)
    requires CheckedSince(s0, s) && a.thread < |s.threads|
    ensures var t, s' := s.threads[a.thread], Step(s, a);
      && s'.threads == s.threads[a.thread := s'.threads[a.thread]] && s'.threads[a.thread].ns == t.ns
      && s.spent <= s'.spent && s0.pending <= s'.pending && ThreadChecked(s0, s'.threads[a.thread])
  {
    assert ThreadChecked(s0, s.threads[a.thread]);
  }

  lemma {:induction false} StepKeepsChecked(s0: State, s: State, a: Action)
    requires CheckedSince(s0, s)
    ensures CheckedSince(s0, Step(s, a))
  {
    hide Step, ThreadChecked;
    if a.thread < |s.threads| { StepChecks(s0, s, a); } else { OutOfRange(s, a); }
  }

  lemma {:induction false} RunKeepsChecked(s: State, schedule: seq<Action>)
    requires AllAtStart(s)
    ensures CheckedSince(s, Run(s, schedule))
    decreases |schedule|
  {
    hide Step;
    if schedule != [] {
      RunKeepsChecked(s, schedule[..|schedule| - 1]);
      StepKeepsChecked(s, Run(s, schedule[..|schedule| - 1]), schedule[|schedule| - 1]);
    }
  }

  /** The state with one thread elsewhere. */
  function Moved(s: State, t: nat, pc: Pc): State
    requires t < |s.threads|
  {
    s.(threads := s.threads[t := s.threads[t].(pc := pc)])
  }

  lemma {:induction false} Then(s: State, done: seq<Action>, a: Action)
    ensures Run(s, done + [a]) == Step(Run(s, done), a)
  {
    assert (done + [a])[..|done|] == done;
  }

  /** A thread whose nullifiers are unspent can pass every lookup. */
  lemma {:induction false} WalkLookups(s: State, done: seq<Action>, t: nat, i: nat) returns (schedule: seq<Action>)
    requires var e := Run(s, done);
      && t < |e.threads| && i <= |e.threads[t].ns| && e.threads[t].pc == Looking(i)
      && forall n <- e.threads[t].ns :: n !in e.spent
    ensures var e := Run(s, done); Run(s, schedule) == Moved(e, t, Looking(|e.threads[t].ns|))
    decreases |Run(s, done).threads[t].ns| - i
  {
    var e := Run(s, done);
    schedule := done;
    if i < |e.threads[t].ns| {
      Then(s, done, Action(t, true));
      assert Run(s, done + [Action(t, true)]) == Moved(e, t, Looking(i + 1));
      schedule := WalkLookups(s, done + [Action(t, true)], t, i + 1);
      assert Moved(Moved(e, t, Looking(i + 1)), t, Looking(|e.threads[t].ns|)) == Moved(e, t, Looking(|e.threads[t].ns|));
    } else {
      assert e.threads[t := e.threads[t].(pc := Looking(i))] == e.threads;
    }
  }

  /** A thread at the start whose nullifiers are free can pass all its checks. */
  lemma {:induction false} PassChecks(s: State, done: seq<Action>, t: nat) returns (schedule: seq<Action>)
    requires var e := Run(s, done); t < |e.threads| && e.threads[t].pc == Start && FreeIn(e.threads[t].ns, e)
    ensures var e := Run(s, done); Run(s, schedule) == Moved(e, t, Looking(|e.threads[t].ns|))
  {
    var e := Run(s, done);
    Then(s, done, Action(t, true));
    assert Run(s, done + [Action(t, true)]) == Moved(e, t, Looking(0));
    schedule := WalkLookups(s, done + [Action(t, true)], t, 0);
    assert Moved(Moved(e, t, Looking(0)), t, Looking(|e.threads[t].ns|)) == Moved(e, t, Looking(|e.threads[t].ns|));
  }

  lemma {:induction false} ReserveNow(s: State, done: seq<Action>, t: nat)
    requires var e := Run(s, done); t < |e.threads| && e.threads[t].pc == Looking(|e.threads[t].ns|)
    ensures var e := Run(s, done);
      Run(s, done + [Action(t, true)]) == Moved(e, t, Reserved).(pending := e.pending + SetOf(e.threads[t].ns))
  {
    Then(s, done, Action(t, true));
  }

  /** Two threads whose lists are free can both hold their reservations: both check before either reserves. */
  lemma {:induction false} BothReserve(s: State, t: nat, u: nat) returns (schedule: seq<Action>)
    requires AllAtStart(s) && t < |s.threads| && u < |s.threads| && t != u
    requires FreeIn(s.threads[t].ns, s) && FreeIn(s.threads[u].ns, s)
    ensures Run(s, schedule) ==
      State(s.spent, s.pending + SetOf(s.threads[t].ns) + SetOf(s.threads[u].ns),
            s.threads[t := s.threads[t].(pc := Reserved)][u := s.threads[u].(pc := Reserved)])
  {
    hide Step, SetOf;
    schedule := PassChecks(s, [], t);
    assert FreeIn(s.threads[u].ns, Run(s, schedule));
    schedule := PassChecks(s, schedule, u);
    var e := Run(s, schedule);
    ReserveNow(s, schedule, t);
    schedule := schedule + [Action(t, true)];
    ReserveNow(s, schedule, u);
    schedule := schedule + [Action(u, true)];
    assert Run(s, schedule).threads == s.threads[t := s.threads[t].(pc := Reserved)][u := s.threads[u].(pc := Reserved)];
  }

  ghost predicate CanBothHold(s: State, t: nat, u: nat) {
    exists schedule :: var e := Run(s, schedule);
      t < |e.threads| && u < |e.threads| && Holds(e.threads[t].pc) && Holds(e.threads[u].pc)
  }

  /** From any start, two threads hold reservations at once under some schedule if and only if neither lists
      a nullifier that was reserved or spent at the start. What they list in common does not matter. */
  lemma {:induction false} BothHoldIff(s: State, t: nat, u: nat)
    requires AllAtStart(s) && t < |s.threads| && u < |s.threads| && t != u
    ensures CanBothHold(s, t, u) <==> FreeIn(s.threads[t].ns, s) && FreeIn(s.threads[u].ns, s)
  {
    hide Step;
    if CanBothHold(s, t, u) {
      var schedule :| var e := Run(s, schedule);
        t < |e.threads| && u < |e.threads| && Holds(e.threads[t].pc) && Holds(e.threads[u].pc);
      RunKeepsChecked(s, schedule);
    }
    if FreeIn(s.threads[t].ns, s) && FreeIn(s.threads[u].ns, s) {
      var schedule := BothReserve(s, t, u);
      assert Holds(Run(s, schedule).threads[t].pc) && Holds(Run(s, schedule).threads[u].pc);
    }
  }

  /** Under some schedule two threads hold one nullifier reserved. */
  ghost predicate ExclusivityFails(s: State) {
    exists t: nat, u: nat, n :: t < u < |s.threads| && n in s.threads[t].ns && n in s.threads[u].ns && CanBothHold(s, t, u)
  }

  /** Checking the reservation set and writing it are separate critical sections. So the set is not exclusive
      exactly when two threads share a nullifier and are otherwise free: the store's test-and-set is then the
      only guard left. */
  lemma {:induction false} ExclusivityFailsIff(s: State)
    requires AllAtStart(s)
    ensures ExclusivityFails(s) <==>
      exists t: nat, u: nat, n :: t < u < |s.threads| && n in s.threads[t].ns && n in s.threads[u].ns
        && FreeIn(s.threads[t].ns, s) && FreeIn(s.threads[u].ns, s)
  {
    hide CanBothHold, FreeIn;
    forall t: nat, u: nat | t < u < |s.threads|
      ensures CanBothHold(s, t, u) <==> FreeIn(s.threads[t].ns, s) && FreeIn(s.threads[u].ns, s)
    {
      BothHoldIff(s, t, u);
    }
  }

  function Two(n: Hash, spent: set<Hash>, pending: set<Hash>, p: Pc, q: Pc): State {
    State(spent, pending, [Thread([n], p), Thread([n], q)])
  }

  /** The smallest instance: two threads with one nullifier, nothing reserved or spent. */
  lemma {:induction false} ReservationsAreNotExclusive(n: Hash)
    ensures exists schedule :: Run(Two(n, {}, {}, Start, Start), schedule) == Two(n, {}, {n}, Reserved, Reserved)
  {
    var s := Two(n, {}, {}, Start, Start);
    var schedule := BothReserve(s, 0, 1);
    assert SetOf([n]) == {n};
    assert Run(s, schedule) == Two(n, {}, {n}, Reserved, Reserved);
  }
}
