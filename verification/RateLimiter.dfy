/** Token buckets per peer and message type, and the cooldown of a peer that overdraws one
    (pkg/net/ratelimit.go:11-113). Time is in seconds; tokens and time are reals. */
module RateLimiter {
  import opened Hashing

  type Peer(==)
  datatype MessageType = Heartbeat | TxOffer | Other

  /** A bucket's variable part: its capacity and rate are the limiter's. */
  datatype Level = Level(tokens: real, lastRefill: real)

  datatype Config = Config(capacity: real, refillRate: real, cooldown: real)

  datatype Key = Key(peer: Peer, kind: MessageType)

  datatype Limits = Limits(levels: map<Key, Level>, droppedUntil: map<Peer, real>)

  function Min(a: real, b: real): real { if a <= b then a else b }

  /** What a bucket earns by waiting. */
  function Earned(cfg: Config, wait: real): real { wait * cfg.refillRate }

  /** What a bucket holds at `now`. */
  function Holds(cfg: Config, l: Level, now: real): (r: real)
    ensures r <= l.tokens || now > l.lastRefill
  {
    if now > l.lastRefill then Min(cfg.capacity, l.tokens + Earned(cfg, now - l.lastRefill)) else l.tokens
  }

  function Taken(cfg: Config, l: Level, now: real): Level {
    var held := Holds(cfg, l, now);
    Level(if held < 1.0 then held else held - 1.0, if now > l.lastRefill then now else l.lastRefill)
  }

  predicate Limited(kind: MessageType) { kind != Other }

  predicate Dropped(s: Limits, p: Peer, now: real) {
    p in s.droppedUntil && now < s.droppedUntil[p]
  }

  function LevelIn(cfg: Config, levels: map<Key, Level>, k: Key, now: real): Level {
    if k in levels then levels[k] else Level(cfg.capacity, now)
  }

  function LevelOf(cfg: Config, s: Limits, k: Key, now: real): Level {
    LevelIn(cfg, s.levels, k, now)
  }

  predicate Allowed(cfg: Config, s: Limits, k: Key, now: real) {
    !Limited(k.kind) || (!Dropped(s, k.peer, now) && Holds(cfg, LevelOf(cfg, s, k, now), now) >= 1.0)
  }

  /** The limiter after a message of kind `k.kind` from `k.peer`. */
  function After(cfg: Config, s: Limits, k: Key, now: real): Limits {
    if !Limited(k.kind) || Dropped(s, k.peer, now) then s
    else
      var l := LevelOf(cfg, s, k, now);
      var pardoned := s.droppedUntil - {k.peer};
      var until := if Holds(cfg, l, now) < 1.0 then pardoned[k.peer := now + cfg.cooldown] else pardoned;
      Limits(s.levels[k := Taken(cfg, l, now)], until)
  }

  class Bucket {
    var tokens: real
    const capacity: real
    const refillRate: real
    var lastRefill: real

    constructor (capacity: real, refillRate: real, now: real)
      ensures this.capacity == capacity && this.refillRate == refillRate
      ensures tokens == capacity && lastRefill == now
    {
      this.tokens, this.capacity, this.refillRate, this.lastRefill := capacity, capacity, refillRate, now;
    }

    function View(): Level reads this { Level(tokens, lastRefill) }

    method Take(ghost cfg: Config, now: real) returns (ok: bool)
      requires cfg.capacity == capacity && cfg.refillRate == refillRate
      modifies this
      ensures ok == (Holds(cfg, old(View()), now) >= 1.0) && View() == Taken(cfg, old(View()), now)
    {
      var elapsed := now - lastRefill;
      if elapsed > 0.0 {
        tokens := tokens + elapsed * refillRate;
        if tokens > capacity { tokens := capacity; }
        lastRefill := now;
      }
      if tokens < 1.0 { return false; }
      tokens := tokens - 1.0;
      return true;
    }
  }

  class Limiter {
    const cfg: Config
    var buckets: map<Key, Bucket>
    var droppedUntil: map<Peer, real>

    ghost predicate Valid() reads this`buckets, buckets.Values {
      && (forall k <- buckets :: buckets[k].capacity == cfg.capacity && buckets[k].refillRate == cfg.refillRate)
      && (forall j, k :: j in buckets && k in buckets && j != k ==> buckets[j] != buckets[k])
    }

    ghost function Levels(): map<Key, Level> reads this`buckets, buckets.Values {
      map k <- buckets :: buckets[k].View()
    }

    ghost function Contents(): Limits reads this, buckets.Values {
      Limits(Levels(), droppedUntil)
    }

    constructor (cfg: Config)
      ensures Valid() && this.cfg == cfg && Contents() == Limits(map[], map[])
    {
      this.cfg, buckets, droppedUntil := cfg, map[], map[];
    }

    /** The bucket of `k`, made full if there is none yet. */
    method BucketFor(k: Key, now: real) returns (b: Bucket)
      requires Valid()
      modifies this`buckets
      ensures Valid() && k in buckets && buckets[k] == b
      ensures buckets.Values - old(buckets.Values) <= {b} && (k in old(buckets) ==> buckets == old(buckets))
      ensures k !in old(buckets) ==> fresh(b)
      ensures b.View() == LevelIn(cfg, old(Levels()), k, now)
      ensures Levels() == old(Levels())[k := b.View()]
    {
      if k !in buckets {
        b := new Bucket(cfg.capacity, cfg.refillRate, now);
        buckets := buckets[k := b];
      } else {
        b := buckets[k];
      }
    }

    /** Taking from one bucket leaves the others alone. */
    method TakeFrom(k: Key, now: real) returns (ok: bool)
      requires Valid() && k in buckets
      modifies buckets[k]
      ensures Valid()
      ensures ok == (Holds(cfg, old(Levels())[k], now) >= 1.0)
      ensures Levels() == old(Levels())[k := Taken(cfg, old(Levels())[k], now)]
    {
      hide Earned;
      ghost var before := Levels();
      ok := buckets[k].Take(cfg, now);
      assert forall j <- buckets :: j != k ==> buckets[j].View() == before[j];
    }

    /** Charges a message to its bucket, and drops its peer when the bucket is empty. */
    method Charge(k: Key, now: real) returns (ok: bool)
      requires Valid()
      modifies this, buckets.Values
      ensures Valid()
      ensures ok == (Holds(cfg, LevelIn(cfg, old(Levels()), k, now), now) >= 1.0)
      ensures Levels() == old(Levels())[k := Taken(cfg, LevelIn(cfg, old(Levels()), k, now), now)]
      ensures droppedUntil == if ok then old(droppedUntil) else old(droppedUntil)[k.peer := now + cfg.cooldown]
    {
      hide Earned;
      var b := BucketFor(k, now);
      ok := TakeFrom(k, now);
      if !ok { droppedUntil := droppedUntil[k.peer := now + cfg.cooldown]; }
    }

    method Allow(p: Peer, kind: MessageType, now: real) returns (ok: bool)
      requires Valid()
      modifies this, buckets.Values
      ensures Valid()
      ensures ok == Allowed(cfg, old(Contents()), Key(p, kind), now)
      ensures Contents() == After(cfg, old(Contents()), Key(p, kind), now)
    {
      hide Earned;
      if kind == Other { return true; }
      if p in droppedUntil {
        if now < droppedUntil[p] { return false; }
        droppedUntil := droppedUntil - {p};
      }
      assert droppedUntil == old(droppedUntil) - {p};
      ok := Charge(Key(p, kind), now);
    }

    method IsDropped(p: Peer, now: real) returns (r: bool)
      ensures r == Dropped(Contents(), p, now)
    {
      r := p in droppedUntil && now < droppedUntil[p];
    }
  }

  // ---- runs ----

  datatype Call = Call(key: Key, now: real)

  predicate Ordered(calls: seq<Call>) {
    forall i, j :: 0 <= i < j < |calls| ==> calls[i].now <= calls[j].now
  }

  function Run(cfg: Config, calls: seq<Call>): Limits
    decreases |calls|
  {
    if calls == [] then Limits(map[], map[])
    else
      var n := |calls| - 1;
      After(cfg, Run(cfg, calls[..n]), calls[n].key, calls[n].now)
  }

  predicate AllowedAt(cfg: Config, calls: seq<Call>, i: nat)
    requires i < |calls|
  {
    Allowed(cfg, Run(cfg, calls[..i]), calls[i].key, calls[i].now)
  }

  /** How many messages of one kind from one peer are let through in the interval [s, t]. */
  function AllowedIn(cfg: Config, calls: seq<Call>, k: Key, s: real, t: real): nat
    decreases |calls|
  {
    if calls == [] then 0
    else
      var n := |calls| - 1;
      AllowedIn(cfg, calls[..n], k, s, t) +
      if calls[n].key == k && s <= calls[n].now <= t && AllowedAt(cfg, calls, n) then 1 else 0
  }

  predicate Sensible(cfg: Config) { cfg.capacity >= 0.0 && cfg.refillRate >= 0.0 }

  predicate WithinCapacity(cfg: Config, s: Limits, now: real) {
    forall k <- s.levels :: 0.0 <= s.levels[k].tokens <= cfg.capacity && s.levels[k].lastRefill <= now
  }

  lemma {:induction false} EarningsGrow(cfg: Config, a: real, b: real)
    requires Sensible(cfg) && a <= b
    ensures Earned(cfg, a) <= Earned(cfg, b)
  {
    assert 0.0 <= (b - a) * cfg.refillRate;
  }

  lemma {:induction false} EarningsAdd(cfg: Config, a: real, b: real)
    ensures Earned(cfg, a + b) == Earned(cfg, a) + Earned(cfg, b)
    ensures Earned(cfg, 0.0) == 0.0
  {
  }

  lemma {:induction false} HoldsInRange(cfg: Config, l: Level, now: real)
    requires Sensible(cfg) && 0.0 <= l.tokens <= cfg.capacity
    ensures 0.0 <= Holds(cfg, l, now) <= cfg.capacity && l.tokens <= Holds(cfg, l, now)
  {
    hide Earned;
    if now > l.lastRefill { EarningsAdd(cfg, 0.0, 0.0);
    EarningsGrow(cfg, 0.0, now - l.lastRefill); }
  }

  /** Tokens stay within [0, capacity] over every run. */
  lemma {:induction false} TokensStayInRange(cfg: Config, calls: seq<Call>, now: real)
    requires Sensible(cfg) && Ordered(calls)
    requires calls != [] ==> calls[|calls| - 1].now <= now
    ensures WithinCapacity(cfg, Run(cfg, calls), now)
    decreases |calls|
  {
    hide Earned;
    if calls != [] {
      var n := |calls| - 1;
      TokensStayInRange(cfg, calls[..n], calls[n].now);
      var l := LevelOf(cfg, Run(cfg, calls[..n]), calls[n].key, calls[n].now);
      HoldsInRange(cfg, l, calls[n].now);
    }
  }

  function Available(cfg: Config, s: Limits, k: Key, now: real): real {
    Holds(cfg, LevelOf(cfg, s, k, now), now)
  }

  lemma {:induction false} HoldsGrows(cfg: Config, l: Level, a: real, b: real)
    requires Sensible(cfg) && l.tokens <= cfg.capacity && l.lastRefill <= a <= b
    ensures Holds(cfg, l, b) <= Holds(cfg, l, a) + Earned(cfg, b - a)
  {
    hide Earned;
    EarningsAdd(cfg, 0.0, 0.0);
    EarningsGrow(cfg, 0.0, b - a);
    EarningsAdd(cfg, a - l.lastRefill, b - a);
    assert (a - l.lastRefill) + (b - a) == b - l.lastRefill;
  }

  /** Waiting earns at most the refill rate. */
  lemma {:induction false} WaitingEarnsAtMostTheRate(cfg: Config, s: Limits, k: Key, a: real, b: real)
    requires Sensible(cfg) && WithinCapacity(cfg, s, a) && a <= b
    ensures Available(cfg, s, k, b) <= Available(cfg, s, k, a) + Earned(cfg, b - a)
    ensures Available(cfg, s, k, b) <= cfg.capacity
  {
    hide Earned;
    if k in s.levels {
      HoldsInRange(cfg, s.levels[k], b);
      HoldsGrows(cfg, s.levels[k], a, b);
    } else {
      EarningsAdd(cfg, 0.0, 0.0);
    EarningsGrow(cfg, 0.0, b - a);
    }
  }

  lemma {:induction false} AllowedCostsOne(cfg: Config, s: Limits, k: Key, c: Call)
    requires Sensible(cfg) && WithinCapacity(cfg, s, c.now) && Limited(k.kind)
    ensures Available(cfg, After(cfg, s, c.key, c.now), k, c.now) ==
            Available(cfg, s, k, c.now) - (if c.key == k && Allowed(cfg, s, k, c.now) then 1.0 else 0.0)
  {
    hide Earned;
  }

  lemma {:induction false} NoneBefore(cfg: Config, calls: seq<Call>, k: Key, s: real, t: real)
    requires forall i :: 0 <= i < |calls| ==> calls[i].now < s
    ensures AllowedIn(cfg, calls, k, s, t) == 0
    decreases |calls|
  {
    if calls != [] { NoneBefore(cfg, calls[..|calls| - 1], k, s, t); }
  }

  function Spent(cfg: Config, calls: seq<Call>, k: Key, s: real, t: real, now: real): real {
    AllowedIn(cfg, calls, k, s, t) as real + Available(cfg, Run(cfg, calls), k, now)
  }

  /** One more message, then a wait: what is let through and what stays available together grow by at most
      what the wait earns. */
  lemma {:induction false} CountThenWait(cfg: Config, calls: seq<Call>, k: Key, s: real, t: real, now: real)
    requires Sensible(cfg) && Ordered(calls) && Limited(k.kind) && calls != []
    requires s <= calls[|calls| - 1].now <= now
    ensures var n := |calls| - 1;
      Spent(cfg, calls, k, s, t, now) <=
      Spent(cfg, calls[..n], k, s, t, calls[n].now) + Earned(cfg, now - calls[n].now)
  {
    hide Earned;
    var n := |calls| - 1;
    var c := calls[n];
    TokensStayInRange(cfg, calls, c.now);
    TokensStayInRange(cfg, calls[..n], c.now);
    WaitingEarnsAtMostTheRate(cfg, Run(cfg, calls), k, c.now, now);
    AllowedCostsOne(cfg, Run(cfg, calls[..n]), k, c);
  }

  lemma {:induction false} NothingSpentYet(cfg: Config, calls: seq<Call>, k: Key, s: real, t: real, now: real)
    requires Sensible(cfg) && Ordered(calls) && s <= now
    requires forall i :: 0 <= i < |calls| ==> calls[i].now < s
    ensures Spent(cfg, calls, k, s, t, now) <=
            cfg.capacity + Earned(cfg, now - s)
  {
    hide Earned;
    NoneBefore(cfg, calls, k, s, t);
    TokensStayInRange(cfg, calls, now);
    WaitingEarnsAtMostTheRate(cfg, Run(cfg, calls), k, now, now);
    EarningsAdd(cfg, 0.0, 0.0);
    EarningsGrow(cfg, 0.0, now - s);
  }

  /** The bucket's budget: messages let through since `s`, plus what the bucket could still let through. */
  lemma {:induction false} Budget(cfg: Config, calls: seq<Call>, k: Key, s: real, t: real, now: real)
    requires Sensible(cfg) && Ordered(calls) && Limited(k.kind) && s <= now
    requires calls != [] ==> calls[|calls| - 1].now <= now
    ensures Spent(cfg, calls, k, s, t, now) <=
            cfg.capacity + Earned(cfg, now - s)
    decreases |calls|
  {
    hide Earned;
    var n := |calls| - 1;
    if calls == [] || calls[n].now < s {
      NothingSpentYet(cfg, calls, k, s, t, now);
    } else {
      var spent0, spent := Spent(cfg, calls[..n], k, s, t, calls[n].now), Spent(cfg, calls, k, s, t, now);
      assert spent0 <= cfg.capacity + Earned(cfg, calls[n].now - s) by { Budget(cfg, calls[..n], k, s, t, calls[n].now); }
      assert spent <= spent0 + Earned(cfg, now - calls[n].now) by { CountThenWait(cfg, calls, k, s, t, now); }
      EarningsAdd(cfg, calls[n].now - s, now - calls[n].now);
      assert (calls[n].now - s) + (now - calls[n].now) == now - s;
    }
  }

  lemma {:induction false} LaterCallsDoNotCount(cfg: Config, calls: seq<Call>, k: Key, s: real, t: real, m: nat)
    requires m <= |calls| && forall i :: m <= i < |calls| ==> t < calls[i].now
    ensures AllowedIn(cfg, calls, k, s, t) == AllowedIn(cfg, calls[..m], k, s, t)
    decreases |calls|
  {
    if m < |calls| {
      assert calls[..|calls| - 1][..m] == calls[..m];
      LaterCallsDoNotCount(cfg, calls[..|calls| - 1], k, s, t, m);
    } else {
      assert calls[..m] == calls;
    }
  }

  lemma {:induction false} CallsUpTo(calls: seq<Call>, t: real) returns (m: nat)
    requires Ordered(calls)
    ensures m <= |calls| && (forall i :: 0 <= i < m ==> calls[i].now <= t) && (forall i :: m <= i < |calls| ==> t < calls[i].now)
    decreases |calls|
  {
    m := |calls|;
    while m > 0 && t < calls[m - 1].now
      invariant m <= |calls| && forall i :: m <= i < |calls| ==> t < calls[i].now
    {
      m := m - 1;
    }
  }

  lemma {:induction false} BudgetByTheEnd(cfg: Config, calls: seq<Call>, k: Key, s: real, t: real)
    requires Sensible(cfg) && Ordered(calls) && Limited(k.kind) && s <= t
    ensures AllowedIn(cfg, calls, k, s, t) as real <= cfg.capacity + Earned(cfg, t - s)
  {
    hide Earned;
    var m := CallsUpTo(calls, t);
    LaterCallsDoNotCount(cfg, calls, k, s, t, m);
    Budget(cfg, calls[..m], k, s, t, t);
    TokensStayInRange(cfg, calls[..m], t);
    var st := Run(cfg, calls[..m]);
    if k in st.levels { HoldsInRange(cfg, st.levels[k], t); }
  }

  /** The rate bound: under a clock that never runs backwards, in any interval [s, t] of any run, one peer
      gets at most capacity + refillRate * (t - s) messages of one limited kind through. */
  lemma {:induction false} RateBound(cfg: Config, calls: seq<Call>, k: Key, s: real, t: real)
    requires Sensible(cfg) && Ordered(calls) && Limited(k.kind) && s <= t
    ensures AllowedIn(cfg, calls, k, s, t) as real <= cfg.capacity + (t - s) * cfg.refillRate
  {
    BudgetByTheEnd(cfg, calls, k, s, t);
  }

  lemma {:induction false} RefusedMeansDropped(cfg: Config, calls: seq<Call>, i: nat)
    requires i < |calls| && Limited(calls[i].key.kind)
    requires !AllowedAt(cfg, calls, i) && !Dropped(Run(cfg, calls[..i]), calls[i].key.peer, calls[i].now)
    ensures var st := Run(cfg, calls[..i + 1]); var p := calls[i].key.peer;
      p in st.droppedUntil && st.droppedUntil[p] == calls[i].now + cfg.cooldown
  {
    hide Earned;
    assert calls[..i + 1][..i] == calls[..i];
  }

  lemma {:induction false} DropLasts(cfg: Config, calls: seq<Call>, i: nat, j: nat)
    requires i < j <= |calls| && Ordered(calls) && Limited(calls[i].key.kind)
    requires !AllowedAt(cfg, calls, i) && !Dropped(Run(cfg, calls[..i]), calls[i].key.peer, calls[i].now)
    requires calls[j - 1].now < calls[i].now + cfg.cooldown || j == i + 1
    ensures var st := Run(cfg, calls[..j]); var p := calls[i].key.peer;
      p in st.droppedUntil && st.droppedUntil[p] == calls[i].now + cfg.cooldown
    decreases j
  {
    hide Earned;
    if j == i + 1 {
      RefusedMeansDropped(cfg, calls, i);
    } else {
      assert calls[..j][..j - 1] == calls[..j - 1];
      DropLasts(cfg, calls, i, j - 1);
    }
  }

  /** After a bucket refuses a peer, nothing limited from that peer, of either kind, gets through before
      the cooldown ends. */
  lemma {:induction false} NothingDuringCooldown(cfg: Config, calls: seq<Call>, i: nat, j: nat)
    requires i < j < |calls| && Ordered(calls)
    requires Limited(calls[i].key.kind) && Limited(calls[j].key.kind) && calls[i].key.peer == calls[j].key.peer
    requires !AllowedAt(cfg, calls, i) && !Dropped(Run(cfg, calls[..i]), calls[i].key.peer, calls[i].now)
    requires calls[j].now < calls[i].now + cfg.cooldown
    ensures !AllowedAt(cfg, calls, j)
  {
    hide Earned;
    DropLasts(cfg, calls, i, j);
  }

  lemma {:induction false} RefilledByCooldown(cfg: Config, l: Level, now: real)
    requires Sensible(cfg) && cfg.capacity >= 1.0 && Earned(cfg, cfg.cooldown) >= 1.0 && cfg.cooldown > 0.0
    requires l.tokens >= 0.0 && l.lastRefill + cfg.cooldown <= now
    ensures Holds(cfg, l, now) >= 1.0
  {
    hide Earned;
    EarningsGrow(cfg, cfg.cooldown, now - l.lastRefill);
  }

  /** The cooldown is also a full pardon when it refills a token: a peer last refused by its bucket at i
      that sends nothing until the cooldown is over is let through. */
  lemma {:induction false} CooldownEnds(cfg: Config, calls: seq<Call>, i: nat, j: nat)
    requires Sensible(cfg) && cfg.capacity >= 1.0 && Earned(cfg, cfg.cooldown) >= 1.0 && cfg.cooldown > 0.0
    requires i < j < |calls| && Ordered(calls)
    requires Limited(calls[i].key.kind) && calls[j].key == calls[i].key
    requires !AllowedAt(cfg, calls, i) && !Dropped(Run(cfg, calls[..i]), calls[i].key.peer, calls[i].now)
    requires forall m :: i < m < j ==> calls[m].key.peer != calls[i].key.peer
    ensures AllowedAt(cfg, calls, j) <==> calls[i].now + cfg.cooldown <= calls[j].now
  {
    hide Earned;
    StillAsRefused(cfg, calls, i, j);
    TokensStayInRange(cfg, calls[..j], calls[j].now);
    if calls[i].now + cfg.cooldown <= calls[j].now {
      RefilledByCooldown(cfg, Run(cfg, calls[..j]).levels[calls[i].key], calls[j].now);
    }
  }

  lemma {:induction false} StillAsRefused(cfg: Config, calls: seq<Call>, i: nat, j: nat)
    requires Sensible(cfg) && i < j <= |calls| && Ordered(calls) && Limited(calls[i].key.kind)
    requires !AllowedAt(cfg, calls, i) && !Dropped(Run(cfg, calls[..i]), calls[i].key.peer, calls[i].now)
    requires forall m :: i < m < j ==> calls[m].key.peer != calls[i].key.peer
    ensures var st := Run(cfg, calls[..j]); var k := calls[i].key;
      && k in st.levels && st.levels[k].lastRefill == calls[i].now
      && k.peer in st.droppedUntil && st.droppedUntil[k.peer] == calls[i].now + cfg.cooldown
    decreases j
  {
    hide Earned;
    assert calls[..j][..j - 1] == calls[..j - 1];
    if j == i + 1 {
      RefusedMeansDropped(cfg, calls, i);
      TokensStayInRange(cfg, calls[..i], calls[i].now);
    } else {
      StillAsRefused(cfg, calls, i, j - 1);
    }
  }

  // ---- exactly which messages get through ----

  /** Waiting fills the bucket at the refill rate, up to the brim. */
  lemma {:induction false} WaitingFills(cfg: Config, s: Limits, k: Key, a: real, b: real)
    requires Sensible(cfg) && WithinCapacity(cfg, s, a) && a <= b
    ensures Available(cfg, s, k, b) == Min(cfg.capacity, Available(cfg, s, k, a) + Earned(cfg, b - a))
  {
    hide Earned;
    EarningsAdd(cfg, 0.0, 0.0);
    EarningsGrow(cfg, 0.0, b - a);
    if k in s.levels {
      var l := s.levels[k];
      HoldsInRange(cfg, l, a);
      EarningsAdd(cfg, a - l.lastRefill, b - a);
      assert (a - l.lastRefill) + (b - a) == b - l.lastRefill;
    }
  }

  /** The interval since the bucket was last full accounts for everything it holds now. */
  lemma {:induction false} TightInterval(cfg: Config, calls: seq<Call>, k: Key, now: real) returns (s: real)
    requires Sensible(cfg) && Ordered(calls) && Limited(k.kind)
    requires calls != [] ==> calls[|calls| - 1].now <= now
    ensures s <= now && Spent(cfg, calls, k, s, now, now) == cfg.capacity + Earned(cfg, now - s)
    decreases |calls|
  {
    hide Earned;
    EarningsAdd(cfg, 0.0, 0.0);
    s := now;
    if calls != [] {
      var n := |calls| - 1;
      var c := calls[n];
      var s0 := TightInterval(cfg, calls[..n], k, c.now);
      TightAfterCall(cfg, calls, k, s0);
      TokensStayInRange(cfg, calls, c.now);
      WaitingFills(cfg, Run(cfg, calls), k, c.now, now);
      SameUntil(cfg, calls, k, s0, now);
      EarningsAdd(cfg, c.now - s0, now - c.now);
      assert (c.now - s0) + (now - c.now) == now - s0;
      hide AllowedIn, Available;
      if Available(cfg, Run(cfg, calls), k, c.now) + Earned(cfg, now - c.now) <= cfg.capacity {
        s := s0;
      } else {
        NeverFuller(cfg, calls, k, c.now);
        assert c.now < now;
        NoneBefore(cfg, calls, k, now, now);
      }
    }
  }

  lemma {:induction false} NeverFuller(cfg: Config, calls: seq<Call>, k: Key, now: real)
    requires Sensible(cfg) && Ordered(calls) && (calls != [] ==> calls[|calls| - 1].now <= now)
    ensures Available(cfg, Run(cfg, calls), k, now) <= cfg.capacity
  {
    hide Earned;
    TokensStayInRange(cfg, calls, now);
    var st := Run(cfg, calls);
    if k in st.levels { HoldsInRange(cfg, st.levels[k], now); }
  }

  lemma {:induction false} TightAfterCall(cfg: Config, calls: seq<Call>, k: Key, s: real)
    requires Sensible(cfg) && Ordered(calls) && Limited(k.kind) && calls != [] && s <= calls[|calls| - 1].now
    ensures var n := |calls| - 1;
      Spent(cfg, calls, k, s, calls[n].now, calls[n].now) == Spent(cfg, calls[..n], k, s, calls[n].now, calls[n].now)
  {
    hide Earned;
    var n := |calls| - 1;
    TokensStayInRange(cfg, calls[..n], calls[n].now);
    AllowedCostsOne(cfg, Run(cfg, calls[..n]), k, calls[n]);
  }

  /** An interval that ends after the last call counts what one ending with it counts. */
  lemma {:induction false} SameUntil(cfg: Config, calls: seq<Call>, k: Key, s: real, t: real)
    requires Ordered(calls) && calls != [] && calls[|calls| - 1].now <= t
    ensures AllowedIn(cfg, calls, k, s, t) == AllowedIn(cfg, calls, k, s, calls[|calls| - 1].now)
  {
    SameBounds(cfg, calls, k, s, t, calls[|calls| - 1].now);
  }

  lemma {:induction false} SameBounds(cfg: Config, calls: seq<Call>, k: Key, s: real, t: real, u: real)
    requires forall i :: 0 <= i < |calls| ==> calls[i].now <= t && calls[i].now <= u
    ensures AllowedIn(cfg, calls, k, s, t) == AllowedIn(cfg, calls, k, s, u)
    decreases |calls|
  {
    if calls != [] { SameBounds(cfg, calls[..|calls| - 1], k, s, t, u); }
  }

  /** One more message fits into every interval that ends now. */
  ghost predicate WithinBudget(cfg: Config, calls: seq<Call>, k: Key, now: real) {
    forall s: real :: s <= now ==> AllowedIn(cfg, calls, k, s, now) as real + 1.0 <= cfg.capacity + (now - s) * cfg.refillRate
  }

  ghost predicate WithinEarnings(cfg: Config, calls: seq<Call>, k: Key, now: real) {
    forall s: real :: s <= now ==> AllowedIn(cfg, calls, k, s, now) as real + 1.0 <= cfg.capacity + Earned(cfg, now - s)
  }

  lemma {:induction false} SameBudget(cfg: Config, calls: seq<Call>, k: Key, now: real)
    ensures WithinBudget(cfg, calls, k, now) <==> WithinEarnings(cfg, calls, k, now)
  {
    hide AllowedIn, Earned;
    forall s: real
      ensures AllowedIn(cfg, calls, k, s, now) as real + 1.0 <= cfg.capacity + (now - s) * cfg.refillRate <==>
              AllowedIn(cfg, calls, k, s, now) as real + 1.0 <= cfg.capacity + Earned(cfg, now - s)
    {
      EarnedIs(cfg, now - s);
    }
  }

  lemma {:induction false} EarnedIs(cfg: Config, wait: real)
    ensures Earned(cfg, wait) == wait * cfg.refillRate
  {
  }

  lemma {:induction false} TokenIffWithinEarnings(cfg: Config, calls: seq<Call>, k: Key, now: real)
    requires Sensible(cfg) && Ordered(calls) && Limited(k.kind)
    requires calls != [] ==> calls[|calls| - 1].now <= now
    ensures Available(cfg, Run(cfg, calls), k, now) >= 1.0 <==> WithinEarnings(cfg, calls, k, now)
  {
    hide Earned, Available, AllowedIn;
    var s0 := TightInterval(cfg, calls, k, now);
    assert s0 <= now;
    forall s: real | s <= now
      ensures AllowedIn(cfg, calls, k, s, now) as real + Available(cfg, Run(cfg, calls), k, now) <= cfg.capacity + Earned(cfg, now - s)
    {
      Budget(cfg, calls, k, s, now, now);
    }
  }

  /** A bucket has a token exactly when one more message would break no interval's bound. */
  lemma {:induction false} TokenIffWithinBudget(cfg: Config, calls: seq<Call>, k: Key, now: real)
    requires Sensible(cfg) && Ordered(calls) && Limited(k.kind)
    requires calls != [] ==> calls[|calls| - 1].now <= now
    ensures Available(cfg, Run(cfg, calls), k, now) >= 1.0 <==> WithinBudget(cfg, calls, k, now)
  {
    hide Available, WithinBudget, WithinEarnings;
    TokenIffWithinEarnings(cfg, calls, k, now);
    SameBudget(cfg, calls, k, now);
  }

  /** Message i was refused by its bucket, not by a cooldown. */
  predicate Overdrew(cfg: Config, calls: seq<Call>, i: nat)
    requires i < |calls|
  {
    Limited(calls[i].key.kind) && !AllowedAt(cfg, calls, i) && !Dropped(Run(cfg, calls[..i]), calls[i].key.peer, calls[i].now)
  }

  /** The peer overdrew a bucket less than a cooldown ago. */
  predicate CoolingDown(cfg: Config, calls: seq<Call>, p: Peer, now: real) {
    exists j :: 0 <= j < |calls| && Overdrew(cfg, calls, j) && calls[j].key.peer == p && now < calls[j].now + cfg.cooldown
  }

  lemma {:induction false} OverdrewInPrefix(cfg: Config, calls: seq<Call>, n: nat, j: nat)
    requires j < n <= |calls|
    ensures Overdrew(cfg, calls[..n], j) <==> Overdrew(cfg, calls, j)
  {
    assert calls[..n][..j] == calls[..j];
  }

  lemma {:induction false} CoolingStep(cfg: Config, calls: seq<Call>, p: Peer, now: real)
    requires calls != []
    ensures var n := |calls| - 1;
      CoolingDown(cfg, calls, p, now) <==>
        || CoolingDown(cfg, calls[..n], p, now)
        || (Overdrew(cfg, calls, n) && calls[n].key.peer == p && now < calls[n].now + cfg.cooldown)
  {
    var n := |calls| - 1;
    forall j | 0 <= j < n ensures Overdrew(cfg, calls[..n], j) <==> Overdrew(cfg, calls, j) { OverdrewInPrefix(cfg, calls, n, j); }
    hide Overdrew;
    if CoolingDown(cfg, calls[..n], p, now) {
      var j :| 0 <= j < n && Overdrew(cfg, calls[..n], j) && calls[..n][j].key.peer == p && now < calls[..n][j].now + cfg.cooldown;
      assert Overdrew(cfg, calls, j);
    }
    if CoolingDown(cfg, calls, p, now) {
      var j :| 0 <= j < |calls| && Overdrew(cfg, calls, j) && calls[j].key.peer == p && now < calls[j].now + cfg.cooldown;
      if j < n { assert Overdrew(cfg, calls[..n], j); }
    }
  }

  lemma {:induction false} DroppedStep(cfg: Config, s: Limits, c: Call, p: Peer, now: real)
    requires c.now <= now
    ensures var over := Limited(c.key.kind) && !Allowed(cfg, s, c.key, c.now) && !Dropped(s, c.key.peer, c.now);
      Dropped(After(cfg, s, c.key, c.now), p, now) <==>
        if c.key.peer == p && over then now < c.now + cfg.cooldown
        else if c.key.peer == p && Limited(c.key.kind) && !Dropped(s, p, c.now) then false
        else Dropped(s, p, now)
  {
    hide Earned, Holds;
  }

  /** A peer is dropped exactly while a cooldown it earned lasts. */
  lemma {:induction false} DroppedIff(cfg: Config, calls: seq<Call>, p: Peer, now: real)
    requires Ordered(calls) && (calls != [] ==> calls[|calls| - 1].now <= now)
    ensures Dropped(Run(cfg, calls), p, now) <==> CoolingDown(cfg, calls, p, now)
    decreases |calls|
  {
    if calls != [] {
      var n := |calls| - 1;
      DroppedIff(cfg, calls[..n], p, now);
      DroppedIff(cfg, calls[..n], p, calls[n].now);
      DroppedStep(cfg, Run(cfg, calls[..n]), calls[n], p, now);
      CoolingStep(cfg, calls, p, now);
      CoolingFades(cfg, calls[..n], p, calls[n].now, now);
      hide After, Dropped, CoolingDown, Allowed;
    }
  }

  lemma {:induction false} CoolingFades(cfg: Config, calls: seq<Call>, p: Peer, a: real, b: real)
    requires a <= b
    ensures CoolingDown(cfg, calls, p, b) ==> CoolingDown(cfg, calls, p, a)
  {
    hide Overdrew;
  }

  /** Under a clock that never runs backwards message i gets through exactly if its kind is not limited, or its
      peer overdrew no bucket less than a cooldown ago and no interval that ends now would exceed
      capacity + refillRate * length. */
  lemma {:induction false} AllowedIff(cfg: Config, calls: seq<Call>, i: nat)
    requires Sensible(cfg) && Ordered(calls) && i < |calls|
    ensures var (k, now) := (calls[i].key, calls[i].now);
      AllowedAt(cfg, calls, i) <==>
        || k.kind == Other
        || (!CoolingDown(cfg, calls[..i], k.peer, now) && WithinBudget(cfg, calls[..i], k, now))
  {
    var (k, now) := (calls[i].key, calls[i].now);
    DroppedIff(cfg, calls[..i], k.peer, now);
    if k.kind != Other { TokenIffWithinBudget(cfg, calls[..i], k, now); }
    hide CoolingDown, WithinBudget, Dropped, Holds, Earned;
  }
}
