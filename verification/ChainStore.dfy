/** Durable block storage, crash recovery and the transaction index (pkg/chain/chain.go:41-169,
    pkg/state/store.go:585-699). */
module ChainStore {
  import opened Hashing
  import opened Bft
  import opened Agreement

  /** The rows the chain keeps: block per height, head height, and height per transaction id. */
  datatype Disk = Disk(blocks: map<nat, Block>, head: Option<nat>, txIndex: map<Hash, nat>)

  datatype Write = PutBlock(b: Block) | SetHead(h: nat) | IndexTx(id: Hash, h: nat)

  function Apply(d: Disk, w: Write): Disk {
    match w
    case PutBlock(b) => d.(blocks := d.blocks[b.height := b])
    case SetHead(h) => d.(head := Some(h))
    case IndexTx(id, h) => d.(txIndex := d.txIndex[id := h])
  }

  function ApplyAll(d: Disk, ws: seq<Write>): Disk
    decreases |ws|
  {
    if ws == [] then d else Apply(ApplyAll(d, ws[..|ws| - 1]), ws[|ws| - 1])
  }

  function GenesisWrites(time: int): seq<Write> {
    [PutBlock(Genesis(time)), SetHead(0)]
  }

  /** The store writes of one accepted append, in order. */
  function AppendWrites(b: Block): seq<Write> {
    [PutBlock(b), SetHead(b.height)] + seq(|b.batch|, i requires 0 <= i < |b.batch| => IndexTx(b.batch[i], b.height))
  }

  // ---------------------------------------------------------------- what the disk holds

  predicate Contiguous(d: Disk) {
    d.head.Some? ==> forall h: nat :: h <= d.head.value ==> h in d.blocks
  }

  function Blocks(d: Disk): (chain: seq<Block>)
    requires Contiguous(d)
    ensures |chain| == if d.head.Some? then d.head.value + 1 else 0
  {
    if d.head.None? then [] else seq(d.head.value + 1, h requires 0 <= h <= d.head.value => d.blocks[h])
  }

  /** Every committed height is stored and the stored blocks form an accepted chain. */
  predicate Sound(d: Disk, rules: Rules) {
    Contiguous(d) && (d.head.Some? ==> Grown(Blocks(d), rules))
  }

  function Entries(ids: seq<Hash>, h: nat): map<Hash, nat> {
    map id | id in ids :: h
  }

  /** For every transaction id the greatest height whose batch contains it. */
  function IndexOf(chain: seq<Block>): map<Hash, nat> {
    if chain == [] then map[]
    else
      var h := |chain| - 1;
      IndexOf(chain[..h]) + Entries(chain[h].batch, h)
  }

  predicate Carries(chain: seq<Block>, h: nat, id: Hash) {
    h < |chain| && id in chain[h].batch
  }

  lemma {:induction false} IndexOfIsGreatestHeight(chain: seq<Block>, id: Hash)
    ensures id in IndexOf(chain) <==> exists h :: Carries(chain, h, id)
    ensures id in IndexOf(chain) ==>
      Carries(chain, IndexOf(chain)[id], id) && forall h :: Carries(chain, h, id) ==> h <= IndexOf(chain)[id]
    decreases |chain|
  {
    if chain != [] {
      var h := |chain| - 1;
      IndexOfIsGreatestHeight(chain[..h], id);
      forall k: nat | k < h ensures Carries(chain[..h], k, id) <==> Carries(chain, k, id) {}
      assert Carries(chain, h, id) <==> id in chain[h].batch;
    }
  }

  // ---------------------------------------------------------------- a node that may crash

  /** Volatile head: present while the process runs. */
  datatype Node = Node(disk: Disk, up: Option<(nat, Hash)>)

  /** Writes reach the disk up to `writes` of them; then the process dies or the store reports an error. */
  datatype Fault = NoFault | DiesAfter(writes: nat) | FailsAfter(writes: nat)

  datatype Event = Open(time: int, fault: Fault) | Append(b: Block, fault: Fault)

  function Reached(ws: seq<Write>, fault: Fault): seq<Write> {
    if fault.NoFault? || fault.writes >= |ws| then ws else ws[..fault.writes]
  }

  predicate Completes(ws: seq<Write>, fault: Fault) {
    fault.NoFault? || fault.writes >= |ws|
  }

  function StepOpen(n: Node, time: int, fault: Fault): Node {
    if n.up.Some? then n
    else if n.disk.head.Some? then
      var h := n.disk.head.value;
      if h in n.disk.blocks && fault.NoFault? then n.(up := Some((h, HashBlock(n.disk.blocks[h])))) else n
    else
      var ws := GenesisWrites(time);
      Node(ApplyAll(n.disk, Reached(ws, fault)), if Completes(ws, fault) then Some((0, HashBlock(Genesis(time)))) else None)
  }

  /** The in-memory head moves after the second write and survives a store error but not a crash. */
  function StepAppend(n: Node, b: Block, rules: Rules, fault: Fault): Node {
    if n.up.None? || !AppendOk(n.up.value.0, n.up.value.1, b, rules.committee(b.height), rules.keys) then n
    else
      var done := Reached(AppendWrites(b), fault);
      Node(ApplyAll(n.disk, done),
           if fault.DiesAfter? then None else if |done| >= 2 then Some((b.height, HashBlock(b))) else n.up)
  }

  function Step(n: Node, e: Event, rules: Rules): Node {
    match e
    case Open(time, fault) => StepOpen(n, time, fault)
    case Append(b, fault) => StepAppend(n, b, rules, fault)
  }

  function Run(n: Node, es: seq<Event>, rules: Rules): Node
    decreases |es|
  {
    if es == [] then n else Step(Run(n, es[..|es| - 1], rules), es[|es| - 1], rules)
  }

  const FRESH := Node(Disk(map[], None, map[]), None)

  predicate Good(n: Node, rules: Rules) {
    && Sound(n.disk, rules)
    && (n.up.Some? ==> n.disk.head == Some(n.up.value.0) && n.up.value.1 == HashBlock(Blocks(n.disk)[n.up.value.0]))
  }

  lemma {:induction false} IndexGrows(index: map<Hash, nat>, ids: seq<Hash>, m: nat, h: nat)
    requires m < |ids|
    ensures index + Entries(ids[..m + 1], h) == (index + Entries(ids[..m], h))[ids[m] := h]
  {
    assert ids[..m + 1] == ids[..m] + [ids[m]];
    assert Entries(ids[..m + 1], h) == Entries(ids[..m], h)[ids[m] := h];
  }

  /** What the first k writes of an append leave on disk. */
  lemma {:induction false} AppendPrefix(d: Disk, b: Block, k: nat)
    requires k <= |AppendWrites(b)|
    ensures var e := ApplyAll(d, AppendWrites(b)[..k]);
      && e.blocks == (if k >= 1 then d.blocks[b.height := b] else d.blocks)
      && e.head == (if k >= 2 then Some(b.height) else d.head)
      && (k <= 2 ==> e.txIndex == d.txIndex)
      && (k >= 2 ==> e.txIndex == d.txIndex + Entries(b.batch[..k - 2], b.height))
    decreases k
  {
    var ws := AppendWrites(b)[..k];
    if k > 0 {
      AppendPrefix(d, b, k - 1);
      assert ws[..k - 1] == AppendWrites(b)[..k - 1];
      WriteAt(b, k - 1);
      hide AppendWrites;
      if k == 2 { assert Entries(b.batch[..0], b.height) == map[]; }
      if k > 2 { IndexGrows(d.txIndex, b.batch, k - 3, b.height); }
    }
  }

  lemma {:induction false} WriteAt(b: Block, k: nat)
    requires k < |AppendWrites(b)|
    ensures AppendWrites(b)[k] == if k == 0 then PutBlock(b) else if k == 1 then SetHead(b.height) else IndexTx(b.batch[k - 2], b.height)
  {
  }

  lemma {:induction false} GenesisPrefix(d: Disk, time: int, k: nat)
    requires k <= 2
    ensures var e := ApplyAll(d, GenesisWrites(time)[..k]);
      && e.blocks == (if k >= 1 then d.blocks[0 := Genesis(time)] else d.blocks)
      && e.head == (if k >= 2 then Some(0) else d.head)
      && e.txIndex == d.txIndex
  {
    var ws := GenesisWrites(time)[..k];
    var first := [PutBlock(Genesis(time))];
    assert first[..0] == [];
    assert ApplyAll(d, first) == Apply(d, first[0]);
    if k == 1 { assert ws == first; }
    if k == 2 { assert ws[..1] == first && ws[1] == SetHead(0); }
  }

  /** The chain on disk after an append has reached its second write. */
  lemma {:induction false} AppendedBlocks(d: Disk, e: Disk, b: Block, rules: Rules)
    requires Sound(d, rules) && d.head.Some?
    requires AppendOk(d.head.value, HashBlock(Blocks(d)[d.head.value]), b, rules.committee(b.height), rules.keys)
    requires e.blocks == d.blocks[b.height := b] && e.head == Some(b.height)
    ensures Sound(e, rules) && Blocks(e) == Blocks(d) + [b]
  {
    var c := Blocks(d) + [b];
    assert Contiguous(e);
    assert Blocks(e) == c;
    forall h | 1 <= h < |c| ensures LinkOk(c, rules, h) {
      if h < |Blocks(d)| { assert LinkOk(Blocks(d), rules, h); }
    }
  }

  /** Every event, faulty or not, keeps the disk sound, and committed blocks never change. */
  lemma {:induction false} StepKeepsGood(n: Node, e: Event, rules: Rules)
    requires Good(n, rules)
    ensures Good(Step(n, e, rules), rules)
    ensures Blocks(n.disk) <= Blocks(Step(n, e, rules).disk)
  {
    match e
    case Open(time, fault) =>
      if n.up.None? && n.disk.head.None? {
        var ws := Reached(GenesisWrites(time), fault);
        assert ws == GenesisWrites(time)[..|ws|];
        GenesisPrefix(n.disk, time, |ws|);
        var d := ApplyAll(n.disk, ws);
        if |ws| == 2 { assert Blocks(d) == [Genesis(time)]; }
      }
    case Append(b, fault) =>
      if n.up.Some? && AppendOk(n.up.value.0, n.up.value.1, b, rules.committee(b.height), rules.keys) {
        var ws := Reached(AppendWrites(b), fault);
        assert ws == AppendWrites(b)[..|ws|];
        AppendPrefix(n.disk, b, |ws|);
        var d := ApplyAll(n.disk, ws);
        if |ws| >= 2 {
          AppendedBlocks(n.disk, d, b, rules);
        } else {
          assert Blocks(d) == Blocks(n.disk);
        }
      }
  }

  /** Recovery: after any history of opens, appends, crashes and store errors, committed blocks are
      a hash-linked, quorate chain that only ever grows, and opening the store succeeds on its tip. */
  lemma {:induction false} RecoveryAfterAnyHistory(es: seq<Event>, rules: Rules, k: nat, time: int)
    requires k <= |es|
    ensures var n := Run(FRESH, es, rules);
      && Good(n, rules) && Good(Run(FRESH, es[..k], rules), rules)
      && Blocks(Run(FRESH, es[..k], rules).disk) <= Blocks(n.disk)
      && (n.disk.head.Some? ==>
            StepOpen(n.(up := None), time, NoFault).up == Some((n.disk.head.value, HashBlock(Blocks(n.disk)[n.disk.head.value]))))
    decreases |es|
  {
    var n := Run(FRESH, es, rules);
    if es != [] {
      var front := es[..|es| - 1];
      RecoveryAfterAnyHistory(front, rules, if k < |es| then k else |front|, time);
      StepKeepsGood(Run(FRESH, front, rules), es[|es| - 1], rules);
      if k < |es| { assert front[..k] == es[..k]; } else { assert es[..k] == es; }
    } else {
      assert es[..k] == es;
    }
  }

  // ---------------------------------------------------------------- the transaction index

  predicate IndexExact(d: Disk)
    requires Contiguous(d)
  {
    d.txIndex == IndexOf(Blocks(d))
  }

  predicate Faultless(e: Event) {
    e.fault.NoFault?
  }

  /** Before the head moves, nothing committed has changed. */
  lemma {:induction false} BeforeTheHeadMoves(d: Disk, e: Disk, b: Block)
    requires Contiguous(d) && d.head.Some? && b.height == d.head.value + 1
    requires e.head == d.head && e.txIndex == d.txIndex && (e.blocks == d.blocks || e.blocks == d.blocks[b.height := b])
    ensures Contiguous(e) && Blocks(e) == Blocks(d) && (IndexExact(e) <==> IndexExact(d))
  {
    assert Contiguous(e);
    assert Blocks(e) == Blocks(d);
  }

  /** Once it has, the index is exact if and only if the ids written so far cover the batch. */
  lemma {:induction false} AfterTheHeadMoves(d: Disk, e: Disk, b: Block, rules: Rules, m: nat)
    requires Sound(d, rules) && d.head.Some? && IndexExact(d) && m <= |b.batch|
    requires AppendOk(d.head.value, HashBlock(Blocks(d)[d.head.value]), b, rules.committee(b.height), rules.keys)
    requires e.blocks == d.blocks[b.height := b] && e.head == Some(b.height)
    requires e.txIndex == d.txIndex + Entries(b.batch[..m], b.height)
    ensures Contiguous(e) && (IndexExact(e) <==> forall id :: id in b.batch ==> id in b.batch[..m])
  {
    AppendedBlocks(d, e, b, rules);
    PartIndexesWholeIff(Blocks(d), b.batch, m);
    IndexOfLonger(Blocks(d), b);
    hide IndexOf, Entries, Grown, AppendOk, Sound;
  }

  lemma {:induction false} IndexOfLonger(chain: seq<Block>, b: Block)
    ensures IndexOf(chain + [b]) == IndexOf(chain) + Entries(b.batch, |chain|)
  {
    assert (chain + [b])[..|chain|] == chain;
  }

  /** From an exact index, an append interrupted after k writes leaves it exact precisely when the head
      had not moved yet or the ids already written cover the whole batch. */
  lemma {:induction false} IndexAfterInterruptedAppend(d: Disk, b: Block, rules: Rules, k: nat)
    requires Sound(d, rules) && d.head.Some? && IndexExact(d)
    requires AppendOk(d.head.value, HashBlock(Blocks(d)[d.head.value]), b, rules.committee(b.height), rules.keys)
    requires k <= |AppendWrites(b)|
    ensures var e := ApplyAll(d, AppendWrites(b)[..k]);
      Contiguous(e) && (IndexExact(e) <==> k < 2 || forall id :: id in b.batch ==> id in b.batch[..k - 2])
  {
    var e := ApplyAll(d, AppendWrites(b)[..k]);
    AppendPrefix(d, b, k);
    hide ApplyAll, Grown, IndexExact, Entries, Blocks, Contiguous;
    if k < 2 {
      BeforeTheHeadMoves(d, e, b);
    } else {
      AfterTheHeadMoves(d, e, b, rules, k - 2);
    }
  }

  lemma {:induction false} PartIndexesWholeIff(chain: seq<Block>, ids: seq<Hash>, m: nat)
    requires m <= |ids|
    ensures IndexOf(chain) + Entries(ids[..m], |chain|) == IndexOf(chain) + Entries(ids, |chain|)
       <==> forall id :: id in ids ==> id in ids[..m]
  {
    var some, all := IndexOf(chain) + Entries(ids[..m], |chain|), IndexOf(chain) + Entries(ids, |chain|);
    forall id | id in ids && id !in ids[..m] ensures id in some ==> some[id] < |chain| == all[id] {
      IndexOfIsGreatestHeight(chain, id);
    }
    if forall id :: id in ids ==> id in ids[..m] {
      assert Entries(ids[..m], |chain|) == Entries(ids, |chain|);
    }
  }

  /** Without faults the index always answers with the greatest height that carries the transaction. */
  lemma {:induction false} IndexExactWithoutFaults(es: seq<Event>, rules: Rules)
    requires forall e :: e in es ==> Faultless(e)
    ensures Good(Run(FRESH, es, rules), rules) && IndexExact(Run(FRESH, es, rules).disk)
    decreases |es|
  {
    if es != [] {
      var front, e := es[..|es| - 1], es[|es| - 1];
      IndexExactWithoutFaults(front, rules);
      var n := Run(FRESH, front, rules);
      StepKeepsGood(n, e, rules);
      assert e in es;
      match e
      case Open(time, fault) =>
        if n.up.None? && n.disk.head.None? {
          assert GenesisWrites(time) == GenesisWrites(time)[..2];
          GenesisPrefix(n.disk, time, 2);
          assert Blocks(Step(n, e, rules).disk) == [Genesis(time)];
          IndexOfGenesis(time);
        }
      case Append(b, fault) =>
        if n.up.Some? && AppendOk(n.up.value.0, n.up.value.1, b, rules.committee(b.height), rules.keys) {
          var k := |AppendWrites(b)|;
          assert AppendWrites(b)[..k] == AppendWrites(b) && b.batch[..k - 2] == b.batch;
          IndexAfterInterruptedAppend(n.disk, b, rules, k);
        }
    }
  }

  lemma {:induction false} IndexOfGenesis(time: int)
    ensures IndexOf([Genesis(time)]) == map[]
  {
    assert [Genesis(time)][..0] == [];
  }
}
