/** The emitter against the interpreter: when the emitted Go compiles, and that it then means the same. */
module CompilerProof {
  import opened Hashing
  import opened Ast
  import opened Interp
  import opened Codegen

  // ---------------------------------------------------------------- expressions

  /** Every Go variable holds what the interpreter would look up. */
  predicate Agree(env: map<string, real>, vars: map<string, real>, oracle: map<string, real>) {
    forall x :: x in env ==> Lookup(vars, oracle, x) == Some(env[x])
  }

  lemma {:induction false} EmitKeepsIdents(e: Expr)
    requires Emit(e).Some?
    ensures GoIdents(Emit(e).value) == Idents(e)
  {
    match e
    case NumberLit(_) =>
    case Ident(_) =>
    case FeeRoute(v, _) => EmitKeepsIdents(v);
    case Binary(_, l, r) => EmitKeepsIdents(l); EmitKeepsIdents(r);
  }

  /** The runtime package computes what the interpreter does, operator by operator. */
  lemma {:induction false} RuntimeAgrees(op: Op, a: real, b: real)
    ensures Called(op, a, b) == ApplyOp(op, a, b)
  {
    if op.Compare? {
      match op.rel
      case Gt =>
      case Ge =>
      case Lt =>
      case Le =>
      case Eq =>
      case Ne =>
    }
  }

  /** Emitted expressions have the interpreter's value, or its fault. */
  lemma {:induction false} EmitKeepsValue(e: Expr, env: map<string, real>, vars: map<string, real>, oracle: map<string, real>, parse: Parser)
    requires Emit(e).Some? && Idents(e) <= env.Keys && Agree(env, vars, oracle)
    ensures GoValue(Emit(e).value, env, parse) == Value(e, vars, oracle, parse)
  {
    match e
    case NumberLit(_) =>
    case Ident(_) =>
    case FeeRoute(v, _) => EmitKeepsValue(v, env, vars, oracle, parse);
    case Binary(op, l, r) =>
      EmitKeepsValue(l, env, vars, oracle, parse);
      EmitKeepsValue(r, env, vars, oracle, parse);
      forall a, b ensures Called(op, a, b) == ApplyOp(op, a, b) { RuntimeAgrees(op, a, b); }
  }

  // ---------------------------------------------------------------- bodies

  /** Every line reads only the given names and those assigned by earlier lines. */
  predicate InScope(lines: seq<Line>, dom: set<string>) {
    lines == [] || (GoIdents(lines[0].value) <= dom && InScope(lines[1..], dom + {lines[0].name}))
  }

  /** The emitted lines and the interpreter stop together, with the same fault, or end in agreement. */
  lemma {:induction false} BodySimulates(body: seq<Stmt>, env: map<string, real>, st: State, parse: Parser)
    requires Assignments(body) && Emittable(BodyDecls(body))
    requires InScope(LinesOf(BodyDecls(body)), env.Keys) && Agree(env, st.vars, st.oracle)
    ensures var go, (st', r) := RunLines(LinesOf(BodyDecls(body)), env, parse), RunStmts(body, st, parse);
      && (go.Err? <==> r.Err?) && (go.Err? ==> go.fault == r.fault)
      && st'.oracle == st.oracle && st'.txs == st.txs
      && (go.Ok? ==> Agree(go.value, st'.vars, st'.oracle) && env.Keys <= go.value.Keys)
    decreases |body|
  {
    if body != [] {
      var s, ds := body[0], BodyDecls(body);
      assert ds[1..] == BodyDecls(body[1..]);
      assert LinesOf(ds)[1..] == LinesOf(BodyDecls(body[1..]));
      EmitKeepsIdents(s.value);
      EmitKeepsValue(s.value, env, st.vars, st.oracle, parse);
      var v := Value(s.value, st.vars, st.oracle, parse);
      if v.Ok? {
        var (st', _) := RunStmt(s, st, parse);
        assert env[s.name := v.value].Keys == env.Keys + {s.name};
        BodySimulates(body[1..], env[s.name := v.value], st', parse);
      }
    }
  }

  /** A name no later line assigns keeps its Go value. */
  lemma {:induction false} UnassignedKept(lines: seq<Line>, env: map<string, real>, x: string, parse: Parser)
    requires x in env && x !in Names(lines)
    requires RunLines(lines, env, parse).Ok?
    ensures x in RunLines(lines, env, parse).value && RunLines(lines, env, parse).value[x] == env[x]
    decreases |lines|
  {
    if lines != [] {
      var v := GoValue(lines[0].value, env, parse).value;
      assert lines[0].name in Names(lines);
      forall n | n in Names(lines[1..]) ensures n in Names(lines) {
        var i :| 0 <= i < |lines[1..]| && lines[1..][i].name == n;
        assert lines[i + 1].name == n;
      }
      UnassignedKept(lines[1..], env[lines[0].name := v], x, parse);
    }
  }

  // ---------------------------------------------------------------- which sources compile

  /** Conditions on the source alone, taking the amount clause as a first declaration of `amount`:
      names are legal and pairwise different, ... */
  predicate NamesFresh(ds: seq<Decl>) {
    && (forall i :: 0 <= i < |ds| ==> !Reserved(ds[i].name))
    && (forall i, j :: 0 <= i < j < |ds| ==> ds[i].name != ds[j].name)
  }

  /** ... nothing is read at or before its own declaration, and only legal names are read, ... */
  predicate ReadsFollowDeclarations(ds: seq<Decl>) {
    && (forall i, j :: 0 <= i <= j < |ds| ==> ds[j].name !in Idents(ds[i].value))
    && (forall i, x :: 0 <= i < |ds| && x in Idents(ds[i].value) ==> !Reserved(x))
  }

  /** ... and every assigned name is read later or names the fee. */
  predicate DeclarationsUsed(ds: seq<Decl>) {
    forall i :: 0 < i < |ds| ==> FeeVar(ds) == Some(ds[i].name) || ReadLater(ds, i)
  }

  predicate ReadLater(ds: seq<Decl>, i: nat)
    requires i < |ds|
  {
    exists j :: i < j < |ds| && ds[i].name in Idents(ds[j].value)
  }

  predicate SourceOk(ds: seq<Decl>) {
    NamesFresh(ds) && ReadsFollowDeclarations(ds) && DeclarationsUsed(ds)
  }

  predicate ReadUnbound(lines: seq<Line>, i: nat, x: string) {
    i < |lines| && x in GoIdents(lines[i].value) && x !in Names(lines[..i])
  }

  lemma {:induction false} FreeMeansReadUnbound(lines: seq<Line>, x: string)
    ensures x in Free(lines) <==> x != "amount" && exists i :: ReadUnbound(lines, i, x)
    decreases |lines|
  {
    if lines != [] {
      var front := lines[..|lines| - 1];
      FreeMeansReadUnbound(front, x);
      assert ReadUnbound(lines, |front|, x) <==> x in GoIdents(lines[|front|].value) - Names(front);
      forall i: nat | i < |front| ensures ReadUnbound(front, i, x) <==> ReadUnbound(lines, i, x) {
        assert front[..i] == lines[..i];
      }
    }
  }

  /** Line names are legal and pairwise different, reads are legal, and none is at or before its own line. */
  predicate WellOrdered(lines: seq<Line>) {
    && (forall i :: 0 <= i < |lines| ==> !Reserved(lines[i].name))
    && (forall i, j :: 0 <= i < j < |lines| ==> lines[i].name != lines[j].name)
    && (forall i, j :: 0 <= i <= j < |lines| ==> lines[j].name !in GoIdents(lines[i].value))
    && (forall i, x :: 0 <= i < |lines| && x in GoIdents(lines[i].value) ==> !Reserved(x))
  }

  lemma {:induction false} InNames(lines: seq<Line>, i: nat, x: string) returns (k: nat)
    requires i <= |lines| && x in Names(lines[..i])
    ensures k < i && lines[k].name == x
  {
    k :| 0 <= k < |lines[..i]| && lines[..i][k].name == x;
  }

  lemma {:induction false} NamesMember(lines: seq<Line>, i: nat, k: nat)
    requires k < i <= |lines|
    ensures lines[k].name in Names(lines[..i])
  {
    assert lines[..i][k].name == lines[k].name;
  }

  predicate LinesOk(lines: seq<Line>) {
    (forall p :: p in Free(lines) ==> !Reserved(p)) && (forall i :: 0 <= i < |lines| ==> LineOk(Free(lines), lines, i))
  }

  lemma {:induction false} ReadNotYetBound(lines: seq<Line>, i: nat, j: nat)
    requires LinesOk(lines) && i <= j < |lines| && lines[0].name == "amount"
    ensures lines[j].name !in GoIdents(lines[i].value)
  {
    var x := lines[j].name;
    assert LineOk(Free(lines), lines, j) && LineOk(Free(lines), lines, i);
    if x in GoIdents(lines[i].value) && x in Names(lines[..i]) {
      var k := InNames(lines, i, x);
      NamesMember(lines, j, k);
    }
  }

  lemma {:induction false} LinesOkAreOrdered(lines: seq<Line>)
    requires LinesOk(lines) && (lines != [] ==> lines[0].name == "amount")
    ensures WellOrdered(lines)
  {
    forall i, j | 0 <= i < j < |lines| ensures lines[i].name != lines[j].name {
      NamesMember(lines, j, i);
      assert LineOk(Free(lines), lines, j);
    }
    forall i, j | 0 <= i <= j < |lines| ensures lines[j].name !in GoIdents(lines[i].value) {
      ReadNotYetBound(lines, i, j);
    }
    forall i | 0 <= i < |lines| ensures !Reserved(lines[i].name) {
      assert LineOk(Free(lines), lines, i);
    }
    forall i, x | 0 <= i < |lines| && x in GoIdents(lines[i].value) ensures !Reserved(x) {
      assert LineOk(Free(lines), lines, i);
      if x in Names(lines[..i]) {
        var k := InNames(lines, i, x);
        assert LineOk(Free(lines), lines, k);
      }
    }
  }

  lemma {:induction false} OrderedNameFresh(lines: seq<Line>, i: nat)
    requires WellOrdered(lines) && i < |lines|
    ensures lines[i].name !in Free(lines) + Names(lines[..i])
  {
    var name := lines[i].name;
    if name in Names(lines[..i]) {
      var k := InNames(lines, i, name);
    }
    FreeMeansReadUnbound(lines, name);
    if name in Free(lines) {
      var k :| ReadUnbound(lines, k, name);
      if i < k { NamesMember(lines, k, i); }
    }
  }

  lemma {:induction false} OrderedLineOk(lines: seq<Line>, i: nat)
    requires WellOrdered(lines) && i < |lines| && lines[0].name == "amount"
    ensures LineOk(Free(lines), lines, i)
  {
    OrderedNameFresh(lines, i);
    forall x | x in GoIdents(lines[i].value) ensures x in Free(lines) + Names(lines[..i]) {
      FreeMeansReadUnbound(lines, x);
      if x !in Names(lines[..i]) {
        assert ReadUnbound(lines, i, x);
        if i > 0 { NamesMember(lines, i, 0); }
      }
    }
  }

  lemma {:induction false} OrderedLinesOk(lines: seq<Line>)
    requires WellOrdered(lines) && (lines != [] ==> lines[0].name == "amount")
    ensures LinesOk(lines)
  {
    forall p | p in Free(lines) ensures !Reserved(p) {
      FreeMeansReadUnbound(lines, p);
    }
    forall i | 0 <= i < |lines| ensures LineOk(Free(lines), lines, i) {
      OrderedLineOk(lines, i);
    }
  }

  lemma {:induction false} LineIdents(ds: seq<Decl>, i: nat)
    requires Emittable(ds) && i < |ds|
    ensures LinesOf(ds)[i].name == ds[i].name && GoIdents(LinesOf(ds)[i].value) == Idents(ds[i].value)
  {
    EmitKeepsIdents(ds[i].value);
  }

  lemma {:induction false} OrderedIffSource(ds: seq<Decl>)
    requires Emittable(ds)
    ensures WellOrdered(LinesOf(ds)) <==> NamesFresh(ds) && ReadsFollowDeclarations(ds)
  {
    forall i | 0 <= i < |ds| ensures LinesOf(ds)[i].name == ds[i].name && GoIdents(LinesOf(ds)[i].value) == Idents(ds[i].value) {
      LineIdents(ds, i);
    }
  }

  lemma {:induction false} LineUsedIff(f: GoFunc, ds: seq<Decl>, i: nat)
    requires Emittable(ds) && f.lines == LinesOf(ds) && i < |ds|
    ensures LineUsed(f, i) <==> ds[i].name == "amount" || f.feeAmt == Some(ds[i].name) || ReadLater(ds, i)
  {
    forall j | 0 <= j < |ds| ensures f.lines[j].name == ds[j].name && GoIdents(f.lines[j].value) == Idents(ds[j].value) {
      LineIdents(ds, j);
    }
  }

  lemma {:induction false} UsedIff(f: GoFunc, ds: seq<Decl>)
    requires Emittable(ds) && f.lines == LinesOf(ds) && f.feeAmt == FeeVar(ds)
    requires ds != [] && ds[0].name == "amount" && NamesFresh(ds)
    ensures DeclarationsUsed(ds) <==> forall i :: 0 <= i < |f.lines| ==> LineUsed(f, i)
  {
    forall i | 0 <= i < |ds|
      ensures LineUsed(f, i) <==> i == 0 || f.feeAmt == Some(ds[i].name) || ReadLater(ds, i)
    {
      LineUsedIff(f, ds, i);
      if i > 0 { assert ds[0].name != ds[i].name; }
    }
  }

  /** The emitted Go compiles for exactly the sources meeting conditions a caller can read off. */
  lemma {:induction false} CompilesIffSourceOk(tx: Tx)
    requires Accepts(tx)
    ensures Compiles(Generated(tx)) <==> SourceOk(Decls(tx))
  {
    var f, ds := Generated(tx), Decls(tx);
    LineIdents(ds, 0);
    OrderedIffSource(ds);
    assert ds[0].name == f.lines[0].name && f.lines[0].name in Names(f.lines);
    if f.feeAmt.Some? { assert f.lines[LastRoute(ds).value].name in Names(f.lines); }
    assert Compiles(f) <==> LinesOk(f.lines) && forall i :: 0 <= i < |f.lines| ==> LineUsed(f, i);
    if LinesOk(f.lines) { LinesOkAreOrdered(f.lines); }
    if WellOrdered(f.lines) {
      OrderedLinesOk(f.lines);
      UsedIff(f, ds);
    }
  }

  // ---------------------------------------------------------------- meaning preservation

  lemma {:induction false} LinesInScope(params: set<string>, lines: seq<Line>, i: nat)
    requires i <= |lines| && forall k :: 0 <= k < |lines| ==> LineOk(params, lines, k)
    ensures InScope(lines[i..], params + Names(lines[..i]))
    decreases |lines| - i
  {
    if i < |lines| {
      LinesInScope(params, lines, i + 1);
      assert LineOk(params, lines, i);
      assert lines[i..][1..] == lines[i + 1..];
      assert Names(lines[..i + 1]) == Names(lines[..i]) + {lines[i].name} by { NamesExtend(lines, i); }
      assert (params + Names(lines[..i])) + {lines[i].name} == params + Names(lines[..i + 1]);
    }
  }

  lemma {:induction false} NamesExtend(lines: seq<Line>, i: nat)
    requires i < |lines|
    ensures Names(lines[..i + 1]) == Names(lines[..i]) + {lines[i].name}
  {
    forall n ensures n in Names(lines[..i + 1]) <==> n in Names(lines[..i]) || n == lines[i].name {
      if n in Names(lines[..i + 1]) { var k := InNames(lines, i + 1, n); if k < i { NamesMember(lines, i, k); } }
      if n in Names(lines[..i]) { var k := InNames(lines, i, n); NamesMember(lines, i + 1, k); }
      NamesMember(lines, i + 1, i);
    }
  }

  /** The emitted function, called with the interpreter's values for exactly its free names, stops with
      the interpreter's fault or transfers the interpreter's amount between the same parties; its fee is
      the final value of the last assignment whose whole right side is a route, to that route's target. */
  lemma {:induction false} MeaningPreserved(tx: Tx, st: State, args: map<string, real>, parse: Parser)
    requires Accepts(tx) && Compiles(Generated(tx))
    requires args.Keys == Generated(tx).params && Agree(args, st.vars, st.oracle)
    ensures var ((st', r), out, ds) := (RunStmt(TxStatement(tx), st, parse), Invoke(Generated(tx), args, parse), Decls(tx));
      && (r.Err? <==> out.Panics?) && (r.Err? ==> out.fault == r.fault)
      && (r.Ok? ==>
            && st'.txs == st.txs + [TxEvent(tx.name, out.sender, out.receiver, out.amount)]
            && (out.sender, out.receiver, out.feeTo) == (tx.sender, tx.receiver, FeeTo(ds))
            && (FeeVar(ds).None? ==> out.feeAmt.None?)
            && (FeeVar(ds).Some? ==> out.feeAmt.Some? && Lookup(st'.vars, st'.oracle, FeeVar(ds).value) == out.feeAmt))
  {
    var v := Value(tx.amount, st.vars, st.oracle, parse);
    TxUnfolds(tx, st, parse);
    InvokeUnfolds(tx, st, args, parse);
    if v.Ok? {
      var env, st1 := args["amount" := v.value], AfterAmount(tx, st, v.value, parse);
      BodiesSimulate(tx, st1, args, v.value, parse);
      var go := RunLines(Generated(tx).lines[1..], env, parse);
      if go.Ok? {
        AmountKept(tx, env, parse);
        if FeeVar(Decls(tx)).Some? { FeeVarBound(tx, env, parse); }
      }
    }
  }

  lemma {:induction false} TxUnfolds(tx: Tx, st: State, parse: Parser)
    ensures var v := Value(tx.amount, st.vars, st.oracle, parse);
      && (v.Err? ==> RunStmt(TxStatement(tx), st, parse).1 == Err(v.fault))
      && (v.Ok? ==> RunStmt(TxStatement(tx), st, parse) == RunStmts(tx.body, AfterAmount(tx, st, v.value, parse), parse))
  {
    var v := Value(tx.amount, st.vars, st.oracle, parse);
    if v.Ok? {
      var st' := st.(fees := st.fees + Events(tx.amount, st.vars, st.oracle, parse));
      assert st'.(vars := st.vars["amount" := v.value],
                  txs := st.txs + [TxEvent(tx.name, tx.sender, tx.receiver, v.value)]) == AfterAmount(tx, st, v.value, parse);
    }
  }

  lemma {:induction false} InvokeUnfolds(tx: Tx, st: State, args: map<string, real>, parse: Parser)
    requires Accepts(tx) && Compiles(Generated(tx))
    requires args.Keys == Generated(tx).params && Agree(args, st.vars, st.oracle)
    ensures var (v, lines) := (Value(tx.amount, st.vars, st.oracle, parse), Generated(tx).lines);
      RunLines(lines, args, parse) == match v case Err(f) => Err(f) case Ok(x) => RunLines(lines[1..], args["amount" := x], parse)
  {
    var f, ds := Generated(tx), Decls(tx);
    LineIdents(ds, 0);
    assert LineOk(f.params, f.lines, 0);
    assert f.lines[..0] == [];
    EmitKeepsValue(tx.amount, args, st.vars, st.oracle, parse);
  }

  lemma {:induction false} BodiesSimulate(tx: Tx, st1: State, args: map<string, real>, amount: real, parse: Parser)
    requires Accepts(tx) && Compiles(Generated(tx)) && args.Keys == Generated(tx).params
    requires Agree(args["amount" := amount], st1.vars, st1.oracle)
    ensures var go, (st', r) := RunLines(Generated(tx).lines[1..], args["amount" := amount], parse), RunStmts(tx.body, st1, parse);
      && (go.Err? <==> r.Err?) && (go.Err? ==> go.fault == r.fault)
      && st'.txs == st1.txs && (go.Ok? ==> Agree(go.value, st'.vars, st'.oracle))
  {
    hide RunLines, RunStmts, Agree;
    var f, env := Generated(tx), args["amount" := amount];
    TailOfGenerated(tx);
    LinesInScope(f.params, f.lines, 1);
    assert env.Keys == f.params + Names(f.lines[..1]);
    BodySimulates(tx.body, env, st1, parse);
  }

  lemma {:induction false} TailOfGenerated(tx: Tx)
    requires Accepts(tx)
    ensures Emittable(BodyDecls(tx.body)) && Generated(tx).lines[1..] == LinesOf(BodyDecls(tx.body))
    ensures Names(Generated(tx).lines[..1]) == {"amount"}
  {
    var f := Generated(tx);
    assert Decls(tx)[1..] == BodyDecls(tx.body);
    NamesExtend(f.lines, 0);
    assert Names(f.lines[..0]) == {};
  }

  /** The interpreter's state once the amount clause has been evaluated. */
  function AfterAmount(tx: Tx, st: State, amount: real, parse: Parser): State {
    st.(fees := st.fees + Events(tx.amount, st.vars, st.oracle, parse),
        vars := st.vars["amount" := amount],
        txs := st.txs + [TxEvent(tx.name, tx.sender, tx.receiver, amount)])
  }

  lemma {:induction false} AmountKept(tx: Tx, env: map<string, real>, parse: Parser)
    requires Accepts(tx) && Compiles(Generated(tx)) && "amount" in env
    requires RunLines(Generated(tx).lines[1..], env, parse).Ok?
    ensures var go := RunLines(Generated(tx).lines[1..], env, parse).value; "amount" in go && go["amount"] == env["amount"]
  {
    var lines := Generated(tx).lines;
    if "amount" in Names(lines[1..]) {
      var k :| 0 <= k < |lines[1..]| && lines[1..][k].name == "amount";
      assert LineOk(Generated(tx).params, lines, k + 1);
      NamesMember(lines, k + 1, 0);
    }
    UnassignedKept(lines[1..], env, "amount", parse);
  }

  lemma {:induction false} AssignedBound(lines: seq<Line>, env: map<string, real>, parse: Parser)
    requires RunLines(lines, env, parse).Ok?
    ensures RunLines(lines, env, parse).value.Keys == env.Keys + Names(lines)
    decreases |lines|
  {
    if lines == [] {
      assert Names(lines) == {};
    } else {
      var v := GoValue(lines[0].value, env, parse).value;
      AssignedBound(lines[1..], env[lines[0].name := v], parse);
      forall n ensures n in Names(lines) <==> n == lines[0].name || n in Names(lines[1..]) {
        if n in Names(lines[1..]) {
          var i :| 0 <= i < |lines[1..]| && lines[1..][i].name == n;
          assert lines[i + 1].name == n;
        }
        if n in Names(lines) && n != lines[0].name {
          var i :| 0 <= i < |lines| && lines[i].name == n;
          assert lines[1..][i - 1].name == n;
        }
      }
    }
  }

  lemma {:induction false} FeeVarBound(tx: Tx, env: map<string, real>, parse: Parser)
    requires Accepts(tx) && FeeVar(Decls(tx)).Some?
    requires RunLines(Generated(tx).lines[1..], env, parse).Ok?
    ensures FeeVar(Decls(tx)).value in RunLines(Generated(tx).lines[1..], env, parse).value
  {
    var lines, r := Generated(tx).lines, LastRoute(Decls(tx)).value;
    AssignedBound(lines[1..], env, parse);
    assert lines[1..][r - 1].name == Decls(tx)[r].name;
  }

  // ---------------------------------------------------------------- fees

  function RouteTotal(ds: seq<Decl>): nat {
    if ds == [] then 0 else Routes(ds[0].value) + RouteTotal(ds[1..])
  }

  /** A body only appends fee events, one per route when it succeeds. */
  lemma {:induction false} BodyFees(body: seq<Stmt>, st: State, parse: Parser)
    requires Assignments(body)
    ensures var (st', r) := RunStmts(body, st, parse);
      && st.fees <= st'.fees
      && (r.Ok? ==> |st'.fees| == |st.fees| + RouteTotal(BodyDecls(body)))
    decreases |body|
  {
    if body != [] {
      EventCount(body[0].value, st.vars, st.oracle, parse);
      assert BodyDecls(body)[1..] == BodyDecls(body[1..]);
      var (st1, r1) := RunStmt(body[0], st, parse);
      if r1.Ok? { BodyFees(body[1..], st1, parse); }
    }
  }

  /** The event of a whole-line route carries the value its name still has at the end. */
  lemma {:induction false} RouteLineFires(body: seq<Stmt>, k: nat, st: State, parse: Parser)
    requires Assignments(body) && k < |body| && body[k].value.FeeRoute?
    requires forall j :: k < j < |body| ==> body[j].name != body[k].name
    requires RunStmts(body, st, parse).1.Ok?
    ensures var st' := RunStmts(body, st, parse).0;
      && st.fees <= st'.fees && body[k].name in st'.vars
      && Fee(body[k].value.target, st'.vars[body[k].name]) in st'.fees[|st.fees|..]
    decreases |body|
  {
    var (st1, _) := RunStmt(body[0], st, parse);
    var st' := RunStmts(body, st, parse).0;
    BodyFees(body[1..], st1, parse);
    if k == 0 {
      VariableKept(body[1..], body[0].name, st1, parse);
      var fee := st1.fees[|st1.fees| - 1];
      assert fee == Fee(body[0].value.target, st1.vars[body[0].name]);
      assert st'.fees[|st1.fees| - 1] == fee;
    } else {
      RouteLineFires(body[1..], k - 1, st1, parse);
      var i :| 0 <= i < |st'.fees[|st1.fees|..]| && st'.fees[|st1.fees|..][i] == Fee(body[k].value.target, st'.vars[body[k].name]);
      assert st'.fees[|st1.fees| + i] == st'.fees[|st.fees|..][|st1.fees| - |st.fees| + i];
    }
  }

  lemma {:induction false} VariableKept(body: seq<Stmt>, x: string, st: State, parse: Parser)
    requires Assignments(body) && x in st.vars && forall j :: 0 <= j < |body| ==> body[j].name != x
    ensures var st' := RunStmts(body, st, parse).0; x in st'.vars && st'.vars[x] == st.vars[x]
    decreases |body|
  {
    if body != [] {
      var (st1, r1) := RunStmt(body[0], st, parse);
      if r1.Ok? { VariableKept(body[1..], x, st1, parse); }
    }
  }

  /** Fee events the interpreter recorded between two states. */
  function Recorded(st: State, st': State): seq<Fee>
    requires |st.fees| <= |st'.fees|
  {
    st'.fees[|st.fees|..]
  }

  function Delivered(out: Outcome): seq<Fee>
    requires out.Transfers?
  {
    if out.feeAmt.Some? then [Fee(out.feeTo, out.feeAmt.value)] else []
  }

  /** The one fee the emitted call carries is among those the interpreter records, and it is all of
      them exactly when no route is nested inside a larger expression or the amount, and no more than
      one assignment routes. */
  lemma {:induction false} FeesDeliveredIff(tx: Tx, st: State, args: map<string, real>, parse: Parser)
    requires Accepts(tx) && Compiles(Generated(tx))
    requires args.Keys == Generated(tx).params && Agree(args, st.vars, st.oracle)
    requires RunStmt(TxStatement(tx), st, parse).1.Ok?
    ensures var st', out, ds := RunStmt(TxStatement(tx), st, parse).0, Invoke(Generated(tx), args, parse), Decls(tx);
      && out.Transfers? && st.fees <= st'.fees
      && (forall fee :: fee in Delivered(out) ==> fee in Recorded(st, st'))
      && (Recorded(st, st') == Delivered(out) <==> RouteTotal(ds) == if LastRoute(ds).Some? then 1 else 0)
  {
    var st', out := RunStmt(TxStatement(tx), st, parse).0, Invoke(Generated(tx), args, parse);
    RecordedCount(tx, st, parse);
    DeliveredIsRecorded(tx, st, args, parse);
    AllOrSome(Recorded(st, st'), Delivered(out));
  }

  lemma {:induction false} DeliveredIsRecorded(tx: Tx, st: State, args: map<string, real>, parse: Parser)
    requires Accepts(tx) && Compiles(Generated(tx))
    requires args.Keys == Generated(tx).params && Agree(args, st.vars, st.oracle)
    requires RunStmt(TxStatement(tx), st, parse).1.Ok?
    ensures var (st', out) := (RunStmt(TxStatement(tx), st, parse).0, Invoke(Generated(tx), args, parse));
      && out.Transfers? && st.fees <= st'.fees
      && |Delivered(out)| == (if LastRoute(Decls(tx)).Some? then 1 else 0)
      && (forall fee :: fee in Delivered(out) ==> fee in Recorded(st, st'))
  {
    MeaningPreserved(tx, st, args, parse);
    RecordedCount(tx, st, parse);
    if LastRoute(Decls(tx)).Some? {
      assert NamesFresh(Decls(tx)) by { CompilesIffSourceOk(tx); }
      FeeRecorded(tx, st, parse);
    }
  }

  lemma {:induction false} AllOrSome(e: seq<Fee>, d: seq<Fee>)
    requires |d| <= 1 && forall fee :: fee in d ==> fee in e
    ensures e == d <==> |e| == |d|
  {
    if |e| == |d| == 1 { assert d[0] in e; }
  }

  lemma {:induction false} RecordedCount(tx: Tx, st: State, parse: Parser)
    requires Assignments(tx.body) && RunStmt(TxStatement(tx), st, parse).1.Ok?
    ensures var st' := RunStmt(TxStatement(tx), st, parse).0;
      st.fees <= st'.fees && |Recorded(st, st')| == RouteTotal(Decls(tx))
  {
    TxUnfolds(tx, st, parse);
    var v := Value(tx.amount, st.vars, st.oracle, parse);
    EventCount(tx.amount, st.vars, st.oracle, parse);
    BodyFees(tx.body, AfterAmount(tx, st, v.value, parse), parse);
    assert Decls(tx)[1..] == BodyDecls(tx.body);
  }

  lemma {:induction false} FeeRecorded(tx: Tx, st: State, parse: Parser)
    requires Assignments(tx.body) && NamesFresh(Decls(tx))
    requires RunStmt(TxStatement(tx), st, parse).1.Ok? && LastRoute(Decls(tx)).Some?
    ensures var st', d := RunStmt(TxStatement(tx), st, parse).0, Decls(tx)[LastRoute(Decls(tx)).value];
      && st.fees <= st'.fees && d.name in st'.vars
      && Fee(d.value.target, st'.vars[d.name]) in Recorded(st, st')
  {
    var ds, st' := Decls(tx), RunStmt(TxStatement(tx), st, parse).0;
    var k := LastRoute(ds).value - 1;
    var st1 := AfterAmount(tx, st, Value(tx.amount, st.vars, st.oracle, parse).value, parse);
    TxUnfolds(tx, st, parse);
    RecordedCount(tx, st, parse);
    forall j | k < j < |tx.body| ensures tx.body[j].name != tx.body[k].name { NamesDiffer(tx, k, j); }
    RouteLineFires(tx.body, k, st1, parse);
    InLongerSuffix(st'.fees, |st1.fees|, |st.fees|, Fee(ds[k + 1].value.target, st'.vars[ds[k + 1].name]));
  }

  lemma {:induction false} NamesDiffer(tx: Tx, i: nat, j: nat)
    requires Assignments(tx.body) && NamesFresh(Decls(tx)) && i < j < |tx.body|
    ensures tx.body[i].name != tx.body[j].name
  {
    var ds := Decls(tx);
    assert ds[i + 1].name != ds[j + 1].name;
  }

  lemma {:induction false} InLongerSuffix(s: seq<Fee>, a: nat, b: nat, fee: Fee)
    requires b <= a <= |s| && fee in s[a..]
    ensures fee in s[b..]
  {
    assert s[b..] == s[b..a] + s[a..];
  }

  const INNER := FeeRoute(NumberLit("5"), "audit")
  const NESTED := Tx("x", "a", "b", NumberLit("100"), [Assignment("levy", FeeRoute(INNER, "vault"))])
  const EMPTY := State(map[], map[], [], [], [], [])

  lemma {:induction false} NestedInterpreted(parse: Parser)
    requires parse("100") == Some(100.0) && parse("5") == Some(5.0)
    ensures RunStmt(TxStatement(NESTED), EMPTY, parse).0.fees == [Fee("audit", 5.0), Fee("vault", 5.0)]
  {
    var st1 := AfterAmount(NESTED, EMPTY, 100.0, parse);
    TxUnfolds(NESTED, EMPTY, parse);
    assert NESTED.body[1..] == [];
    assert RunStmts(NESTED.body, st1, parse) == RunStmt(NESTED.body[0], st1, parse);
    assert Events(INNER, st1.vars, st1.oracle, parse) == [Fee("audit", 5.0)];
    assert Events(NESTED.body[0].value, st1.vars, st1.oracle, parse) == [Fee("audit", 5.0), Fee("vault", 5.0)];
  }

  /** An amount and one routed fee, neither reading a name. */
  lemma {:induction false} RoutedFeeOk(amount: Decl, fee: Decl)
    requires !Reserved(amount.name) && !Reserved(fee.name) && amount.name != fee.name
    requires Idents(amount.value) == {} && Idents(fee.value) == {} && fee.value.FeeRoute?
    ensures SourceOk([amount, fee])
  {
    hide Reserved, Idents;
    assert LastRoute([amount, fee]) == Some(1);
  }

  lemma {:induction false} NestedSourceOk()
    ensures Accepts(NESTED) && SourceOk(Decls(NESTED))
  {
    var amount, levy := Decl("amount", NumberLit("100")), Decl("levy", FeeRoute(INNER, "vault"));
    assert Decls(NESTED) == [amount, levy];
    assert Emit(amount.value).Some? && Emit(levy.value).Some?;
    assert Idents(amount.value) == {} && Idents(levy.value) == {};
    hide SourceOk, Reserved, Idents, Emit;
    NotReserved("amount");
    NotReserved("levy");
    assert "amount"[0] != "levy"[0];
    RoutedFeeOk(amount, levy);
  }

  lemma {:induction false} NestedCompiled(parse: Parser)
    requires parse("100") == Some(100.0) && parse("5") == Some(5.0)
    ensures Accepts(NESTED) && Compiles(Generated(NESTED))
    ensures Invoke(Generated(NESTED), map[], parse) == Transfers("a", "b", 100.0, "vault", Some(5.0))
  {
    var f := Generated(NESTED);
    assert f.lines == [Line("amount", N("100")), Line("levy", N("5"))];
    assert f.lines[1..] == [Line("levy", N("5"))] && f.lines[1..][1..] == [];
    assert LastRoute(Decls(NESTED)) == Some(1);
    NestedSourceOk();
    CompilesIffSourceOk(NESTED);
    var env := map["amount" := 100.0, "levy" := 5.0];
    assert RunLines(f.lines[1..], map["amount" := 100.0], parse) == Ok(env);
  }

  /** An accepted, compiling statement whose inner route is silently dropped: interpreted it pays two fees,
      compiled it pays one. */
  lemma {:induction false} NestedRouteDropped(parse: Parser)
    requires parse("100") == Some(100.0) && parse("5") == Some(5.0)
    ensures Accepts(NESTED) && Compiles(Generated(NESTED))
    ensures RunStmt(TxStatement(NESTED), EMPTY, parse).0.fees == [Fee("audit", 5.0), Fee("vault", 5.0)]
    ensures Invoke(Generated(NESTED), map[], parse) == Transfers("a", "b", 100.0, "vault", Some(5.0))
  {
    hide RunStmt, Invoke, Generated, Accepts;
    NestedInterpreted(parse);
    NestedCompiled(parse);
  }
}
