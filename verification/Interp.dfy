/** The sandbox interpreter of interp/interp.go: the reference meaning of a program. */
module Interp {
  import opened Hashing
  import opened Ast

  datatype Fee = Fee(target: string, amount: real)
  datatype TxEvent = TxEvent(name: string, sender: string, receiver: string, amount: real)

  datatype Deposit = Deposit(name: string, atr: real)
  datatype Queued = Queued(name: string, positions: seq<real>)

  /** A number-literal parser; rationals are `real`. */
  type Parser = string -> Option<real>

  /** The interpreter's mutable state as a value. */
  datatype State = State(vars: map<string, real>, oracle: map<string, real>, fees: seq<Fee>, txs: seq<TxEvent>,
                         deposits: seq<Deposit>, queued: seq<Queued>)

  function Lookup(vars: map<string, real>, oracle: map<string, real>, name: string): Option<real> {
    if name in vars then Some(vars[name]) else if name in oracle then Some(oracle[name]) else None
  }

  function ApplyOp(op: Op, l: real, r: real): Result<real> {
    match op
    case Plus => Ok(l + r)
    case Minus => Ok(l - r)
    case Times => Ok(l * r)
    case Over => if r == 0.0 then Err(DivisionByZero) else Ok(l / r)
    case Compare(rel) => Ok(if Holds(rel, l, r) then 1.0 else 0.0)
    case Unknown(text) => Err(UnknownOperator(text))
  }

  /** Value of e, ignoring the fee events it leaves behind. */
  function Value(e: Expr, vars: map<string, real>, oracle: map<string, real>, parse: Parser): Result<real> {
    match e
    case NumberLit(text) => (match parse(text) case Some(v) => Ok(v) case None => Err(BadLiteral(text)))
    case Ident(name) => (match Lookup(vars, oracle, name) case Some(v) => Ok(v) case None => Err(Undefined(name)))
    case FeeRoute(v, _) => Value(v, vars, oracle, parse)
    case Binary(op, l, r) =>
      var lv := Value(l, vars, oracle, parse);
      if lv.Err? then lv
      else
        var rv := Value(r, vars, oracle, parse);
        if rv.Err? then rv else ApplyOp(op, lv.value, rv.value)
  }

  lemma {:induction false} BinaryApplies(op: Op, l: Expr, r: Expr, vars: map<string, real>, oracle: map<string, real>, parse: Parser)
    requires Value(l, vars, oracle, parse).Ok? && Value(r, vars, oracle, parse).Ok?
    ensures Value(Binary(op, l, r), vars, oracle, parse) ==
            ApplyOp(op, Value(l, vars, oracle, parse).value, Value(r, vars, oracle, parse).value)
  {
    hide ApplyOp;
  }

  lemma {:induction false} OperatorMeaning(op: Op, a: real, b: real)
    ensures match op
      case Plus => ApplyOp(op, a, b).Ok? && ApplyOp(op, a, b).value == a + b
      case Minus => ApplyOp(op, a, b).Ok? && ApplyOp(op, a, b).value == a - b
      case Times => ApplyOp(op, a, b).Ok? && ApplyOp(op, a, b).value == a * b
      case Over => if b == 0.0 then ApplyOp(op, a, b) == Err(DivisionByZero) else ApplyOp(op, a, b).Ok? && ApplyOp(op, a, b).value == a / b
      case Compare(Gt) => ApplyOp(op, a, b) == Ok(if a > b then 1.0 else 0.0)
      case Compare(Ge) => ApplyOp(op, a, b) == Ok(if a >= b then 1.0 else 0.0)
      case Compare(Lt) => ApplyOp(op, a, b) == Ok(if a < b then 1.0 else 0.0)
      case Compare(Le) => ApplyOp(op, a, b) == Ok(if a <= b then 1.0 else 0.0)
      case Compare(Eq) => ApplyOp(op, a, b) == Ok(if a == b then 1.0 else 0.0)
      case Compare(Ne) => ApplyOp(op, a, b) == Ok(if a != b then 1.0 else 0.0)
      case Unknown(text) => ApplyOp(op, a, b) == Err(UnknownOperator(text))
  {
    match op
    case Plus =>
    case Minus =>
    case Times => TimesMeaning(a, b);
    case Over =>
    case Compare(rel) => ComparisonMeaning(rel, a, b);
    case Unknown(_) =>
  }

  lemma {:induction false} ComparisonMeaning(rel: Rel, a: real, b: real)
    ensures ApplyOp(Compare(rel), a, b) ==
      Ok(if (match rel case Gt => a > b case Ge => a >= b case Lt => a < b case Le => a <= b case Eq => a == b case Ne => a != b)
         then 1.0 else 0.0)
  {
    match rel
    case Gt => assert Holds(rel, a, b) <==> a > b;
    case Ge => assert Holds(rel, a, b) <==> a >= b;
    case Lt => assert Holds(rel, a, b) <==> a < b;
    case Le => assert Holds(rel, a, b) <==> a <= b;
    case Eq => assert Holds(rel, a, b) <==> a == b;
    case Ne => assert Holds(rel, a, b) <==> a != b;
  }

  lemma {:induction false} TimesMeaning(a: real, b: real)
    ensures ApplyOp(Times, a, b).Ok? && ApplyOp(Times, a, b).value == a * b
  {
  }

  /** What each operator means, once both sides have a value. */
  lemma {:induction false} BinaryValue(op: Op, l: Expr, r: Expr, vars: map<string, real>, oracle: map<string, real>, parse: Parser)
    requires Value(l, vars, oracle, parse).Ok? && Value(r, vars, oracle, parse).Ok?
    ensures var (a, b) := (Value(l, vars, oracle, parse).value, Value(r, vars, oracle, parse).value);
      var v := Value(Binary(op, l, r), vars, oracle, parse);
      match op
      case Plus => v.Ok? && v.value == a + b
      case Minus => v.Ok? && v.value == a - b
      case Times => v.Ok? && v.value == a * b
      case Over => if b == 0.0 then v == Err(DivisionByZero) else v.Ok? && v.value == a / b
      case Compare(Gt) => v == Ok(if a > b then 1.0 else 0.0)
      case Compare(Ge) => v == Ok(if a >= b then 1.0 else 0.0)
      case Compare(Lt) => v == Ok(if a < b then 1.0 else 0.0)
      case Compare(Le) => v == Ok(if a <= b then 1.0 else 0.0)
      case Compare(Eq) => v == Ok(if a == b then 1.0 else 0.0)
      case Compare(Ne) => v == Ok(if a != b then 1.0 else 0.0)
      case Unknown(text) => v == Err(UnknownOperator(text))
  {
    BinaryApplies(op, l, r, vars, oracle, parse);
    OperatorMeaning(op, Value(l, vars, oracle, parse).value, Value(r, vars, oracle, parse).value);
    hide Value, ApplyOp;
  }

  /** A fault stops the evaluation: the left side's first, then the right side's. */
  lemma {:induction false} LeafValues(e: Expr, vars: map<string, real>, oracle: map<string, real>, parse: Parser)
    ensures var v := Value(e, vars, oracle, parse);
      match e
      case NumberLit(text) => if parse(text).Some? then v == Ok(parse(text).value) else v == Err(BadLiteral(text))
      case Ident(name) =>
        if name in vars then v == Ok(vars[name])
        else if name in oracle then v == Ok(oracle[name])
        else v == Err(Undefined(name))
      case FeeRoute(routed, _) => v == Value(routed, vars, oracle, parse)
      case Binary(_, l, r) =>
        && (Value(l, vars, oracle, parse).Err? ==> v == Value(l, vars, oracle, parse))
        && (Value(l, vars, oracle, parse).Ok? && Value(r, vars, oracle, parse).Err? ==> v == Value(r, vars, oracle, parse))
  {
  }

  /** The fee events evaluating e appends, in order; those before a fault stay. */
  function Events(e: Expr, vars: map<string, real>, oracle: map<string, real>, parse: Parser): seq<Fee> {
    match e
    case NumberLit(_) => []
    case Ident(_) => []
    case FeeRoute(v, target) =>
      var inner := Value(v, vars, oracle, parse);
      Events(v, vars, oracle, parse) + if inner.Ok? then [Fee(target, inner.value)] else []
    case Binary(_, l, r) =>
      Events(l, vars, oracle, parse)
      + if Value(l, vars, oracle, parse).Ok? then Events(r, vars, oracle, parse) else []
  }

  /** On success every route has fired exactly once. */
  lemma {:induction false} EventCount(e: Expr, vars: map<string, real>, oracle: map<string, real>, parse: Parser)
    ensures Value(e, vars, oracle, parse).Ok? ==> |Events(e, vars, oracle, parse)| == Routes(e)
  {
    match e
    case NumberLit(_) =>
    case Ident(_) =>
    case FeeRoute(v, _) => EventCount(v, vars, oracle, parse);
    case Binary(_, l, r) =>
      EventCount(l, vars, oracle, parse);
      EventCount(r, vars, oracle, parse);
  }

  // ---------------------------------------------------------------- statements

  /** The values of a list of expressions, up to the first fault. */
  function Values(es: seq<Expr>, vars: map<string, real>, oracle: map<string, real>, parse: Parser): Result<seq<real>> {
    if es == [] then Ok([])
    else
      var front := Values(es[..|es| - 1], vars, oracle, parse);
      if front.Err? then front
      else match Value(es[|es| - 1], vars, oracle, parse) case Ok(v) => Ok(front.value + [v]) case Err(f) => Err(f)
  }

  function AllEvents(es: seq<Expr>, vars: map<string, real>, oracle: map<string, real>, parse: Parser): seq<Fee> {
    if es == [] then []
    else
      var front := es[..|es| - 1];
      AllEvents(front, vars, oracle, parse)
      + if Values(front, vars, oracle, parse).Ok? then Events(es[|es| - 1], vars, oracle, parse) else []
  }

  function Given(e: Option<Expr>): seq<Expr> {
    if e.Some? then [e.value] else []
  }

  /** A trait starts at zero; any operator but += and -= sets it. */
  function Updated(vars: map<string, real>, name: string, op: string, v: real): map<string, real> {
    var current := if name in vars then vars[name] else 0.0;
    vars[name := if op == "+=" then current + v else if op == "-=" then current - v else v]
  }

  /** Runs the expressions for their faults and fee events alone. */
  function Evaluated(es: seq<Expr>, st: State, parse: Parser): (State, Result<()>) {
    (st.(fees := st.fees + AllEvents(es, st.vars, st.oracle, parse)),
     match Values(es, st.vars, st.oracle, parse) case Ok(_) => Ok(()) case Err(f) => Err(f))
  }

  function RunStmt(s: Stmt, st: State, parse: Parser): (State, Result<()>)
    decreases s, 0
  {
    match s
    case Assignment(name, value) =>
      var v := Value(value, st.vars, st.oracle, parse);
      var st' := st.(fees := st.fees + Events(value, st.vars, st.oracle, parse));
      (match v case Ok(x) => (st'.(vars := st.vars[name := x]), Ok(())) case Err(f) => (st', Err(f)))
    case IfStatement(condition, body) => RunGuarded(condition, body, st, parse)
    case TxStatement(tx) =>
      var v := Value(tx.amount, st.vars, st.oracle, parse);
      var st' := st.(fees := st.fees + Events(tx.amount, st.vars, st.oracle, parse));
      (match v
       case Ok(x) =>
         RunStmts(tx.body, st'.(vars := st.vars["amount" := x],
                                txs := st.txs + [TxEvent(tx.name, tx.sender, tx.receiver, x)]), parse)
       case Err(f) => (st', Err(f)))
    case ValidateStatement(body) => RunStmts(body, st, parse)
    case MintStatement(amount, epoch) => Evaluated([amount] + Given(epoch), st, parse)
    case QueueInsertStatement(name, positions) =>
      var (st', r) := Evaluated(positions, st, parse);
      (match Values(positions, st.vars, st.oracle, parse)
       case Ok(vs) => (st'.(queued := st.queued + [Queued(name, vs)]), Ok(()))
       case Err(f) => (st', Err(f)))
    case BankDepositStatement(name, atr) =>
      var st' := st.(fees := st.fees + Events(atr, st.vars, st.oracle, parse));
      (match Value(atr, st.vars, st.oracle, parse)
       case Ok(x) => (st'.(deposits := st.deposits + [Deposit(name, x)]), Ok(()))
       case Err(f) => (st', Err(f)))
    case ResilienceStatement(condition, body) => RunGuarded(condition, body, st, parse)
    case UpdateTraitStatement(name, op, value) =>
      var st' := st.(fees := st.fees + Events(value, st.vars, st.oracle, parse));
      (match Value(value, st.vars, st.oracle, parse)
       case Ok(x) => (st'.(vars := Updated(st.vars, name, op, x)), Ok(()))
       case Err(f) => (st', Err(f)))
    case ShardStatement(count) => Evaluated(Given(count), st, parse)
    case Declarative => (st, Ok(()))
  }

  /** Runs the body when the condition is not zero. */
  function RunGuarded(condition: Expr, body: seq<Stmt>, st: State, parse: Parser): (State, Result<()>)
    decreases body, 2
  {
    var st' := st.(fees := st.fees + Events(condition, st.vars, st.oracle, parse));
    match Value(condition, st.vars, st.oracle, parse)
    case Ok(x) => if x != 0.0 then RunStmts(body, st', parse) else (st', Ok(()))
    case Err(f) => (st', Err(f))
  }

  function RunStmts(ss: seq<Stmt>, st: State, parse: Parser): (State, Result<()>)
    decreases ss, 1
  {
    if ss == [] then (st, Ok(()))
    else
      var (st', r) := RunStmt(ss[0], st, parse);
      if r.Err? then (st', r) else RunStmts(ss[1..], st', parse)
  }

  lemma {:induction false} NoValues(vars: map<string, real>, oracle: map<string, real>, parse: Parser)
    ensures Values([], vars, oracle, parse) == Ok([]) && AllEvents([], vars, oracle, parse) == []
  {
  }

  lemma {:induction false} NextValue(es: seq<Expr>, i: nat, vars: map<string, real>, oracle: map<string, real>, parse: Parser)
    requires i < |es| && Values(es[..i], vars, oracle, parse).Ok?
    ensures AllEvents(es[..i + 1], vars, oracle, parse) == AllEvents(es[..i], vars, oracle, parse) + Events(es[i], vars, oracle, parse)
    ensures var v := Value(es[i], vars, oracle, parse);
      Values(es[..i + 1], vars, oracle, parse) ==
      if v.Ok? then Ok(Values(es[..i], vars, oracle, parse).value + [v.value]) else Err(v.fault)
  {
    assert es[..i + 1][..i] == es[..i];
  }

  /** A conditional's body runs exactly when the condition is not zero, and after the condition's own events; a
      validate block's always does. */
  lemma {:induction false} ConditionalRuns(condition: Expr, body: seq<Stmt>, st: State, parse: Parser)
    requires Value(condition, st.vars, st.oracle, parse).Ok?
    ensures var st1 := st.(fees := st.fees + Events(condition, st.vars, st.oracle, parse));
      var run := Value(condition, st.vars, st.oracle, parse).value != 0.0;
      && RunStmt(IfStatement(condition, body), st, parse) == (if run then RunStmts(body, st1, parse) else (st1, Ok(())))
      && RunStmt(ResilienceStatement(condition, body), st, parse) == RunStmt(IfStatement(condition, body), st, parse)
      && RunStmt(ValidateStatement(body), st, parse) == RunStmts(body, st, parse)
  {
  }

  lemma {:induction false} ValuesInOrder(es: seq<Expr>, vars: map<string, real>, oracle: map<string, real>, parse: Parser)
    ensures var vs := Values(es, vars, oracle, parse);
      && (vs.Ok? <==> forall i :: 0 <= i < |es| ==> Value(es[i], vars, oracle, parse).Ok?)
      && (vs.Ok? ==> |vs.value| == |es| && forall i :: 0 <= i < |es| ==> Ok(vs.value[i]) == Value(es[i], vars, oracle, parse))
  {
    hide Value;
    if es != [] { ValuesInOrder(es[..|es| - 1], vars, oracle, parse); }
  }

  /** A queue insert succeeds exactly if all its positions have values, and leaves one event with them, in order. */
  lemma {:induction false} QueueInsertRecorded(name: string, es: seq<Expr>, st: State, parse: Parser)
    ensures var (st', r) := RunStmt(QueueInsertStatement(name, es), st, parse);
      && (r.Ok? <==> forall i :: 0 <= i < |es| ==> Value(es[i], st.vars, st.oracle, parse).Ok?)
      && (r.Ok? ==> |st'.queued| == |st.queued| + 1 && st.queued <= st'.queued)
      && (r.Ok? ==> var q := st'.queued[|st.queued|];
            && q.name == name && |q.positions| == |es|
            && forall i :: 0 <= i < |es| ==> Ok(q.positions[i]) == Value(es[i], st.vars, st.oracle, parse))
      && (r.Err? ==> st'.queued == st.queued)
      && st' == st.(fees := st'.fees, queued := st'.queued)
  {
    ValuesInOrder(es, st.vars, st.oracle, parse);
    hide Values, AllEvents, Value, Events;
  }

  /** A bank deposit leaves one event with its value, unless that faults. */
  lemma {:induction false} BankDepositRecorded(name: string, atr: Expr, st: State, parse: Parser)
    ensures var (st', r) := RunStmt(BankDepositStatement(name, atr), st, parse); var v := Value(atr, st.vars, st.oracle, parse);
      && (r.Ok? <==> v.Ok?)
      && st' == st.(fees := st'.fees, deposits := if v.Ok? then st.deposits + [Deposit(name, v.value)] else st.deposits)
  {
    hide Value, Events;
  }

  /** Mints and shards only evaluate, and succeed exactly if what they give has values. */
  lemma {:induction false} MintAndShardOnlyEvaluate(amount: Expr, epoch: Option<Expr>, st: State, parse: Parser)
    ensures var (st', r) := RunStmt(MintStatement(amount, epoch), st, parse);
      && (r.Ok? <==> Value(amount, st.vars, st.oracle, parse).Ok? && (epoch.Some? ==> Value(epoch.value, st.vars, st.oracle, parse).Ok?))
      && st' == st.(fees := st'.fees)
    ensures var (st', r) := RunStmt(ShardStatement(epoch), st, parse);
      && (r.Ok? <==> (epoch.Some? ==> Value(epoch.value, st.vars, st.oracle, parse).Ok?))
      && st' == st.(fees := st'.fees)
  {
    var both := [amount] + Given(epoch);
    assert both[0] == amount && (epoch.Some? ==> both[1] == epoch.value);
    ValuesInOrder(both, st.vars, st.oracle, parse);
    ValuesInOrder(Given(epoch), st.vars, st.oracle, parse);
    hide Values, AllEvents, Value, Events;
  }

  /** Fees are recorded in evaluation order: what is inside a route before the route itself, left before right. */
  lemma {:induction false} EventOrder(e: Expr, vars: map<string, real>, oracle: map<string, real>, parse: Parser)
    requires Value(e, vars, oracle, parse).Ok?
    ensures e.FeeRoute? ==>
      Events(e, vars, oracle, parse) == Events(e.value, vars, oracle, parse) + [Fee(e.target, Value(e, vars, oracle, parse).value)]
    ensures e.Binary? ==>
      Events(e, vars, oracle, parse) == Events(e.left, vars, oracle, parse) + Events(e.right, vars, oracle, parse)
  {
  }

  /** An update adds to, takes from or replaces the trait, which starts at zero, and leaves every other
      variable and all events but the value's own alone. */
  lemma {:induction false} TraitUpdate(name: string, op: string, value: Expr, st: State, parse: Parser)
    requires Value(value, st.vars, st.oracle, parse).Ok?
    ensures var (st', r) := RunStmt(UpdateTraitStatement(name, op, value), st, parse);
      var v := Value(value, st.vars, st.oracle, parse).value;
      && r.Ok? && st'.vars.Keys == st.vars.Keys + {name}
      && (forall x :: x in st.vars && x != name ==> st'.vars[x] == st.vars[x])
      && (op == "+=" && name in st.vars ==> st'.vars[name] == st.vars[name] + v)
      && (op == "-=" && name in st.vars ==> st'.vars[name] == st.vars[name] - v)
      && (op == "+=" && name !in st.vars ==> st'.vars[name] == v)
      && (op == "-=" && name !in st.vars ==> st'.vars[name] == -v)
      && (op != "+=" && op != "-=" ==> st'.vars[name] == v)
      && st'.txs == st.txs && st'.deposits == st.deposits && st'.queued == st.queued
  {
  }

  /** Nothing after a fault is evaluated. */
  lemma {:induction false} FaultStops(es: seq<Expr>, i: nat, vars: map<string, real>, oracle: map<string, real>, parse: Parser)
    requires i <= |es| && Values(es[..i], vars, oracle, parse).Err?
    ensures Values(es, vars, oracle, parse) == Values(es[..i], vars, oracle, parse)
    ensures AllEvents(es, vars, oracle, parse) == AllEvents(es[..i], vars, oracle, parse)
    decreases |es|
  {
    if i == |es| {
      assert es[..i] == es;
    } else {
      assert es[..|es| - 1][..i] == es[..i];
      FaultStops(es[..|es| - 1], i, vars, oracle, parse);
    }
  }

  class Interpreter {
    const parse: Parser
    const oracle: map<string, real>
    var vars: map<string, real>
    var fees: seq<Fee>
    var txs: seq<TxEvent>
    var deposits: seq<Deposit>
    var queued: seq<Queued>

    function View(): State
      reads this
    {
      State(vars, oracle, fees, txs, deposits, queued)
    }

    constructor (oracle: map<string, real>, parse: Parser)
      ensures View() == State(map[], oracle, [], [], [], []) && this.parse == parse
    {
      this.oracle, this.parse := oracle, parse;
      vars, fees, txs, deposits, queued := map[], [], [], [], [];
    }

    method Eval(e: Expr) returns (r: Result<real>)
      modifies this`fees
      ensures r == old(Value(e, vars, oracle, parse))
      ensures fees == old(fees) + old(Events(e, vars, oracle, parse))
      decreases e
    {
      match e
      case NumberLit(text) =>
        var v := parse(text);
        r := if v.Some? then Ok(v.value) else Err(BadLiteral(text));
      case Ident(name) =>
        if name in vars { return Ok(vars[name]); }
        if name in oracle { return Ok(oracle[name]); }
        r := Err(Undefined(name));
      case FeeRoute(v, target) =>
        r := Eval(v);
        if r.Err? { return; }
        fees := fees + [Fee(target, r.value)];
      case Binary(op, left, right) =>
        var l := Eval(left);
        if l.Err? { return l; }
        var rt := Eval(right);
        if rt.Err? { return rt; }
        r := ApplyOp(op, l.value, rt.value);
    }

    /** Evaluates the expressions in order and stops at the first fault. */
    method EvalAll(es: seq<Expr>) returns (r: Result<seq<real>>)
      modifies this`fees
      ensures r == old(Values(es, vars, oracle, parse))
      ensures fees == old(fees) + old(AllEvents(es, vars, oracle, parse))
    {
      hide Values, AllEvents, Value, Events;
      var vs: seq<real> := [];
      NoValues(vars, oracle, parse);
      for i := 0 to |es|
        invariant Values(es[..i], vars, oracle, parse) == Ok(vs)
        invariant fees == old(fees) + AllEvents(es[..i], vars, oracle, parse)
      {
        NextValue(es, i, vars, oracle, parse);
        var v := Eval(es[i]);
        if v.Err? {
          FaultStops(es, i + 1, vars, oracle, parse);
          return Err(v.fault);
        }
        vs := vs + [v.value];
      }
      assert es[..|es|] == es;
      r := Ok(vs);
    }

    method RunStatement(s: Stmt) returns (r: Result<()>)
      modifies this
      ensures (View(), r) == RunStmt(s, old(View()), parse)
      decreases s, 0
    {
      match s
      case Assignment(name, value) =>
        var v := Eval(value);
        if v.Err? { return Err(v.fault); }
        vars := vars[name := v.value];
        r := Ok(());
      case IfStatement(condition, body) =>
        var v := Eval(condition);
        if v.Err? { return Err(v.fault); }
        if v.value != 0.0 { r := RunStatements(body); } else { r := Ok(()); }
      case TxStatement(tx) =>
        var v := Eval(tx.amount);
        if v.Err? { return Err(v.fault); }
        vars := vars["amount" := v.value];
        txs := txs + [TxEvent(tx.name, tx.sender, tx.receiver, v.value)];
        r := RunStatements(tx.body);
      case ValidateStatement(body) => r := RunStatements(body);
      case MintStatement(amount, epoch) => r := EvalOnly([amount] + Given(epoch));
      case QueueInsertStatement(name, positions) =>
        var vs := EvalAll(positions);
        if vs.Err? { return Err(vs.fault); }
        queued := queued + [Queued(name, vs.value)];
        r := Ok(());
      case BankDepositStatement(name, atr) =>
        var v := Eval(atr);
        if v.Err? { return Err(v.fault); }
        deposits := deposits + [Deposit(name, v.value)];
        r := Ok(());
      case ResilienceStatement(condition, body) =>
        var v := Eval(condition);
        if v.Err? { return Err(v.fault); }
        if v.value != 0.0 { r := RunStatements(body); } else { r := Ok(()); }
      case UpdateTraitStatement(name, op, value) =>
        var v := Eval(value);
        if v.Err? { return Err(v.fault); }
        vars := Updated(vars, name, op, v.value);
        r := Ok(());
      case ShardStatement(count) => r := EvalOnly(Given(count));
      case Declarative => r := Ok(());
    }

    method EvalOnly(es: seq<Expr>) returns (r: Result<()>)
      modifies this`fees
      ensures (View(), r) == Evaluated(es, old(View()), parse)
    {
      var vs := EvalAll(es);
      r := if vs.Ok? then Ok(()) else Err(vs.fault);
    }

    method RunStatements(ss: seq<Stmt>) returns (r: Result<()>)
      modifies this
      ensures (View(), r) == RunStmts(ss, old(View()), parse)
      decreases ss, 1
    {
      ghost var start := View();
      for i := 0 to |ss|
        invariant RunStmts(ss, start, parse) == RunStmts(ss[i..], View(), parse)
      {
        assert ss[i..][1..] == ss[i + 1..];
        r := RunStatement(ss[i]);
        if r.Err? { return; }
      }
      r := Ok(());
    }
  }
}
