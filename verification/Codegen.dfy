/** The Go emitter of codegen/codegen.go for `tx` statements, and the Go it emits.

    The target is a syntax tree instead of text; its meaning (codegen/runtime/runtime.go) and the
    Go rules that decide whether the text compiles are given here, independently of the emitter. */
module Codegen {
  import opened Hashing
  import opened Ast
  import Interp

  // ---------------------------------------------------------------- the emitted language

  datatype GoExpr =
    | N(text: string)
    | Var(name: string)
    | Call(op: Op, left: GoExpr, right: GoExpr) // runtime.Add, Sub, Mul, Div, Cmp

  datatype Line = Line(name: string, value: GoExpr) // name := value

  /** func TxN_name(node runtime.Node, params...) { lines; return node.Transfer(sender, receiver, amount, feeTo, feeAmt) } */
  datatype GoFunc = GoFunc(params: set<string>, lines: seq<Line>, sender: string, receiver: string,
                           feeTo: string, feeAmt: Option<string>)

  datatype Outcome =
    | Panics(fault: Fault)
    | Transfers(sender: string, receiver: string, amount: real, feeTo: string, feeAmt: Option<real>)

  function GoIdents(e: GoExpr): set<string> {
    match e
    case N(_) => {}
    case Var(name) => {name}
    case Call(_, l, r) => GoIdents(l) + GoIdents(r)
  }

  /** Keywords of the language, the blank identifier, and the three names the emitted text relies on. */
  const RESERVED: seq<string> := [
    "break", "default", "func", "interface", "select", "case", "defer", "go", "map", "struct", "chan", "else",
    "goto", "package", "switch", "const", "fallthrough", "if", "range", "type", "continue", "for", "import",
    "return", "var", "_", "node", "runtime", "nil"]

  predicate Listed(words: seq<string>, name: string) {
    words != [] && (words[0] == name || Listed(words[1..], name))
  }

  predicate Reserved(name: string) {
    Listed(RESERVED, name)
  }

  lemma {:induction false} NotListed(words: seq<string>, name: string)
    requires |name| > 0 && forall i :: 0 <= i < |words| ==> |words[i]| > 0 && words[i][0] != name[0]
    ensures !Listed(words, name)
    decreases |words|
  {
    if words != [] { NotListed(words[1..], name); }
  }

  /** No reserved word starts with an a or an l. */
  lemma {:induction false} NotReserved(name: string)
    requires |name| > 0 && (name[0] == 'a' || name[0] == 'l')
    ensures !Reserved(name)
  {
    NotListed(RESERVED, name);
  }

  function Names(lines: seq<Line>): set<string> {
    set i | 0 <= i < |lines| :: lines[i].name
  }

  /** Line i declares a fresh, legal name and reads only what is in scope. */
  predicate LineOk(params: set<string>, lines: seq<Line>, i: nat)
    requires i < |lines|
  {
    && !Reserved(lines[i].name)
    && lines[i].name !in params + Names(lines[..i])
    && GoIdents(lines[i].value) <= params + Names(lines[..i])
  }

  /** Line i's variable is used: by a later line or by the final call. */
  predicate LineUsed(f: GoFunc, i: nat)
    requires i < |f.lines|
  {
    || f.lines[i].name == "amount"
    || f.feeAmt == Some(f.lines[i].name)
    || exists j :: i < j < |f.lines| && f.lines[i].name in GoIdents(f.lines[j].value)
  }

  /** The Go compiler accepts the function. */
  predicate Compiles(f: GoFunc) {
    && (forall p :: p in f.params ==> !Reserved(p))
    && (forall i :: 0 <= i < |f.lines| ==> LineOk(f.params, f.lines, i))
    && (forall i :: 0 <= i < |f.lines| ==> LineUsed(f, i))
    && "amount" in f.params + Names(f.lines)
    && (f.feeAmt.Some? ==> f.feeAmt.value in f.params + Names(f.lines))
  }

  // ---------------------------------------------------------------- the runtime package (codegen/runtime/runtime.go)

  function Add(a: real, b: real): real { a + b }

  function Sub(a: real, b: real): real { a - b }

  function Mul(a: real, b: real): real { a * b }

  /** Panics on a zero divisor. */
  function Div(a: real, b: real): Result<real> {
    if b == 0.0 then Err(DivisionByZero) else Ok(a / b)
  }

  function Bool(b: bool): real {
    if b then 1.0 else 0.0
  }

  /** The sign of a - b, as big.Rat compares. */
  function Order(a: real, b: real): int {
    if Sub(a, b) < 0.0 then -1 else if Sub(a, b) == 0.0 then 0 else 1
  }

  function Cmp(rel: Rel, a: real, b: real): real {
    var c := Order(a, b);
    Bool(match rel
         case Gt => c > 0
         case Ge => c >= 0
         case Lt => c < 0
         case Le => c <= 0
         case Eq => c == 0
         case Ne => c != 0)
  }

  function Called(op: Op, a: real, b: real): Result<real> {
    match op
    case Plus => Ok(Add(a, b))
    case Minus => Ok(Sub(a, b))
    case Times => Ok(Mul(a, b))
    case Over => Div(a, b)
    case Compare(rel) => Ok(Cmp(rel, a, b))
    case Unknown(text) => Err(UnknownOperator(text))
  }

  function GoValue(e: GoExpr, env: map<string, real>, parse: Interp.Parser): Result<real> {
    match e
    case N(text) => (match parse(text) case Some(v) => Ok(v) case None => Err(BadLiteral(text)))
    case Var(name) => if name in env then Ok(env[name]) else Err(Undefined(name))
    case Call(op, l, r) =>
      var lv := GoValue(l, env, parse);
      if lv.Err? then lv
      else
        var rv := GoValue(r, env, parse);
        if rv.Err? then rv else Called(op, lv.value, rv.value)
  }

  function RunLines(lines: seq<Line>, env: map<string, real>, parse: Interp.Parser): Result<map<string, real>> {
    if lines == [] then Ok(env)
    else
      match GoValue(lines[0].value, env, parse)
      case Err(f) => Err(f)
      case Ok(v) => RunLines(lines[1..], env[lines[0].name := v], parse)
  }

  /** Calling the emitted function with one argument per parameter. */
  function Invoke(f: GoFunc, args: map<string, real>, parse: Interp.Parser): Outcome {
    match RunLines(f.lines, args, parse)
    case Err(fault) => Panics(fault)
    case Ok(env) =>
      if "amount" !in env then Panics(Undefined("amount"))
      else if f.feeAmt.None? then Transfers(f.sender, f.receiver, env["amount"], f.feeTo, None)
      else if f.feeAmt.value !in env then Panics(Undefined(f.feeAmt.value))
      else Transfers(f.sender, f.receiver, env["amount"], f.feeTo, Some(env[f.feeAmt.value]))
  }

  // ---------------------------------------------------------------- the emitter, as functions

  function Emit(e: Expr): Option<GoExpr> {
    match e
    case NumberLit(text) => Some(N(text))
    case Ident(name) => Some(Var(name))
    case FeeRoute(v, _) => Emit(v)
    case Binary(op, l, r) =>
      var le, re := Emit(l), Emit(r);
      if le.None? || re.None? || op.Unknown? then None else Some(Call(op, le.value, re.value))
  }

  /** An expression is emitted exactly when every operator in it is known. */
  lemma {:induction false} EmitsIffKnown(e: Expr)
    ensures Emit(e).Some? <==> UnknownOps(e) == {}
  {
    match e
    case NumberLit(_) =>
    case Ident(_) =>
    case FeeRoute(v, _) => EmitsIffKnown(v);
    case Binary(op, l, r) =>
      EmitsIffKnown(l);
      EmitsIffKnown(r);
      assert op.Unknown? ==> op.text in UnknownOps(e);
      if UnknownOps(e) == {} { assert UnknownOps(l) <= UnknownOps(e) && UnknownOps(r) <= UnknownOps(e); }
  }

  /** One declaration of the emitted body. */
  datatype Decl = Decl(name: string, value: Expr)

  predicate Assignments(body: seq<Stmt>) {
    forall i :: 0 <= i < |body| ==> body[i].Assignment?
  }

  function BodyDecls(body: seq<Stmt>): (ds: seq<Decl>)
    requires Assignments(body)
    ensures |ds| == |body|
    ensures forall i :: 0 <= i < |body| ==> ds[i] == Decl(body[i].name, body[i].value)
  {
    seq(|body|, i requires 0 <= i < |body| => Decl(body[i].name, body[i].value))
  }

  /** The amount clause declares `amount`; the body's assignments follow. */
  function Decls(tx: Tx): seq<Decl>
    requires Assignments(tx.body)
  {
    [Decl("amount", tx.amount)] + BodyDecls(tx.body)
  }

  predicate Emittable(ds: seq<Decl>) {
    forall i :: 0 <= i < |ds| ==> Emit(ds[i].value).Some?
  }

  function LinesOf(ds: seq<Decl>): (lines: seq<Line>)
    requires Emittable(ds)
    ensures |lines| == |ds|
    ensures forall i :: 0 <= i < |ds| ==> lines[i] == Line(ds[i].name, Emit(ds[i].value).value)
  {
    seq(|ds|, i requires 0 <= i < |ds| => Line(ds[i].name, Emit(ds[i].value).value))
  }

  /** genTx refuses a body holding anything but assignments it can emit. */
  predicate Accepts(tx: Tx) {
    Assignments(tx.body) && Emittable(Decls(tx))
  }

  /** Which statements the emitter accepts: those whose body only assigns, with known operators throughout. */
  lemma {:induction false} AcceptsIffKnown(tx: Tx)
    ensures Accepts(tx) <==>
      && UnknownOps(tx.amount) == {}
      && forall i :: 0 <= i < |tx.body| ==> tx.body[i].Assignment? && UnknownOps(tx.body[i].value) == {}
  {
    EmitsIffKnown(tx.amount);
    forall i | 0 <= i < |tx.body| && tx.body[i].Assignment?
      ensures Emit(tx.body[i].value).Some? <==> UnknownOps(tx.body[i].value) == {}
    {
      EmitsIffKnown(tx.body[i].value);
    }
    hide Emit, UnknownOps;
    if Assignments(tx.body) {
      var ds := Decls(tx);
      assert ds[0] == Decl("amount", tx.amount);
      forall i | 0 <= i < |tx.body| ensures ds[i + 1] == Decl(tx.body[i].name, tx.body[i].value) {}
      forall i | 0 < i < |ds| ensures ds[i] == Decl(tx.body[i - 1].name, tx.body[i - 1].value) {}
    }
  }

  /** Names read before anything binds them; `amount` counts as bound from the start. */
  function Free(lines: seq<Line>): set<string> {
    if lines == [] then {}
    else
      var front, last := lines[..|lines| - 1], lines[|lines| - 1];
      Free(front) + (GoIdents(last.value) - Names(front) - {"amount"})
  }

  /** The last declaration whose whole right side is a route, not counting the amount clause. */
  function LastRoute(ds: seq<Decl>): (r: Option<nat>)
    ensures r.Some? ==> 0 < r.value < |ds| && ds[r.value].value.FeeRoute?
    ensures forall j :: (if r.Some? then r.value else 0) < j < |ds| ==> !ds[j].value.FeeRoute?
  {
    if |ds| <= 1 then None
    else if ds[|ds| - 1].value.FeeRoute? then Some(|ds| - 1)
    else LastRoute(ds[..|ds| - 1])
  }

  function FeeTo(ds: seq<Decl>): string {
    var r := LastRoute(ds);
    if r.Some? then ds[r.value].value.target else ""
  }

  function FeeVar(ds: seq<Decl>): Option<string> {
    var r := LastRoute(ds);
    if r.Some? then Some(ds[r.value].name) else None
  }

  function Generated(tx: Tx): GoFunc
    requires Accepts(tx)
  {
    var ds := Decls(tx);
    GoFunc(Free(LinesOf(ds)), LinesOf(ds), tx.sender, tx.receiver, FeeTo(ds), FeeVar(ds))
  }

  // ---------------------------------------------------------------- the emitter, as the source's loops

  /** Which identifiers are bound as locals, and which turned out to be free. */
  class Scope {
    var bound: set<string>
    var free: set<string>

    constructor (initial: set<string>)
      ensures bound == initial && free == {}
    {
      bound, free := initial, {};
    }

    method Use(name: string)
      modifies this`free
      ensures free == old(free) + ({name} - bound)
    {
      if name !in bound { free := free + {name}; }
    }

    method Bind(name: string)
      modifies this`bound
      ensures bound == old(bound) + {name}
    {
      bound := bound + {name};
    }
  }

  method ExprGo(e: Expr, sc: Scope) returns (r: Option<GoExpr>)
    modifies sc`free
    ensures r == Emit(e)
    ensures r.Some? ==> sc.free == old(sc.free) + (GoIdents(r.value) - sc.bound)
    decreases e
  {
    match e
    case NumberLit(text) => r := Some(N(text));
    case Ident(name) =>
      sc.Use(name);
      r := Some(Var(name));
    case FeeRoute(v, _) => r := ExprGo(v, sc);
    case Binary(op, left, right) =>
      var l := ExprGo(left, sc);
      if l.None? { return None; }
      var rt := ExprGo(right, sc);
      if rt.None? { return None; }
      if op.Unknown? { return None; }
      r := Some(Call(op, l.value, rt.value));
  }

  method GenTx(tx: Tx) returns (r: Option<GoFunc>)
    ensures r.Some? <==> Accepts(tx)
    ensures r.Some? ==> r.value == Generated(tx)
  {
    hide *;
    var sc := new Scope({"amount"});
    var amt := ExprGo(tx.amount, sc);
    ghost var ds := [Decl("amount", tx.amount)];
    if amt.None? {
      Refuses(tx, 0);
      return None;
    }
    FirstDecl(tx.amount);
    var lines := [Line("amount", amt.value)];
    var feeTo: string, feeAmt: Option<string> := "", None;
    for i := 0 to |tx.body|
      invariant forall k :: 0 <= k < i ==> tx.body[k].Assignment?
      invariant |ds| == i + 1 && ds[0] == Decl("amount", tx.amount)
      invariant forall k :: 0 <= k < i ==> ds[k + 1] == Decl(tx.body[k].name, tx.body[k].value)
      invariant Emittable(ds) && lines == LinesOf(ds) && lines[0].name == "amount"
      invariant sc.free == Free(lines) && sc.bound == Names(lines)
      invariant feeTo == FeeTo(ds) && feeAmt == FeeVar(ds)
    {
      var s := tx.body[i];
      if !s.Assignment? { RefusesStatement(tx, i); return None; }
      var ex := ExprGo(s.value, sc);
      if ex.None? {
        Refuses(tx, i + 1);
        return None;
      }
      NamesGrow(lines, Line(s.name, ex.value));
      DeclsGrow(ds, Decl(s.name, s.value));
      ds := ds + [Decl(s.name, s.value)];
      lines := lines + [Line(s.name, ex.value)];
      sc.Bind(s.name);
      if s.value.FeeRoute? { feeTo, feeAmt := s.value.target, Some(s.name); }
    }
    AllDecls(tx, ds);
    r := Some(GoFunc(sc.free, lines, tx.sender, tx.receiver, feeTo, feeAmt));
  }

  lemma {:induction false} FirstDecl(amount: Expr)
    requires Emit(amount).Some?
    ensures var ds, lines := [Decl("amount", amount)], [Line("amount", Emit(amount).value)];
      && Emittable(ds) && LinesOf(ds) == lines && FeeTo(ds) == "" && FeeVar(ds) == None
      && Names(lines) == {"amount"} && Free(lines) == GoIdents(lines[0].value) - {"amount"}
  {
    var lines := [Line("amount", Emit(amount).value)];
    assert lines[..0] == [];
    assert Free(lines[..0]) == {} && Names(lines[..0]) == {};
    assert lines[0].name in Names(lines);
  }

  lemma {:induction false} RefusesStatement(tx: Tx, i: nat)
    requires i < |tx.body| && !tx.body[i].Assignment?
    ensures !Accepts(tx)
  {
  }

  lemma {:induction false} Refuses(tx: Tx, i: nat)
    requires i <= |tx.body| && (i > 0 ==> tx.body[i - 1].Assignment?)
    requires Emit(if i == 0 then tx.amount else tx.body[i - 1].value).None?
    ensures !Accepts(tx)
  {
    if Assignments(tx.body) { assert Decls(tx)[i].value == if i == 0 then tx.amount else tx.body[i - 1].value; }
  }

  /** The declarations collected one by one are the declarations of the statement. */
  lemma {:induction false} AllDecls(tx: Tx, ds: seq<Decl>)
    requires forall k :: 0 <= k < |tx.body| ==> tx.body[k].Assignment?
    requires |ds| == |tx.body| + 1 && ds[0] == Decl("amount", tx.amount)
    requires forall k :: 0 <= k < |tx.body| ==> ds[k + 1] == Decl(tx.body[k].name, tx.body[k].value)
    requires Emittable(ds)
    ensures Accepts(tx) && ds == Decls(tx)
    ensures Generated(tx) == GoFunc(Free(LinesOf(ds)), LinesOf(ds), tx.sender, tx.receiver, FeeTo(ds), FeeVar(ds))
  {
    assert forall k :: 0 < k < |ds| ==> ds[k] == Decl(tx.body[k - 1].name, tx.body[k - 1].value);
    assert ds == Decls(tx);
  }

  lemma {:induction false} DeclsGrow(ds: seq<Decl>, d: Decl)
    requires Emittable(ds) && Emit(d.value).Some? && ds != []
    ensures Emittable(ds + [d]) && LinesOf(ds + [d]) == LinesOf(ds) + [Line(d.name, Emit(d.value).value)]
    ensures FeeTo(ds + [d]) == if d.value.FeeRoute? then d.value.target else FeeTo(ds)
    ensures FeeVar(ds + [d]) == if d.value.FeeRoute? then Some(d.name) else FeeVar(ds)
  {
    assert (ds + [d])[..|ds|] == ds;
  }

  lemma {:induction false} NamesGrow(lines: seq<Line>, l: Line)
    requires lines != [] && lines[0].name == "amount"
    ensures Names(lines + [l]) == Names(lines) + {l.name}
    ensures Free(lines + [l]) == Free(lines) + (GoIdents(l.value) - Names(lines))
  {
    var more := lines + [l];
    assert more[..|lines|] == lines;
    assert lines[0].name in Names(lines);
    forall n ensures n in Names(more) <==> n in Names(lines) + {l.name} {
      if n in Names(lines) {
        var i :| 0 <= i < |lines| && lines[i].name == n;
        assert more[i].name == n;
      }
      if n == l.name { assert more[|lines|].name == n; }
    }
  }
}
