/** The evaluation rules of Plaia, written once over an exchangeable value
    domain: expressions and lvalues as functions of a read-only view of the
    evaluator, statements as a specification over `Machine` states and as
    methods that run them on a `ConcreteEvaluator` object. */
module Interpret {
  import opened Errors
  import opened Ast
  import opened Concrete

  /** What the expression rules may ask of an evaluator: the location a name
      is bound to, the value at a location, the meaning of a binary
      operator, and conversions from literals and locations to values and
      from values back to locations. */
  datatype Evaluator<!V, !L> = Evaluator(
    findStore: Symbol -> Result<L>,
    findHeap: L -> Result<V>,
    denote: (BinOp, V, V) -> Result<V>,
    injVal: Lit -> V,
    injLoc: L -> V,
    unwrapPtr: V -> Result<L>)

  /** The location an assignment target denotes: a variable's binding, or
      the address a dereferenced pointer holds. */
  function EvalLval<V, L>(ev: Evaluator<V, L>, e: Expr): (r: Result<L>)
    ensures r.Ok? ==> e.expr.Var? || (e.expr.Unary? && e.expr.uop == Deref)
    ensures !e.expr.Var? && !(e.expr.Unary? && e.expr.uop == Deref) ==> r == Err(NotAnLValue)
    decreases e, 1
  {
    match e.expr
    case Var(x) => ev.findStore(x)
    case Unary(Deref, inner) =>
      var p :- EvalExpr(ev, inner);
      ev.unwrapPtr(p)
    case _ => Err(NotAnLValue)
  }

  /** The value of an expression. Both operands of a binary operator are
      evaluated, left first, whatever the operator; negation and calls are
      not implemented. */
  function EvalExpr<V, L>(ev: Evaluator<V, L>, e: Expr): (r: Result<V>)
    ensures e.expr.FunCall? || (e.expr.Unary? && e.expr.uop == Negate) ==> r == Err(Unimplemented)
    decreases e, 0
  {
    match e.expr
    case Literal(l) => Ok(ev.injVal(l))
    case Var(x) =>
      var l :- ev.findStore(x);
      ev.findHeap(l)
    case Binary(o, lhs, rhs) =>
      var a :- EvalExpr(ev, lhs);
      var b :- EvalExpr(ev, rhs);
      ev.denote(o, a, b)
    case Unary(Ref, inner) =>
      var l :- EvalLval(ev, inner);
      Ok(ev.injLoc(l))
    case Unary(Deref, inner) =>
      var p :- EvalExpr(ev, inner);
      var l :- ev.unwrapPtr(p);
      ev.findHeap(l)
    case _ => Err(Unimplemented)
  }

  /** The evaluator a concrete state presents to the expression rules: names
      are looked up in the current frame, locations in the heap. */
  function ViewOf<V>(vc: ValCompute<V>, heap: seq<V>, store: SimpleStore): Evaluator<V, SimpleAddr>
  {
    Evaluator(x => Lookup(store, x), l => HeapAt(heap, l), vc.op, vc.fromLit, vc.fromLoc, vc.unwrapLoc)
  }

  function View<V>(vc: ValCompute<V>, m: Machine<V>): Evaluator<V, SimpleAddr>
    requires m.Valid()
  {
    ViewOf(vc, m.heap, m.Store())
  }

  // ---------------------------------------------------------------------
  // Statements, as a function of the state

  /** What every statement keeps: one frame per level with the same current
      frame, the frames below it untouched, a heap that only grows and a
      trace that is only appended to. */
  ghost predicate Preserves<V>(m: Machine<V>, m': Machine<V>)
  {
    && m.Valid() && m'.Valid() && m'.curFrame == m.curFrame
    && m'.frames[..m.curFrame] == m.frames[..m.curFrame]
    && |m.heap| <= |m'.heap|
    && |m.trace| <= |m'.trace| && m'.trace[..|m.trace|] == m.trace
  }

  /** Every name of the current frame is bound to a cell of the heap. */
  ghost predicate Bound<V>(m: Machine<V>)
    requires m.Valid()
  {
    forall x :: x in m.Store() ==> m.Store()[x] < |m.heap|
  }

  /** Binding a name to a freshly allocated cell keeps every binding of the
      current frame inside the heap. */
  lemma BindFreshCell<V>(m: Machine<V>, zero: V, x: Symbol)
    requires m.Valid()
    ensures Bound(m) ==> Bound(m.Alloc(zero).0.UpdateStore(x, |m.heap|))
  {
    var m2 := m.Alloc(zero).0.UpdateStore(x, |m.heap|);
    if Bound(m) {
      forall y | y in m2.Store()
        ensures m2.Store()[y] < |m2.heap|
      {
        if y != x {
          assert y in m.Store();
        }
      }
    }
  }

  /** The outcome of running `s` from `m`. Sub-statements of blocks and case
      arms go through `Step`, which records a snapshot first when `tracing`
      is set. */
  function Exec<V>(vc: ValCompute<V>, m: Machine<V>, s: Statement, tracing: bool): (r: Result<Machine<V>>)
    requires m.Valid()
    ensures r.Ok? ==> Preserves(m, r.value)
    ensures r.Ok? && !tracing ==> r.value.trace == m.trace
    ensures r.Ok? && Bound(m) ==> Bound(r.value)
    decreases s, 0
  {
    match s.stmt
    case Block(ss) => ExecBlock(vc, m, ss, tracing)
    case Assign(lhs, rhs) =>
      var v :- EvalExpr(View(vc, m), rhs);
      var l :- EvalLval(View(vc, m), lhs);
      m.UpdateHeap(l, v)
    case VarDecl(tb, Some(init)) =>
      var v :- EvalExpr(View(vc, m), init);
      var (m1, l) := m.Alloc(vc.zero);
      m1.UpdateStore(tb.name, l).UpdateHeap(l, v)
    case VarDecl(tb, None) =>
      var (m1, l) := m.Alloc(vc.zero);
      BindFreshCell(m, vc.zero, tb.name);
      Ok(m1.UpdateStore(tb.name, l))
    case Case(discr, arms) =>
      var v :- EvalExpr(View(vc, m), discr);
      ExecCase(vc, m, v, arms, tracing)
  }

  /** A sub-statement: with tracing, a snapshot of the heap, the current
      frame and the statement's span is appended before it runs. */
  function Step<V>(vc: ValCompute<V>, m: Machine<V>, s: Statement, tracing: bool): (r: Result<Machine<V>>)
    requires m.Valid()
    ensures r.Ok? ==> Preserves(m, r.value)
    ensures r.Ok? && !tracing ==> r.value.trace == m.trace
    ensures r.Ok? && Bound(m) ==> Bound(r.value)
    decreases s, 1
  {
    if tracing then Exec(vc, m.Record(s.loc), s, true) else Exec(vc, m, s, false)
  }

  /** The statements of a block in order, each from the state the previous
      one left; the first failure stops the block. */
  function ExecBlock<V>(vc: ValCompute<V>, m: Machine<V>, ss: seq<Statement>, tracing: bool): (r: Result<Machine<V>>)
    requires m.Valid()
    ensures r.Ok? ==> Preserves(m, r.value)
    ensures r.Ok? && !tracing ==> r.value.trace == m.trace
    ensures r.Ok? && Bound(m) ==> Bound(r.value)
    decreases ss, 0
  {
    if ss == [] then Ok(m)
    else
      var m1 :- Step(vc, m, ss[0], tracing);
      ExecBlock(vc, m1, ss[1..], tracing)
  }

  /** The first arm whose pattern matches `v` runs; when none does the
      statement does nothing. */
  function ExecCase<V>(vc: ValCompute<V>, m: Machine<V>, v: V, arms: seq<CaseBranch>, tracing: bool): (r: Result<Machine<V>>)
    requires m.Valid()
    ensures r.Ok? ==> Preserves(m, r.value)
    ensures r.Ok? && !tracing ==> r.value.trace == m.trace
    ensures r.Ok? && Bound(m) ==> Bound(r.value)
    decreases arms, 0
  {
    if arms == [] then Ok(m)
    else
      var CaseArm(pat, body) := arms[0].branch;
      assert arms[0] in arms && body < arms[0].branch < arms[0];
      var hit :- DoMatch(vc, pat.pattern, v);
      if hit then Step(vc, m, body, tracing)
      else ExecCase(vc, m, v, arms[1..], tracing)
  }

  // ---------------------------------------------------------------------
  // Running statements on the evaluator object

  /** Run `s` on the evaluator; the statements inside it go through the
      tracing hook when `tracing` is set and through the plain one
      otherwise. The new state is the one `Exec` describes. */
  method RunStmt<V>(ev: ConcreteEvaluator<V>, s: Statement, tracing: bool) returns (r: Outcome)
    requires ev.Valid()
    modifies ev`heap, ev`frames, ev`curFrame, ev`trace
    ensures ev.Valid()
    ensures r.Pass? <==> Exec(ev.vals, old(ev.State()), s, tracing).Ok?
    ensures r.Pass? ==> ev.State() == Exec(ev.vals, old(ev.State()), s, tracing).value
    ensures r.Fail? ==> r.error == Exec(ev.vals, old(ev.State()), s, tracing).error
    decreases s, 0
  {
    match s.stmt
    case Block(ss) =>
      r := RunBlock(ev, ss, tracing);
    case Assign(lhs, rhs) =>
      var v := EvalExpr(ViewOf(ev.vals, ev.heap, ev.frames[ev.curFrame]), rhs);
      if v.Err? {
        return Fail(v.error);
      }
      var l := EvalLval(ViewOf(ev.vals, ev.heap, ev.frames[ev.curFrame]), lhs);
      if l.Err? {
        return Fail(l.error);
      }
      r := ev.UpdateHeap(l.value, v.value);
    case VarDecl(tb, Some(init)) =>
      var v := EvalExpr(ViewOf(ev.vals, ev.heap, ev.frames[ev.curFrame]), init);
      if v.Err? {
        return Fail(v.error);
      }
      var l := ev.Alloc();
      ev.UpdateStore(tb.name, l);
      r := ev.UpdateHeap(l, v.value);
    case VarDecl(tb, None) =>
      var l := ev.Alloc();
      ev.UpdateStore(tb.name, l);
      r := Pass;
    case Case(discr, arms) =>
      var v := EvalExpr(ViewOf(ev.vals, ev.heap, ev.frames[ev.curFrame]), discr);
      if v.Err? {
        return Fail(v.error);
      }
      r := RunCase(ev, v.value, arms, tracing);
  }

  /** The statements of a block, one after the other; the first failure
      stops the block. */
  method RunBlock<V>(ev: ConcreteEvaluator<V>, ss: seq<Statement>, tracing: bool) returns (r: Outcome)
    requires ev.Valid()
    modifies ev`heap, ev`frames, ev`curFrame, ev`trace
    ensures ev.Valid()
    ensures r.Pass? <==> ExecBlock(ev.vals, old(ev.State()), ss, tracing).Ok?
    ensures r.Pass? ==> ev.State() == ExecBlock(ev.vals, old(ev.State()), ss, tracing).value
    ensures r.Fail? ==> r.error == ExecBlock(ev.vals, old(ev.State()), ss, tracing).error
    decreases ss, 0
  {
    var i := 0;
    while i < |ss|
      invariant 0 <= i <= |ss|
      invariant ev.Valid()
      invariant ExecBlock(ev.vals, old(ev.State()), ss, tracing) == ExecBlock(ev.vals, ev.State(), ss[i..], tracing)
    {
      assert ss[i..][0] == ss[i] && ss[i..][1..] == ss[i + 1..];
      r := RunStep(ev, ss[i], tracing);
      if r.Fail? {
        return;
      }
      i := i + 1;
    }
    r := Pass;
  }

  /** Try the arms in order against the discriminant's value; the first that
      matches runs and ends the statement. */
  method RunCase<V>(ev: ConcreteEvaluator<V>, v: V, arms: seq<CaseBranch>, tracing: bool) returns (r: Outcome)
    requires ev.Valid()
    modifies ev`heap, ev`frames, ev`curFrame, ev`trace
    ensures ev.Valid()
    ensures r.Pass? <==> ExecCase(ev.vals, old(ev.State()), v, arms, tracing).Ok?
    ensures r.Pass? ==> ev.State() == ExecCase(ev.vals, old(ev.State()), v, arms, tracing).value
    ensures r.Fail? ==> r.error == ExecCase(ev.vals, old(ev.State()), v, arms, tracing).error
    decreases arms, 0
  {
    var i := 0;
    while i < |arms|
      invariant 0 <= i <= |arms|
      invariant ev.State() == old(ev.State())
      invariant ExecCase(ev.vals, old(ev.State()), v, arms, tracing) == ExecCase(ev.vals, ev.State(), v, arms[i..], tracing)
    {
      assert arms[i..][0] == arms[i] && arms[i..][1..] == arms[i + 1..];
      var CaseArm(pat, body) := arms[i].branch;
      assert arms[i] in arms && body < arms[i].branch < arms[i];
      var hit := DoMatch(ev.vals, pat.pattern, v);
      if hit.Err? {
        return Fail(hit.error);
      }
      if hit.value {
        r := RunStep(ev, body, tracing);
        return;
      }
      i := i + 1;
    }
    r := Pass;
  }

  /** The hook a block or a case arm runs its statements through. */
  method RunStep<V>(ev: ConcreteEvaluator<V>, s: Statement, tracing: bool) returns (r: Outcome)
    requires ev.Valid()
    modifies ev`heap, ev`frames, ev`curFrame, ev`trace
    ensures ev.Valid()
    ensures r.Pass? <==> Step(ev.vals, old(ev.State()), s, tracing).Ok?
    ensures r.Pass? ==> ev.State() == Step(ev.vals, old(ev.State()), s, tracing).value
    ensures r.Fail? ==> r.error == Step(ev.vals, old(ev.State()), s, tracing).error
    decreases s, 2
  {
    if tracing {
      r := TracingConcreteStmt(ev, s);
    } else {
      r := ConcreteStmt(ev, s);
    }
  }

  /** The plain hook: run the statement, and its sub-statements, untraced. */
  method ConcreteStmt<V>(ev: ConcreteEvaluator<V>, s: Statement) returns (r: Outcome)
    requires ev.Valid()
    modifies ev`heap, ev`frames, ev`curFrame, ev`trace
    ensures ev.Valid()
    ensures r.Pass? <==> Step(ev.vals, old(ev.State()), s, false).Ok?
    ensures r.Pass? ==> ev.State() == Step(ev.vals, old(ev.State()), s, false).value
    ensures r.Fail? ==> r.error == Step(ev.vals, old(ev.State()), s, false).error
    decreases s, 1
  {
    r := RunStmt(ev, s, false);
  }

  /** The tracing hook: append a snapshot of the heap, the current frame and
      the statement's span, then run the statement with tracing on. */
  method TracingConcreteStmt<V>(ev: ConcreteEvaluator<V>, s: Statement) returns (r: Outcome)
    requires ev.Valid()
    modifies ev`heap, ev`frames, ev`curFrame, ev`trace
    ensures ev.Valid()
    ensures r.Pass? <==> Step(ev.vals, old(ev.State()), s, true).Ok?
    ensures r.Pass? ==> ev.State() == Step(ev.vals, old(ev.State()), s, true).value
    ensures r.Fail? ==> r.error == Step(ev.vals, old(ev.State()), s, true).error
    decreases s, 1
  {
    ev.trace := ev.trace + [TraceEntry(ev.heap, ev.frames[ev.curFrame], s.loc)];
    r := RunStmt(ev, s, true);
  }

  /** Run a program: build the initial state for its `main`, run `main`'s
      body with every statement inside it traced, and append a last
      snapshot under `main`'s span. */
  method ConcreteRun(m: Module, args: seq<int>) returns (r: Result<ConcreteEvaluator<SimpleValue>>)
    ensures MainOf(m.functions).None? ==> r == Err(NoMainFunction)
    ensures r.Ok? ==> MainOf(m.functions).Some? && |MainOf(m.functions).value.params| > 0
    ensures r.Ok? ==>
      var main := MainOf(m.functions).value;
      var e := Exec(SimpleValues, InitialMachine(main, args), main.body, true);
      && e.Ok? && fresh(r.value) && r.value.Valid()
      && r.value.State() == e.value.Record(main.loc)
    ensures MainOf(m.functions).Some? && |MainOf(m.functions).value.params| > 0 ==>
      var main := MainOf(m.functions).value;
      var e := Exec(SimpleValues, InitialMachine(main, args), main.body, true);
      (r.Ok? <==> e.Ok?) && (e.Err? ==> r == Err(e.error))
  {
    var init := InitialState(m, args);
    if init.Err? {
      return Err(init.error);
    }
    var (ev, main) := init.value;
    var o := RunStmt(ev, main.body, true);
    if o.Fail? {
      return Err(o.error);
    }
    ev.trace := ev.trace + [TraceEntry(ev.heap, ev.frames[ev.curFrame], main.loc)];
    r := Ok(ev);
  }

  // ---------------------------------------------------------------------
  // Properties of the expression rules

  /** A literal evaluates to its injected value and never fails. */
  lemma LiteralEval<V, L>(ev: Evaluator<V, L>, l: Lit, loc: Loc)
    ensures EvalExpr(ev, Expr(Literal(l), loc)) == Ok(ev.injVal(l))
  {
  }

  /** A name evaluates to the value in the cell the current frame binds it
      to; an unbound name and a dangling binding are errors. */
  lemma VarEval<V>(vc: ValCompute<V>, heap: seq<V>, store: SimpleStore, x: Symbol, loc: Loc)
    ensures EvalExpr(ViewOf(vc, heap, store), Expr(Var(x), loc)).Ok? <==> x in store && store[x] < |heap|
    ensures x in store && store[x] < |heap| ==> EvalExpr(ViewOf(vc, heap, store), Expr(Var(x), loc)) == Ok(heap[store[x]])
    ensures x !in store ==> EvalExpr(ViewOf(vc, heap, store), Expr(Var(x), loc)) == Err(UnboundName)
    ensures x in store && store[x] >= |heap| ==> EvalExpr(ViewOf(vc, heap, store), Expr(Var(x), loc)) == Err(InvalidLocation)
  {
  }

  /** Only a name or a dereference denotes a location: a name its binding,
      `*e` the address `e` evaluates to. */
  lemma LvalShapes<V, L>(ev: Evaluator<V, L>, e: Expr)
    ensures EvalLval(ev, e).Ok? ==> e.expr.Var? || (e.expr.Unary? && e.expr.uop == Deref)
    ensures !e.expr.Var? && !(e.expr.Unary? && e.expr.uop == Deref) ==> EvalLval(ev, e) == Err(NotAnLValue)
    ensures e.expr.Var? ==> EvalLval(ev, e) == ev.findStore(e.expr.x)
    ensures e.expr.Unary? && e.expr.uop == Deref && EvalExpr(ev, e.expr.arg).Ok? ==>
      EvalLval(ev, e) == ev.unwrapPtr(EvalExpr(ev, e.expr.arg).value)
  {
  }

  /** `&e` is the location `e` denotes, as a value. */
  lemma RefEval<V, L>(ev: Evaluator<V, L>, e: Expr, loc: Loc)
    ensures EvalExpr(ev, Expr(Unary(Ref, e), loc)).Ok? <==> EvalLval(ev, e).Ok?
    ensures EvalLval(ev, e).Ok? ==> EvalExpr(ev, Expr(Unary(Ref, e), loc)) == Ok(ev.injLoc(EvalLval(ev, e).value))
  {
  }

  /** When unwrapping an injected location gives the location back, `*&e`
      means what `e` means for every lvalue `e`, and in particular `*&x` is
      the value currently at `x`'s cell. */
  lemma DerefOfRef<V, L>(ev: Evaluator<V, L>, e: Expr, l1: Loc, l2: Loc)
    requires forall a :: ev.unwrapPtr(ev.injLoc(a)) == Ok(a)
    requires e.expr.Var? || (e.expr.Unary? && e.expr.uop == Deref)
    ensures EvalExpr(ev, Expr(Unary(Deref, Expr(Unary(Ref, e), l1)), l2)) == EvalExpr(ev, e)
  {
    var inner := Expr(Unary(Ref, e), l1);
    match EvalLval(ev, e)
    case Err(_) =>
    case Ok(a) =>
      assert EvalExpr(ev, inner) == Ok(ev.injLoc(a));
      assert ev.unwrapPtr(ev.injLoc(a)) == Ok(a);
      if e.expr.Unary? {
        var p := EvalExpr(ev, e.expr.arg).value;
        assert ev.unwrapPtr(p) == Ok(a);
      }
  }

  /** The concrete instance of the round trip: `*&x` reads `x`'s cell. */
  lemma SimpleDerefOfRef(heap: seq<SimpleValue>, store: SimpleStore, x: Symbol, l0: Loc, l1: Loc, l2: Loc)
    ensures EvalExpr(ViewOf(SimpleValues, heap, store), Expr(Unary(Deref, Expr(Unary(Ref, Expr(Var(x), l0)), l1)), l2))
         == EvalExpr(ViewOf(SimpleValues, heap, store), Expr(Var(x), l0))
    ensures x in store && store[x] < |heap| ==>
      EvalExpr(ViewOf(SimpleValues, heap, store), Expr(Unary(Deref, Expr(Unary(Ref, Expr(Var(x), l0)), l1)), l2)) == Ok(heap[store[x]])
  {
    var ev := ViewOf(SimpleValues, heap, store);
    forall a: SimpleAddr
      ensures ev.unwrapPtr(ev.injLoc(a)) == Ok(a)
    {
      SimpleLocRoundTrip(a);
    }
    DerefOfRef(ev, Expr(Var(x), l0), l1, l2);
  }

  /** A binary operator evaluates its left operand, then its right one, and
      combines them with `denote`; an error on the left wins over one on the
      right, and an error on either side is the result whatever the
      operator. */
  lemma BinaryEval<V, L>(ev: Evaluator<V, L>, o: BinOp, a: Expr, b: Expr, loc: Loc)
    ensures EvalExpr(ev, a).Err? ==> EvalExpr(ev, Expr(Binary(o, a, b), loc)) == Err(EvalExpr(ev, a).error)
    ensures EvalExpr(ev, a).Ok? && EvalExpr(ev, b).Err? ==> EvalExpr(ev, Expr(Binary(o, a, b), loc)) == Err(EvalExpr(ev, b).error)
    ensures EvalExpr(ev, a).Ok? && EvalExpr(ev, b).Ok? ==>
      EvalExpr(ev, Expr(Binary(o, a, b), loc)) == ev.denote(o, EvalExpr(ev, a).value, EvalExpr(ev, b).value)
  {
  }

  /** No short circuit: `false && y` with `y` unbound fails, although the
      left operand already decides the conjunction. */
  lemma AndEvaluatesBoth(heap: seq<SimpleValue>, y: Symbol, l0: Loc, l1: Loc, l2: Loc)
    ensures EvalExpr(ViewOf(SimpleValues, heap, map[]), Expr(Binary(And, Expr(Literal(Lit(LBool(false), l0)), l1), Expr(Var(y), l1)), l2))
         == Err(UnboundName)
  {
  }

  // ---------------------------------------------------------------------
  // Properties of the statement rules

  /** An empty block changes nothing. */
  lemma EmptyBlock<V>(vc: ValCompute<V>, m: Machine<V>, loc: Loc, tracing: bool)
    requires m.Valid()
    ensures Exec(vc, m, Statement(Block([]), loc), tracing) == Ok(m)
  {
  }

  /** Running `ss1 + ss2` is running `ss1` and then `ss2` from the state
      `ss1` left; a failure in `ss1` is the failure of the whole. */
  lemma {:induction false} BlockAppend<V>(vc: ValCompute<V>, m: Machine<V>, ss1: seq<Statement>, ss2: seq<Statement>, tracing: bool)
    requires m.Valid()
    ensures ExecBlock(vc, m, ss1 + ss2, tracing) ==
      match ExecBlock(vc, m, ss1, tracing)
      case Ok(m1) => ExecBlock(vc, m1, ss2, tracing)
      case Err(e) => Err(e)
    decreases |ss1|
  {
    if ss1 == [] {
      assert ss1 + ss2 == ss2;
    } else {
      assert (ss1 + ss2)[0] == ss1[0] && (ss1 + ss2)[1..] == ss1[1..] + ss2;
      match Step(vc, m, ss1[0], tracing)
      case Err(_) =>
      case Ok(m1) => BlockAppend(vc, m1, ss1[1..], ss2, tracing);
    }
  }

  /** A block of one statement is that statement run through the hook. */
  lemma BlockSingleton<V>(vc: ValCompute<V>, m: Machine<V>, s: Statement, tracing: bool)
    requires m.Valid()
    ensures ExecBlock(vc, m, [s], tracing) == Step(vc, m, s, tracing)
  {
  }

  /** An assignment evaluates the right-hand side first, then resolves the
      target, and overwrites that one cell: nothing else in the state
      changes. A target past the end of the heap is an error. */
  lemma AssignEffect<V>(vc: ValCompute<V>, m: Machine<V>, lhs: Expr, rhs: Expr, loc: Loc, tracing: bool)
    requires m.Valid()
    ensures var r := Exec(vc, m, Statement(Assign(lhs, rhs), loc), tracing);
      var v := EvalExpr(View(vc, m), rhs);
      var l := EvalLval(View(vc, m), lhs);
      && (v.Err? ==> r == Err(v.error))
      && (v.Ok? && l.Err? ==> r == Err(l.error))
      && (v.Ok? && l.Ok? ==> (r.Ok? <==> l.value < |m.heap|))
      && (v.Ok? && l.Ok? && l.value >= |m.heap| ==> r == Err(InvalidLocation))
      && (r.Ok? ==> r.value == m.(heap := m.heap[l.value := v.value]))
  {
  }

  /** Running an assignment a second time changes nothing when its two
      sides mean the same after the first run as before it. */
  lemma AssignTwice<V>(vc: ValCompute<V>, m: Machine<V>, m1: Machine<V>, lhs: Expr, rhs: Expr, loc: Loc)
    requires m.Valid()
    requires Exec(vc, m, Statement(Assign(lhs, rhs), loc), false) == Ok(m1)
    requires EvalExpr(View(vc, m1), rhs) == EvalExpr(View(vc, m), rhs)
    requires EvalLval(View(vc, m1), lhs) == EvalLval(View(vc, m), lhs)
    ensures Exec(vc, m1, Statement(Assign(lhs, rhs), loc), false) == Ok(m1)
  {
    AssignEffect(vc, m, lhs, rhs, loc, false);
    var l := EvalLval(View(vc, m), lhs).value;
    var v := EvalExpr(View(vc, m), rhs).value;
    assert m1.heap[l := v] == m1.heap;
  }

  /** `x = c; x = c;` with a literal `c` ends in the state `x = c;` ends in. */
  lemma AssignLiteralTwice<V>(vc: ValCompute<V>, m: Machine<V>, m1: Machine<V>, x: Symbol, c: Lit, l0: Loc, l1: Loc, loc: Loc)
    requires m.Valid()
    requires Exec(vc, m, Statement(Assign(Expr(Var(x), l0), Expr(Literal(c), l1)), loc), false) == Ok(m1)
    ensures Exec(vc, m1, Statement(Assign(Expr(Var(x), l0), Expr(Literal(c), l1)), loc), false) == Ok(m1)
  {
    AssignEffect(vc, m, Expr(Var(x), l0), Expr(Literal(c), l1), loc, false);
    assert m1.Store() == m.Store();
    AssignTwice(vc, m, m1, Expr(Var(x), l0), Expr(Literal(c), l1), loc);
  }

  /** A declaration with an initialiser evaluates it in the state before
      the declaration, then appends one cell holding its value and binds
      the name to that cell in the current frame. */
  lemma VarDeclInit<V>(vc: ValCompute<V>, m: Machine<V>, tb: TypeBind, init: Expr, loc: Loc, tracing: bool)
    requires m.Valid()
    ensures var r := Exec(vc, m, Statement(VarDecl(tb, Some(init)), loc), tracing);
      var v := EvalExpr(View(vc, m), init);
      && (r.Ok? <==> v.Ok?)
      && (v.Err? ==> r == Err(v.error))
      && (r.Ok? ==> r.value.heap == m.heap + [v.value])
      && (r.Ok? ==> r.value.Valid() && r.value.Store() == m.Store()[tb.name := |m.heap|])
      && (r.Ok? ==> r.value.frames[..m.curFrame] == m.frames[..m.curFrame] && r.value.trace == m.trace)
  {
    var v := EvalExpr(View(vc, m), init);
    if v.Ok? {
      var (m1, l) := m.Alloc(vc.zero);
      var m2 := m1.UpdateStore(tb.name, l);
      assert m2.UpdateHeap(l, v.value).value.heap == m.heap + [v.value];
    }
  }

  /** A declaration without an initialiser leaves its new cell at the
      domain's zero. */
  lemma VarDeclNoInit<V>(vc: ValCompute<V>, m: Machine<V>, tb: TypeBind, loc: Loc, tracing: bool)
    requires m.Valid()
    ensures var r := Exec(vc, m, Statement(VarDecl(tb, None), loc), tracing);
      && r.Ok?
      && r.value.heap == m.heap + [vc.zero]
      && r.value.Valid() && r.value.Store() == m.Store()[tb.name := |m.heap|]
      && r.value.frames[..m.curFrame] == m.frames[..m.curFrame] && r.value.trace == m.trace
  {
  }

  /** `let x = x;` reads the old `x`: the new cell holds the value of the
      cell `x` was bound to, which keeps that value, and `x` now names the
      new cell. */
  lemma VarDeclShadows<V>(vc: ValCompute<V>, m: Machine<V>, tb: TypeBind, l0: Loc, loc: Loc, tracing: bool)
    requires m.Valid() && tb.name in m.Store() && m.Store()[tb.name] < |m.heap|
    ensures var r := Exec(vc, m, Statement(VarDecl(tb, Some(Expr(Var(tb.name), l0))), loc), tracing);
      && r.Ok?
      && r.value.heap[|m.heap|] == m.heap[m.Store()[tb.name]]
      && r.value.heap[m.Store()[tb.name]] == m.heap[m.Store()[tb.name]]
      && r.value.Store()[tb.name] == |m.heap|
  {
    VarDeclInit(vc, m, tb, Expr(Var(tb.name), l0), loc, tracing);
  }

  /** The first matching arm runs, and only it: when the arms before `k` do
      not match and arm `k` does, the case is arm `k`'s statement. */
  lemma {:induction false} CaseFirstMatch<V>(vc: ValCompute<V>, m: Machine<V>, v: V, arms: seq<CaseBranch>, k: nat, tracing: bool)
    requires m.Valid() && k < |arms|
    requires forall j :: 0 <= j < k ==> DoMatch(vc, arms[j].branch.pat.pattern, v) == Ok(false)
    requires DoMatch(vc, arms[k].branch.pat.pattern, v) == Ok(true)
    ensures ExecCase(vc, m, v, arms, tracing) == Step(vc, m, arms[k].branch.body, tracing)
    decreases k
  {
    if k > 0 {
      assert DoMatch(vc, arms[0].branch.pat.pattern, v) == Ok(false);
      var rest := arms[1..];
      forall j | 0 <= j < k - 1
        ensures DoMatch(vc, rest[j].branch.pat.pattern, v) == Ok(false)
      {
        assert rest[j] == arms[j + 1];
      }
      assert rest[k - 1] == arms[k];
      CaseFirstMatch(vc, m, v, rest, k - 1, tracing);
    }
  }

  /** When no arm matches, the case does nothing. */
  lemma {:induction false} CaseNoMatch<V>(vc: ValCompute<V>, m: Machine<V>, v: V, arms: seq<CaseBranch>, tracing: bool)
    requires m.Valid()
    requires forall j :: 0 <= j < |arms| ==> DoMatch(vc, arms[j].branch.pat.pattern, v) == Ok(false)
    ensures ExecCase(vc, m, v, arms, tracing) == Ok(m)
    decreases |arms|
  {
    if arms != [] {
      assert DoMatch(vc, arms[0].branch.pat.pattern, v) == Ok(false);
      var rest := arms[1..];
      forall j | 0 <= j < |rest|
        ensures DoMatch(vc, rest[j].branch.pat.pattern, v) == Ok(false)
      {
        assert rest[j] == arms[j + 1];
      }
      CaseNoMatch(vc, m, v, rest, tracing);
    }
  }

  /** `if e s` on concrete values: `s` runs exactly when `e` is 1, any other
      integer skips it, and a value that is not an integer is a type
      error. */
  lemma IfSemantics(m: Machine<SimpleValue>, e: Expr, s: Statement, loc: Loc, tracing: bool)
    requires m.Valid()
    ensures var r := Exec(SimpleValues, m, Statement(IfStatement(e, s), loc), tracing);
      var c := EvalExpr(View(SimpleValues, m), e);
      && (c.Err? ==> r == Err(c.error))
      && (c == Ok(VInt(1)) ==> r == Step(SimpleValues, m, s, tracing))
      && (c.Ok? && c.value.VInt? && c.value.i != 1 ==> r == Ok(m))
      && (c.Ok? && !c.value.VInt? ==> r == Err(TypeMismatch))
  {
    var c := EvalExpr(View(SimpleValues, m), e);
    if c.Ok? {
      SimpleMatchLiteral(Lit(LBool(true), s.loc), c.value);
      var arms := IfStatement(e, s).arms;
      if c.value.VInt? && c.value.i != 1 {
        assert DoMatch(SimpleValues, arms[0].branch.pat.pattern, c.value) == Ok(false);
        assert arms[1..] == [];
        assert ExecCase(SimpleValues, m, c.value, arms, tracing) == Ok(m);
      }
    }
  }

  // ---------------------------------------------------------------------
  // Tracing

  /** Two states that differ at most in their traces. */
  ghost predicate SameState<V>(m1: Machine<V>, m2: Machine<V>)
  {
    m1.heap == m2.heap && m1.frames == m2.frames && m1.curFrame == m2.curFrame
  }

  /** Two runs with the same outcome and, on success, states that differ at
      most in their traces. */
  ghost predicate SameRun<V>(r1: Result<Machine<V>>, r2: Result<Machine<V>>)
  {
    && r1.Ok? == r2.Ok?
    && (r1.Err? ==> r1.error == r2.error)
    && (r1.Ok? ==> SameState(r1.value, r2.value))
  }

  /** Neither the trace nor whether it is being recorded changes what a
      statement does to the heap and the frames, or whether it fails. */
  lemma {:induction false} ExecIgnoresTrace<V>(vc: ValCompute<V>, m1: Machine<V>, m2: Machine<V>, s: Statement, t1: bool, t2: bool)
    requires m1.Valid() && SameState(m1, m2)
    ensures SameRun(Exec(vc, m1, s, t1), Exec(vc, m2, s, t2))
    decreases s, 0
  {
    assert View(vc, m1) == View(vc, m2);
    match s.stmt
    case Block(ss) =>
      ExecBlockIgnoresTrace(vc, m1, m2, ss, t1, t2);
    case Case(discr, arms) =>
      var v := EvalExpr(View(vc, m1), discr);
      if v.Ok? {
        ExecCaseIgnoresTrace(vc, m1, m2, v.value, arms, t1, t2);
      }
    case Assign(_, _) =>
    case VarDecl(_, _) =>
  }

  lemma {:induction false} StepIgnoresTrace<V>(vc: ValCompute<V>, m1: Machine<V>, m2: Machine<V>, s: Statement, t1: bool, t2: bool)
    requires m1.Valid() && SameState(m1, m2)
    ensures SameRun(Step(vc, m1, s, t1), Step(vc, m2, s, t2))
    decreases s, 1
  {
    var n1 := if t1 then m1.Record(s.loc) else m1;
    var n2 := if t2 then m2.Record(s.loc) else m2;
    ExecIgnoresTrace(vc, n1, n2, s, t1, t2);
  }

  lemma {:induction false} ExecBlockIgnoresTrace<V>(vc: ValCompute<V>, m1: Machine<V>, m2: Machine<V>, ss: seq<Statement>, t1: bool, t2: bool)
    requires m1.Valid() && SameState(m1, m2)
    ensures SameRun(ExecBlock(vc, m1, ss, t1), ExecBlock(vc, m2, ss, t2))
    decreases ss, 0
  {
    if ss != [] {
      StepIgnoresTrace(vc, m1, m2, ss[0], t1, t2);
      var r1 := Step(vc, m1, ss[0], t1);
      if r1.Ok? {
        ExecBlockIgnoresTrace(vc, r1.value, Step(vc, m2, ss[0], t2).value, ss[1..], t1, t2);
      }
    }
  }

  lemma {:induction false} ExecCaseIgnoresTrace<V>(vc: ValCompute<V>, m1: Machine<V>, m2: Machine<V>, v: V, arms: seq<CaseBranch>, t1: bool, t2: bool)
    requires m1.Valid() && SameState(m1, m2)
    ensures SameRun(ExecCase(vc, m1, v, arms, t1), ExecCase(vc, m2, v, arms, t2))
    decreases arms, 0
  {
    if arms != [] {
      var CaseArm(pat, body) := arms[0].branch;
      assert arms[0] in arms && body < arms[0].branch < arms[0];
      var hit := DoMatch(vc, pat.pattern, v);
      if hit.Ok? {
        if hit.value {
          StepIgnoresTrace(vc, m1, m2, body, t1, t2);
        } else {
          ExecCaseIgnoresTrace(vc, m1, m2, v, arms[1..], t1, t2);
        }
      }
    }
  }

  /** Tracing is transparent: a traced run and an untraced one of the same
      statement agree on everything but the trace. */
  lemma TracingTransparent<V>(vc: ValCompute<V>, m: Machine<V>, s: Statement)
    requires m.Valid()
    ensures SameRun(Exec(vc, m, s, true), Exec(vc, m, s, false))
  {
    ExecIgnoresTrace(vc, m, m, s, true, false);
  }

  /** The traced hook appends, before anything else, the heap and current
      frame as they were and the statement's span. */
  lemma TracedStepSnapshot<V>(vc: ValCompute<V>, m: Machine<V>, s: Statement)
    requires m.Valid()
    ensures Step(vc, m, s, true).Ok? ==>
      var t := Step(vc, m, s, true).value.trace;
      |t| > |m.trace| && t[..|m.trace|] == m.trace && t[|m.trace|] == TraceEntry(m.heap, m.Store(), s.loc)
  {
    var r := Step(vc, m, s, true);
    if r.Ok? {
      var n := m.Record(s.loc);
      assert r.value.trace[..|n.trace|] == n.trace;
      assert r.value.trace[|m.trace|] == n.trace[|m.trace|];
      assert r.value.trace[..|m.trace|] == n.trace[..|m.trace|];
    }
  }

  // ---------------------------------------------------------------------
  // Frames and whole programs

  /** After a push of bindings with distinct names, each name evaluates to
      the value it was pushed with. */
  lemma PushFrameParams<V>(vc: ValCompute<V>, m: Machine<V>, bs: seq<(Symbol, V)>, j: nat, loc: Loc)
    requires m.Valid() && j < |bs|
    requires forall i, k :: 0 <= i < k < |bs| ==> bs[i].0 != bs[k].0
    ensures EvalExpr(View(vc, m.PushFrame(bs)), Expr(Var(bs[j].0), loc)) == Ok(bs[j].1)
  {
    var p := m.PushFrame(bs);
    var x := bs[j].0;
    BindingsFrameName(|m.heap|, bs, j);
    BindingsFrameKey(|m.heap|, bs, x);
    var k := p.Store()[x] - |m.heap|;
    assert bs[k].0 == x;
    assert k == j;
  }

  /** `let x = 0;` */
  function DeclZero(x: Symbol, loc: Loc): Statement
  {
    Statement(VarDecl(TypeBind(x, I64, loc), Some(Expr(Literal(Lit(LInt(0), loc)), loc))), loc)
  }

  /** `let p = &x;` */
  function DeclPointer(x: Symbol, p: Symbol, loc: Loc): Statement
  {
    Statement(VarDecl(TypeBind(p, Ptr(I64), loc), Some(Expr(Unary(Ref, Expr(Var(x), loc)), loc))), loc)
  }

  function DerefOf(p: Symbol, loc: Loc): Expr
  {
    Expr(Unary(Deref, Expr(Var(p), loc)), loc)
  }

  /** `*p = *p - 13;` */
  function SubThrough(p: Symbol, loc: Loc): Statement
  {
    var rhs := Expr(Binary(Sub, DerefOf(p, loc), Expr(Literal(Lit(LInt(13), loc)), loc)), loc);
    Statement(Assign(DerefOf(p, loc), rhs), loc)
  }

  /** `{ let x = 0; let p = &x; *p = *p - 13; }` */
  function PointerProgram(x: Symbol, p: Symbol, loc: Loc): Statement
  {
    Statement(Block([DeclZero(x, loc), DeclPointer(x, p, loc), SubThrough(p, loc)]), loc)
  }

  lemma DeclZeroStep(m: Machine<SimpleValue>, x: Symbol, loc: Loc)
    requires m.Valid()
    ensures var r := Step(SimpleValues, m, DeclZero(x, loc), false);
      && r.Ok? && r.value.Valid() && r.value.heap == m.heap + [VInt(0)]
      && r.value.Store() == m.Store()[x := |m.heap|]
  {
    VarDeclInit(SimpleValues, m, TypeBind(x, I64, loc), Expr(Literal(Lit(LInt(0), loc)), loc), loc, false);
  }

  lemma DeclPointerStep(m: Machine<SimpleValue>, x: Symbol, p: Symbol, loc: Loc)
    requires m.Valid() && x in m.Store()
    ensures var r := Step(SimpleValues, m, DeclPointer(x, p, loc), false);
      && r.Ok? && r.value.Valid() && r.value.heap == m.heap + [VAddr(m.Store()[x])]
      && r.value.Store() == m.Store()[p := |m.heap|]
  {
    var refx := Expr(Unary(Ref, Expr(Var(x), loc)), loc);
    assert EvalExpr(View(SimpleValues, m), refx) == Ok(VAddr(m.Store()[x]));
    VarDeclInit(SimpleValues, m, TypeBind(p, Ptr(I64), loc), refx, loc, false);
  }

  lemma SubThroughStep(m: Machine<SimpleValue>, p: Symbol, n: nat, k: int, loc: Loc)
    requires m.Valid() && p in m.Store() && m.Store()[p] < |m.heap|
    requires m.heap[m.Store()[p]] == VAddr(n) && n < |m.heap| && m.heap[n] == VInt(k)
    ensures var r := Step(SimpleValues, m, SubThrough(p, loc), false);
      && r.Ok? && r.value == m.(heap := m.heap[n := VInt(k - 13)])
  {
    var vc := SimpleValues;
    var deref := DerefOf(p, loc);
    assert EvalExpr(View(vc, m), deref) == Ok(VInt(k));
    var rhs := Expr(Binary(Sub, deref, Expr(Literal(Lit(LInt(13), loc)), loc)), loc);
    assert EvalExpr(View(vc, m), rhs) == Ok(VInt(k - 13));
    assert EvalLval(View(vc, m), deref) == Ok(n);
    AssignEffect(vc, m, deref, rhs, loc, false);
  }

  /** A block of three statements that each succeed ends where the third
      one ends. */
  lemma BlockOfThree<V>(vc: ValCompute<V>, m: Machine<V>, s0: Statement, s1: Statement, s2: Statement, loc: Loc)
    requires m.Valid() && Step(vc, m, s0, false).Ok?
    requires Step(vc, Step(vc, m, s0, false).value, s1, false).Ok?
    ensures var m2 := Step(vc, Step(vc, m, s0, false).value, s1, false).value;
      Exec(vc, m, Statement(Block([s0, s1, s2]), loc), false) == Step(vc, m2, s2, false)
  {
    var ss := [s0, s1, s2];
    var m1 := Step(vc, m, s0, false).value;
    var m2 := Step(vc, m1, s1, false).value;
    assert ss[1..] == [s1, s2] && ss[1..][1..] == [s2] && ss[1..][1..][1..] == [];
    assert ExecBlock(vc, m2, [s2], false) == Step(vc, m2, s2, false);
    assert ExecBlock(vc, m1, [s1, s2], false) == ExecBlock(vc, m2, [s2], false);
  }

  lemma PointerRun(m: Machine<SimpleValue>, x: Symbol, p: Symbol, loc: Loc)
    requires m.Valid() && x != p
    ensures var r := Exec(SimpleValues, m, PointerProgram(x, p, loc), false);
      && r.Ok? && r.value.Valid() && x in r.value.Store() && r.value.Store()[x] == |m.heap|
      && |m.heap| < |r.value.heap| && r.value.heap[|m.heap|] == VInt(-13)
  {
    var vc := SimpleValues;
    DeclZeroStep(m, x, loc);
    var m1 := Step(vc, m, DeclZero(x, loc), false).value;
    DeclPointerStep(m1, x, p, loc);
    var m2 := Step(vc, m1, DeclPointer(x, p, loc), false).value;
    SubThroughStep(m2, p, |m.heap|, 0, loc);
    BlockOfThree(vc, m, DeclZero(x, loc), DeclPointer(x, p, loc), SubThrough(p, loc), loc);
  }

  /** Writing through a pointer: the cell of `x` ends holding -13, traced
      or not. */
  lemma PointerScenario(m: Machine<SimpleValue>, x: Symbol, p: Symbol, loc: Loc, tracing: bool)
    requires m.Valid() && x != p
    ensures var r := Exec(SimpleValues, m, PointerProgram(x, p, loc), tracing);
      && r.Ok? && r.value.Valid() && x in r.value.Store() && r.value.Store()[x] == |m.heap|
      && |m.heap| < |r.value.heap| && r.value.heap[|m.heap|] == VInt(-13)
  {
    PointerRun(m, x, p, loc);
    ExecIgnoresTrace(SimpleValues, m, m, PointerProgram(x, p, loc), tracing, false);
  }

  /** `args[i]` */
  function ArgAt(args: Symbol, i: int, loc: Loc): Expr
  {
    Expr(Binary(Proj, Expr(Var(args), loc), Expr(Literal(Lit(LInt(i), loc)), loc)), loc)
  }

  /** `def main(args) = { let z = args[0] + args[1]; }` */
  function SumArgsBody(args: Symbol, z: Symbol, loc: Loc): Statement
  {
    Statement(VarDecl(TypeBind(z, I64, loc), Some(Expr(Binary(Add, ArgAt(args, 0, loc), ArgAt(args, 1, loc)), loc))), loc)
  }

  lemma ArgAtEval(heap: seq<SimpleValue>, store: SimpleStore, args: Symbol, i: int, loc: Loc)
    requires args in store && store[args] < |heap| && heap[store[args]].VVector?
    requires 0 <= i < |heap[store[args]].elems|
    ensures EvalExpr(ViewOf(SimpleValues, heap, store), ArgAt(args, i, loc)) == Ok(heap[store[args]].elems[i])
  {
    var view := ViewOf(SimpleValues, heap, store);
    assert EvalExpr(view, Expr(Var(args), loc)) == Ok(heap[store[args]]);
  }

  /** Run on the arguments [2, 3] from the initial state, the cell bound to
      `z` ends holding 5. */
  lemma SumArgsScenario(main: FnDecl, z: Symbol, loc: Loc, tracing: bool)
    requires |main.params| > 0
    ensures var m := InitialMachine(main, [2, 3]);
      var r := Exec(SimpleValues, m, SumArgsBody(main.params[0].name, z, loc), tracing);
      && r.Ok? && r.value.Valid() && z in r.value.Store() && r.value.Store()[z] == 2
      && |r.value.heap| == 3 && r.value.heap[2] == VInt(5)
  {
    var m := InitialMachine(main, [2, 3]);
    var args := main.params[0].name;
    assert ArgsVector([2, 3]).elems == [VInt(2), VInt(3)];
    ArgAtEval(m.heap, m.Store(), args, 0, loc);
    ArgAtEval(m.heap, m.Store(), args, 1, loc);
    var init := Expr(Binary(Add, ArgAt(args, 0, loc), ArgAt(args, 1, loc)), loc);
    assert EvalExpr(View(SimpleValues, m), init) == Ok(VInt(5));
    VarDeclInit(SimpleValues, m, TypeBind(z, I64, loc), init, loc, tracing);
  }
}
