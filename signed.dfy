/** The sign domain: integers abstracted to positive, negative, zero or
    unknown, addresses kept exact. The shared evaluation rules run over it
    unchanged; only the zero, the operator table and the meaning of
    literals differ from the concrete domain. */
module Signed {
  import opened Errors
  import opened Ast
  import C = Concrete
  import I = Interpret

  datatype SignedValue = VPos | VNeg | VZero | VUnknown | VAddr(addr: C.SimpleAddr)

  // ---------------------------------------------------------------------
  // The table as written

  /** The operator table, its rules tried in order: the first that applies
      gives the result, and an operator or operand pair no rule covers
      gives `VUnknown`. */
  function Op(o: BinOp, e1: SignedValue, e2: SignedValue): (r: SignedValue)
    ensures r.VAddr? ==> r == e1 || r == e2
  {
    if o == Add && e1 == e2 then e1
    else if o == Add && e1 == VZero then e2
    else if o == Add && e2 == VZero then e1
    else if o == Sub && e1 == VZero && e2 == VPos then VNeg
    else if o == Sub && e1 == VZero && e2 == VNeg then VPos
    else if o == Sub && e1 == VZero && e2 == VZero then VZero
    else if o == Sub && e1 == VPos && e2 == VNeg then VPos
    else if o == Sub && e1 == VNeg && e2 == VPos then VNeg
    else if o == Mul && (e1 == VZero || e2 == VZero) then VZero
    else if o == Mul && e1 == VPos then e2
    else if o == Mul && e1 == VNeg && e2 == VNeg then VPos
    else if o == Mul && e1 == VNeg && e2 == VPos then VNeg
    else if o == Div && e2 == VUnknown then VUnknown
    else if o == Div && e1 == VZero then VZero
    else if o == Div && e2 == VPos then e1
    else if o == Div && e1 == VNeg && e2 == VNeg then VPos
    else if o == Div && e1 == VPos && e2 == VNeg then VNeg
    else VUnknown
  }

  /** Operators other than the four arithmetic ones have no rule. */
  lemma OpDefault(o: BinOp, e1: SignedValue, e2: SignedValue)
    requires o != Add && o != Sub && o != Mul && o != Div
    ensures Op(o, e1, e2) == VUnknown
  {
  }

  /** Addition: equal operands give that operand, zero is an identity on
      either side, and every other pair is unknown. */
  lemma AddTable(e1: SignedValue, e2: SignedValue)
    ensures Op(Add, e1, e1) == e1
    ensures Op(Add, VZero, e2) == e2 && Op(Add, e1, VZero) == e1
    ensures e1 != e2 && e1 != VZero && e2 != VZero ==> Op(Add, e1, e2) == VUnknown
  {
  }

  /** Subtraction: 0-P=N, 0-N=P, 0-0=0, P-N=P and N-P=N; every other pair is
      unknown. */
  lemma SubTable(e1: SignedValue, e2: SignedValue)
    ensures Op(Sub, VZero, VPos) == VNeg && Op(Sub, VZero, VNeg) == VPos && Op(Sub, VZero, VZero) == VZero
    ensures Op(Sub, VPos, VNeg) == VPos && Op(Sub, VNeg, VPos) == VNeg
    ensures (e1 == VZero ==> e2 == VUnknown || e2.VAddr?) && (e1 == VPos ==> e2 != VNeg) && (e1 == VNeg ==> e2 != VPos) ==>
      Op(Sub, e1, e2) == VUnknown
  {
  }

  /** Multiplication: zero on either side gives zero, even against unknown;
      positive is a left identity; N*N=P and N*P=N; the rest is unknown. */
  lemma MulTable(e1: SignedValue, e2: SignedValue)
    ensures Op(Mul, VZero, e2) == VZero && Op(Mul, e1, VZero) == VZero
    ensures e2 != VZero ==> Op(Mul, VPos, e2) == e2
    ensures Op(Mul, VNeg, VNeg) == VPos && Op(Mul, VNeg, VPos) == VNeg
    ensures e1 != VZero && e2 != VZero && e1 != VPos && !(e1 == VNeg && (e2 == VNeg || e2 == VPos)) ==>
      Op(Mul, e1, e2) == VUnknown
  {
  }

  /** Division: an unknown divisor gives unknown, then a zero dividend gives
      zero, then x/P=x, N/N=P and P/N=N; the rest is unknown. */
  lemma DivTable(e1: SignedValue, e2: SignedValue)
    ensures Op(Div, e1, VUnknown) == VUnknown
    ensures e2 != VUnknown ==> Op(Div, VZero, e2) == VZero
    ensures Op(Div, e1, VPos) == e1
    ensures Op(Div, VNeg, VNeg) == VPos && Op(Div, VPos, VNeg) == VNeg
    ensures e2 != VUnknown && e1 != VZero && e2 != VPos && !(e2 == VNeg && (e1 == VNeg || e1 == VPos)) ==>
      Op(Div, e1, e2) == VUnknown
  {
  }

  /** Literals as written: a positive integer is positive and every other
      integer, negative ones included, is zero; true is positive and false
      is zero. */
  function FromLit(l: Lit): (r: SignedValue)
    ensures r == VPos || r == VZero
    ensures l.lit.LInt? ==> (r == VPos <==> l.lit.i > 0)
    ensures l.lit.LBool? ==> (r == VPos <==> l.lit.b)
    ensures l.lit.LInt? && l.lit.i >= 0 ==> r == SignOf(l.lit.i)
  {
    match l.lit
    case LInt(v) => if v > 0 then VPos else VZero
    case LBool(true) => VPos
    case LBool(false) => VZero
  }

  function FromLoc(a: C.SimpleAddr): SignedValue
  {
    VAddr(a)
  }

  function UnwrapLoc(v: SignedValue): (r: Result<C.SimpleAddr>)
    ensures r.Ok? <==> v.VAddr?
    ensures r.Ok? ==> FromLoc(r.value) == v
    ensures r.Err? ==> r.error == TypeMismatch
  {
    if v.VAddr? then Ok(v.addr) else Err(TypeMismatch)
  }

  /** Injecting an address and unwrapping it gives the address back. */
  lemma LocRoundTrip(a: C.SimpleAddr)
    ensures UnwrapLoc(FromLoc(a)) == Ok(a)
  {
  }

  // ---------------------------------------------------------------------
  // Meaning of signs

  /** The integers a sign stands for; an address stands for none. */
  predicate Gamma(a: SignedValue, n: int)
  {
    match a
    case VPos => n > 0
    case VNeg => n < 0
    case VZero => n == 0
    case VUnknown => true
    case VAddr(_) => false
  }

  /** The most precise sign of an integer. */
  function SignOf(n: int): (a: SignedValue)
    ensures Gamma(a, n) && a != VUnknown
    ensures forall b :: b != VUnknown && Gamma(b, n) ==> b == a
  {
    if n > 0 then VPos else if n < 0 then VNeg else VZero
  }

  lemma MulSigns(m: int, n: int)
    ensures m > 0 && n > 0 ==> m * n > 0
    ensures m < 0 && n < 0 ==> m * n > 0
    ensures m > 0 && n < 0 ==> m * n < 0
    ensures m < 0 && n > 0 ==> m * n < 0
  {
    if m > 0 && n > 0 {
      C.MulAtLeast(m, n);
    } else if m < 0 && n < 0 {
      C.MulAtLeast(-m, -n);
      assert m * n == (-m) * (-n);
    } else if m > 0 && n < 0 {
      C.MulAtLeast(m, -n);
      assert m * n == -(m * (-n));
    } else if m < 0 && n > 0 {
      C.MulAtLeast(-m, n);
      assert m * n == -((-m) * n);
    }
  }

  /** The table is sound for addition: the sign it gives covers the sum of
      any two integers the operands cover. */
  lemma AddSound(a1: SignedValue, a2: SignedValue, m: int, n: int)
    requires Gamma(a1, m) && Gamma(a2, n)
    ensures Gamma(Op(Add, a1, a2), m + n)
  {
  }

  /** The table is sound for subtraction. */
  lemma SubSound(a1: SignedValue, a2: SignedValue, m: int, n: int)
    requires Gamma(a1, m) && Gamma(a2, n)
    ensures Gamma(Op(Sub, a1, a2), m - n)
  {
  }

  /** The table is sound for multiplication. */
  lemma MulSound(a1: SignedValue, a2: SignedValue, m: int, n: int)
    requires Gamma(a1, m) && Gamma(a2, n)
    ensures Gamma(Op(Mul, a1, a2), m * n)
  {
    MulSigns(m, n);
  }

  // ---------------------------------------------------------------------
  // Where the table is not sound

  /** P/P=P, but 1/2 is 0 under division that rounds toward zero. */
  lemma DivUnsound()
    ensures Gamma(VPos, 1) && Gamma(VPos, 2)
    ensures C.SimpleOp(Div, C.VInt(1), C.VInt(2)) == Ok(C.VInt(0))
    ensures !Gamma(Op(Div, VPos, VPos), 0)
  {
    assert C.TruncDiv(1, 2) == 0;
  }

  /** The literal -1 is abstracted to zero, which does not cover -1. */
  lemma FromLitNegativeUnsound(loc: Loc)
    ensures C.SimpleFromLit(Lit(LInt(-1), loc)) == C.VInt(-1)
    ensures FromLit(Lit(LInt(-1), loc)) == VZero
    ensures !Gamma(FromLit(Lit(LInt(-1), loc)), -1)
  {
  }

  // ---------------------------------------------------------------------
  // The corrected table

  /** Both operands non-zero signs: the quotient may still be zero. */
  predicate NonZeroSigns(e1: SignedValue, e2: SignedValue)
  {
    (e1 == VPos || e1 == VNeg) && (e2 == VPos || e2 == VNeg)
  }

  /** The table with the division rules for two non-zero signs replaced by
      `VUnknown`; it differs from the written one nowhere else. */
  function SoundOp(o: BinOp, e1: SignedValue, e2: SignedValue): (r: SignedValue)
    ensures r == Op(o, e1, e2) || r == VUnknown
    ensures r != Op(o, e1, e2) ==> o == Div && NonZeroSigns(e1, e2)
  {
    if o == Div && NonZeroSigns(e1, e2) then VUnknown else Op(o, e1, e2)
  }

  /** Division rounding toward zero of zero is zero. */
  lemma TruncDivZero(n: int)
    requires n != 0
    ensures C.TruncDiv(0, n) == 0
  {
  }

  /** The corrected table is sound for division by any non-zero integer. */
  lemma DivSound(a1: SignedValue, a2: SignedValue, m: int, n: int)
    requires Gamma(a1, m) && Gamma(a2, n) && n != 0
    ensures Gamma(SoundOp(Div, a1, a2), C.TruncDiv(m, n))
  {
    if a1 == VZero {
      TruncDivZero(n);
    }
  }

  /** Literals, corrected: a negative integer is negative. */
  function SoundFromLit(l: Lit): (a: SignedValue)
    ensures Gamma(a, C.SimpleFromLit(l).i)
    ensures a == FromLit(l) || (l.lit.LInt? && l.lit.i < 0 && a == VNeg)
    ensures l.lit.LInt? ==> a == SignOf(l.lit.i)
  {
    match l.lit
    case LInt(v) => if v > 0 then VPos else if v < 0 then VNeg else VZero
    case LBool(true) => VPos
    case LBool(false) => VZero
  }

  /** The sign instance as written: the table `Op` and the literal map
      `FromLit`. Signs have no truth value: matching on them is not
      implemented. */
  const WrittenSignedValues: C.ValCompute<SignedValue> :=
    C.ValCompute(VZero, _ => Err(Unimplemented), (o, a, b) => Ok(Op(o, a, b)), FromLit, FromLoc, UnwrapLoc)

  /** The sign instance as written: fresh cells hold Zero, no value has a
      truth value, operators follow the written table and literals the
      written map, and unwrapping undoes address injection. */
  lemma WrittenInstance()
    ensures WrittenSignedValues.zero == VZero
    ensures forall v :: WrittenSignedValues.isTrue(v) == Err(Unimplemented)
    ensures forall o, a, b :: WrittenSignedValues.op(o, a, b) == Ok(Op(o, a, b))
    ensures forall l :: WrittenSignedValues.fromLit(l) == FromLit(l)
    ensures forall a: C.SimpleAddr :: WrittenSignedValues.unwrapLoc(WrittenSignedValues.fromLoc(a)) == Ok(a)
  {
  }

  /** The expression `1 / 2`. */
  function Half(loc: Loc): Expr
  {
    Expr(Binary(Div, Expr(Literal(Lit(LInt(1), loc)), loc), Expr(Literal(Lit(LInt(2), loc)), loc)), loc)
  }

  /** `var z = 1 / 2` run by the engine: the written instance stores Pos in
      the new cell, the concrete instance stores 0, and Pos does not
      describe 0; the corrected instance stores Unknown, which does. */
  lemma WrittenHalfUnsound(ma: C.Machine<SignedValue>, mc: C.Machine<C.SimpleValue>, z: Symbol, loc: Loc)
    requires ma.Valid() && mc.Valid()
    ensures var s := Statement(VarDecl(TypeBind(z, I64, loc), Some(Half(loc))), loc);
      var w := I.Exec(WrittenSignedValues, ma, s, false);
      var a := I.Exec(SoundSignedValues, ma, s, false);
      var c := I.Exec(C.SimpleValues, mc, s, false);
      && w.Ok? && w.value.heap == ma.heap + [VPos]
      && c.Ok? && c.value.heap == mc.heap + [C.VInt(0)]
      && !Approx(VPos, C.VInt(0))
      && a.Ok? && a.value.heap == ma.heap + [VUnknown]
  {
    var tb := TypeBind(z, I64, loc);
    assert C.TruncDiv(1, 2) == 0;
    assert I.EvalExpr(I.View(WrittenSignedValues, ma), Half(loc)) == Ok(VPos);
    assert I.EvalExpr(I.View(SoundSignedValues, ma), Half(loc)) == Ok(VUnknown);
    assert I.EvalExpr(I.View(C.SimpleValues, mc), Half(loc)) == Ok(C.VInt(0));
    I.VarDeclInit(WrittenSignedValues, ma, tb, Half(loc), loc, false);
    I.VarDeclInit(SoundSignedValues, ma, tb, Half(loc), loc, false);
    I.VarDeclInit(C.SimpleValues, mc, tb, Half(loc), loc, false);
  }

  /** The corrected sign instance: the table `SoundOp` and the literal map
      `SoundFromLit`; everything else as written. */
  const SoundSignedValues: C.ValCompute<SignedValue> :=
    C.ValCompute(VZero, _ => Err(Unimplemented), (o, a, b) => Ok(SoundOp(o, a, b)), SoundFromLit, FromLoc, UnwrapLoc)

  /** The corrected instance: fresh cells hold Zero, no value has a truth
      value, operators follow the corrected table and literals the
      corrected map, and unwrapping undoes address injection. */
  lemma SignedInstance()
    ensures SoundSignedValues.zero == VZero
    ensures forall v :: SoundSignedValues.isTrue(v) == Err(Unimplemented)
    ensures forall o, a, b :: SoundSignedValues.op(o, a, b) == Ok(SoundOp(o, a, b))
    ensures forall l :: SoundSignedValues.fromLit(l) == SoundFromLit(l)
    ensures forall a: C.SimpleAddr :: SoundSignedValues.unwrapLoc(SoundSignedValues.fromLoc(a)) == Ok(a)
  {
  }

  // ---------------------------------------------------------------------
  // Soundness of abstract evaluation

  /** A sign value describes a concrete value: unknown describes anything,
      an address exactly that address, and a sign the integers it covers. */
  predicate Approx(s: SignedValue, c: C.SimpleValue)
  {
    match s
    case VUnknown => true
    case VAddr(a) => c == C.VAddr(a)
    case _ => c.VInt? && Gamma(s, c.i)
  }

  /** On integers the corrected table is sound for every operator: whenever
      the concrete table gives a value, it is an integer the sign covers. */
  lemma OpSound(o: BinOp, a1: SignedValue, a2: SignedValue, m: int, n: int)
    requires Gamma(a1, m) && Gamma(a2, n) && C.SimpleOp(o, C.VInt(m), C.VInt(n)).Ok?
    ensures C.SimpleOp(o, C.VInt(m), C.VInt(n)).value.VInt?
    ensures Gamma(SoundOp(o, a1, a2), C.SimpleOp(o, C.VInt(m), C.VInt(n)).value.i)
  {
    match o
    case Add => AddSound(a1, a2, m, n);
    case Sub => SubSound(a1, a2, m, n);
    case Mul => MulSound(a1, a2, m, n);
    case Div => DivSound(a1, a2, m, n);
    case _ => OpDefault(o, a1, a2);
  }

  /** Whenever the concrete operator table gives a value, the corrected sign
      table describes it. */
  lemma DenoteSound(o: BinOp, s1: SignedValue, s2: SignedValue, c1: C.SimpleValue, c2: C.SimpleValue)
    requires Approx(s1, c1) && Approx(s2, c2) && C.SimpleOp(o, c1, c2).Ok?
    ensures Approx(SoundOp(o, s1, s2), C.SimpleOp(o, c1, c2).value)
  {
    if o == Proj {
      OpDefault(o, s1, s2);
    } else {
      assert c1.VInt? && c2.VInt?;
      assert Gamma(s1, c1.i) && Gamma(s2, c2.i);
      OpSound(o, s1, s2, c1.i, c2.i);
    }
  }

  /** Every literal's sign describes its concrete value. */
  lemma FromLitSound(l: Lit)
    ensures Approx(SoundFromLit(l), C.SimpleFromLit(l))
  {
  }

  predicate HeapApprox(ha: seq<SignedValue>, hc: seq<C.SimpleValue>)
  {
    |ha| == |hc| && forall i :: 0 <= i < |ha| ==> Approx(ha[i], hc[i])
  }

  /** The abstract run is stuck where it meets an unknown pointer or a case
      it cannot decide. */
  predicate Stuck(e: Error)
  {
    e == TypeMismatch || e == Unimplemented
  }

  /** Over a heap of describing signs and the same frame, an expression that
      evaluates concretely evaluates abstractly to a describing sign, or the
      abstract run is stuck on an unknown pointer. */
  lemma {:induction false} EvalExprSound(ha: seq<SignedValue>, hc: seq<C.SimpleValue>, st: C.SimpleStore, e: Expr)
    requires HeapApprox(ha, hc)
    ensures var c := I.EvalExpr(I.ViewOf(C.SimpleValues, hc, st), e);
      var a := I.EvalExpr(I.ViewOf(SoundSignedValues, ha, st), e);
      c.Ok? ==> (a.Ok? && Approx(a.value, c.value)) || a == Err(TypeMismatch)
    decreases e, 0
  {
    var cv := I.ViewOf(C.SimpleValues, hc, st);
    var av := I.ViewOf(SoundSignedValues, ha, st);
    match e.expr
    case Literal(l) =>
      FromLitSound(l);
    case Var(x) =>
    case Binary(o, lhs, rhs) =>
      EvalExprSound(ha, hc, st, lhs);
      EvalExprSound(ha, hc, st, rhs);
      var c1, c2 := I.EvalExpr(cv, lhs), I.EvalExpr(cv, rhs);
      var a1, a2 := I.EvalExpr(av, lhs), I.EvalExpr(av, rhs);
      if c1.Ok? && c2.Ok? && a1.Ok? && a2.Ok? && C.SimpleOp(o, c1.value, c2.value).Ok? {
        DenoteSound(o, a1.value, a2.value, c1.value, c2.value);
      }
    case Unary(Ref, inner) =>
      EvalLvalSound(ha, hc, st, inner);
    case Unary(Deref, inner) =>
      EvalExprSound(ha, hc, st, inner);
    case Unary(Negate, _) =>
    case FunCall(_, _) =>
  }

  /** An lvalue that resolves concretely resolves abstractly to the same
      location, or the abstract run is stuck on an unknown pointer. */
  lemma {:induction false} EvalLvalSound(ha: seq<SignedValue>, hc: seq<C.SimpleValue>, st: C.SimpleStore, e: Expr)
    requires HeapApprox(ha, hc)
    ensures var c := I.EvalLval(I.ViewOf(C.SimpleValues, hc, st), e);
      var a := I.EvalLval(I.ViewOf(SoundSignedValues, ha, st), e);
      c.Ok? ==> a == c || a == Err(TypeMismatch)
    decreases e, 1
  {
    match e.expr
    case Unary(Deref, inner) =>
      EvalExprSound(ha, hc, st, inner);
    case _ =>
  }

  /** A sign state describes a concrete one: the same frames, and a heap of
      the same length whose every cell describes the concrete cell. Traces
      are not compared. */
  ghost predicate MachineApprox(ma: C.Machine<SignedValue>, mc: C.Machine<C.SimpleValue>)
  {
    HeapApprox(ma.heap, mc.heap) && ma.frames == mc.frames && ma.curFrame == mc.curFrame
  }

  /** When the concrete run succeeds, the sign run ends in a describing
      state or is stuck. */
  ghost predicate SoundRun(a: Result<C.Machine<SignedValue>>, c: Result<C.Machine<C.SimpleValue>>)
  {
    c.Ok? ==> (a.Ok? && MachineApprox(a.value, c.value)) || (a.Err? && Stuck(a.error))
  }

  /** A case with at least one arm is stuck under signs, because signs have
      no truth value and only literal patterns are implemented. */
  lemma CaseStuck(ma: C.Machine<SignedValue>, v: SignedValue, arms: seq<CaseBranch>, tracing: bool)
    requires ma.Valid() && arms != []
    ensures I.ExecCase(SoundSignedValues, ma, v, arms, tracing) == Err(Unimplemented)
  {
  }

  lemma AssignSound(ma: C.Machine<SignedValue>, mc: C.Machine<C.SimpleValue>, lhs: Expr, rhs: Expr, loc: Loc, t: bool)
    requires mc.Valid() && MachineApprox(ma, mc)
    ensures SoundRun(I.Exec(SoundSignedValues, ma, Statement(Assign(lhs, rhs), loc), t),
                     I.Exec(C.SimpleValues, mc, Statement(Assign(lhs, rhs), loc), t))
  {
    assert ma.Store() == mc.Store();
    EvalExprSound(ma.heap, mc.heap, mc.Store(), rhs);
    EvalLvalSound(ma.heap, mc.heap, mc.Store(), lhs);
    I.AssignEffect(SoundSignedValues, ma, lhs, rhs, loc, t);
    I.AssignEffect(C.SimpleValues, mc, lhs, rhs, loc, t);
  }

  lemma VarDeclSound(ma: C.Machine<SignedValue>, mc: C.Machine<C.SimpleValue>, tb: TypeBind, init: Option<Expr>, loc: Loc, t: bool)
    requires mc.Valid() && MachineApprox(ma, mc)
    ensures SoundRun(I.Exec(SoundSignedValues, ma, Statement(VarDecl(tb, init), loc), t),
                     I.Exec(C.SimpleValues, mc, Statement(VarDecl(tb, init), loc), t))
  {
    assert ma.Store() == mc.Store();
    var a := I.Exec(SoundSignedValues, ma, Statement(VarDecl(tb, init), loc), t);
    var c := I.Exec(C.SimpleValues, mc, Statement(VarDecl(tb, init), loc), t);
    if init.Some? {
      EvalExprSound(ma.heap, mc.heap, mc.Store(), init.value);
      I.VarDeclInit(SoundSignedValues, ma, tb, init.value, loc, t);
      I.VarDeclInit(C.SimpleValues, mc, tb, init.value, loc, t);
    } else {
      I.VarDeclNoInit(SoundSignedValues, ma, tb, loc, t);
      I.VarDeclNoInit(C.SimpleValues, mc, tb, loc, t);
    }
    if a.Ok? && c.Ok? {
      assert a.value.frames == a.value.frames[..ma.curFrame] + [a.value.Store()];
      assert c.value.frames == c.value.frames[..mc.curFrame] + [c.value.Store()];
    }
  }

  /** Running a statement over signs from a describing state is sound: it
      describes the concrete result or is stuck. */
  lemma {:induction false} ExecSound(ma: C.Machine<SignedValue>, mc: C.Machine<C.SimpleValue>, s: Statement, t: bool)
    requires mc.Valid() && MachineApprox(ma, mc)
    ensures SoundRun(I.Exec(SoundSignedValues, ma, s, t), I.Exec(C.SimpleValues, mc, s, t))
    decreases s, 0
  {
    match s.stmt
    case Block(ss) =>
      ExecBlockSound(ma, mc, ss, t);
    case Assign(lhs, rhs) =>
      AssignSound(ma, mc, lhs, rhs, s.loc, t);
    case VarDecl(tb, init) =>
      VarDeclSound(ma, mc, tb, init, s.loc, t);
    case Case(discr, arms) =>
      assert ma.Store() == mc.Store();
      EvalExprSound(ma.heap, mc.heap, mc.Store(), discr);
      var av := I.EvalExpr(I.View(SoundSignedValues, ma), discr);
      if av.Ok? && arms != [] {
        CaseStuck(ma, av.value, arms, t);
      }
  }

  lemma {:induction false} StepSound(ma: C.Machine<SignedValue>, mc: C.Machine<C.SimpleValue>, s: Statement, t: bool)
    requires mc.Valid() && MachineApprox(ma, mc)
    ensures SoundRun(I.Step(SoundSignedValues, ma, s, t), I.Step(C.SimpleValues, mc, s, t))
    decreases s, 1
  {
    if t {
      ExecSound(ma.Record(s.loc), mc.Record(s.loc), s, t);
    } else {
      ExecSound(ma, mc, s, t);
    }
  }

  lemma {:induction false} ExecBlockSound(ma: C.Machine<SignedValue>, mc: C.Machine<C.SimpleValue>, ss: seq<Statement>, t: bool)
    requires mc.Valid() && MachineApprox(ma, mc)
    ensures SoundRun(I.ExecBlock(SoundSignedValues, ma, ss, t), I.ExecBlock(C.SimpleValues, mc, ss, t))
    decreases ss, 0
  {
    if ss != [] {
      StepSound(ma, mc, ss[0], t);
      var a := I.Step(SoundSignedValues, ma, ss[0], t);
      var c := I.Step(C.SimpleValues, mc, ss[0], t);
      if a.Ok? && c.Ok? {
        ExecBlockSound(a.value, c.value, ss[1..], t);
      }
    }
  }
}
