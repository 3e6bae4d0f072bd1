/** The concrete domain: integers, addresses, tuples and vectors; a heap that
    only grows; a stack of frames mapping names to heap indices; and the
    evaluator object that owns them. */
module Concrete {
  import opened Errors
  import opened Ast

  type SimpleAddr = nat

  datatype SimpleValue =
    | VInt(i: int)
    | VAddr(addr: SimpleAddr)
    | VTuple(elems: seq<SimpleValue>)
    | VVector(elems: seq<SimpleValue>)

  /** One frame: the heap index each name in scope is bound to. */
  type SimpleStore = map<Symbol, SimpleAddr>

  /** What a value representation must supply for the shared evaluation
      rules: a zero for fresh cells, truth of a match result, the meaning of
      each binary operator, and conversions from literals and locations and
      back to locations. A representation without a notion of truth answers
      `Unimplemented` from `isTrue`. */
  datatype ValCompute<!V> = ValCompute(
    zero: V,
    isTrue: V -> Result<bool>,
    op: (BinOp, V, V) -> Result<V>,
    fromLit: Lit -> V,
    fromLoc: SimpleAddr -> V,
    unwrapLoc: V -> Result<SimpleAddr>)

  // ---------------------------------------------------------------------
  // Integer division of the host language

  function Abs(n: int): nat
  {
    if n < 0 then -n else n
  }

  /** Division that rounds toward zero, as the host's `/` on signed integers. */
  function TruncDiv(a: int, b: int): int
    requires b != 0
  {
    var q := Abs(a) / Abs(b);
    if (a < 0) == (b < 0) then q else -q
  }

  lemma AbsMul(x: int, y: int)
    ensures Abs(x * y) == Abs(x) * Abs(y)
  {
    if x < 0 && y < 0 {
      assert x * y == (-x) * (-y);
    } else if x < 0 {
      assert x * y == -((-x) * y);
    } else if y < 0 {
      assert x * y == -(x * (-y));
    }
  }

  lemma MulAtLeast(q: nat, n: nat)
    requires q >= 1
    ensures q * n >= n
  {
    assert q * n == n + (q - 1) * n;
  }

  lemma DivBounds(n: nat, d: nat)
    requires d > 0
    ensures (n / d) * d <= n < (n / d) * d + d
  {
    assert n == (n / d) * d + n % d;
  }

  /** The quotient is the largest multiple of the divisor, in absolute value,
      not beyond the dividend. */
  lemma TruncDivRoundsTowardZero(a: int, b: int)
    requires b != 0
    ensures Abs(TruncDiv(a, b) * b) <= Abs(a) < Abs(TruncDiv(a, b) * b) + Abs(b)
  {
    var t := TruncDiv(a, b);
    assert Abs(t) == Abs(a) / Abs(b);
    AbsMul(t, b);
    DivBounds(Abs(a), Abs(b));
  }

  lemma QuotientNonZero(n: nat, d: nat)
    requires d > 0 && n / d != 0
    ensures n >= d
  {
    DivBounds(n, d);
    MulAtLeast(n / d, d);
  }

  /** A non-zero quotient is positive exactly when the operands have the
      same sign. */
  lemma TruncDivSign(a: int, b: int)
    requires b != 0
    ensures TruncDiv(a, b) == 0 || (TruncDiv(a, b) > 0 <==> (a > 0) == (b > 0))
  {
    if Abs(a) / Abs(b) != 0 {
      QuotientNonZero(Abs(a), Abs(b));
    }
  }

  // ---------------------------------------------------------------------
  // The operator table of SimpleValue

  /** Booleans are the integers 1 (true) and 0 (false). */
  function BoolValue(b: bool): (v: SimpleValue)
    ensures v.VInt? && (v.i == 1 <==> b) && (v.i == 0 <==> !b)
  {
    VInt(if b then 1 else 0)
  }

  predicate IsRelational(o: BinOp)
  {
    o == Eq || o == Neq || o == Gt || o == Lt || o == Gte || o == Lte
  }

  /** The operand shapes the table gives a result for: projection of an
      in-range integer index out of a tuple or vector, and otherwise two
      integers, the divisor of a division being non-zero. */
  predicate WellTyped(o: BinOp, e1: SimpleValue, e2: SimpleValue)
  {
    if o == Proj then (e1.VTuple? || e1.VVector?) && e2.VInt? && 0 <= e2.i < |e1.elems|
    else e1.VInt? && e2.VInt? && (o == Div ==> e2.i != 0)
  }

  function SimpleOp(o: BinOp, e1: SimpleValue, e2: SimpleValue): (r: Result<SimpleValue>)
    ensures r.Ok? <==> WellTyped(o, e1, e2)
    ensures r == Err(DivisionByZero) <==> o == Div && e1.VInt? && e2 == VInt(0)
    ensures r == Err(IndexOutOfRange) <==> o == Proj && (e1.VTuple? || e1.VVector?) && e2.VInt? && !WellTyped(o, e1, e2)
    ensures r.Ok? && o == Proj ==> r.value == e1.elems[e2.i]
    ensures r.Err? && r != Err(DivisionByZero) && r != Err(IndexOutOfRange) ==> r == Err(TypeMismatch)
    ensures r.Ok? && (IsRelational(o) || o == And || o == Or) ==> r.value == VInt(0) || r.value == VInt(1)
  {
    match (o, e1, e2)
    case (Proj, VTuple(vs), VInt(k)) => if 0 <= k < |vs| then Ok(vs[k]) else Err(IndexOutOfRange)
    case (Proj, VVector(vs), VInt(k)) => if 0 <= k < |vs| then Ok(vs[k]) else Err(IndexOutOfRange)
    case (Add, VInt(a), VInt(b)) => Ok(VInt(a + b))
    case (Sub, VInt(a), VInt(b)) => Ok(VInt(a - b))
    case (Mul, VInt(a), VInt(b)) => Ok(VInt(a * b))
    case (Div, VInt(a), VInt(b)) => if b == 0 then Err(DivisionByZero) else Ok(VInt(TruncDiv(a, b)))
    case (Eq, VInt(a), VInt(b)) => Ok(BoolValue(a == b))
    case (Neq, VInt(a), VInt(b)) => Ok(BoolValue(a != b))
    case (Lt, VInt(a), VInt(b)) => Ok(BoolValue(a < b))
    case (Gt, VInt(a), VInt(b)) => Ok(BoolValue(a > b))
    case (Lte, VInt(a), VInt(b)) => Ok(BoolValue(a <= b))
    case (Gte, VInt(a), VInt(b)) => Ok(BoolValue(a >= b))
    case (And, VInt(a), VInt(b)) => Ok(BoolValue(a == 1 && b == 1))
    case (Or, VInt(a), VInt(b)) => Ok(BoolValue(a == 1 || b == 1))
    case _ => Err(TypeMismatch)
  }

  /** Only the integer 1 counts as true. */
  function SimpleIsTrue(v: SimpleValue): (b: bool)
    ensures b <==> v == BoolValue(true)
  {
    v.VInt? && v.i == 1
  }

  /** Logical and/or on integers are the truth functions of `SimpleIsTrue`:
      any integer other than 1 is false, and the result is again a boolean. */
  lemma LogicalOpsOnTruth(a: int, b: int)
    ensures SimpleOp(And, VInt(a), VInt(b)) == Ok(BoolValue(SimpleIsTrue(VInt(a)) && SimpleIsTrue(VInt(b))))
    ensures SimpleOp(Or, VInt(a), VInt(b)) == Ok(BoolValue(SimpleIsTrue(VInt(a)) || SimpleIsTrue(VInt(b))))
  {
  }

  /** Comparisons of two integers are 1 exactly when the relation holds. */
  lemma RelationalOps(a: int, b: int)
    ensures SimpleOp(Lt, VInt(a), VInt(b)) == Ok(BoolValue(a < b))
    ensures SimpleOp(Gt, VInt(a), VInt(b)) == Ok(BoolValue(a > b))
    ensures SimpleOp(Lte, VInt(a), VInt(b)) == Ok(BoolValue(a <= b))
    ensures SimpleOp(Gte, VInt(a), VInt(b)) == Ok(BoolValue(a >= b))
    ensures SimpleOp(Eq, VInt(a), VInt(b)) == Ok(BoolValue(a == b))
    ensures SimpleOp(Neq, VInt(a), VInt(b)) == Ok(BoolValue(a != b))
  {
  }

  /** Arithmetic on two integers is the mathematical one. */
  lemma ArithmeticOps(a: int, b: int)
    ensures SimpleOp(Add, VInt(a), VInt(b)) == Ok(VInt(a + b))
    ensures SimpleOp(Sub, VInt(a), VInt(b)) == Ok(VInt(a - b))
    ensures SimpleOp(Mul, VInt(a), VInt(b)) == Ok(VInt(a * b))
    ensures b != 0 ==> SimpleOp(Div, VInt(a), VInt(b)) == Ok(VInt(TruncDiv(a, b)))
  {
  }

  lemma IntegerOps(a: int, b: int)
    ensures SimpleOp(Lt, VInt(a), VInt(b)) == Ok(VInt(1)) <==> a < b
    ensures SimpleOp(Gt, VInt(a), VInt(b)) == Ok(VInt(1)) <==> a > b
    ensures SimpleOp(Lte, VInt(a), VInt(b)) == Ok(VInt(1)) <==> a <= b
    ensures SimpleOp(Gte, VInt(a), VInt(b)) == Ok(VInt(1)) <==> a >= b
    ensures SimpleOp(Eq, VInt(a), VInt(b)) == Ok(VInt(1)) <==> a == b
    ensures SimpleOp(Neq, VInt(a), VInt(b)) == Ok(VInt(1)) <==> a != b
    ensures SimpleOp(Add, VInt(a), VInt(b)) == Ok(VInt(a + b))
    ensures SimpleOp(Sub, VInt(a), VInt(b)) == Ok(VInt(a - b))
    ensures SimpleOp(Mul, VInt(a), VInt(b)) == Ok(VInt(a * b))
    ensures b != 0 ==> SimpleOp(Div, VInt(a), VInt(b)) == Ok(VInt(TruncDiv(a, b)))
  {
    RelationalOps(a, b);
    ArithmeticOps(a, b);
  }

  function SimpleFromLit(l: Lit): (v: SimpleValue)
    ensures v.VInt?
    ensures l.lit.LInt? ==> v.i == l.lit.i
    ensures l.lit.LBool? ==> (v == VInt(0) || v == VInt(1)) && (SimpleIsTrue(v) <==> l.lit.b)
  {
    match l.lit
    case LInt(n) => VInt(n)
    case LBool(true) => VInt(1)
    case LBool(false) => VInt(0)
  }

  function SimpleUnwrapLoc(v: SimpleValue): (r: Result<SimpleAddr>)
    ensures r.Ok? <==> v.VAddr?
    ensures r.Ok? ==> VAddr(r.value) == v
    ensures r.Err? ==> r.error == TypeMismatch
  {
    if v.VAddr? then Ok(v.addr) else Err(TypeMismatch)
  }

  /** Injecting an address and unwrapping it gives the address back. */
  lemma SimpleLocRoundTrip(a: SimpleAddr)
    ensures SimpleUnwrapLoc(VAddr(a)) == Ok(a)
  {
  }

  const SimpleValues: ValCompute<SimpleValue> :=
    ValCompute(VInt(0), v => Ok(SimpleIsTrue(v)), SimpleOp, SimpleFromLit, a => VAddr(a), SimpleUnwrapLoc)

  /** The concrete instance: fresh cells hold 0, only 1 is true, every
      literal is an integer, and unwrapping undoes address injection. */
  lemma SimpleInstance()
    ensures SimpleValues.zero == VInt(0)
    ensures forall v :: SimpleValues.isTrue(v) == Ok(v == VInt(1))
    ensures forall l :: SimpleValues.fromLit(l).VInt?
    ensures forall a: SimpleAddr :: SimpleValues.unwrapLoc(SimpleValues.fromLoc(a)) == Ok(a)
  {
  }

  // ---------------------------------------------------------------------
  // Pattern matching

  /** A literal pattern matches when the domain's equality of the literal's
      value with the discriminant is true; other patterns are not
      implemented. */
  function DoMatch<V>(vc: ValCompute<V>, p: PatternKind, v: V): (r: Result<bool>)
    ensures !p.PLiteral? ==> r == Err(Unimplemented)
    ensures p.PLiteral? && vc.op(Eq, vc.fromLit(p.l), v).Err? ==> r == Err(vc.op(Eq, vc.fromLit(p.l), v).error)
    ensures r.Ok? ==> p.PLiteral? && vc.op(Eq, vc.fromLit(p.l), v).Ok?
  {
    match p
    case PLiteral(l) =>
      var b :- vc.op(Eq, vc.fromLit(l), v);
      vc.isTrue(b)
    case _ => Err(Unimplemented)
  }

  /** In the concrete domain a literal pattern matches an integer exactly
      when the integer is the literal's value; any other shape of value is a
      type error. */
  lemma SimpleMatchLiteral(l: Lit, v: SimpleValue)
    ensures DoMatch(SimpleValues, PLiteral(l), v) == Ok(true) <==> v == SimpleFromLit(l)
    ensures DoMatch(SimpleValues, PLiteral(l), v).Err? <==> !v.VInt?
    ensures DoMatch(SimpleValues, PLiteral(l), v).Err? ==> DoMatch(SimpleValues, PLiteral(l), v).error == TypeMismatch
  {
    var lz := SimpleFromLit(l);
    if v.VInt? {
      assert SimpleOp(Eq, lz, v) == Ok(BoolValue(lz.i == v.i));
    }
  }

  // ---------------------------------------------------------------------
  // Evaluator state as a value

  function Lookup(st: SimpleStore, x: Symbol): (r: Result<SimpleAddr>)
    ensures r.Ok? <==> x in st
    ensures r.Ok? ==> r.value == st[x]
    ensures r.Err? ==> r.error == UnboundName
  {
    if x in st then Ok(st[x]) else Err(UnboundName)
  }

  function HeapAt<V>(heap: seq<V>, l: SimpleAddr): (r: Result<V>)
    ensures r.Ok? <==> l < |heap|
    ensures r.Ok? ==> r.value == heap[l]
    ensures r.Err? ==> r.error == InvalidLocation
  {
    if l < |heap| then Ok(heap[l]) else Err(InvalidLocation)
  }

  /** A snapshot taken before a statement runs: the whole heap, the current
      frame and the statement's span. */
  datatype TraceEntry<V> = TraceEntry(heap: seq<V>, store: SimpleStore, loc: Loc)

  /** The frame `push_frame` builds: each name bound to the index its value
      is appended at, `base` being the heap length before the push. */
  function BindingsFrame<V>(base: nat, bs: seq<(Symbol, V)>): SimpleStore
    decreases |bs|
  {
    if bs == [] then map[]
    else BindingsFrame(base, bs[..|bs| - 1])[bs[|bs| - 1].0 := base + |bs| - 1]
  }

  /** A bound name sits at a cell the push added for that very name. */
  lemma {:induction false} BindingsFrameKey<V>(base: nat, bs: seq<(Symbol, V)>, x: Symbol)
    requires x in BindingsFrame(base, bs)
    ensures base <= BindingsFrame(base, bs)[x] < base + |bs|
    ensures bs[BindingsFrame(base, bs)[x] - base].0 == x
    decreases |bs|
  {
    var n := |bs|;
    var init := bs[..n - 1];
    assert BindingsFrame(base, bs) == BindingsFrame(base, init)[bs[n - 1].0 := base + n - 1];
    if x != bs[n - 1].0 {
      BindingsFrameKey(base, init, x);
      var k := BindingsFrame(base, init)[x];
      assert bs[k - base] == init[k - base];
    }
  }

  /** Every binding's name is bound, to its own cell or to that of a later
      binding of the same name. */
  lemma {:induction false} BindingsFrameName<V>(base: nat, bs: seq<(Symbol, V)>, j: nat)
    requires j < |bs|
    ensures bs[j].0 in BindingsFrame(base, bs)
    ensures BindingsFrame(base, bs)[bs[j].0] >= base + j
    decreases |bs|
  {
    var n := |bs|;
    var init := bs[..n - 1];
    assert BindingsFrame(base, bs) == BindingsFrame(base, init)[bs[n - 1].0 := base + n - 1];
    if j < n - 1 && bs[j].0 != bs[n - 1].0 {
      assert bs[j] == init[j];
      BindingsFrameName(base, init, j);
    }
  }

  /** The values of the bindings, in order. */
  function BindingValues<V>(bs: seq<(Symbol, V)>): (vs: seq<V>)
    ensures |vs| == |bs| && forall j :: 0 <= j < |bs| ==> vs[j] == bs[j].1
    decreases |bs|
  {
    if bs == [] then [] else BindingValues(bs[..|bs| - 1]) + [bs[|bs| - 1].1]
  }

  /** The state of a concrete evaluator: the heap, the frame stack with the
      index of the current frame, and the trace recorded so far. */
  datatype Machine<V> = Machine(heap: seq<V>, frames: seq<SimpleStore>, curFrame: nat, trace: seq<TraceEntry<V>>)
  {
    /** The current frame is the top of the stack. */
    predicate Valid()
    {
      |frames| == curFrame + 1
    }

    function Store(): SimpleStore
      requires Valid()
    {
      frames[curFrame]
    }

    /** A new cell at the end of the heap, holding `zero`. */
    function Alloc(zero: V): (r: (Machine<V>, SimpleAddr))
      ensures r.1 == |heap| && |r.0.heap| == |heap| + 1 && r.0.heap[r.1] == zero
      ensures forall i :: 0 <= i < |heap| ==> r.0.heap[i] == heap[i]
      ensures r.0.frames == frames && r.0.curFrame == curFrame && r.0.trace == trace
    {
      (this.(heap := heap + [zero]), |heap|)
    }

    /** Bind `x` to `l` in the current frame only, replacing any binding of
        `x` there. */
    function UpdateStore(x: Symbol, l: SimpleAddr): (r: Machine<V>)
      requires Valid()
      ensures r.Valid() && |r.frames| == |frames| && r.Store() == Store()[x := l]
      ensures forall f :: 0 <= f < |frames| && f != curFrame ==> r.frames[f] == frames[f]
      ensures r.heap == heap && r.curFrame == curFrame && r.trace == trace
    {
      var st: SimpleStore := frames[curFrame][x := l];
      this.(frames := frames[curFrame := st])
    }

    /** Overwrite cell `l`; a location past the end is an error. */
    function UpdateHeap(l: SimpleAddr, v: V): (r: Result<Machine<V>>)
      ensures r.Ok? <==> l < |heap|
      ensures r.Err? ==> r.error == InvalidLocation
      ensures r.Ok? ==> |r.value.heap| == |heap| && r.value.heap[l] == v
      ensures r.Ok? ==> forall i :: 0 <= i < |heap| && i != l ==> r.value.heap[i] == heap[i]
      ensures r.Ok? ==> r.value.frames == frames && r.value.curFrame == curFrame && r.value.trace == trace
    {
      if l < |heap| then Ok(this.(heap := heap[l := v])) else Err(InvalidLocation)
    }

    /** Enter a frame: one new cell per binding, in order, and a new current
        frame binding each name to its cell. */
    function PushFrame(bs: seq<(Symbol, V)>): (r: Machine<V>)
      requires Valid()
      ensures r.Valid() && r.curFrame == curFrame + 1
      ensures |r.heap| == |heap| + |bs| && r.heap[..|heap|] == heap
      ensures forall j :: 0 <= j < |bs| ==> r.heap[|heap| + j] == bs[j].1
      ensures r.frames[..|frames|] == frames && r.Store() == BindingsFrame(|heap|, bs)
      ensures r.trace == trace
    {
      Machine(heap + BindingValues(bs), frames + [BindingsFrame(|heap|, bs)], curFrame + 1, trace)
    }

    /** Leave the current frame; the heap keeps every cell. */
    function PopFrame(): (r: Machine<V>)
      requires Valid() && curFrame > 0
      ensures r.Valid() && r.curFrame == curFrame - 1 && r.frames == frames[..curFrame]
      ensures r.heap == heap && r.trace == trace
    {
      Machine(heap, frames[..|frames| - 1], curFrame - 1, trace)
    }

    /** Append a snapshot of the heap and the current frame. */
    function Record(loc: Loc): (r: Machine<V>)
      requires Valid()
      ensures r.trace == trace + [TraceEntry(heap, Store(), loc)]
      ensures r.heap == heap && r.frames == frames && r.curFrame == curFrame
    {
      this.(trace := trace + [TraceEntry(heap, Store(), loc)])
    }
  }

  /** Popping a pushed frame restores the frame stack and the current index,
      and keeps the cells the push added. */
  lemma PopUndoesPush<V>(m: Machine<V>, bs: seq<(Symbol, V)>)
    requires m.Valid()
    ensures m.PushFrame(bs).PopFrame().frames == m.frames
    ensures m.PushFrame(bs).PopFrame().curFrame == m.curFrame
    ensures m.PushFrame(bs).PopFrame().heap[..|m.heap|] == m.heap
    ensures |m.PushFrame(bs).PopFrame().heap| == |m.heap| + |bs|
  {
    var p := m.PushFrame(bs);
    assert p.frames[..p.curFrame] == p.frames[..|m.frames|];
  }

  // ---------------------------------------------------------------------
  // Functions of a module

  predicate IsMain(d: FnDecl)
  {
    d.name.name == "main"
  }

  /** No function after the `j`-th is named "main". */
  predicate NoMainAfter(fs: seq<FnDecl>, j: int)
    requires 0 <= j < |fs|
  {
    forall k :: j < k < |fs| ==> !IsMain(fs[k])
  }

  /** The last function named "main", if any. */
  function MainOf(fs: seq<FnDecl>): (r: Option<FnDecl>)
    ensures r.Some? <==> exists j :: 0 <= j < |fs| && IsMain(fs[j])
    ensures r.Some? ==> IsMain(r.value) && r.value in fs
    ensures forall j :: 0 <= j < |fs| && IsMain(fs[j]) && NoMainAfter(fs, j) ==> r == Some(fs[j])
    decreases |fs|
  {
    if fs == [] then None
    else
      var d := fs[|fs| - 1];
      var init := fs[..|fs| - 1];
      var r := if IsMain(d) then Some(d) else MainOf(init);
      assert fs == init + [d];
      LastMainWins(init, d, MainOf(init), r);
      r
  }

  /** Adding one more function keeps the last "main". */
  lemma LastMainWins(init: seq<FnDecl>, d: FnDecl, rest: Option<FnDecl>, r: Option<FnDecl>)
    requires forall j :: 0 <= j < |init| && IsMain(init[j]) && NoMainAfter(init, j) ==> rest == Some(init[j])
    requires r == if IsMain(d) then Some(d) else rest
    ensures var fs := init + [d];
      forall j :: 0 <= j < |fs| && IsMain(fs[j]) && NoMainAfter(fs, j) ==> r == Some(fs[j])
  {
    var fs := init + [d];
    forall j | 0 <= j < |fs| && IsMain(fs[j]) && NoMainAfter(fs, j)
      ensures r == Some(fs[j])
    {
      if j < |init| {
        assert fs[j] == init[j] && fs[|fs| - 1] == d;
        forall k | j < k < |init|
          ensures !IsMain(init[k])
        {
          assert fs[k] == init[k];
        }
      }
    }
  }

  /** No function after the `j`-th carries its name. */
  predicate LastOfName(fs: seq<FnDecl>, j: int)
    requires 0 <= j < |fs|
  {
    forall k :: j < k < |fs| ==> fs[k].name != fs[j].name
  }

  /** Every function except "main", by name; a later declaration of a name
      replaces an earlier one. */
  function DeclsOf(fs: seq<FnDecl>): (r: map<Symbol, FnDecl>)
    ensures forall f :: f in r <==> exists j :: 0 <= j < |fs| && fs[j].name == f && !IsMain(fs[j])
    ensures forall f :: f in r ==> r[f].name == f && r[f] in fs && !IsMain(r[f])
    ensures forall j :: 0 <= j < |fs| && !IsMain(fs[j]) && LastOfName(fs, j) ==> fs[j].name in r && r[fs[j].name] == fs[j]
    decreases |fs|
  {
    if fs == [] then map[]
    else
      var d := fs[|fs| - 1];
      var init := fs[..|fs| - 1];
      var rest := DeclsOf(init);
      var r := if IsMain(d) then rest else rest[d.name := d];
      assert fs == init + [d];
      LastDeclWins(init, d, rest, r);
      r
  }

  /** Adding one more function keeps the last declaration of every name. */
  lemma LastDeclWins(init: seq<FnDecl>, d: FnDecl, rest: map<Symbol, FnDecl>, r: map<Symbol, FnDecl>)
    requires forall j :: 0 <= j < |init| && !IsMain(init[j]) && LastOfName(init, j) ==> init[j].name in rest && rest[init[j].name] == init[j]
    requires r == if IsMain(d) then rest else rest[d.name := d]
    ensures var fs := init + [d];
      forall j :: 0 <= j < |fs| && !IsMain(fs[j]) && LastOfName(fs, j) ==> fs[j].name in r && r[fs[j].name] == fs[j]
  {
    var fs := init + [d];
    forall j | 0 <= j < |fs| && !IsMain(fs[j]) && LastOfName(fs, j)
      ensures fs[j].name in r && r[fs[j].name] == fs[j]
    {
      if j < |init| {
        assert fs[j] == init[j] && fs[|fs| - 1] == d;
        forall k | j < k < |init|
          ensures init[k].name != init[j].name
        {
          assert fs[k] == init[k];
        }
      }
    }
  }

  /** The program's arguments as one vector of integers. */
  function ArgsVector(args: seq<int>): (v: SimpleValue)
    ensures v.VVector? && |v.elems| == |args|
    ensures forall j :: 0 <= j < |args| ==> v.elems[j] == VInt(args[j])
  {
    VVector(seq(|args|, j requires 0 <= j < |args| => VInt(args[j])))
  }

  /** The state `main` starts in: cell 0 is the return slot holding zero,
      cell 1 holds the arguments, and the single frame binds `main`'s first
      parameter to cell 1. */
  function InitialMachine(main: FnDecl, args: seq<int>): (m: Machine<SimpleValue>)
    requires |main.params| > 0
    ensures m.Valid() && m.curFrame == 0 && m.trace == []
    ensures m.heap == [VInt(0), ArgsVector(args)]
    ensures m.Store() == map[main.params[0].name := 1]
  {
    Machine([VInt(0), ArgsVector(args)], [map[main.params[0].name := 1]], 0, [])
  }

  // ---------------------------------------------------------------------
  // The evaluator object

  class ConcreteEvaluator<V> {
    var heap: seq<V>
    var frames: seq<SimpleStore>
    var curFrame: nat
    ghost var trace: seq<TraceEntry<V>>
    var decls: map<Symbol, FnDecl>
    const vals: ValCompute<V>

    ghost predicate Valid()
      reads this
    {
      State().Valid()
    }

    ghost function State(): Machine<V>
      reads this
    {
      Machine(heap, frames, curFrame, trace)
    }

    constructor (vals: ValCompute<V>, heap: seq<V>, frame: SimpleStore, decls: map<Symbol, FnDecl>)
      ensures Valid() && this.vals == vals && this.decls == decls
      ensures State() == Machine(heap, [frame], 0, [])
    {
      this.vals := vals;
      this.heap := heap;
      this.frames := [frame];
      this.curFrame := 0;
      this.trace := [];
      this.decls := decls;
    }

    method Alloc() returns (l: SimpleAddr)
      requires Valid()
      modifies this`heap
      ensures Valid()
      ensures (State(), l) == old(State()).Alloc(vals.zero)
    {
      heap := heap + [vals.zero];
      l := |heap| - 1;
    }

    method UpdateStore(x: Symbol, l: SimpleAddr)
      requires Valid()
      modifies this`frames
      ensures Valid()
      ensures State() == old(State()).UpdateStore(x, l)
    {
      var st: SimpleStore := frames[curFrame][x := l];
      frames := frames[curFrame := st];
    }

    method UpdateHeap(l: SimpleAddr, v: V) returns (r: Outcome)
      requires Valid()
      modifies this`heap
      ensures Valid()
      ensures r.Pass? <==> old(State()).UpdateHeap(l, v).Ok?
      ensures r.Pass? ==> State() == old(State()).UpdateHeap(l, v).value
      ensures r.Fail? ==> r.error == InvalidLocation && State() == old(State())
    {
      if l < |heap| {
        heap := heap[l := v];
        r := Pass;
      } else {
        r := Fail(InvalidLocation);
      }
    }

    method PushFrame(bs: seq<(Symbol, V)>)
      requires Valid()
      modifies this`heap, this`frames, this`curFrame
      ensures Valid()
      ensures heap == old(heap) + BindingValues(bs)
      ensures frames == old(frames) + [BindingsFrame(old(|heap|), bs)] && curFrame == old(curFrame) + 1
    {
      var base := |heap|;
      var frame: SimpleStore := map[];
      var i := 0;
      while i < |bs|
        invariant 0 <= i <= |bs|
        invariant heap == old(heap) + BindingValues(bs[..i]) && |heap| == base + i
        invariant frame == BindingsFrame(base, bs[..i])
        invariant frames == old(frames) && curFrame == old(curFrame)
      {
        assert bs[..i + 1][..i] == bs[..i] && bs[..i + 1][i] == bs[i];
        heap := heap + [bs[i].1];
        frame := frame[bs[i].0 := base + i];
        i := i + 1;
      }
      assert bs[..i] == bs;
      frames := frames + [frame];
      curFrame := curFrame + 1;
    }

    method PopFrame()
      requires Valid() && curFrame > 0
      modifies this`frames, this`curFrame
      ensures Valid()
      ensures State() == old(State()).PopFrame()
    {
      frames := frames[..|frames| - 1];
      curFrame := curFrame - 1;
    }

    /** The cell a function's result is read from: the first cell of the heap. */
    function ReturnLoc(): SimpleAddr
    {
      0
    }

    function FnDeclOf(f: Symbol): (r: Result<FnDecl>)
      reads this
      ensures r.Ok? <==> f in decls
      ensures r.Ok? ==> r.value == decls[f]
      ensures r.Err? ==> r.error == UnknownFunction
    {
      if f in decls then Ok(decls[f]) else Err(UnknownFunction)
    }
  }

  /** Scanning one more function: it becomes `main` or joins the
      declarations. */
  lemma ScanStep(fs: seq<FnDecl>, i: nat)
    requires i < |fs|
    ensures DeclsOf(fs[..i + 1]) == if IsMain(fs[i]) then DeclsOf(fs[..i]) else DeclsOf(fs[..i])[fs[i].name := fs[i]]
    ensures MainOf(fs[..i + 1]) == if IsMain(fs[i]) then Some(fs[i]) else MainOf(fs[..i])
  {
    assert fs[..i + 1][..i] == fs[..i];
  }

  /** Build the evaluator `main` starts in: the functions other than "main"
      become the declarations, and a module without "main" (or a "main"
      without parameters) is an error. */
  method InitialState(m: Module, args: seq<int>) returns (r: Result<(ConcreteEvaluator<SimpleValue>, FnDecl)>)
    ensures r.Ok? <==> MainOf(m.functions).Some? && |MainOf(m.functions).value.params| > 0
    ensures MainOf(m.functions).None? ==> r == Err(NoMainFunction)
    ensures r.Ok? ==>
      var (ev, main) := r.value;
      && fresh(ev) && ev.Valid()
      && main == MainOf(m.functions).value
      && ev.State() == InitialMachine(main, args)
      && ev.heap[ev.ReturnLoc()] == VInt(0)
      && ev.decls == DeclsOf(m.functions)
      && ev.vals == SimpleValues
  {
    var decls: map<Symbol, FnDecl> := map[];
    var main: Option<FnDecl> := None;
    var i := 0;
    while i < |m.functions|
      invariant 0 <= i <= |m.functions|
      invariant decls == DeclsOf(m.functions[..i])
      invariant main == MainOf(m.functions[..i])
    {
      var d := m.functions[i];
      if d.name.name == "main" {
        main := Some(d);
      } else {
        decls := decls[d.name := d];
      }
      ScanStep(m.functions, i);
      i := i + 1;
    }
    assert m.functions[..i] == m.functions;
    if main.None? {
      return Err(NoMainFunction);
    }
    var mainfn := main.value;
    if |mainfn.params| == 0 {
      return Err(IndexOutOfRange);
    }
    var frame: SimpleStore := map[mainfn.params[0].name := 1];
    var heap := [SimpleValues.zero, ArgsVector(args)];
    var ev := new ConcreteEvaluator(SimpleValues, heap, frame, decls);
    r := Ok((ev, mainfn));
  }
}
