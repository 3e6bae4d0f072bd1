/** Abstract syntax of Plaia: symbols, types, literals, expressions,
    patterns, statements, functions and modules, plus the constructors the
    parser uses to build `if` statements and blocks. */
module Ast {

  /** A source span: byte offsets of the first and one-past-last character. */
  type Loc = (nat, nat)

  datatype Option<+T> = None | Some(value: T)

  /** An interned name; two symbols are equal exactly when their names are. */
  datatype Symbol = Symbol(name: string)

  function NewSymbol(nm: string): (s: Symbol)
    ensures s.name == nm
    ensures forall t: Symbol :: t == s <==> t.name == nm
  {
    Symbol(nm)
  }

  datatype UnOp = Ref | Deref | Negate

  datatype BinOp =
    | Add | Sub | Mul | Div
    | Eq | Neq | Gt | Lt | Gte | Lte
    | And | Or
    | Proj

  /** Type annotations; they are parsed but never consulted by evaluation. */
  datatype Type = I64 | Bool | Ptr(to: Type) | Tuple(elems: seq<Type>) | Vector(elem: Type)

  datatype LiteralKind = LBool(b: bool) | LInt(i: int)

  datatype Lit = Lit(lit: LiteralKind, loc: Loc)

  datatype ExprKind =
    | Literal(l: Lit)
    | Var(x: Symbol)
    | Unary(uop: UnOp, arg: Expr)
    | Binary(bop: BinOp, lhs: Expr, rhs: Expr)
    | FunCall(callee: Symbol, args: seq<Expr>)

  datatype Expr = Expr(expr: ExprKind, loc: Loc)

  /** Assignment targets of an earlier design; the evaluator takes any
      expression as a target and rejects the wrong shapes at run time. */
  datatype LValKind = VarRef(x: Symbol)

  datatype LVal = LVal(lval: LValKind, loc: Loc)

  datatype TypeBind = TypeBind(name: Symbol, bindType: Type, loc: Loc)

  function NewTypeBind(sym: Symbol, ty: Type, bindloc: Loc): (tb: TypeBind)
    ensures tb.name == sym && tb.bindType == ty && tb.loc == bindloc
  {
    TypeBind(sym, ty, bindloc)
  }

  datatype PatternKind = PWild | PSymbol(x: Symbol) | PLiteral(l: Lit)

  datatype Pattern = Pattern(pattern: PatternKind, loc: Loc)

  datatype CaseBranchKind = CaseArm(pat: Pattern, body: Statement)

  datatype CaseBranch = CaseBranch(branch: CaseBranchKind, loc: Loc)

  datatype StatementKind =
    | VarDecl(bind: TypeBind, init: Option<Expr>)
    | Assign(target: Expr, value: Expr)
    | Block(stmts: seq<Statement>)
    | Case(discr: Expr, arms: seq<CaseBranch>)

  datatype Statement = Statement(stmt: StatementKind, loc: Loc)

  /** `if e s` is sugar: a case on `e` whose single arm matches the literal
      `true` and runs `s`; every span of the sugar is the span of `s`. */
  function IfStatement(e: Expr, s: Statement): (r: StatementKind)
    ensures r.Case? && r.discr == e && |r.arms| == 1
    ensures r.arms[0].branch.pat.pattern == PLiteral(Lit(LBool(true), s.loc))
    ensures r.arms[0].branch.body == s
    ensures r.arms[0].branch.pat.loc == s.loc && r.arms[0].loc == s.loc
  {
    var l := s.loc;
    var tt := PLiteral(Lit(LBool(true), l));
    var pat := Pattern(tt, s.loc);
    var branch := CaseArm(pat, s);
    Case(e, [CaseBranch(branch, l)])
  }

  /** A block keeps its statements as given, in order. */
  function NewBlock(ss: seq<Statement>): (r: StatementKind)
    ensures r.Block? && |r.stmts| == |ss|
    ensures forall i :: 0 <= i < |ss| ==> r.stmts[i] == ss[i]
  {
    Block(ss)
  }

  datatype FnDecl = FnDecl(name: Symbol, params: seq<TypeBind>, body: Statement, loc: Loc)

  datatype Module = Module(globals: seq<TypeBind>, functions: seq<FnDecl>, loc: Loc)
}
