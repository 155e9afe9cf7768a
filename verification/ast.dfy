/**
 The already-parsed program tree. Every expression node carries the type
 annotation the analyser last gave it; a node starts out `Untyped` and keeps
 its annotation across passes whenever a rule assigns it none.
 */
module Ast {
  import opened Types

  datatype BinaryOp =
    | Eq | Ne | Lt | Le | Gt | Ge
    | LogicalAnd | LogicalOr
    | Plus | Minus | Mul | Div | Mod
    | BitAnd | BitOr | BitXor

  /** `Deref` is the unary `*` (the parser's MUL token). */
  datatype UnaryOp = LogicalNot | BitNot | Negate | Deref

  datatype Expr =
    | IntLit(n: int, ty: SizedType)
    | StrLit(s: string, ty: SizedType)
    | Builtin(ident: string, ty: SizedType)
      /** `toMap`/`toVar`: the call is the right-hand side of a map/variable assignment. */
    | Call(func: string, args: seq<Expr>, toMap: bool, toVar: bool, ty: SizedType)
    | MapExpr(m: MapNode)
    | VarExpr(v: VarNode)
    | Binop(left: Expr, bop: BinaryOp, right: Expr, ty: SizedType)
    | Unop(uop: UnaryOp, operand: Expr, ty: SizedType)
    | FieldAccess(base: Expr, field: string, ty: SizedType)
    | CastExpr(castType: string, inner: Expr, ty: SizedType)

  /** A map reference `@ident[args]`; no arguments means the map is indexed by the empty key. */
  datatype MapNode = MapNode(ident: string, args: seq<Expr>, ty: SizedType)

  datatype VarNode = VarNode(ident: string, ty: SizedType)

  datatype Stmt =
    | ExprStmt(expr: Expr)
    | AssignMap(m: MapNode, expr: Expr)
    | AssignVar(v: VarNode, expr: Expr)

  datatype AttachPoint = AttachPoint(provider: string, target: string, func: string, freq: int)

  datatype OptPredicate = NoPredicate | Predicate(expr: Expr)

  datatype Probe = Probe(aps: seq<AttachPoint>, pred: OptPredicate, stmts: seq<Stmt>)

  datatype Include = Include(file: string)

  datatype Program = Program(includes: seq<Include>, probes: seq<Probe>)

  /** The annotation of any expression node. */
  function TypeOf(e: Expr): SizedType
  {
    match e
    case MapExpr(m) => m.ty
    case VarExpr(v) => v.ty
    case _ => e.ty
  }

  predicate IsLiteral(e: Expr)
  {
    e.IntLit? || e.StrLit?
  }

  predicate IsMap(e: Expr)
  {
    e.MapExpr?
  }

  /** Whether the `func` builtin occurs in the expression. */
  predicate UsesFunc(e: Expr)
    decreases e
  {
    match e
    case Builtin(ident, _) => ident == "func"
    case Call(_, args, _, _, _) => AnyUsesFunc(args)
    case MapExpr(m) => MapUsesFunc(m)
    case Binop(l, _, r, _) => UsesFunc(l) || UsesFunc(r)
    case Unop(_, x, _) => UsesFunc(x)
    case FieldAccess(b, _, _) => UsesFunc(b)
    case CastExpr(_, x, _) => UsesFunc(x)
    case _ => false
  }

  predicate AnyUsesFunc(es: seq<Expr>)
    decreases es
  {
    |es| > 0 && (UsesFunc(es[0]) || AnyUsesFunc(es[1..]))
  }

  predicate MapUsesFunc(m: MapNode)
    decreases m
  {
    AnyUsesFunc(m.args)
  }

  predicate StmtUsesFunc(s: Stmt)
  {
    match s
    case ExprStmt(e) => UsesFunc(e)
    case AssignMap(m, e) => MapUsesFunc(m) || UsesFunc(e)
    case AssignVar(_, e) => UsesFunc(e)
  }

  predicate AnyStmtUsesFunc(ss: seq<Stmt>)
  {
    |ss| > 0 && (StmtUsesFunc(ss[0]) || AnyStmtUsesFunc(ss[1..]))
  }

  predicate ProbeUsesFunc(p: Probe)
  {
    (p.pred.Predicate? && UsesFunc(p.pred.expr)) || AnyStmtUsesFunc(p.stmts)
  }

  predicate ProvidersValid(aps: seq<AttachPoint>)
  {
    forall i :: 0 <= i < |aps| ==> IsProvider(aps[i].provider)
  }

  /**
   The analyser aborts (inside `probetype`) on a probe that uses `func` and has
   an attach point with an unknown provider; every other program is analysed
   to completion.
   */
  predicate AbortFree(prog: Program)
  {
    ProbesAbortFree(prog.probes)
  }

  /** A probe is analysed to completion when its providers are all valid or it does not use `func`. */
  predicate ProbeAbortFree(p: Probe)
  {
    ProvidersValid(p.aps) || !ProbeUsesFunc(p)
  }

  predicate ProbesAbortFree(ps: seq<Probe>)
  {
    |ps| == 0 || (ProbeAbortFree(ps[0]) && ProbesAbortFree(ps[1..]))
  }
}
