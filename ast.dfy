/**
 * The GoLite abstract syntax tree: one constructor per grammar alternative that the
 * compiler's passes tell apart. Identifiers and literals keep their token text.
 */
module Ast {
  import opened Wrappers

  datatype BinOp =
    | Add | Subtract | Mult | Div | Mod
    | BitAnd | BitOr | BitXor | BitClear | BitLshift | BitRshift
    | Eq | Neq | Lt | Lte | Gt | Gte
    | And | Or

  datatype UnOp = Pos | Neg | BitComp | Not

  /** The eleven compound assignments `op=`. */
  datatype AssignOp =
    | PlusAssign | MinusAssign | StarAssign | SlashAssign | PercAssign
    | AndAssign | PipeAssign | CarotAssign | AmpCarotAssign | LshiftAssign | RshiftAssign

  datatype OptId = IdOptId(id: string) | BlankOptId

  datatype TypeExpr =
    | BoolTypeExpr | IntTypeExpr | FloatTypeExpr | RuneTypeExpr | StringTypeExpr
    | AliasTypeExpr(alias: string)
    | ArrayTypeExpr(bound: Expr, elem: TypeExpr)
    | SliceTypeExpr(elem: TypeExpr)
    | StructTypeExpr(fieldSpecs: seq<FieldSpec>)

  datatype FieldSpec = FieldSpec(ids: seq<OptId>, ftype: TypeExpr)

  datatype Expr =
    | Binary(op: BinOp, left: Expr, right: Expr)
    | Unary(uop: UnOp, operand: Expr)
    | BoolLitExpr(text: string)
    | IntLitExpr(text: string)
    | OctLitExpr(text: string)
    | HexLitExpr(text: string)
    | FloatLitExpr(text: string)
    | RuneLitExpr(text: string)
    | InterpretedStringLitExpr(text: string)
    | RawStringLitExpr(text: string)
    | VariableExpr(id: string)
    | BlankExpr
    | EmptyExpr
    | FuncCallExpr(fname: string, args: seq<Expr>)
    | AppendExpr(target: string, elem: Expr)
    | TypeCastExpr(ctype: TypeExpr, arg: Expr)
    | FieldExpr(obj: Expr, field: string)
    | ArrayElemExpr(arr: Expr, index: Expr)

  datatype VarSpec = VarSpec(ids: seq<OptId>, vtype: Option<TypeExpr>, exprs: seq<Expr>)

  datatype TypeSpec = TypeSpec(name: OptId, texpr: TypeExpr)

  datatype CaseCondition = ExprsCaseCondition(exprs: seq<Expr>) | DefaultCaseCondition

  datatype Stmt =
    | EmptyStmt
    | ExprStmt(expr: Expr)
    | VarDecStmt(varSpecs: seq<VarSpec>)
    | TypeDecStmt(typeSpecs: seq<TypeSpec>)
    | ShortAssignStmt(targets: seq<OptId>, values: seq<Expr>)
    | AssignStmt(lhs: seq<Expr>, rhs: seq<Expr>)
    | OpAssignStmt(aop: AssignOp, target: Expr, value: Expr)
    | IncrStmt(incr: Expr)
    | DecrStmt(decr: Expr)
    | PrintStmt(printed: seq<Expr>)
    | PrintlnStmt(printedLine: seq<Expr>)
    | ContinueStmt
    | BreakStmt
    | ReturnStmt(result: Option<Expr>)
    | BlockStmt(stmts: seq<Stmt>)
    | IfElseStmt(condInit: Option<Stmt>, cond: Expr, ifBlock: seq<Stmt>, elseBlock: seq<Stmt>)
    | SwitchStmt(switchInit: Option<Stmt>, tag: Option<Expr>, cases: seq<CaseBlock>)
    | LoopStmt(init: Option<Stmt>, loopCond: Option<Expr>, end: Option<Stmt>, body: seq<Stmt>)

  datatype CaseBlock = CaseBlock(caseCond: CaseCondition, caseStmts: seq<Stmt>)

  datatype ArgGroup = ArgGroup(argIds: seq<string>, argType: TypeExpr)

  datatype TopDec =
    | VarsTopDec(topVarSpecs: seq<VarSpec>)
    | TypesTopDec(topTypeSpecs: seq<TypeSpec>)
    | FuncTopDec(funcId: string, argGroups: seq<ArgGroup>, returnType: Option<TypeExpr>, funcBody: seq<Stmt>)

  datatype Prog = Prog(packageId: string, topDecs: seq<TopDec>)
}
