/**
 * The two weeders: `Weeder` and `GoLiteWeeder`. Both are depth-first visitors over
 * the whole program whose `in*` hooks throw on the first ill-formed node, so the
 * outcome of a pass is the error of the first offending node in pre-order, or none.
 * They share the return-on-every-path check and the loop-depth tracking, and differ
 * in a few node rules; `Dialect` says which weeder's rules apply.
 */
module Weeders {
  import opened Wrappers
  import opened Strings
  import opened Ast

  datatype Dialect = Weeder | GoLiteWeeder

  /** The first of two outcomes that is an error. */
  function FirstOf(a: Option<string>, b: Option<string>): (r: Option<string>)
    ensures r.None? <==> a.None? && b.None?
  {
    if a.Some? then a else b
  }

  // ------------------------------------------------------------------ the return check

  /** `isReturnable`: the statements that may end a non-void function. */
  predicate IsReturnable(s: Stmt)
  {
    s.ReturnStmt? || s.BlockStmt? || s.IfElseStmt? || s.SwitchStmt? || s.LoopStmt?
  }

  predicate IsDefault(c: CaseBlock) { c.caseCond.DefaultCaseCondition? }

  function DefaultCount(cases: seq<CaseBlock>): nat
    decreases cases
  {
    if |cases| == 0 then 0 else (if IsDefault(cases[0]) then 1 else 0) + DefaultCount(cases[1..])
  }

  /** A loop with a condition that is present and not the empty expression can exit
      normally. */
  predicate HasCondition(c: Option<Expr>)
  {
    c.Some? && !c.value.EmptyExpr?
  }

  /** What `BreakStmtFinder` looks for: a break statement anywhere in the tree,
      nested loops and switches included. */
  predicate ContainsBreak(s: Stmt)
    decreases s
  {
    match s
    case BreakStmt => true
    case BlockStmt(ss) => AnyBreak(ss)
    case IfElseStmt(init, _, i, e) => OptBreak(init) || AnyBreak(i) || AnyBreak(e)
    case SwitchStmt(init, _, cases) => OptBreak(init) || CasesBreak(cases)
    case LoopStmt(init, _, end, body) => OptBreak(init) || OptBreak(end) || AnyBreak(body)
    case _ => false
  }

  predicate OptBreak(o: Option<Stmt>)
    decreases o
  {
    o.Some? && ContainsBreak(o.value)
  }

  predicate AnyBreak(ss: seq<Stmt>)
    decreases ss
  {
    |ss| > 0 && (ContainsBreak(ss[0]) || AnyBreak(ss[1..]))
  }

  predicate CasesBreak(cases: seq<CaseBlock>)
    decreases cases
  {
    |cases| > 0 && (AnyBreak(cases[0].caseStmts) || CasesBreak(cases[1..]))
  }

  /** `checkBlockHasReturn`: the block must not be empty and must end in a returnable
      statement; a trailing block is checked in turn, a trailing if-else on both
      branches, a trailing switch on every case (in order) and it needs a default
      case, and a trailing loop must have no condition and no break anywhere in it. */
  function ReturnError(stmts: seq<Stmt>): Option<string>
    decreases stmts
  {
    if |stmts| == 0 then Some("Missing return")
    else
      var last := stmts[|stmts| - 1];
      if !IsReturnable(last) then Some("Missing return at end of function")
      else match last
        case BlockStmt(b) => ReturnError(b)
        case IfElseStmt(_, _, i, e) => FirstOf(ReturnError(i), ReturnError(e))
        case SwitchStmt(_, _, cases) =>
          FirstOf(CasesReturnError(cases), if DefaultCount(cases) == 0 then Some("Missing return") else None)
        case LoopStmt(_, c, _, _) =>
          if HasCondition(c) || ContainsBreak(last) then Some("Missing return") else None
        case _ => None
  }

  function CasesReturnError(cases: seq<CaseBlock>): Option<string>
    decreases cases
  {
    if |cases| == 0 then None else FirstOf(ReturnError(cases[0].caseStmts), CasesReturnError(cases[1..]))
  }

  // ------------------------------------------------------------------ node rules

  /** An expression statement must be a call (`Weeder`), or a call or an append
      (`GoLiteWeeder`). */
  function ExprStmtRule(d: Dialect, e: Expr): (r: Option<string>)
    ensures r.None? <==> e.FuncCallExpr? || (d == GoLiteWeeder && e.AppendExpr?)
  {
    match d
    case Weeder => if e.FuncCallExpr? then None else Some("Evaluated but not used")
    case GoLiteWeeder => if e.FuncCallExpr? || e.AppendExpr? then None else Some(" evaluated but not used")
  }

  /** A var spec with expressions must have as many ids as expressions. */
  function VarSpecRule(spec: VarSpec): (r: Option<string>)
    ensures r.None? <==> |spec.exprs| == 0 || |spec.ids| == |spec.exprs|
  {
    if |spec.exprs| > 0 && |spec.ids| != |spec.exprs| then Some("L.H.S and R.H.S. of variable declaration don't match")
    else None
  }

  /** A blank target: `Weeder` sees a blank identifier node, `GoLiteWeeder` an
      identifier whose text is "_". */
  predicate IsBlankTarget(d: Dialect, t: OptId)
  {
    match d
    case Weeder => t.BlankOptId?
    case GoLiteWeeder => (if t.IdOptId? then t.id else "_") == "_"
  }

  /** `:=` with expressions must have as many targets as expressions, and its only
      target may not be blank; the count is checked first. */
  function ShortAssignRule(d: Dialect, targets: seq<OptId>, values: seq<Expr>): (r: Option<string>)
    ensures r.None? <==> (|values| == 0 || |targets| == |values|) && !(|targets| == 1 && IsBlankTarget(d, targets[0]))
    ensures r.Some? && |values| > 0 && |targets| != |values| && d == Weeder ==>
      r.value == "Assignment count mismatch: " + NatToString(|targets|) + " = " + NatToString(|values|)
  {
    if |values| > 0 && |targets| != |values| then
      match d
      case Weeder => Some("Assignment count mismatch: " + NatToString(|targets|) + " = " + NatToString(|values|))
      case GoLiteWeeder => Some("L.H.S and R.H.S. of short assignment don't match")
    else if |targets| == 1 && IsBlankTarget(d, targets[0]) then Some("No new variables declared on the left side of :=")
    else None
  }

  function AssignRule(lhs: seq<Expr>, rhs: seq<Expr>): (r: Option<string>)
    ensures r.None? <==> |lhs| == |rhs|
  {
    if |lhs| != |rhs| then Some("L.H.S and R.H.S. of assignment don't match") else None
  }

  /** `isNonConstant` (`Weeder`) and `isIncrDecrable` (`GoLiteWeeder`): a variable, a
      field or an array element. */
  predicate IsNonConstant(e: Expr)
  {
    e.VariableExpr? || e.FieldExpr? || e.ArrayElemExpr?
  }

  function IncDecRule(d: Dialect, e: Expr): (r: Option<string>)
    ensures r.None? <==> IsNonConstant(e)
  {
    if IsNonConstant(e) then None
    else match d
      case Weeder => Some("Cannot assign")
      case GoLiteWeeder => Some("Cannot assign to ")
  }

  /** A switch may have at most one default case. */
  function DefaultsRule(cases: seq<CaseBlock>): (r: Option<string>)
    ensures r.None? <==> DefaultCount(cases) <= 1
  {
    if DefaultCount(cases) >= 2 then Some("Switch statement contains multiple default cases") else None
  }

  /** The for-post may not be a short assignment. */
  function LoopRule(end: Option<Stmt>): (r: Option<string>)
    ensures r.None? <==> !(end.Some? && end.value.ShortAssignStmt?)
  {
    if end.Some? && end.value.ShortAssignStmt? then Some("Cannot declare in the for-increment") else None
  }

  /** What `VariableExprFinder` looks for: a variable expression anywhere inside. */
  predicate HasVariable(e: Expr)
    decreases e
  {
    match e
    case VariableExpr(_) => true
    case Binary(_, l, r) => HasVariable(l) || HasVariable(r)
    case Unary(_, x) => HasVariable(x)
    case FuncCallExpr(_, args) => AnyVariable(args)
    case AppendExpr(_, x) => HasVariable(x)
    case TypeCastExpr(t, x) => TypeHasVariable(t) || HasVariable(x)
    case FieldExpr(o, _) => HasVariable(o)
    case ArrayElemExpr(a, i) => HasVariable(a) || HasVariable(i)
    case _ => false
  }

  predicate AnyVariable(es: seq<Expr>)
    decreases es
  {
    |es| > 0 && (HasVariable(es[0]) || AnyVariable(es[1..]))
  }

  predicate TypeHasVariable(t: TypeExpr)
    decreases t
  {
    match t
    case ArrayTypeExpr(b, el) => HasVariable(b) || TypeHasVariable(el)
    case SliceTypeExpr(el) => TypeHasVariable(el)
    case StructTypeExpr(specs) => SpecsHaveVariable(specs)
    case _ => false
  }

  predicate SpecsHaveVariable(specs: seq<FieldSpec>)
    decreases specs
  {
    |specs| > 0 && (TypeHasVariable(specs[0].ftype) || SpecsHaveVariable(specs[1..]))
  }

  /** An array bound must be an int, octal or hex literal (`Weeder`); it may not
      contain a variable anywhere in the array type (`GoLiteWeeder`). */
  function ArrayRule(d: Dialect, bound: Expr, elem: TypeExpr): (r: Option<string>)
    ensures d == Weeder ==> (r.None? <==> bound.IntLitExpr? || bound.OctLitExpr? || bound.HexLitExpr?)
    ensures d == GoLiteWeeder ==> (r.None? <==> !HasVariable(bound) && !TypeHasVariable(elem))
  {
    match d
    case Weeder =>
      if bound.IntLitExpr? || bound.OctLitExpr? || bound.HexLitExpr? then None else Some("Non-integer array bound")
    case GoLiteWeeder =>
      if TypeHasVariable(ArrayTypeExpr(bound, elem)) then Some("Non-constant array bound") else None
  }

  /** Field and element access need a non-constant object or a call (`Weeder` only). */
  function AccessRule(d: Dialect, obj: Expr, msg: string): (r: Option<string>)
    ensures r.None? <==> d.GoLiteWeeder? || IsNonConstant(obj) || obj.FuncCallExpr?
  {
    if d.Weeder? && !(IsNonConstant(obj) || obj.FuncCallExpr?) then Some(msg) else None
  }

  function CastRule(t: TypeExpr): (r: Option<string>)
    ensures r.None? <==> !t.StringTypeExpr?
  {
    if t.StringTypeExpr? then Some("Cannot cast to type string") else None
  }

  // ------------------------------------------------------------------ the whole pass

  /** The first error in an expression, its own rule before its children's. */
  function ExprError(d: Dialect, e: Expr): Option<string>
    decreases e
  {
    match e
    case Binary(_, l, r) => FirstOf(ExprError(d, l), ExprError(d, r))
    case Unary(_, x) => ExprError(d, x)
    case FuncCallExpr(_, args) => ExprsError(d, args)
    case AppendExpr(_, x) => ExprError(d, x)
    case TypeCastExpr(t, x) => FirstOf(CastRule(t), FirstOf(TypeError(d, t), ExprError(d, x)))
    case FieldExpr(o, _) => FirstOf(AccessRule(d, o, "Invalid field access operation"), ExprError(d, o))
    case ArrayElemExpr(a, i) =>
      FirstOf(AccessRule(d, a, "Invalid array access operation"), FirstOf(ExprError(d, a), ExprError(d, i)))
    case _ => None
  }

  function ExprsError(d: Dialect, es: seq<Expr>): Option<string>
    decreases es
  {
    if |es| == 0 then None else FirstOf(ExprError(d, es[0]), ExprsError(d, es[1..]))
  }

  function TypeError(d: Dialect, t: TypeExpr): Option<string>
    decreases t
  {
    match t
    case ArrayTypeExpr(b, el) => FirstOf(ArrayRule(d, b, el), FirstOf(ExprError(d, b), TypeError(d, el)))
    case SliceTypeExpr(el) => TypeError(d, el)
    case StructTypeExpr(specs) => SpecsError(d, specs)
    case _ => None
  }

  function SpecsError(d: Dialect, specs: seq<FieldSpec>): Option<string>
    decreases specs
  {
    if |specs| == 0 then None else FirstOf(TypeError(d, specs[0].ftype), SpecsError(d, specs[1..]))
  }

  function OptTypeError(d: Dialect, t: Option<TypeExpr>): Option<string>
  {
    if t.Some? then TypeError(d, t.value) else None
  }

  function OptExprError(d: Dialect, e: Option<Expr>): Option<string>
  {
    if e.Some? then ExprError(d, e.value) else None
  }

  function VarSpecsError(d: Dialect, specs: seq<VarSpec>): Option<string>
    decreases specs
  {
    if |specs| == 0 then None
    else
      var s := specs[0];
      FirstOf(VarSpecRule(s), FirstOf(OptTypeError(d, s.vtype), FirstOf(ExprsError(d, s.exprs), VarSpecsError(d, specs[1..]))))
  }

  function TypeSpecsError(d: Dialect, specs: seq<TypeSpec>): Option<string>
    decreases specs
  {
    if |specs| == 0 then None else FirstOf(TypeError(d, specs[0].texpr), TypeSpecsError(d, specs[1..]))
  }

  /** The first error in a statement; `inLoop` says whether the loop depth is
      positive. A loop's own rule comes before its parts, which are all visited
      inside the loop. */
  function StmtError(d: Dialect, s: Stmt, inLoop: bool): Option<string>
    decreases s
  {
    match s
    case EmptyStmt => None
    case ExprStmt(e) => FirstOf(ExprStmtRule(d, e), ExprError(d, e))
    case VarDecStmt(specs) => VarSpecsError(d, specs)
    case TypeDecStmt(specs) => TypeSpecsError(d, specs)
    case ShortAssignStmt(ts, vs) => FirstOf(ShortAssignRule(d, ts, vs), ExprsError(d, vs))
    case AssignStmt(l, r) => FirstOf(AssignRule(l, r), FirstOf(ExprsError(d, l), ExprsError(d, r)))
    case OpAssignStmt(_, t, v) => FirstOf(ExprError(d, t), ExprError(d, v))
    case IncrStmt(e) => FirstOf(IncDecRule(d, e), ExprError(d, e))
    case DecrStmt(e) => FirstOf(IncDecRule(d, e), ExprError(d, e))
    case PrintStmt(es) => ExprsError(d, es)
    case PrintlnStmt(es) => ExprsError(d, es)
    case ContinueStmt => if inLoop then None else Some("continue outside loop")
    case BreakStmt => if inLoop then None else Some("break outside loop")
    case ReturnStmt(r) => OptExprError(d, r)
    case BlockStmt(ss) => StmtsError(d, ss, inLoop)
    case IfElseStmt(init, c, i, e) =>
      FirstOf(OptStmtError(d, init, inLoop), FirstOf(ExprError(d, c), FirstOf(StmtsError(d, i, inLoop), StmtsError(d, e, inLoop))))
    case SwitchStmt(init, tag, cases) =>
      FirstOf(DefaultsRule(cases), FirstOf(OptStmtError(d, init, inLoop), FirstOf(OptExprError(d, tag), CasesError(d, cases, inLoop))))
    case LoopStmt(init, c, end, body) =>
      FirstOf(LoopRule(end), FirstOf(OptStmtError(d, init, true), FirstOf(OptExprError(d, c), FirstOf(OptStmtError(d, end, true), StmtsError(d, body, true)))))
  }

  function OptStmtError(d: Dialect, o: Option<Stmt>, inLoop: bool): Option<string>
    decreases o
  {
    if o.Some? then StmtError(d, o.value, inLoop) else None
  }

  function StmtsError(d: Dialect, ss: seq<Stmt>, inLoop: bool): Option<string>
    decreases ss
  {
    if |ss| == 0 then None else FirstOf(StmtError(d, ss[0], inLoop), StmtsError(d, ss[1..], inLoop))
  }

  function CaseError(d: Dialect, c: CaseBlock, inLoop: bool): Option<string>
    decreases c
  {
    FirstOf(if c.caseCond.ExprsCaseCondition? then ExprsError(d, c.caseCond.exprs) else None, StmtsError(d, c.caseStmts, inLoop))
  }

  function CasesError(d: Dialect, cases: seq<CaseBlock>, inLoop: bool): Option<string>
    decreases cases
  {
    if |cases| == 0 then None else FirstOf(CaseError(d, cases[0], inLoop), CasesError(d, cases[1..], inLoop))
  }

  function ArgsError(d: Dialect, groups: seq<ArgGroup>): Option<string>
    decreases groups
  {
    if |groups| == 0 then None else FirstOf(TypeError(d, groups[0].argType), ArgsError(d, groups[1..]))
  }

  /** A function with a declared return type is return-checked on entry, before its
      parts are visited at loop depth zero. */
  function TopDecError(d: Dialect, t: TopDec): Option<string>
  {
    match t
    case VarsTopDec(specs) => VarSpecsError(d, specs)
    case TypesTopDec(specs) => TypeSpecsError(d, specs)
    case FuncTopDec(_, groups, ret, body) =>
      FirstOf(if ret.Some? then ReturnError(body) else None,
         FirstOf(ArgsError(d, groups), FirstOf(OptTypeError(d, ret), StmtsError(d, body, false))))
  }

  function TopDecsError(d: Dialect, ts: seq<TopDec>): Option<string>
    decreases ts
  {
    if |ts| == 0 then None else FirstOf(TopDecError(d, ts[0]), TopDecsError(d, ts[1..]))
  }

  // ------------------------------------------------------------------ the finders

  class BreakStmtFinder {
    var found: bool

    /** Applies the finder to `root` from a cleared flag. */
    constructor (root: Stmt)
      ensures found == ContainsBreak(root)
    {
      found := false;
      new;
      Apply(root);
    }

    method Apply(s: Stmt)
      modifies this
      ensures found == (old(found) || ContainsBreak(s))
      decreases s
    {
      match s {
        case BreakStmt => found := true;
        case BlockStmt(ss) => ApplyAll(ss);
        case IfElseStmt(init, _, i, e) =>
          ApplyOpt(init);
          ApplyAll(i);
          ApplyAll(e);
        case SwitchStmt(init, _, cases) =>
          ApplyOpt(init);
          var k := 0;
          while k < |cases|
            invariant 0 <= k <= |cases|
            invariant (found || CasesBreak(cases[k..])) == (old(found) || OptBreak(init) || CasesBreak(cases))
          {
            assert cases[k..][1..] == cases[k + 1..];
            assert cases[k] in cases;
            ApplyAll(cases[k].caseStmts);
            k := k + 1;
          }
        case LoopStmt(init, _, end, body) =>
          ApplyOpt(init);
          ApplyOpt(end);
          ApplyAll(body);
        case _ =>
      }
    }

    method ApplyOpt(o: Option<Stmt>)
      modifies this
      ensures found == (old(found) || OptBreak(o))
      decreases o
    {
      if o.Some? {
        Apply(o.value);
      }
    }

    method ApplyAll(ss: seq<Stmt>)
      modifies this
      ensures found == (old(found) || AnyBreak(ss))
      decreases ss
    {
      var k := 0;
      while k < |ss|
        invariant 0 <= k <= |ss|
        invariant (found || AnyBreak(ss[k..])) == (old(found) || AnyBreak(ss))
      {
        assert ss[k..][1..] == ss[k + 1..];
        Apply(ss[k]);
        k := k + 1;
      }
    }
  }

  class VariableExprFinder {
    var found: bool

    /** Applies the finder to an array type node from a cleared flag. */
    constructor (root: TypeExpr)
      ensures found == TypeHasVariable(root)
    {
      found := false;
      new;
      ApplyType(root);
    }

    method ApplyExpr(e: Expr)
      modifies this
      ensures found == (old(found) || HasVariable(e))
      decreases e
    {
      match e {
        case VariableExpr(_) => found := true;
        case Binary(_, l, r) =>
          ApplyExpr(l);
          ApplyExpr(r);
        case Unary(_, x) => ApplyExpr(x);
        case FuncCallExpr(_, args) =>
          var k := 0;
          while k < |args|
            invariant 0 <= k <= |args|
            invariant (found || AnyVariable(args[k..])) == (old(found) || AnyVariable(args))
          {
            assert args[k..][1..] == args[k + 1..];
            ApplyExpr(args[k]);
            k := k + 1;
          }
        case AppendExpr(_, x) => ApplyExpr(x);
        case TypeCastExpr(t, x) =>
          ApplyType(t);
          ApplyExpr(x);
        case FieldExpr(o, _) => ApplyExpr(o);
        case ArrayElemExpr(a, i) =>
          ApplyExpr(a);
          ApplyExpr(i);
        case _ =>
      }
    }

    method ApplyType(t: TypeExpr)
      modifies this
      ensures found == (old(found) || TypeHasVariable(t))
      decreases t
    {
      match t {
        case ArrayTypeExpr(b, el) =>
          ApplyExpr(b);
          ApplyType(el);
        case SliceTypeExpr(el) => ApplyType(el);
        case StructTypeExpr(specs) =>
          var k := 0;
          while k < |specs|
            invariant 0 <= k <= |specs|
            invariant (found || SpecsHaveVariable(specs[k..])) == (old(found) || SpecsHaveVariable(specs))
          {
            assert specs[k..][1..] == specs[k + 1..];
            assert specs[k] in specs;
            ApplyType(specs[k].ftype);
            k := k + 1;
          }
        case _ =>
      }
    }
  }

  // ------------------------------------------------------------------ the visitor

  class WeederPass {
    const dialect: Dialect
    /** `loopDepth`: how many enclosing loops the traversal is in. */
    var loopDepth: int

    constructor (d: Dialect)
      ensures dialect == d && loopDepth == 0
    {
      dialect := d;
      loopDepth := 0;
    }

    /** `checkBlockHasReturn`, with the `hasDefaultCase` flag for a trailing switch
        and a `BreakStmtFinder` for a trailing loop. */
    method CheckBlockHasReturn(stmts: seq<Stmt>) returns (err: Option<string>)
      ensures err == ReturnError(stmts)
      decreases stmts
    {
      if |stmts| == 0 {
        return Some("Missing return");
      }
      var last := stmts[|stmts| - 1];
      if !IsReturnable(last) {
        return Some("Missing return at end of function");
      }
      match last {
        case BlockStmt(b) =>
          err := CheckBlockHasReturn(b);
        case IfElseStmt(_, _, i, e) =>
          err := CheckBlockHasReturn(i);
          if err.None? {
            err := CheckBlockHasReturn(e);
          }
        case SwitchStmt(_, _, cases) =>
          var hasDefaultCase := false;
          var k := 0;
          while k < |cases|
            invariant 0 <= k <= |cases|
            invariant CasesReturnError(cases) == CasesReturnError(cases[k..])
            invariant hasDefaultCase <==> DefaultCount(cases[..k]) > 0
          {
            assert cases[k..][1..] == cases[k + 1..];
            assert cases[k] in cases;
            err := CheckBlockHasReturn(cases[k].caseStmts);
            if err.Some? {
              return;
            }
            if IsDefault(cases[k]) {
              hasDefaultCase := true;
            }
            DefaultCountSplit(cases[..k + 1], k);
            assert cases[..k + 1][..k] == cases[..k] && cases[..k + 1][k..] == [cases[k]];
            k := k + 1;
          }
          assert cases[k..] == [] && cases[..k] == cases;
          err := if hasDefaultCase then None else Some("Missing return");
        case LoopStmt(_, c, _, _) =>
          var finder := new BreakStmtFinder(last);
          err := if HasCondition(c) || finder.found then Some("Missing return") else None;
        case _ =>
          err := None;
      }
    }

    /** `inASwitchStmt`: the flag loop that stops at a second default case. */
    method CheckDefaults(cases: seq<CaseBlock>) returns (err: Option<string>)
      ensures err == DefaultsRule(cases)
    {
      var hasDefaultCase := false;
      var k := 0;
      while k < |cases|
        invariant 0 <= k <= |cases|
        invariant DefaultCount(cases) == DefaultCount(cases[..k]) + DefaultCount(cases[k..])
        invariant hasDefaultCase <==> DefaultCount(cases[..k]) == 1
        invariant DefaultCount(cases[..k]) <= 1
      {
        DefaultCountSplit(cases, k);
        if IsDefault(cases[k]) {
          if hasDefaultCase {
            DefaultCountSplit(cases, k + 1);
            DefaultCountSplit(cases[k..], 1);
            return Some("Switch statement contains multiple default cases");
          }
          hasDefaultCase := true;
        }
        DefaultCountSplit(cases, k + 1);
        DefaultCountSplit(cases[..k + 1], k);
        assert cases[..k + 1][..k] == cases[..k] && cases[..k + 1][k..] == [cases[k]];
        k := k + 1;
      }
      assert cases[k..] == [];
      err := None;
    }

    /** The visit of one statement at the current loop depth. A completed visit
        leaves the depth as it found it. */
    method VisitStmt(s: Stmt) returns (err: Option<string>)
      requires loopDepth >= 0
      modifies this
      ensures err == StmtError(dialect, s, old(loopDepth) > 0)
      ensures err.None? ==> loopDepth == old(loopDepth)
      ensures loopDepth >= 0
      decreases s, 1
    {
      match s {
        case ContinueStmt =>
          err := if loopDepth > 0 then None else Some("continue outside loop");
        case BreakStmt =>
          err := if loopDepth > 0 then None else Some("break outside loop");
        case BlockStmt(ss) =>
          err := VisitStmts(ss);
        case IfElseStmt(init, c, i, e) =>
          err := VisitIfElse(s);
        case SwitchStmt(init, tag, cases) =>
          err := VisitSwitch(s);
        case LoopStmt(init, c, end, body) =>
          err := VisitLoop(s);
        case _ =>
          err := StmtError(dialect, s, loopDepth > 0);
      }
    }

    method VisitIfElse(s: Stmt) returns (err: Option<string>)
      requires s.IfElseStmt? && loopDepth >= 0
      modifies this
      ensures err == StmtError(dialect, s, old(loopDepth) > 0)
      ensures err.None? ==> loopDepth == old(loopDepth)
      ensures loopDepth >= 0
      decreases s, 0
    {
      err := VisitOpt(s.condInit);
      if err.Some? { return; }
      err := ExprError(dialect, s.cond);
      if err.Some? { return; }
      err := VisitStmts(s.ifBlock);
      if err.Some? { return; }
      err := VisitStmts(s.elseBlock);
    }

    method VisitSwitch(s: Stmt) returns (err: Option<string>)
      requires s.SwitchStmt? && loopDepth >= 0
      modifies this
      ensures err == StmtError(dialect, s, old(loopDepth) > 0)
      ensures err.None? ==> loopDepth == old(loopDepth)
      ensures loopDepth >= 0
      decreases s, 0
    {
      err := CheckDefaults(s.cases);
      if err.Some? { return; }
      err := VisitOpt(s.switchInit);
      if err.Some? { return; }
      err := OptExprError(dialect, s.tag);
      if err.Some? { return; }
      err := VisitCases(s.cases);
    }

    /** `inALoopStmt` checks the for-post and enters the loop; `outALoopStmt` leaves
        it. */
    method VisitLoop(s: Stmt) returns (err: Option<string>)
      requires s.LoopStmt? && loopDepth >= 0
      modifies this
      ensures err == StmtError(dialect, s, old(loopDepth) > 0)
      ensures err.None? ==> loopDepth == old(loopDepth)
      ensures loopDepth >= 0
      decreases s, 0
    {
      err := LoopRule(s.end);
      if err.Some? { return; }
      loopDepth := loopDepth + 1;
      err := VisitOpt(s.init);
      if err.Some? { return; }
      err := OptExprError(dialect, s.loopCond);
      if err.Some? { return; }
      err := VisitOpt(s.end);
      if err.Some? { return; }
      err := VisitStmts(s.body);
      if err.Some? { return; }
      loopDepth := loopDepth - 1;
    }

    method VisitOpt(o: Option<Stmt>) returns (err: Option<string>)
      requires loopDepth >= 0
      modifies this
      ensures err == OptStmtError(dialect, o, old(loopDepth) > 0)
      ensures err.None? ==> loopDepth == old(loopDepth)
      ensures loopDepth >= 0
      decreases o
    {
      err := None;
      if o.Some? {
        err := VisitStmt(o.value);
      }
    }

    method VisitStmts(ss: seq<Stmt>) returns (err: Option<string>)
      requires loopDepth >= 0
      modifies this
      ensures err == StmtsError(dialect, ss, old(loopDepth) > 0)
      ensures err.None? ==> loopDepth == old(loopDepth)
      ensures loopDepth >= 0
      decreases ss
    {
      var k := 0;
      while k < |ss|
        invariant 0 <= k <= |ss|
        invariant loopDepth == old(loopDepth)
        invariant StmtsError(dialect, ss, loopDepth > 0) == StmtsError(dialect, ss[k..], loopDepth > 0)
      {
        assert ss[k..][1..] == ss[k + 1..];
        err := VisitStmt(ss[k]);
        if err.Some? { return; }
        k := k + 1;
      }
      err := None;
    }

    method VisitCases(cases: seq<CaseBlock>) returns (err: Option<string>)
      requires loopDepth >= 0
      modifies this
      ensures err == CasesError(dialect, cases, old(loopDepth) > 0)
      ensures err.None? ==> loopDepth == old(loopDepth)
      ensures loopDepth >= 0
      decreases cases
    {
      var k := 0;
      while k < |cases|
        invariant 0 <= k <= |cases|
        invariant loopDepth == old(loopDepth)
        invariant CasesError(dialect, cases, loopDepth > 0) == CasesError(dialect, cases[k..], loopDepth > 0)
      {
        assert cases[k..][1..] == cases[k + 1..];
        assert cases[k] in cases;
        var c := cases[k];
        err := if c.caseCond.ExprsCaseCondition? then ExprsError(dialect, c.caseCond.exprs) else None;
        if err.Some? { return; }
        err := VisitStmts(c.caseStmts);
        if err.Some? { return; }
        k := k + 1;
      }
      err := None;
    }

    /** The visit of a whole program, from depth zero. */
    method VisitProg(p: Prog) returns (err: Option<string>)
      requires loopDepth == 0
      modifies this
      ensures err == TopDecsError(dialect, p.topDecs)
      ensures err.None? ==> loopDepth == 0
    {
      var k := 0;
      while k < |p.topDecs|
        invariant 0 <= k <= |p.topDecs|
        invariant loopDepth == 0
        invariant TopDecsError(dialect, p.topDecs) == TopDecsError(dialect, p.topDecs[k..])
      {
        assert p.topDecs[k..][1..] == p.topDecs[k + 1..];
        var t := p.topDecs[k];
        match t {
          case FuncTopDec(_, groups, ret, body) =>
            err := None;
            if ret.Some? {
              err := CheckBlockHasReturn(body);
            }
            if err.Some? { return; }
            err := FirstOf(ArgsError(dialect, groups), OptTypeError(dialect, ret));
            if err.Some? { return; }
            err := VisitStmts(body);
          case _ =>
            err := TopDecError(dialect, t);
        }
        if err.Some? { return; }
        k := k + 1;
      }
      err := None;
    }
  }

  lemma {:induction false} DefaultCountSplit(cases: seq<CaseBlock>, k: nat)
    requires k <= |cases|
    ensures DefaultCount(cases) == DefaultCount(cases[..k]) + DefaultCount(cases[k..])
    decreases k
  {
    if k > 0 {
      DefaultCountSplit(cases[1..], k - 1);
      assert cases[..k][1..] == cases[1..][..k - 1];
      assert cases[1..][k - 1..] == cases[k..];
    } else {
      assert cases[..0] == [] && cases[0..] == cases;
    }
  }

  // ------------------------------------------------------------------ completion modes

  /** How a statement can complete, over every path (conditions are not evaluated). */
  datatype Mode = Normal | Returned | Broke | Continued

  /** A switch absorbs a break out of one of its cases: the switch then completes
      normally. */
  function Caught(m: set<Mode>): set<Mode>
  {
    (m - {Broke}) + (if Broke in m then {Normal} else {})
  }

  function Modes(s: Stmt): set<Mode>
    decreases s
  {
    match s
    case ReturnStmt(_) => {Returned}
    case BreakStmt => {Broke}
    case ContinueStmt => {Continued}
    case BlockStmt(ss) => SeqModes(ss)
    case IfElseStmt(_, _, i, e) => SeqModes(i) + SeqModes(e)
    case SwitchStmt(_, _, cases) => CasesModes(cases) + (if DefaultCount(cases) == 0 then {Normal} else {})
    case LoopStmt(_, c, _, body) =>
      var m := SeqModes(body);
      (if Returned in m then {Returned} else {})
        + (if HasCondition(c) || Broke in m then {Normal} else {})
    case _ => {Normal}
  }

  /** A sequence goes on to its next statement only when the current one completes
      normally. */
  function SeqModes(ss: seq<Stmt>): set<Mode>
    decreases ss
  {
    if |ss| == 0 then {Normal}
    else
      var m := Modes(ss[0]);
      (m - {Normal}) + (if Normal in m then SeqModes(ss[1..]) else {})
  }

  function CasesModes(cases: seq<CaseBlock>): set<Mode>
    decreases cases
  {
    if |cases| == 0 then {} else Caught(SeqModes(cases[0].caseStmts)) + CasesModes(cases[1..])
  }

  /** A sequence can complete normally only through its last statement. */
  lemma {:induction false} SeqModesLast(ss: seq<Stmt>)
    requires |ss| > 0 && Normal !in Modes(ss[|ss| - 1])
    ensures Normal !in SeqModes(ss)
    decreases ss
  {
    if |ss| > 1 {
      assert ss[1..][|ss[1..]| - 1] == ss[|ss| - 1];
      SeqModesLast(ss[1..]);
    }
  }

  /** Without a break statement nothing completes by breaking. */
  lemma {:induction false} NoBreakNoBroke(s: Stmt)
    ensures !ContainsBreak(s) ==> Broke !in Modes(s)
    decreases s
  {
    match s
    case BlockStmt(ss) => NoBreakNoBrokeAll(ss);
    case IfElseStmt(_, _, i, e) =>
      NoBreakNoBrokeAll(i);
      NoBreakNoBrokeAll(e);
    case SwitchStmt(_, _, cases) => CaughtModes(cases);
    case _ =>
  }

  lemma {:induction false} NoBreakNoBrokeAll(ss: seq<Stmt>)
    ensures !AnyBreak(ss) ==> Broke !in SeqModes(ss)
    decreases ss
  {
    if |ss| > 0 {
      NoBreakNoBroke(ss[0]);
      NoBreakNoBrokeAll(ss[1..]);
    }
  }

  /** No break escapes a switch. */
  lemma {:induction false} CaughtModes(cases: seq<CaseBlock>)
    ensures Broke !in CasesModes(cases)
    decreases cases
  {
    if |cases| > 0 {
      CaughtModes(cases[1..]);
    }
  }

  /** A statement the weeder accepts outside every loop cannot complete by breaking
      or continuing: the only breaks and continues it accepts there are caught by an
      enclosing loop or, for a break, by a switch. */
  lemma {:induction false} NoStrayJumps(d: Dialect, s: Stmt)
    ensures StmtError(d, s, false).None? ==> Broke !in Modes(s) && Continued !in Modes(s)
    decreases s
  {
    match s
    case BlockStmt(ss) => NoStrayJumpsAll(d, ss);
    case IfElseStmt(_, _, i, e) =>
      NoStrayJumpsAll(d, i);
      NoStrayJumpsAll(d, e);
    case SwitchStmt(_, _, cases) =>
      CaughtModes(cases);
      NoStrayContinues(d, cases);
    case _ =>
  }

  lemma {:induction false} NoStrayJumpsAll(d: Dialect, ss: seq<Stmt>)
    ensures StmtsError(d, ss, false).None? ==> Broke !in SeqModes(ss) && Continued !in SeqModes(ss)
    decreases ss
  {
    if |ss| > 0 {
      NoStrayJumps(d, ss[0]);
      NoStrayJumpsAll(d, ss[1..]);
    }
  }

  lemma {:induction false} NoStrayContinues(d: Dialect, cases: seq<CaseBlock>)
    ensures CasesError(d, cases, false).None? ==> Continued !in CasesModes(cases)
    decreases cases
  {
    if |cases| > 0 {
      NoStrayJumpsAll(d, cases[0].caseStmts);
      NoStrayContinues(d, cases[1..]);
      if CasesError(d, cases, false).None? {
        assert CaseError(d, cases[0], false).None?;
        assert Continued !in Caught(SeqModes(cases[0].caseStmts));
      }
    }
  }

  /** The weeders' promise for a function with a return type: when the return check
      passes and the body is accepted, no path through the body completes normally,
      so every path that ends ends in a return. */
  lemma {:induction false} AcceptedBodiesReturn(d: Dialect, body: seq<Stmt>)
    requires ReturnError(body).None? && StmtsError(d, body, false).None?
    ensures Normal !in SeqModes(body)
    decreases body
  {
    var last := body[|body| - 1];
    LastAccepted(d, body);
    match last {
      case ReturnStmt(_) =>
      case BlockStmt(b) => AcceptedBodiesReturn(d, b);
      case IfElseStmt(_, _, i, e) =>
        AcceptedBodiesReturn(d, i);
        AcceptedBodiesReturn(d, e);
      case SwitchStmt(_, _, cases) => AcceptedCasesReturn(d, cases);
      case LoopStmt(_, _, _, b) => NoBreakNoBrokeAll(b);
    }
    SeqModesLast(body);
  }

  lemma {:induction false} AcceptedCasesReturn(d: Dialect, cases: seq<CaseBlock>)
    requires CasesReturnError(cases).None? && CasesError(d, cases, false).None?
    ensures Normal !in CasesModes(cases)
    decreases cases
  {
    if |cases| > 0 {
      AcceptedBodiesReturn(d, cases[0].caseStmts);
      NoStrayJumpsAll(d, cases[0].caseStmts);
      AcceptedCasesReturn(d, cases[1..]);
    }
  }

  /** The last statement of an accepted sequence is itself accepted. */
  lemma {:induction false} LastAccepted(d: Dialect, ss: seq<Stmt>)
    requires |ss| > 0 && StmtsError(d, ss, false).None?
    ensures StmtError(d, ss[|ss| - 1], false).None?
    decreases ss
  {
    if |ss| > 1 {
      assert ss[1..][|ss[1..]| - 1] == ss[|ss| - 1];
      LastAccepted(d, ss[1..]);
    }
  }

  /** The loop rule of the return check is conservative: a break that only leaves a
      nested loop still rejects the trailing loop around it, although that loop can
      only be left by returning. */
  lemma NestedBreakRejected()
    ensures var inner := LoopStmt(None, None, None, [BreakStmt]);
      var body := [LoopStmt(None, None, None, [inner, ReturnStmt(None)])];
      ReturnError(body) == Some("Missing return") && Normal !in SeqModes(body)
  {
    var inner := LoopStmt(None, None, None, [BreakStmt]);
    var outer := LoopStmt(None, None, None, [inner, ReturnStmt(None)]);
    assert AnyBreak([BreakStmt]);
    assert AnyBreak([inner, ReturnStmt(None)]);
    assert ContainsBreak(outer);
    assert [inner, ReturnStmt(None)][1..] == [ReturnStmt(None)];
    assert SeqModes([BreakStmt]) == {Broke};
    assert Modes(inner) == {Normal};
    assert SeqModes([ReturnStmt(None)]) == {Returned};
    assert SeqModes([inner, ReturnStmt(None)]) == {Returned};
    assert Modes(outer) == {Returned};
  }

  // ------------------------------------------------------------------ return-check rules

  /** The return check, case by case on the last statement. */
  lemma ReturnRules(stmts: seq<Stmt>)
    ensures |stmts| == 0 ==> ReturnError(stmts) == Some("Missing return")
    ensures |stmts| > 0 && !IsReturnable(stmts[|stmts| - 1]) ==>
      ReturnError(stmts) == Some("Missing return at end of function")
    ensures |stmts| > 0 && stmts[|stmts| - 1].ReturnStmt? ==> ReturnError(stmts).None?
    ensures |stmts| > 0 && stmts[|stmts| - 1].IfElseStmt? ==>
      (ReturnError(stmts).None? <==>
        ReturnError(stmts[|stmts| - 1].ifBlock).None? && ReturnError(stmts[|stmts| - 1].elseBlock).None?)
    ensures |stmts| > 0 && stmts[|stmts| - 1].LoopStmt? ==>
      (ReturnError(stmts).None? <==> !HasCondition(stmts[|stmts| - 1].loopCond) && !ContainsBreak(stmts[|stmts| - 1]))
  {
  }

  /** A trailing switch passes iff every case passes and one of them is a default. */
  lemma {:induction false} SwitchReturnRule(stmts: seq<Stmt>)
    requires |stmts| > 0 && stmts[|stmts| - 1].SwitchStmt?
    ensures var cases := stmts[|stmts| - 1].cases;
      ReturnError(stmts).None? <==>
        (forall k :: 0 <= k < |cases| ==> ReturnError(cases[k].caseStmts).None?) && DefaultCount(cases) > 0
  {
    CasesReturnAll(stmts[|stmts| - 1].cases);
  }

  lemma {:induction false} CasesReturnAll(cases: seq<CaseBlock>)
    ensures CasesReturnError(cases).None? <==> forall k :: 0 <= k < |cases| ==> ReturnError(cases[k].caseStmts).None?
    decreases cases
  {
    if |cases| > 0 {
      CasesReturnAll(cases[1..]);
      assert forall k :: 1 <= k < |cases| ==> cases[1..][k - 1] == cases[k];
    }
  }

  /** An if without an else fails the return check: its else block is empty. */
  lemma IfWithoutElseFails(c: Expr, i: seq<Stmt>)
    ensures ReturnError([IfElseStmt(None, c, i, [])]).Some?
  {
  }

  /** A function without a return type is never return-checked. */
  lemma VoidFunctionsUnchecked(d: Dialect, f: string, groups: seq<ArgGroup>, body: seq<Stmt>)
    ensures TopDecError(d, FuncTopDec(f, groups, None, body))
         == FirstOf(ArgsError(d, groups), StmtsError(d, body, false))
  {
  }

  // ------------------------------------------------------------------ jump and count rules

  /** break and continue are rejected outside a loop and accepted directly inside
      one; a for-post that is a short assignment is rejected. */
  lemma JumpRules(d: Dialect)
    ensures StmtError(d, BreakStmt, false) == Some("break outside loop")
    ensures StmtError(d, ContinueStmt, false) == Some("continue outside loop")
    ensures StmtError(d, BreakStmt, true).None? && StmtError(d, ContinueStmt, true).None?
  {
  }

  lemma ForPostRule(d: Dialect, body: seq<Stmt>, ts: seq<OptId>, vs: seq<Expr>, inLoop: bool)
    ensures StmtError(d, LoopStmt(None, None, Some(ShortAssignStmt(ts, vs)), body), inLoop)
         == Some("Cannot declare in the for-increment")
  {
  }

  /** Inside a loop body jumps are accepted however deep the loop itself sits. */
  lemma {:induction false} LoopBodyIsInLoop(d: Dialect, body: seq<Stmt>, inLoop: bool)
    ensures StmtError(d, LoopStmt(None, None, None, body), inLoop) == StmtsError(d, body, true)
  {
  }

  /** A switch with two defaults is rejected before anything inside it is looked at. */
  lemma TwoDefaultsFail(d: Dialect, a: seq<Stmt>, b: seq<Stmt>, inLoop: bool)
    ensures var cases := [CaseBlock(DefaultCaseCondition, a), CaseBlock(DefaultCaseCondition, b)];
      StmtError(d, SwitchStmt(None, None, cases), inLoop) == Some("Switch statement contains multiple default cases")
  {
    var cases := [CaseBlock(DefaultCaseCondition, a), CaseBlock(DefaultCaseCondition, b)];
    assert cases[1..][1..] == [];
    assert DefaultCount(cases[1..]) == 1;
  }

  /** `_ := e` declares nothing and is rejected by both weeders when `_` is the
      blank identifier; `x, y := e` is a count mismatch. */
  lemma ShortAssignRules(d: Dialect, e: Expr, x: string, y: string)
    ensures ShortAssignRule(d, [BlankOptId], [e]) == Some("No new variables declared on the left side of :=")
    ensures ShortAssignRule(Weeder, [IdOptId(x), IdOptId(y)], [e]) == Some("Assignment count mismatch: 2 = 1")
    ensures ShortAssignRule(GoLiteWeeder, [IdOptId(x), IdOptId(y)], [e]) == Some("L.H.S and R.H.S. of short assignment don't match")
    ensures ShortAssignRule(d, [IdOptId(x), IdOptId(y)], []).None?
  {
    assert NatToString(2) == "2" && NatToString(1) == "1";
    assert "Assignment count mismatch: " + "2" + " = " + "1" == "Assignment count mismatch: 2 = 1";
  }

  // ------------------------------------------------------------------ where the weeders differ

  /** An append used as a statement: `Weeder` rejects it, `GoLiteWeeder` accepts it
      (it only rejects expression statements that are neither calls nor appends). */
  lemma AppendStatementDiffers(x: string, e: Expr)
    requires ExprError(Weeder, e).None? && ExprError(GoLiteWeeder, e).None?
    ensures StmtError(Weeder, ExprStmt(AppendExpr(x, e)), false) == Some("Evaluated but not used")
    ensures StmtError(GoLiteWeeder, ExprStmt(AppendExpr(x, e)), false).None?
  {
  }

  /** A computed constant array bound: `Weeder` wants a literal, `GoLiteWeeder` only
      refuses variables; a variable bound is rejected by both. */
  lemma ArrayBoundDiffers(x: string, t: TypeExpr, n: string, m: string)
    requires TypeError(GoLiteWeeder, t).None? && !TypeHasVariable(t)
    ensures TypeError(Weeder, ArrayTypeExpr(Binary(Add, IntLitExpr(n), IntLitExpr(m)), t)) == Some("Non-integer array bound")
    ensures TypeError(GoLiteWeeder, ArrayTypeExpr(Binary(Add, IntLitExpr(n), IntLitExpr(m)), t)).None?
    ensures TypeError(GoLiteWeeder, ArrayTypeExpr(VariableExpr(x), t)) == Some("Non-constant array bound")
    ensures TypeError(Weeder, ArrayTypeExpr(VariableExpr(x), t)) == Some("Non-integer array bound")
  {
    var b := Binary(Add, IntLitExpr(n), IntLitExpr(m));
    assert !HasVariable(IntLitExpr(n)) && !HasVariable(IntLitExpr(m));
    assert !HasVariable(b);
    assert ExprError(GoLiteWeeder, b).None?;
    assert ArrayRule(GoLiteWeeder, b, t).None?;
  }

  /** Field access on a literal: rejected by `Weeder` only. */
  lemma FieldAccessDiffers(n: string, f: string)
    ensures ExprError(Weeder, FieldExpr(IntLitExpr(n), f)) == Some("Invalid field access operation")
    ensures ExprError(GoLiteWeeder, FieldExpr(IntLitExpr(n), f)).None?
  {
  }
}
