/**
 * `PrettyPrinter`: a depth-first walk that appends GoLite source text to a buffer,
 * with a tab counter for the lines of a `var ( ... )` block. It hooks the program,
 * top-level var declarations, var specs, type expressions and expressions; every
 * other node goes through the default walk, which visits its children in order and
 * prints nothing of its own.
 */
module PrettyPrinters {
  import opened Wrappers
  import opened Strings
  import opened Ast

  // ------------------------------------------------------------------ text pieces

  /** `n` copies of one character (what the counted loops of `addTabs` and
      `addNewLine` emit; a negative count emits nothing). */
  function Chars(c: char, n: int): string
  {
    Repeat([c], if n < 0 then 0 else n)
  }

  function Tabs(n: int): string { Chars('\t', n) }

  function NewLines(n: int): string { Chars('\n', n) }

  /** The Go spelling printed between the operands of each binary operator. */
  function OpText(op: BinOp): string
  {
    match op
    case Add => "+" case Subtract => "-" case Mult => "*" case Div => "/" case Mod => "%"
    case BitAnd => "&" case BitOr => "|" case BitXor => "^" case BitClear => "&^"
    case BitLshift => "<<" case BitRshift => ">>"
    case Eq => "==" case Neq => "!=" case Lt => "<" case Lte => "<=" case Gt => ">" case Gte => ">="
    case And => "&&" case Or => "||"
  }

  function UnOpText(op: UnOp): string
  {
    match op
    case Pos => "+" case Neg => "-" case BitComp => "^" case Not => "!"
  }

  /** The text of an identifier token; a blank identifier is the token `_`. */
  function IdText(o: OptId): string
  {
    if o.IdOptId? then o.id else "_"
  }

  function IdTexts(ids: seq<OptId>): seq<string>
  {
    seq(|ids|, i requires 0 <= i < |ids| => IdText(ids[i]))
  }

  // ------------------------------------------------------------------ what is printed

  /** A type expression. An array type prints "[", the bound node's `toString()`
      (`bs`, generated code this model does not include) and "]", and the default
      walk then prints the bound expression again before the element type. A struct
      type has no hook: the walk prints its field types and nothing else. */
  function TypeText(bs: Expr -> string, t: TypeExpr): string
    decreases t, 1
  {
    match t
    case BoolTypeExpr => "bool"
    case IntTypeExpr => "int"
    case FloatTypeExpr => "float64"
    case RuneTypeExpr => "rune"
    case StringTypeExpr => "string"
    case AliasTypeExpr(a) => a
    case ArrayTypeExpr(b, el) => ("[" + bs(b) + "]") + ExprText(bs, b) + TypeText(bs, el)
    case SliceTypeExpr(el) => "[]" + TypeText(bs, el)
    case StructTypeExpr(specs) => Concat(FieldTypeTexts(bs, specs))
  }

  function FieldTypeTexts(bs: Expr -> string, specs: seq<FieldSpec>): seq<string>
    decreases specs, 0
  {
    seq(|specs|, i requires 0 <= i < |specs| => TypeText(bs, specs[i].ftype))
  }

  function OptTypeText(bs: Expr -> string, t: Option<TypeExpr>): string
  {
    if t.Some? then TypeText(bs, t.value) else ""
  }

  /** An expression; the blank and empty expressions have no hook and print nothing. */
  function ExprText(bs: Expr -> string, e: Expr): string
    decreases e, 1
  {
    match e
    case Binary(op, l, r) => "(" + ExprText(bs, l) + (" " + OpText(op) + " ") + ExprText(bs, r) + ")"
    case Unary(op, x) => ("(" + UnOpText(op)) + ExprText(bs, x) + ")"
    case BoolLitExpr(s) => s
    case IntLitExpr(s) => s
    case OctLitExpr(s) => s
    case HexLitExpr(s) => s
    case FloatLitExpr(s) => s
    case RuneLitExpr(s) => s
    case InterpretedStringLitExpr(s) => s
    case RawStringLitExpr(s) => s
    case VariableExpr(x) => x
    case BlankExpr => ""
    case EmptyExpr => ""
    case FuncCallExpr(f, args) => CallText(f, ExprTexts(bs, args))
    case AppendExpr(x, v) => ("append" + "(" + x + ",") + ExprText(bs, v) + ")"
    case TypeCastExpr(t, x) => TypeText(bs, t) + "(" + ExprText(bs, x) + ")"
    case FieldExpr(o, f) => ExprText(bs, o) + ("." + f)
    case ArrayElemExpr(a, i) => ExprText(bs, a) + "[" + ExprText(bs, i) + "]"
  }

  function ExprTexts(bs: Expr -> string, es: seq<Expr>): seq<string>
    decreases es, 0
  {
    seq(|es|, i requires 0 <= i < |es| => ExprText(bs, es[i]))
  }

  /** A call: the arguments between parentheses, separated by commas. Without
      arguments the character deleted to drop the last comma is the "(" itself. */
  function CallText(f: string, args: seq<string>): string
  {
    if |args| == 0 then f + ")" else f + "(" + Join(args, ",") + ")"
  }

  /** A var spec can be printed without eating into what came before it: it has an
      identifier whose token text is not empty. */
  predicate SpecOk(v: VarSpec)
  {
    |v.ids| > 0 && IdText(v.ids[0]) != ""
  }

  /** The identifiers of a var spec separated by commas, and its type right after them. */
  function SpecHead(bs: Expr -> string, v: VarSpec): string
  {
    Join(IdTexts(v.ids), ",") + OptTypeText(bs, v.vtype)
  }

  /** A var spec after its tabs: the head, then the values separated by commas.
      Without values the last character deleted is that of the type, or of the
      last identifier. */
  function SpecBody(bs: Expr -> string, v: VarSpec): string
  {
    var head := SpecHead(bs, v);
    if |v.exprs| > 0 then head + Join(ExprTexts(bs, v.exprs), ",")
    else if |head| > 0 then head[..|head| - 1] else ""
  }

  /** One var spec on its own line. */
  function VarSpecText(bs: Expr -> string, tabs: int, v: VarSpec): string
  {
    Tabs(tabs) + SpecBody(bs, v) + "\n"
  }

  function VarSpecTexts(bs: Expr -> string, tabs: int, specs: seq<VarSpec>): seq<string>
  {
    seq(|specs|, i requires 0 <= i < |specs| => VarSpecText(bs, tabs, specs[i]))
  }

  /** A top-level var declaration: several specs go in a "var (" block, one tab
      deeper, closed at the original depth. */
  function VarsText(bs: Expr -> string, tabs: int, specs: seq<VarSpec>): string
  {
    if |specs| > 1 then
      Tabs(tabs) + "var " + "(" + "\n" + Concat(VarSpecTexts(bs, tabs + 1, specs)) + Tabs(tabs) + ")" + "\n"
    else
      Tabs(tabs) + "var " + Concat(VarSpecTexts(bs, tabs, specs)) + "\n"
  }

  /** What the default walk prints for a statement: the text of its nested
      expressions, type expressions and var specs, in order, with nothing between. */
  function StmtText(bs: Expr -> string, tabs: int, s: Stmt): string
    decreases s, 1
  {
    match s
    case EmptyStmt => ""
    case ExprStmt(e) => ExprText(bs, e)
    case VarDecStmt(specs) => Concat(VarSpecTexts(bs, tabs, specs))
    case TypeDecStmt(specs) => Concat(TypeSpecTexts(bs, specs))
    case ShortAssignStmt(_, vs) => Concat(ExprTexts(bs, vs))
    case AssignStmt(l, r) => Concat(ExprTexts(bs, l)) + Concat(ExprTexts(bs, r))
    case OpAssignStmt(_, t, v) => ExprText(bs, t) + ExprText(bs, v)
    case IncrStmt(e) => ExprText(bs, e)
    case DecrStmt(e) => ExprText(bs, e)
    case PrintStmt(es) => Concat(ExprTexts(bs, es))
    case PrintlnStmt(es) => Concat(ExprTexts(bs, es))
    case ContinueStmt => ""
    case BreakStmt => ""
    case ReturnStmt(r) => OptExprText(bs, r)
    case BlockStmt(ss) => Concat(StmtTexts(bs, tabs, ss))
    case IfElseStmt(i, c, a, b) =>
      OptStmtText(bs, tabs, i) + ExprText(bs, c) + Concat(StmtTexts(bs, tabs, a)) + Concat(StmtTexts(bs, tabs, b))
    case SwitchStmt(i, t, cases) =>
      OptStmtText(bs, tabs, i) + OptExprText(bs, t) + Concat(CaseTexts(bs, tabs, cases))
    case LoopStmt(i, c, e, body) =>
      OptStmtText(bs, tabs, i) + OptExprText(bs, c) + OptStmtText(bs, tabs, e) + Concat(StmtTexts(bs, tabs, body))
  }

  function OptExprText(bs: Expr -> string, e: Option<Expr>): string
  {
    if e.Some? then ExprText(bs, e.value) else ""
  }

  function OptStmtText(bs: Expr -> string, tabs: int, o: Option<Stmt>): string
    decreases o, 1
  {
    if o.Some? then StmtText(bs, tabs, o.value) else ""
  }

  function StmtTexts(bs: Expr -> string, tabs: int, ss: seq<Stmt>): seq<string>
    decreases ss, 0
  {
    seq(|ss|, i requires 0 <= i < |ss| => StmtText(bs, tabs, ss[i]))
  }

  function CaseText(bs: Expr -> string, tabs: int, c: CaseBlock): string
    decreases c, 1
  {
    (if c.caseCond.ExprsCaseCondition? then Concat(ExprTexts(bs, c.caseCond.exprs)) else "")
      + Concat(StmtTexts(bs, tabs, c.caseStmts))
  }

  function CaseTexts(bs: Expr -> string, tabs: int, cases: seq<CaseBlock>): seq<string>
    decreases cases, 0
  {
    seq(|cases|, i requires 0 <= i < |cases| => CaseText(bs, tabs, cases[i]))
  }

  function TypeSpecTexts(bs: Expr -> string, specs: seq<TypeSpec>): seq<string>
  {
    seq(|specs|, i requires 0 <= i < |specs| => TypeText(bs, specs[i].texpr))
  }

  function ArgTypeTexts(bs: Expr -> string, groups: seq<ArgGroup>): seq<string>
  {
    seq(|groups|, i requires 0 <= i < |groups| => TypeText(bs, groups[i].argType))
  }

  /** A top-level declaration: only var declarations have hooks; the default walk
      prints the types of a type declaration, and the argument types, return type
      and body text of a function. */
  function TopDecText(bs: Expr -> string, tabs: int, d: TopDec): string
  {
    match d
    case VarsTopDec(specs) => VarsText(bs, tabs, specs)
    case TypesTopDec(specs) => Concat(TypeSpecTexts(bs, specs))
    case FuncTopDec(_, groups, ret, body) =>
      Concat(ArgTypeTexts(bs, groups)) + OptTypeText(bs, ret) + Concat(StmtTexts(bs, tabs, body))
  }

  function TopDecTexts(bs: Expr -> string, tabs: int, decs: seq<TopDec>): seq<string>
  {
    seq(|decs|, i requires 0 <= i < |decs| => TopDecText(bs, tabs, decs[i]))
  }

  /** The whole program: the package line, then every top-level declaration. */
  function ProgText(bs: Expr -> string, p: Prog): string
  {
    "package " + p.packageId + "\n" + Concat(TopDecTexts(bs, 0, p.topDecs))
  }

  // ------------------------------------------------------------------ printable trees

  predicate SpecsOk(specs: seq<VarSpec>)
  {
    forall i :: 0 <= i < |specs| ==> SpecOk(specs[i])
  }

  /** Every var spec inside the statement is printable. */
  predicate StmtOk(s: Stmt)
    decreases s
  {
    match s
    case VarDecStmt(specs) => SpecsOk(specs)
    case BlockStmt(ss) => forall k :: 0 <= k < |ss| ==> StmtOk(ss[k])
    case IfElseStmt(i, _, a, b) =>
      (i.Some? ==> StmtOk(i.value)) && (forall k :: 0 <= k < |a| ==> StmtOk(a[k]))
        && (forall k :: 0 <= k < |b| ==> StmtOk(b[k]))
    case SwitchStmt(i, _, cases) =>
      (i.Some? ==> StmtOk(i.value))
        && (forall k, j :: 0 <= k < |cases| && 0 <= j < |cases[k].caseStmts| ==> StmtOk(cases[k].caseStmts[j]))
    case LoopStmt(i, _, e, body) =>
      (i.Some? ==> StmtOk(i.value)) && (e.Some? ==> StmtOk(e.value))
        && (forall k :: 0 <= k < |body| ==> StmtOk(body[k]))
    case _ => true
  }

  predicate TopDecOk(d: TopDec)
  {
    match d
    case VarsTopDec(specs) => SpecsOk(specs)
    case TypesTopDec(_) => true
    case FuncTopDec(_, _, _, body) => forall k :: 0 <= k < |body| ==> StmtOk(body[k])
  }

  predicate ProgOk(p: Prog)
  {
    forall k :: 0 <= k < |p.topDecs| ==> TopDecOk(p.topDecs[k])
  }

  // ------------------------------------------------------------------ the printer

  class Printer {
    /** `toString()` of a generated node, used for array bounds. */
    const boundString: Expr -> string
    var buffer: string
    var numTabs: int

    constructor(bs: Expr -> string)
      ensures boundString == bs && buffer == "" && numTabs == 0
    {
      boundString := bs;
      buffer := "";
      numTabs := 0;
    }

    /** `addTabs`: exactly `numTabs` tabs. */
    method AddTabs()
      modifies this
      ensures buffer == old(buffer) + Tabs(numTabs) && numTabs == old(numTabs)
    {
      var i := 0;
      while i < numTabs
        invariant 0 <= i && (numTabs >= 0 ==> i <= numTabs) && (numTabs < 0 ==> i == 0)
        invariant buffer == old(buffer) + Chars('\t', i)
        invariant numTabs == old(numTabs)
      {
        buffer := buffer + "\t";
        i := i + 1;
      }
      assert Chars('\t', i) == Tabs(numTabs);
    }

    /** `addNewLine(n)`: exactly `n` newlines. */
    method AddNewLine(n: int)
      modifies this
      ensures buffer == old(buffer) + NewLines(n) && numTabs == old(numTabs)
    {
      var i := 0;
      while i < n
        invariant 0 <= i && (n >= 0 ==> i <= n) && (n < 0 ==> i == 0)
        invariant buffer == old(buffer) + Chars('\n', i)
        invariant numTabs == old(numTabs)
      {
        buffer := buffer + "\n";
        i := i + 1;
      }
      assert Chars('\n', i) == NewLines(n);
    }

    method PrintType(t: TypeExpr)
      modifies this
      ensures buffer == old(buffer) + TypeText(boundString, t) && numTabs == old(numTabs)
      decreases t, 2
    {
      match t {
        case BoolTypeExpr => buffer := buffer + "bool";
        case IntTypeExpr => buffer := buffer + "int";
        case FloatTypeExpr => buffer := buffer + "float64";
        case RuneTypeExpr => buffer := buffer + "rune";
        case StringTypeExpr => buffer := buffer + "string";
        case AliasTypeExpr(a) => buffer := buffer + a;
        case ArrayTypeExpr(b, el) => PrintArrayType(t);
        case SliceTypeExpr(el) =>
          buffer := buffer + "[]";
          PrintType(el);
          Assoc2(old(buffer), "[]", TypeText(boundString, el));
        case StructTypeExpr(specs) => PrintFieldTypes(t);
      }
    }

    /** `inAArrayTypeExpr`, then the default walk over the bound and the element. */
    method PrintArrayType(t: TypeExpr)
      requires t.ArrayTypeExpr?
      modifies this
      ensures buffer == old(buffer) + TypeText(boundString, t) && numTabs == old(numTabs)
      decreases t, 1
    {
      var lead := "[" + boundString(t.bound) + "]";
      buffer := buffer + lead;
      PrintExpr(t.bound);
      PrintType(t.elem);
      Assoc3(old(buffer), lead, ExprText(boundString, t.bound), TypeText(boundString, t.elem));
    }

    method PrintFieldTypes(t: TypeExpr)
      requires t.StructTypeExpr?
      modifies this
      ensures buffer == old(buffer) + TypeText(boundString, t) && numTabs == old(numTabs)
      decreases t, 1
    {
      var specs := t.fieldSpecs;
      var texts := FieldTypeTexts(boundString, specs);
      var k := 0;
      while k < |specs|
        invariant 0 <= k <= |specs| && numTabs == old(numTabs)
        invariant buffer == old(buffer) + Concat(texts[..k])
      {
        PrintType(specs[k].ftype);
        ConcatStep(old(buffer), texts, k);
        k := k + 1;
      }
      assert texts[..k] == texts;
    }

    method PrintExpr(e: Expr)
      modifies this
      ensures buffer == old(buffer) + ExprText(boundString, e) && numTabs == old(numTabs)
      decreases e, 2
    {
      match e {
        case Binary(_, _, _) => PrintBinary(e);
        case Unary(_, _) => PrintUnary(e);
        case FuncCallExpr(_, _) => PrintCall(e);
        case AppendExpr(_, _) => PrintAppend(e);
        case TypeCastExpr(_, _) => PrintCast(e);
        case FieldExpr(_, _) => PrintField(e);
        case ArrayElemExpr(_, _) => PrintElem(e);
        case BoolLitExpr(s) => buffer := buffer + s;
        case IntLitExpr(s) => buffer := buffer + s;
        case OctLitExpr(s) => buffer := buffer + s;
        case HexLitExpr(s) => buffer := buffer + s;
        case FloatLitExpr(s) => buffer := buffer + s;
        case RuneLitExpr(s) => buffer := buffer + s;
        case InterpretedStringLitExpr(s) => buffer := buffer + s;
        case RawStringLitExpr(s) => buffer := buffer + s;
        case VariableExpr(x) => buffer := buffer + x;
        case BlankExpr =>
        case EmptyExpr =>
      }
    }

    /** The `case` hook of every binary operator. */
    method PrintBinary(e: Expr)
      requires e.Binary?
      modifies this
      ensures buffer == old(buffer) + ExprText(boundString, e) && numTabs == old(numTabs)
      decreases e, 1
    {
      buffer := buffer + "(";
      PrintExpr(e.left);
      buffer := buffer + (" " + OpText(e.op) + " ");
      PrintExpr(e.right);
      buffer := buffer + ")";
      Assoc5(old(buffer), "(", ExprText(boundString, e.left), " " + OpText(e.op) + " ", ExprText(boundString, e.right), ")");
    }

    /** The `in` hook writes the parenthesis and the operator, the `out` hook closes. */
    method PrintUnary(e: Expr)
      requires e.Unary?
      modifies this
      ensures buffer == old(buffer) + ExprText(boundString, e) && numTabs == old(numTabs)
      decreases e, 1
    {
      buffer := buffer + ("(" + UnOpText(e.uop));
      PrintExpr(e.operand);
      buffer := buffer + ")";
      Assoc3(old(buffer), "(" + UnOpText(e.uop), ExprText(boundString, e.operand), ")");
    }

    method PrintAppend(e: Expr)
      requires e.AppendExpr?
      modifies this
      ensures buffer == old(buffer) + ExprText(boundString, e) && numTabs == old(numTabs)
      decreases e, 1
    {
      var lead := "append" + "(" + e.target + ",";
      buffer := buffer + lead;
      PrintExpr(e.elem);
      buffer := buffer + ")";
      Assoc3(old(buffer), lead, ExprText(boundString, e.elem), ")");
    }

    method PrintCast(e: Expr)
      requires e.TypeCastExpr?
      modifies this
      ensures buffer == old(buffer) + ExprText(boundString, e) && numTabs == old(numTabs)
      decreases e, 1
    {
      PrintType(e.ctype);
      buffer := buffer + "(";
      PrintExpr(e.arg);
      buffer := buffer + ")";
      Assoc4(old(buffer), TypeText(boundString, e.ctype), "(", ExprText(boundString, e.arg), ")");
    }

    method PrintField(e: Expr)
      requires e.FieldExpr?
      modifies this
      ensures buffer == old(buffer) + ExprText(boundString, e) && numTabs == old(numTabs)
      decreases e, 1
    {
      PrintExpr(e.obj);
      buffer := buffer + ("." + e.field);
      Assoc2(old(buffer), ExprText(boundString, e.obj), "." + e.field);
    }

    method PrintElem(e: Expr)
      requires e.ArrayElemExpr?
      modifies this
      ensures buffer == old(buffer) + ExprText(boundString, e) && numTabs == old(numTabs)
      decreases e, 1
    {
      PrintExpr(e.arr);
      buffer := buffer + "[";
      PrintExpr(e.index);
      buffer := buffer + "]";
      Assoc4(old(buffer), ExprText(boundString, e.arr), "[", ExprText(boundString, e.index), "]");
    }

    /** `caseAFuncCallExpr`: each argument followed by a comma, then the last
        character deleted. */
    method PrintCall(e: Expr)
      requires e.FuncCallExpr?
      modifies this
      ensures buffer == old(buffer) + ExprText(boundString, e) && numTabs == old(numTabs)
      decreases e, 1
    {
      buffer := buffer + (e.fname + "(");
      PrintValues(e.args);
      CallTail(old(buffer), e.fname, ExprTexts(boundString, e.args));
      buffer := buffer[..|buffer| - 1];
      buffer := buffer + ")";
    }

    /** The identifier loop of a var spec, each identifier followed by a comma. */
    method PrintEachId(ids: seq<OptId>)
      modifies this
      ensures buffer == old(buffer) + Commas(IdTexts(ids)) && numTabs == old(numTabs)
    {
      var texts := IdTexts(ids);
      ghost var base := buffer;
      var b := buffer;
      var k := 0;
      while k < |ids|
        invariant 0 <= k <= |ids| && numTabs == old(numTabs)
        invariant buffer == b && b == base + Commas(texts[..k])
      {
        assert texts[k] == IdText(ids[k]);
        CommaStepWith(base, texts, k);
        b := b + (IdText(ids[k]) + ",");
        buffer := b;
        k := k + 1;
      }
      assert texts[..k] == texts;
    }

    /** `caseASpecVarSpec`: the identifiers, each followed by a comma, the last
        character deleted; the type; the values, each followed by a comma, the last
        character deleted; a newline. */
    method PrintVarSpec(v: VarSpec)
      requires SpecOk(v)
      modifies this
      ensures buffer == old(buffer) + VarSpecText(boundString, numTabs, v) && numTabs == old(numTabs)
    {
      AddTabs();
      ghost var lead := buffer;
      PrintSpecHead(v);
      PrintValues(v.exprs);
      JoinNonEmpty(IdTexts(v.ids), ",");
      SpecEnd(lead, SpecHead(boundString, v), ExprTexts(boundString, v.exprs));
      buffer := buffer[..|buffer| - 1];
      assert buffer == lead + SpecBody(boundString, v);
      AddNewLine(1);
      NewLineOne();
      Assoc3(old(buffer), Tabs(numTabs), SpecBody(boundString, v), "\n");
    }

    /** The identifiers with their commas, the last comma deleted, then the type. */
    method PrintSpecHead(v: VarSpec)
      requires SpecOk(v)
      modifies this
      ensures buffer == old(buffer) + SpecHead(boundString, v) && numTabs == old(numTabs)
    {
      PrintEachId(v.ids);
      IdsTail(old(buffer), IdTexts(v.ids));
      buffer := buffer[..|buffer| - 1];
      if v.vtype.Some? {
        PrintType(v.vtype.value);
      }
      Assoc2(old(buffer), Join(IdTexts(v.ids), ","), OptTypeText(boundString, v.vtype));
    }

    /** The value loop of a var spec, each value followed by a comma. */
    method PrintValues(es: seq<Expr>)
      modifies this
      ensures buffer == old(buffer) + Commas(ExprTexts(boundString, es)) && numTabs == old(numTabs)
      decreases es, 0
    {
      var texts := ExprTexts(boundString, es);
      var k := 0;
      while k < |es|
        invariant 0 <= k <= |es| && numTabs == old(numTabs)
        invariant buffer == old(buffer) + Commas(texts[..k])
      {
        PrintExpr(es[k]);
        buffer := buffer + ",";
        CommaStep(old(buffer), texts, k);
        k := k + 1;
      }
      assert texts[..k] == texts;
    }

    method PrintVarSpecs(specs: seq<VarSpec>)
      requires SpecsOk(specs)
      modifies this
      ensures buffer == old(buffer) + Concat(VarSpecTexts(boundString, numTabs, specs)) && numTabs == old(numTabs)
    {
      var texts := VarSpecTexts(boundString, numTabs, specs);
      var k := 0;
      while k < |specs|
        invariant 0 <= k <= |specs| && numTabs == old(numTabs)
        invariant buffer == old(buffer) + Concat(texts[..k])
      {
        PrintVarSpec(specs[k]);
        ConcatStep(old(buffer), texts, k);
        k := k + 1;
      }
      assert texts[..k] == texts;
    }

    /** `inAVarsTopDec`, the specs, `outAVarsTopDec`: the tab count goes up for the
        block and comes back down after it. */
    method PrintVarsTopDec(specs: seq<VarSpec>)
      requires SpecsOk(specs)
      modifies this
      ensures buffer == old(buffer) + VarsText(boundString, old(numTabs), specs) && numTabs == old(numTabs)
    {
      NewLineOne();
      var t := Tabs(numTabs);
      AddTabs();
      buffer := buffer + "var ";
      Assoc2(old(buffer), t, "var ");
      if |specs| > 1 {
        buffer := buffer + "(";
        Assoc2(old(buffer), t + "var ", "(");
        AddNewLine(1);
        Assoc2(old(buffer), t + "var " + "(", "\n");
        numTabs := numTabs + 1;
        var body := Concat(VarSpecTexts(boundString, numTabs, specs));
        PrintVarSpecs(specs);
        numTabs := numTabs - 1;
        Assoc2(old(buffer), t + "var " + "(" + "\n", body);
        AddTabs();
        Assoc2(old(buffer), t + "var " + "(" + "\n" + body, t);
        buffer := buffer + ")";
        Assoc2(old(buffer), t + "var " + "(" + "\n" + body + t, ")");
        AddNewLine(1);
        Assoc2(old(buffer), t + "var " + "(" + "\n" + body + t + ")", "\n");
      } else {
        var body := Concat(VarSpecTexts(boundString, numTabs, specs));
        PrintVarSpecs(specs);
        Assoc2(old(buffer), t + "var ", body);
        AddNewLine(1);
        Assoc2(old(buffer), t + "var " + body, "\n");
      }
    }

    /** The default walk over a statement. */
    method WalkStmt(s: Stmt)
      requires StmtOk(s)
      modifies this
      ensures buffer == old(buffer) + StmtText(boundString, numTabs, s) && numTabs == old(numTabs)
      decreases s, 2
    {
      match s {
        case EmptyStmt =>
        case ExprStmt(e) => PrintExpr(e);
        case VarDecStmt(specs) => PrintVarSpecs(specs);
        case TypeDecStmt(specs) => WalkTypeSpecs(specs);
        case ShortAssignStmt(_, vs) => WalkExprs(vs);
        case AssignStmt(l, r) =>
          WalkExprs(l);
          WalkExprs(r);
          Assoc2(old(buffer), Concat(ExprTexts(boundString, l)), Concat(ExprTexts(boundString, r)));
        case OpAssignStmt(_, t, v) =>
          PrintExpr(t);
          PrintExpr(v);
          Assoc2(old(buffer), ExprText(boundString, t), ExprText(boundString, v));
        case IncrStmt(e) => PrintExpr(e);
        case DecrStmt(e) => PrintExpr(e);
        case PrintStmt(es) => WalkExprs(es);
        case PrintlnStmt(es) => WalkExprs(es);
        case ContinueStmt =>
        case BreakStmt =>
        case ReturnStmt(r) => WalkOptExpr(r);
        case BlockStmt(ss) => WalkStmts(ss);
        case IfElseStmt(_, _, _, _) => WalkIfElse(s);
        case SwitchStmt(_, _, _) => WalkSwitch(s);
        case LoopStmt(_, _, _, _) => WalkLoop(s);
      }
    }

    method WalkIfElse(s: Stmt)
      requires s.IfElseStmt? && StmtOk(s)
      modifies this
      ensures buffer == old(buffer) + StmtText(boundString, numTabs, s) && numTabs == old(numTabs)
      decreases s, 1
    {
      WalkOpt(s.condInit);
      PrintExpr(s.cond);
      WalkStmts(s.ifBlock);
      WalkStmts(s.elseBlock);
      Assoc4(old(buffer), OptStmtText(boundString, numTabs, s.condInit), ExprText(boundString, s.cond),
        Concat(StmtTexts(boundString, numTabs, s.ifBlock)), Concat(StmtTexts(boundString, numTabs, s.elseBlock)));
    }

    method WalkSwitch(s: Stmt)
      requires s.SwitchStmt? && StmtOk(s)
      modifies this
      ensures buffer == old(buffer) + StmtText(boundString, numTabs, s) && numTabs == old(numTabs)
      decreases s, 1
    {
      WalkOpt(s.switchInit);
      WalkOptExpr(s.tag);
      var cases := s.cases;
      var texts := CaseTexts(boundString, numTabs, cases);
      var base := buffer;
      var k := 0;
      while k < |cases|
        invariant 0 <= k <= |cases| && numTabs == old(numTabs)
        invariant buffer == base + Concat(texts[..k])
      {
        WalkCase(s, k);
        ConcatStep(base, texts, k);
        k := k + 1;
      }
      assert texts[..k] == texts;
      Assoc3(old(buffer), OptStmtText(boundString, numTabs, s.switchInit), OptExprText(boundString, s.tag),
        Concat(texts));
    }

    method WalkCase(s: Stmt, k: nat)
      requires s.SwitchStmt? && StmtOk(s) && k < |s.cases|
      modifies this
      ensures buffer == old(buffer) + CaseText(boundString, numTabs, s.cases[k]) && numTabs == old(numTabs)
      decreases s, 0
    {
      var c := s.cases[k];
      assert forall j :: 0 <= j < |c.caseStmts| ==> StmtOk(c.caseStmts[j]);
      var cond := if c.caseCond.ExprsCaseCondition? then Concat(ExprTexts(boundString, c.caseCond.exprs)) else "";
      if c.caseCond.ExprsCaseCondition? {
        WalkExprs(c.caseCond.exprs);
      }
      WalkStmts(c.caseStmts);
      Assoc2(old(buffer), cond, Concat(StmtTexts(boundString, numTabs, c.caseStmts)));
    }

    method WalkLoop(s: Stmt)
      requires s.LoopStmt? && StmtOk(s)
      modifies this
      ensures buffer == old(buffer) + StmtText(boundString, numTabs, s) && numTabs == old(numTabs)
      decreases s, 1
    {
      WalkOpt(s.init);
      WalkOptExpr(s.loopCond);
      WalkOpt(s.end);
      WalkStmts(s.body);
      Assoc4(old(buffer), OptStmtText(boundString, numTabs, s.init), OptExprText(boundString, s.loopCond),
        OptStmtText(boundString, numTabs, s.end), Concat(StmtTexts(boundString, numTabs, s.body)));
    }

    method WalkOpt(o: Option<Stmt>)
      requires o.Some? ==> StmtOk(o.value)
      modifies this
      ensures buffer == old(buffer) + OptStmtText(boundString, numTabs, o) && numTabs == old(numTabs)
      decreases o, 2
    {
      if o.Some? {
        WalkStmt(o.value);
      }
    }

    method WalkOptExpr(o: Option<Expr>)
      modifies this
      ensures buffer == old(buffer) + OptExprText(boundString, o) && numTabs == old(numTabs)
    {
      if o.Some? {
        PrintExpr(o.value);
      }
    }

    method WalkStmts(ss: seq<Stmt>)
      requires forall k :: 0 <= k < |ss| ==> StmtOk(ss[k])
      modifies this
      ensures buffer == old(buffer) + Concat(StmtTexts(boundString, numTabs, ss)) && numTabs == old(numTabs)
      decreases ss, 2
    {
      var texts := StmtTexts(boundString, numTabs, ss);
      var k := 0;
      while k < |ss|
        invariant 0 <= k <= |ss| && numTabs == old(numTabs)
        invariant buffer == old(buffer) + Concat(texts[..k])
      {
        WalkStmt(ss[k]);
        ConcatStep(old(buffer), texts, k);
        k := k + 1;
      }
      assert texts[..k] == texts;
    }

    method WalkExprs(es: seq<Expr>)
      modifies this
      ensures buffer == old(buffer) + Concat(ExprTexts(boundString, es)) && numTabs == old(numTabs)
    {
      var texts := ExprTexts(boundString, es);
      var k := 0;
      while k < |es|
        invariant 0 <= k <= |es| && numTabs == old(numTabs)
        invariant buffer == old(buffer) + Concat(texts[..k])
      {
        PrintExpr(es[k]);
        ConcatStep(old(buffer), texts, k);
        k := k + 1;
      }
      assert texts[..k] == texts;
    }

    method WalkTypeSpecs(specs: seq<TypeSpec>)
      modifies this
      ensures buffer == old(buffer) + Concat(TypeSpecTexts(boundString, specs)) && numTabs == old(numTabs)
    {
      var texts := TypeSpecTexts(boundString, specs);
      var k := 0;
      while k < |specs|
        invariant 0 <= k <= |specs| && numTabs == old(numTabs)
        invariant buffer == old(buffer) + Concat(texts[..k])
      {
        PrintType(specs[k].texpr);
        ConcatStep(old(buffer), texts, k);
        k := k + 1;
      }
      assert texts[..k] == texts;
    }

    method WalkArgTypes(groups: seq<ArgGroup>)
      modifies this
      ensures buffer == old(buffer) + Concat(ArgTypeTexts(boundString, groups)) && numTabs == old(numTabs)
    {
      var texts := ArgTypeTexts(boundString, groups);
      var k := 0;
      while k < |groups|
        invariant 0 <= k <= |groups| && numTabs == old(numTabs)
        invariant buffer == old(buffer) + Concat(texts[..k])
      {
        PrintType(groups[k].argType);
        ConcatStep(old(buffer), texts, k);
        k := k + 1;
      }
      assert texts[..k] == texts;
    }

    method PrintTopDec(d: TopDec)
      requires TopDecOk(d)
      modifies this
      ensures buffer == old(buffer) + TopDecText(boundString, numTabs, d) && numTabs == old(numTabs)
    {
      match d {
        case VarsTopDec(specs) => PrintVarsTopDec(specs);
        case TypesTopDec(specs) => WalkTypeSpecs(specs);
        case FuncTopDec(_, groups, ret, body) => WalkFunc(groups, ret, body);
      }
    }

    /** A function declaration has no hook: the default walk prints the argument
        types, the return type and the body. */
    method WalkFunc(groups: seq<ArgGroup>, ret: Option<TypeExpr>, body: seq<Stmt>)
      requires forall k :: 0 <= k < |body| ==> StmtOk(body[k])
      modifies this
      ensures buffer == old(buffer) + (Concat(ArgTypeTexts(boundString, groups)) + OptTypeText(boundString, ret)
        + Concat(StmtTexts(boundString, numTabs, body)))
      ensures numTabs == old(numTabs)
    {
      WalkArgTypes(groups);
      WalkOptType(ret);
      WalkStmts(body);
      Assoc3(old(buffer), Concat(ArgTypeTexts(boundString, groups)), OptTypeText(boundString, ret),
        Concat(StmtTexts(boundString, numTabs, body)));
    }

    method WalkOptType(t: Option<TypeExpr>)
      modifies this
      ensures buffer == old(buffer) + OptTypeText(boundString, t) && numTabs == old(numTabs)
    {
      if t.Some? {
        PrintType(t.value);
      } else {
        assert buffer == buffer + "";
      }
    }

    /** `inAProgProg` and the top-level declarations in order. */
    method PrintProg(p: Prog)
      requires ProgOk(p) && numTabs == 0
      modifies this
      ensures buffer == old(buffer) + ProgText(boundString, p) && numTabs == 0
    {
      PrintPackage(p.packageId);
      var decs := p.topDecs;
      var texts := TopDecTexts(boundString, 0, decs);
      var base := buffer;
      var k := 0;
      while k < |decs|
        invariant 0 <= k <= |decs| && numTabs == 0
        invariant buffer == base + Concat(texts[..k])
      {
        PrintTopDec(decs[k]);
        ConcatStep(base, texts, k);
        k := k + 1;
      }
      assert texts[..k] == texts;
      Assoc2(old(buffer), "package " + p.packageId + "\n", Concat(texts));
    }

    /** The tabs (none at the top), the package clause and a newline. */
    method PrintPackage(id: string)
      requires numTabs == 0
      modifies this
      ensures buffer == old(buffer) + ("package " + id + "\n") && numTabs == 0
    {
      AddTabs();
      assert Tabs(0) == "";
      buffer := buffer + ("package " + id);
      AddNewLine(1);
      NewLineOne();
      Assoc2(old(buffer), "package " + id, "\n");
    }
  }

  /** A fresh printer applied to a program: its buffer afterwards. */
  method PrettyPrint(bs: Expr -> string, p: Prog) returns (r: string)
    requires ProgOk(p)
    ensures r == ProgText(bs, p)
  {
    var printer := new Printer(bs);
    printer.PrintProg(p);
    r := printer.buffer;
  }

  // ------------------------------------------------------------------ properties

  /** `addTabs` and `addNewLine(n)` emit exactly that many copies of their character
      (and nothing for a count below one). */
  lemma {:induction false} CharsExact(c: char, n: int)
    ensures |Chars(c, n)| == (if n < 0 then 0 else n)
    ensures forall i :: 0 <= i < |Chars(c, n)| ==> Chars(c, n)[i] == c
    decreases if n < 0 then 0 else n
  {
    if n > 0 {
      CharsExact(c, n - 1);
      assert Chars(c, n) == Chars(c, n - 1) + [c];
    }
  }

  /** The Go spelling of each binary operator, and no two operators print alike. */
  lemma OperatorSpellings(a: BinOp, b: BinOp)
    ensures OpText(And) == "&&" && OpText(Or) == "||" && OpText(BitClear) == "&^"
    ensures OpText(a) == OpText(b) ==> a == b
  {
  }

  /** A leaf the printer copies verbatim: a parenthesis-free token text. */
  predicate PlainExpr(bs: Expr -> string, e: Expr)
    decreases e, 1
  {
    match e
    case Binary(_, l, r) => PlainExpr(bs, l) && PlainExpr(bs, r)
    case Unary(_, x) => PlainExpr(bs, x)
    case BoolLitExpr(s) => NoParens(s)
    case IntLitExpr(s) => NoParens(s)
    case OctLitExpr(s) => NoParens(s)
    case HexLitExpr(s) => NoParens(s)
    case FloatLitExpr(s) => NoParens(s)
    case RuneLitExpr(s) => NoParens(s)
    case InterpretedStringLitExpr(s) => NoParens(s)
    case RawStringLitExpr(s) => NoParens(s)
    case VariableExpr(x) => NoParens(x)
    case BlankExpr => true
    case EmptyExpr => true
    case FuncCallExpr(f, args) => NoParens(f) && |args| > 0 && forall k :: 0 <= k < |args| ==> PlainExpr(bs, args[k])
    case AppendExpr(x, v) => NoParens(x) && PlainExpr(bs, v)
    case TypeCastExpr(t, x) => PlainType(bs, t) && PlainExpr(bs, x)
    case FieldExpr(o, f) => PlainExpr(bs, o) && NoParens(f)
    case ArrayElemExpr(a, i) => PlainExpr(bs, a) && PlainExpr(bs, i)
  }

  predicate PlainType(bs: Expr -> string, t: TypeExpr)
    decreases t, 1
  {
    match t
    case AliasTypeExpr(a) => NoParens(a)
    case ArrayTypeExpr(b, el) => NoParens(bs(b)) && PlainExpr(bs, b) && PlainType(bs, el)
    case SliceTypeExpr(el) => PlainType(bs, el)
    case StructTypeExpr(specs) => forall k :: 0 <= k < |specs| ==> PlainType(bs, specs[k].ftype)
    case _ => true
  }

  /** Every parenthesis the printer writes is matched: over parenthesis-free
      tokens and calls with arguments, an expression's text is balanced. */
  lemma {:induction false} ExprBalanced(bs: Expr -> string, e: Expr)
    requires PlainExpr(bs, e)
    ensures Balanced(ExprText(bs, e))
    decreases e, 1
  {
    match e {
      case Binary(_, _, _) => BinaryBalanced(bs, e);
      case Unary(_, _) => UnaryBalanced(bs, e);
      case FuncCallExpr(_, _) => CallBalanced(bs, e);
      case AppendExpr(_, _) => AppendBalanced(bs, e);
      case TypeCastExpr(_, _) => CastBalanced(bs, e);
      case FieldExpr(o, f) =>
        ExprBalanced(bs, o);
        WordBalanced("." + f);
        BalancedConcat(ExprText(bs, o), "." + f);
      case ArrayElemExpr(_, _) => ElemBalanced(bs, e);
      case BoolLitExpr(s) => WordBalanced(s);
      case IntLitExpr(s) => WordBalanced(s);
      case OctLitExpr(s) => WordBalanced(s);
      case HexLitExpr(s) => WordBalanced(s);
      case FloatLitExpr(s) => WordBalanced(s);
      case RuneLitExpr(s) => WordBalanced(s);
      case InterpretedStringLitExpr(s) => WordBalanced(s);
      case RawStringLitExpr(s) => WordBalanced(s);
      case VariableExpr(x) => WordBalanced(x);
      case BlankExpr => WordBalanced("");
      case EmptyExpr => WordBalanced("");
    }
  }

  lemma OperatorPlain(op: BinOp)
    ensures NoParens(OpText(op))
  {
  }

  lemma UnaryOperatorPlain(op: UnOp)
    ensures NoParens(UnOpText(op))
  {
  }

  lemma {:induction false} BinaryBalanced(bs: Expr -> string, e: Expr)
    requires e.Binary? && PlainExpr(bs, e)
    ensures Balanced(ExprText(bs, e))
    decreases e, 0
  {
    ExprBalanced(bs, e.left);
    ExprBalanced(bs, e.right);
    OperatorPlain(e.op);
    NoParensConcat(" ", OpText(e.op));
    NoParensConcat(" " + OpText(e.op), " ");
    WordBalanced(" " + OpText(e.op) + " ");
    WrapThree(ExprText(bs, e.left), " " + OpText(e.op) + " ", ExprText(bs, e.right));
  }

  lemma {:induction false} UnaryBalanced(bs: Expr -> string, e: Expr)
    requires e.Unary? && PlainExpr(bs, e)
    ensures Balanced(ExprText(bs, e))
    decreases e, 0
  {
    ExprBalanced(bs, e.operand);
    UnaryOperatorPlain(e.uop);
    WordBalanced(UnOpText(e.uop));
    WrapTwo(UnOpText(e.uop), ExprText(bs, e.operand));
  }

  lemma {:induction false} CallBalanced(bs: Expr -> string, e: Expr)
    requires e.FuncCallExpr? && PlainExpr(bs, e)
    ensures Balanced(ExprText(bs, e))
    decreases e, 0
  {
    var j := Join(ExprTexts(bs, e.args), ",");
    ExprsBalanced(bs, e.args);
    JoinBalanced(ExprTexts(bs, e.args), ",");
    Wrapped(j);
    WordBalanced(e.fname);
    BalancedConcat(e.fname, "(" + j + ")");
    assert ExprText(bs, e) == e.fname + ("(" + j + ")");
  }

  lemma {:induction false} AppendBalanced(bs: Expr -> string, e: Expr)
    requires e.AppendExpr? && PlainExpr(bs, e)
    ensures Balanced(ExprText(bs, e))
    decreases e, 0
  {
    var x, v := e.target, e.elem;
    assert NoParens(x) && PlainExpr(bs, v);
    ExprBalanced(bs, v);
    WordBalanced("append");
    WrapAfter("append", x, ExprText(bs, v));
    assert ExprText(bs, e) == ("append" + "(" + x + ",") + ExprText(bs, v) + ")";
  }

  lemma {:induction false} CastBalanced(bs: Expr -> string, e: Expr)
    requires e.TypeCastExpr? && PlainExpr(bs, e)
    ensures Balanced(ExprText(bs, e))
    decreases e, 0
  {
    var x := ExprText(bs, e.arg);
    TypeBalanced(bs, e.ctype);
    ExprBalanced(bs, e.arg);
    Wrapped(x);
    BalancedConcat(TypeText(bs, e.ctype), "(" + x + ")");
    assert ExprText(bs, e) == TypeText(bs, e.ctype) + ("(" + x + ")");
  }

  lemma {:induction false} ElemBalanced(bs: Expr -> string, e: Expr)
    requires e.ArrayElemExpr? && PlainExpr(bs, e)
    ensures Balanced(ExprText(bs, e))
    decreases e, 0
  {
    var a, i := ExprText(bs, e.arr), ExprText(bs, e.index);
    ExprBalanced(bs, e.arr);
    ExprBalanced(bs, e.index);
    WordBalanced("[");
    WordBalanced("]");
    BalancedConcat(a, "[");
    BalancedConcat(a + "[", i);
    BalancedConcat(a + "[" + i, "]");
  }

  lemma {:induction false} ExprsBalanced(bs: Expr -> string, es: seq<Expr>)
    requires forall k :: 0 <= k < |es| ==> PlainExpr(bs, es[k])
    ensures forall k :: 0 <= k < |es| ==> Balanced(ExprTexts(bs, es)[k])
    decreases es, 0
  {
    forall k | 0 <= k < |es|
      ensures Balanced(ExprTexts(bs, es)[k])
    {
      ExprBalanced(bs, es[k]);
    }
  }

  lemma {:induction false} TypeBalanced(bs: Expr -> string, t: TypeExpr)
    requires PlainType(bs, t)
    ensures Balanced(TypeText(bs, t))
    decreases t, 1
  {
    match t {
      case ArrayTypeExpr(b, el) =>
        WordBalanced("[" + bs(b) + "]");
        ExprBalanced(bs, b);
        TypeBalanced(bs, el);
        BalancedConcat("[" + bs(b) + "]", ExprText(bs, b));
        BalancedConcat(("[" + bs(b) + "]") + ExprText(bs, b), TypeText(bs, el));
      case SliceTypeExpr(el) =>
        TypeBalanced(bs, el);
        WordBalanced("[]");
        BalancedConcat("[]", TypeText(bs, el));
      case StructTypeExpr(specs) =>
        var texts := FieldTypeTexts(bs, specs);
        forall k | 0 <= k < |specs|
          ensures Balanced(texts[k])
        {
          TypeBalanced(bs, specs[k].ftype);
        }
        ConcatBalanced(texts);
      case AliasTypeExpr(a) => WordBalanced(a);
      case BoolTypeExpr => WordBalanced("bool");
      case IntTypeExpr => WordBalanced("int");
      case FloatTypeExpr => WordBalanced("float64");
      case RuneTypeExpr => WordBalanced("rune");
      case StringTypeExpr => WordBalanced("string");
    }
  }

  lemma {:induction false} ConcatBalanced(parts: seq<string>)
    requires forall k :: 0 <= k < |parts| ==> Balanced(parts[k])
    ensures Balanced(Concat(parts))
    decreases |parts|
  {
    if |parts| == 0 {
      WordBalanced("");
    } else {
      var init := parts[..|parts| - 1];
      assert forall k :: 0 <= k < |init| ==> init[k] == parts[k];
      ConcatBalanced(init);
      BalancedConcat(Concat(init), parts[|parts| - 1]);
    }
  }

  /** A call without arguments: the deleted character is its own "(", so the text
      closes one parenthesis more than it opens. */
  lemma ZeroArgumentCall(bs: Expr -> string, f: string)
    requires NoParens(f)
    ensures ExprText(bs, FuncCallExpr(f, [])) == f + ")"
    ensures Closes(ExprText(bs, FuncCallExpr(f, []))) == Opens(ExprText(bs, FuncCallExpr(f, []))) + 1
  {
    WordBalanced(f);
    assert multiset(f + ")") == multiset(f) + multiset{')'};
  }

  /** A var spec without values loses the last character of its type (or of its last
      identifier): `var x int` prints as "xin". */
  lemma ValuelessSpecDropsLastChar(bs: Expr -> string, tabs: int, ids: seq<OptId>, t: TypeExpr)
    requires |ids| > 0 && IdText(ids[0]) != ""
    ensures var head := Join(IdTexts(ids), ",") + TypeText(bs, t);
      VarSpecText(bs, tabs, VarSpec(ids, Some(t), [])) == Tabs(tabs) + head[..|head| - 1] + "\n"
    ensures VarSpecText(bs, tabs, VarSpec([IdOptId("x")], Some(IntTypeExpr), [])) == Tabs(tabs) + "xin" + "\n"
  {
    JoinNonEmpty(IdTexts(ids), ",");
    var one := [IdOptId("x")];
    assert IdTexts(one) == ["x"];
    assert Join(["x"], ",") == "x";
    assert SpecHead(bs, VarSpec(one, Some(IntTypeExpr), [])) == "xint";
  }

  /** An array type prints its bound twice: once as the bound node's text inside the
      brackets, once more from the walk over the bound expression. */
  lemma ArrayBoundPrintedTwice(bs: Expr -> string, n: string)
    requires bs(IntLitExpr(n)) == n
    ensures TypeText(bs, ArrayTypeExpr(IntLitExpr(n), IntTypeExpr)) == "[" + n + "]" + n + "int"
  {
  }

  /** The printed program starts with its package clause on a line of its own. */
  lemma PackageLineFirst(bs: Expr -> string, p: Prog)
    ensures IsPrefix("package " + p.packageId + "\n", ProgText(bs, p))
  {
  }

  // ------------------------------------------------------------------ list helpers

  /** The parts, each followed by a comma. */
  function Commas(parts: seq<string>): string
  {
    if |parts| == 0 then "" else Join(parts, ",") + ","
  }

  lemma ConcatStep(before: string, parts: seq<string>, k: nat)
    requires k < |parts|
    ensures before + Concat(parts[..k]) + parts[k] == before + Concat(parts[..k + 1])
  {
    assert parts[..k + 1][..k] == parts[..k];
  }

  lemma CommaStep(before: string, parts: seq<string>, k: nat)
    requires k < |parts|
    ensures before + Commas(parts[..k]) + parts[k] + "," == before + Commas(parts[..k + 1])
  {
    assert parts[..k + 1] == parts[..k] + [parts[k]];
    if k > 0 {
      JoinSnoc(parts[..k], parts[k], ",");
    }
  }

  lemma CommaStepWith(before: string, parts: seq<string>, k: nat)
    requires k < |parts|
    ensures before + Commas(parts[..k]) + (parts[k] + ",") == before + Commas(parts[..k + 1])
  {
    CommaStep(before, parts, k);
  }

  lemma NewLineOne()
    ensures NewLines(1) == "\n"
  {
  }

  lemma JoinNonEmpty(parts: seq<string>, sep: string)
    requires |parts| > 0 && parts[0] != ""
    ensures |Join(parts, sep)| > 0
    decreases |parts|
  {
    if |parts| > 1 {
      JoinNonEmpty(parts[..|parts| - 1], sep);
    }
  }

  /** Dropping the last comma after the arguments, or the "(" when there are none. */
  lemma CallTail(before: string, f: string, texts: seq<string>)
    ensures var s := before + (f + "(") + Commas(texts);
      s[..|s| - 1] + ")" == before + CallText(f, texts)
  {
    var s := before + (f + "(") + Commas(texts);
    if |texts| > 0 {
      assert s == (before + (f + "(" + Join(texts, ","))) + ",";
    } else {
      assert s == (before + f) + "(";
    }
  }

  /** Deleting the comma after the last identifier. */
  lemma IdsTail(before: string, ids: seq<string>)
    requires |ids| > 0 && ids[0] != ""
    ensures var s := before + Commas(ids); |s| > 0 && s[..|s| - 1] == before + Join(ids, ",")
  {
    JoinNonEmpty(ids, ",");
    assert before + Commas(ids) == (before + Join(ids, ",")) + ",";
  }

  /** Deleting the last character after the values: their last comma or, without
      values, the last character of the head. */
  lemma SpecEnd(before: string, head: string, texts: seq<string>)
    requires |head| > 0
    ensures var s := before + head + Commas(texts);
      |s| > 0 && s[..|s| - 1]
        == before + (if |texts| > 0 then head + Join(texts, ",") else if |head| > 0 then head[..|head| - 1] else "")
  {
    var s := before + head + Commas(texts);
    if |texts| > 0 {
      assert s == (before + (head + Join(texts, ","))) + ",";
    } else {
      assert s == before + head;
      assert s[..|s| - 1] == before + head[..|head| - 1];
    }
  }

}
