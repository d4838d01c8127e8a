/**
 * `CodeGenerator`: a depth-first walk that appends Python source text to a buffer.
 * It keeps a tab depth for the indentation of code blocks and remembers the end
 * statement of the last loop it entered, which every `continue` replays. Integer and
 * rune operands are wrapped in `bit_mask(...)`, the generated program's 32-bit
 * wrap-around, according to a type table filled by the type checker.
 */
module CodeGenerators {
  import opened Wrappers
  import opened Strings
  import opened Ast
  import opened Types
  import opened PrettyPrinters

  // ------------------------------------------------------------------ 32-bit arithmetic

  const Half: int := 0x8000_0000
  const Word: int := 0x1_0000_0000

  /** The generated `bit_mask = lambda x : (x + 2**31) % 2**32 - 2**31`. Python's `%`
      with a positive divisor is the Euclidean remainder, as Dafny's. */
  function BitMaskValue(x: int): (r: int)
    ensures -Half <= r < Half
    ensures (r - x) % Word == 0
    ensures -Half <= x < Half ==> r == x
  {
    (x + Half) % Word - Half
  }

  // ------------------------------------------------------------------ framing

  /** `generateImport`: the `print_function` import and the definition of `bit_mask`. */
  function Header(): string
  {
    "from __future__ import print_function\n" + "\n"
      + "bit_mask = lambda x : (x + 2**31) % 2**32 - 2**31\n" + "\n"
  }

  /** `generateMain`: the `__main__` guard calling `main()`. */
  function Trailer(): string
  {
    "if __name__ == '__main__':\n" + "\tmain()\n"
  }

  // ------------------------------------------------------------------ expressions

  /** The type table marks the expression as an int or a rune. */
  predicate Masked(ty: Expr -> Option<GoLiteType>, e: Expr)
  {
    ty(e) == Some(IntT) || ty(e) == Some(RuneT)
  }

  /** The Python spelling of each binary operator. */
  function PyOp(op: BinOp): string
  {
    match op
    case Add => "+" case Subtract => "-" case Mult => "*" case Div => "/" case Mod => "%"
    case BitAnd => "&" case BitOr => "|" case BitXor => "^" case BitClear => "&~"
    case BitLshift => "<<" case BitRshift => ">>"
    case Eq => "==" case Neq => "!=" case Lt => "<" case Lte => "<=" case Gt => ">" case Gte => ">="
    case And => "and" case Or => "or"
  }

  function PyUnOp(op: UnOp): string
  {
    match op
    case Pos => "+" case Neg => "-" case BitComp => "~" case Not => "not"
  }

  /** What a compound assignment prints between its target and its value. */
  function AssignOpText(op: AssignOp): string
  {
    match op
    case PlusAssign => " += " case MinusAssign => " -= " case StarAssign => " *= "
    case SlashAssign => " /= " case PercAssign => " %= " case AndAssign => " &= "
    case PipeAssign => " |= " case CarotAssign => " ^= " case AmpCarotAssign => " &= ~ "
    case LshiftAssign => " <<= " case RshiftAssign => " >>= "
  }

  /** The code point a rune literal's token text stands for: one of the nine escapes,
      or the character after the opening quote. Shorter than three characters the
      source's substring call throws, and there is no value. */
  function RuneValue(s: string): (r: Option<nat>)
    ensures r.None? <==> |s| < 3
    ensures r.Some? && |s| == 3 ==> r.value == s[1] as nat
  {
    if s == "'\\t'" then Some(9)
    else if s == "'\\b'" then Some(8)
    else if s == "'\\f'" then Some(12)
    else if s == "'\\a'" then Some(7)
    else if s == "'\\n'" then Some(10)
    else if s == "'\\r'" then Some(13)
    else if s == "'\\v'" then Some(11)
    else if s == "'\\\\'" then Some(92)
    else if s == "'\\''" then Some(39)
    else if |s| < 3 then None
    else Some(s[1] as nat)
  }

  /** A raw string literal as a Python raw string: the text between the backquotes
      inside `r"` and `"`. Shorter than two characters there is no value. */
  function RawValue(s: string): (r: Option<string>)
    ensures r.None? <==> |s| < 2
  {
    if |s| < 2 then None else Some("r\"" + s[1..|s| - 1] + "\"")
  }

  /** What the walk emits for an expression. Boolean literals and the empty expression
      have no hook, append, casts, element and field accesses have empty ones; all of
      them emit nothing. */
  function Code(ty: Expr -> Option<GoLiteType>, e: Expr): string
    decreases e, 1
  {
    match e
    case Binary(op, l, r) => "(" + LeftOperand(ty, op, l) + (" " + PyOp(op) + " ") + Mask(ty, r) + ")"
    case Unary(op, x) => ("(" + PyUnOp(op) + " ") + Mask(ty, x) + ")"
    case BoolLitExpr(_) => ""
    case IntLitExpr(s) => s
    case OctLitExpr(s) => s
    case HexLitExpr(s) => s
    case FloatLitExpr(s) => s
    case RuneLitExpr(s) => if RuneValue(s).Some? then NatToString(RuneValue(s).value) else ""
    case InterpretedStringLitExpr(s) => s
    case RawStringLitExpr(s) => if RawValue(s).Some? then RawValue(s).value else ""
    case VariableExpr(x) => x
    case BlankExpr => "_"
    case EmptyExpr => ""
    case FuncCallExpr(f, args) => (f + "(") + Listed(ty, args, false) + ")"
    case AppendExpr(_, _) => ""
    case TypeCastExpr(_, _) => ""
    case FieldExpr(_, _) => ""
    case ArrayElemExpr(_, _) => ""
  }

  /** `bitMask(n)`: the expression, inside "bit_mask(" and ")" when it is an int or a rune. */
  function Mask(ty: Expr -> Option<GoLiteType>, e: Expr): string
    decreases e, 2
  {
    if Masked(ty, e) then "bit_mask(" + Code(ty, e) + ")" else Code(ty, e)
  }

  /** The left operand of a binary operator is masked, except that of `>>`. */
  function LeftOperand(ty: Expr -> Option<GoLiteType>, op: BinOp, l: Expr): string
    decreases l, 3
  {
    if op == BitRshift then Code(ty, l) else Mask(ty, l)
  }

  function Items(ty: Expr -> Option<GoLiteType>, es: seq<Expr>, masked: bool): seq<string>
    decreases es, 0
  {
    seq(|es|, i requires 0 <= i < |es| => if masked then Mask(ty, es[i]) else Code(ty, es[i]))
  }

  /** A comma-separated list of expressions, masked or not. */
  function Listed(ty: Expr -> Option<GoLiteType>, es: seq<Expr>, masked: bool): string
    decreases es, 1
  {
    Join(Items(ty, es, masked), ", ")
  }

  // ------------------------------------------------------------------ statements

  /** The simple statements: those that may stand before a condition, after a loop,
      or as the end statement a `continue` replays. */
  predicate IsSimple(s: Stmt)
  {
    s.EmptyStmt? || s.ExprStmt? || s.ShortAssignStmt? || s.AssignStmt? || s.OpAssignStmt?
      || s.IncrStmt? || s.DecrStmt?
  }

  /** `x++` and `x--`: the compound step, then on the next line the masked value
      assigned back. */
  function StepCode(ty: Expr -> Option<GoLiteType>, t: int, e: Expr, op: string): string
  {
    Code(ty, e) + op + "\n" + Tabs(t) + Code(ty, e) + " = " + Mask(ty, e)
  }

  /** A simple statement at tab depth `t`. Only simple statements appear where the
      grammar asks for one; anything else emits nothing here. */
  function SimpleCode(ty: Expr -> Option<GoLiteType>, t: int, s: Stmt): string
  {
    match s
    case ExprStmt(e) => Code(ty, e)
    case ShortAssignStmt(ids, vs) => Join(IdTexts(ids), ", ") + " = " + Listed(ty, vs, true)
    case AssignStmt(l, r) => Listed(ty, l, false) + " = " + Listed(ty, r, true)
    case OpAssignStmt(op, x, v) => Code(ty, x) + AssignOpText(op) + Mask(ty, v)
    case IncrStmt(e) => StepCode(ty, t, e, " += 1")
    case DecrStmt(e) => StepCode(ty, t, e, " -= 1")
    case _ => ""
  }

  /** A statement that precedes a condition or a `continue`: itself, a newline and the
      tabs of the current depth. */
  function LeadCode(ty: Expr -> Option<GoLiteType>, t: int, o: Option<Stmt>): string
  {
    if o.Some? then SimpleCode(ty, t, o.value) + "\n" + Tabs(t) else ""
  }

  /** The value a var spec without initialisers gets for its type; the rune case and
      every other type leave the default `null`, which is printed as "null". */
  function DefaultValue(t: TypeExpr): string
  {
    match t
    case BoolTypeExpr => "False"
    case IntTypeExpr => "0"
    case FloatTypeExpr => "0."
    case StringTypeExpr => ""
    case _ => "null"
  }

  function Defaults(v: VarSpec): string
  {
    if v.vtype.Some? && |v.exprs| == 0 then Join(seq(|v.ids|, _ => DefaultValue(v.vtype.value)), ", ") else ""
  }

  /** A var spec: the names, " = ", the defaults when there is a type and no value,
      then the values (not masked). */
  function SpecCode(ty: Expr -> Option<GoLiteType>, v: VarSpec): string
  {
    Join(IdTexts(v.ids), ", ") + " = " + Defaults(v) + Listed(ty, v.exprs, false)
  }

  function SpecCodes(ty: Expr -> Option<GoLiteType>, specs: seq<VarSpec>): seq<string>
  {
    seq(|specs|, i requires 0 <= i < |specs| => SpecCode(ty, specs[i]))
  }

  /** The pieces of a `print`: each expression inside "str(" and ")". */
  function StrItems(ty: Expr -> Option<GoLiteType>, es: seq<Expr>): seq<string>
  {
    seq(|es|, i requires 0 <= i < |es| => ("str" + "(") + Code(ty, es[i]) + ")")
  }

  function OptCode(ty: Expr -> Option<GoLiteType>, e: Option<Expr>): string
  {
    if e.Some? then Code(ty, e.value) else ""
  }

  /** The condition of an `if`: its init statement on a line of its own, then
      "if ", the expression and a colon. */
  function ConditionCode(ty: Expr -> Option<GoLiteType>, t: int, i: Option<Stmt>, c: Expr): string
  {
    LeadCode(ty, t, i) + ("if" + " ") + Code(ty, c) + ":"
  }

  predicate AllEmpty(ss: seq<Stmt>)
  {
    forall i :: 0 <= i < |ss| ==> ss[i].EmptyStmt?
  }

  /** `exitCodeBlock(addPass)`: a `pass` line at depth `t` when asked for. */
  function Pass(t: int, addPass: bool): string
  {
    if addPass then Tabs(t) + "pass" + "\n" else ""
  }

  /** The end statement of the last loop entered, after the statement: loops set it. */
  function After(last: Option<Stmt>, s: Stmt): Option<Stmt>
    decreases s, 0
  {
    match s
    case BlockStmt(ss) => LinesAfter(last, ss)
    case IfElseStmt(_, _, a, b) => LinesAfter(LinesAfter(last, a), b)
    case SwitchStmt(_, _, cases) =>
      var l := ArmsAfter(last, cases);
      if FirstDefault(cases).Some? then LinesAfter(l, cases[FirstDefault(cases).value].caseStmts) else l
    case LoopStmt(_, _, e, body) => if e.Some? then After(LinesAfter(e, body), e.value) else LinesAfter(e, body)
    case _ => last
  }

  function LinesAfter(last: Option<Stmt>, ss: seq<Stmt>): Option<Stmt>
    decreases ss, 1
  {
    if |ss| == 0 then last else After(LinesAfter(last, ss[..|ss| - 1]), ss[|ss| - 1])
  }

  function ArmsAfter(last: Option<Stmt>, cases: seq<CaseBlock>): Option<Stmt>
    decreases cases, 1
  {
    if |cases| == 0 then last
    else
      var l := ArmsAfter(last, cases[..|cases| - 1]);
      var c := cases[|cases| - 1];
      if c.caseCond.DefaultCaseCondition? then l else LinesAfter(l, c.caseStmts)
  }

  /** The first default case, as the switch's search loop finds it. */
  function FirstDefault(cases: seq<CaseBlock>): (r: Option<nat>)
    ensures r.Some? ==> r.value < |cases| && cases[r.value].caseCond.DefaultCaseCondition?
    ensures r.Some? ==> forall j :: 0 <= j < r.value ==> !cases[j].caseCond.DefaultCaseCondition?
    ensures r.None? ==> forall j :: 0 <= j < |cases| ==> !cases[j].caseCond.DefaultCaseCondition?
  {
    if |cases| == 0 then None
    else if cases[0].caseCond.DefaultCaseCondition? then Some(0)
    else
      var r := FirstDefault(cases[1..]);
      if r.Some? then Some(r.value + 1) else None
  }

  /** A statement at tab depth `t`, with `last` the end statement `continue` replays. */
  function StmtCode(ty: Expr -> Option<GoLiteType>, t: int, last: Option<Stmt>, s: Stmt): string
    decreases s, 2
  {
    match s
    case VarDecStmt(specs) => Join(SpecCodes(ty, specs), "\n" + Tabs(t))
    case TypeDecStmt(_) => ""
    case PrintStmt(es) =>
      ("print" + "(") + Join(StrItems(ty, es), " + ") + (if |es| > 0 then ", " else "") + "end = ''" + ")"
    case PrintlnStmt(es) => ("print" + "(") + Listed(ty, es, false) + ")"
    case ContinueStmt => LeadCode(ty, t, last) + "continue"
    case BreakStmt => "break"
    case ReturnStmt(r) => ("return" + " ") + OptCode(ty, r)
    case BlockStmt(ss) => Lines(ty, t, last, ss)
    case IfElseStmt(i, c, a, b) =>
      ConditionCode(ty, t, i, c) + Block(ty, t, last, a) + Tabs(t) + ("else" + ":")
        + Block(ty, t, LinesAfter(last, a), b)
    case SwitchStmt(i, tag, cases) =>
      LeadCode(ty, t, i) + Arms(ty, t, last, tag, cases) + DefaultArm(ty, t, ArmsAfter(last, cases), cases)
    case LoopStmt(i, c, e, body) =>
      LeadCode(ty, t, i) + ("while" + " ") + (if c.Some? then Code(ty, c.value) else "True") + ":"
        + LoopBlock(ty, t, s)
    case _ => SimpleCode(ty, t, s)
  }

  /** `generateStatement`: nothing for an empty statement, otherwise the tabs, the
      statement and a newline. */
  function Line(ty: Expr -> Option<GoLiteType>, t: int, last: Option<Stmt>, s: Stmt): string
    decreases s, 3
  {
    if s.EmptyStmt? then "" else Tabs(t) + StmtCode(ty, t, last, s) + "\n"
  }

  /** The statements one after another, each seeing the end statement its
      predecessors left. */
  function Lines(ty: Expr -> Option<GoLiteType>, t: int, last: Option<Stmt>, ss: seq<Stmt>): string
    decreases ss, 4
  {
    if |ss| == 0 then ""
    else
      Lines(ty, t, last, ss[..|ss| - 1])
        + Line(ty, t, LinesAfter(last, ss[..|ss| - 1]), ss[|ss| - 1])
  }

  /** `enterCodeBlock`, the statements one tab deeper, `exitCodeBlock(isBlockEmpty)`. */
  function Block(ty: Expr -> Option<GoLiteType>, t: int, last: Option<Stmt>, ss: seq<Stmt>): string
    decreases ss, 5
  {
    "\n" + Lines(ty, t + 1, last, ss) + Pass(t + 1, AllEmpty(ss))
  }

  function Ends(e: Option<Stmt>): seq<Stmt>
  {
    if e.Some? then [e.value] else []
  }

  /** A loop body: the end statement becomes the one `continue` replays, and is
      appended to the body's statements. */
  function LoopBlock(ty: Expr -> Option<GoLiteType>, t: int, s: Stmt): string
    requires s.LoopStmt?
    decreases s, 1
  {
    "\n" + LoopLines(ty, t + 1, s) + Pass(t + 1, AllEmpty(s.body + Ends(s.end)))
  }

  /** The body's lines, then the end statement's line. */
  function LoopLines(ty: Expr -> Option<GoLiteType>, t: int, s: Stmt): string
    requires s.LoopStmt?
    decreases s, 0
  {
    Lines(ty, t, s.end, s.body) + (if s.end.Some? then Line(ty, t, LinesAfter(s.end, s.body), s.end.value) else "")
  }

  /** One value of a case list: `(tag == e)`, or `e` alone for a switch without a tag. */
  function CaseTest(ty: Expr -> Option<GoLiteType>, tag: Option<Expr>, e: Expr): string
  {
    if tag.Some? then "(" + Code(ty, tag.value) + " == " + Code(ty, e) + ")" else Code(ty, e)
  }

  function CaseTests(ty: Expr -> Option<GoLiteType>, tag: Option<Expr>, es: seq<Expr>): seq<string>
  {
    seq(|es|, i requires 0 <= i < |es| => CaseTest(ty, tag, es[i]))
  }

  /** A non-default case: "if" for the case at index 0, a tabbed "elif" otherwise, the
      tests joined by " or ", a colon and the block. Default cases are skipped here. */
  function Arm(ty: Expr -> Option<GoLiteType>, t: int, last: Option<Stmt>, tag: Option<Expr>, c: CaseBlock, first: bool): string
    decreases c, 0
  {
    if c.caseCond.DefaultCaseCondition? then ""
    else
      (if first then "if" else Tabs(t) + "elif") + " " + Join(CaseTests(ty, tag, c.caseCond.exprs), " or ") + ":"
        + Block(ty, t, last, c.caseStmts)
  }

  function Arms(ty: Expr -> Option<GoLiteType>, t: int, last: Option<Stmt>, tag: Option<Expr>, cases: seq<CaseBlock>): string
    decreases cases, 6
  {
    if |cases| == 0 then ""
    else
      Arms(ty, t, last, tag, cases[..|cases| - 1])
        + Arm(ty, t, ArmsAfter(last, cases[..|cases| - 1]), tag, cases[|cases| - 1], |cases| == 1)
  }

  /** The first default case last: "if True" when it is the only case, a tabbed
      "else" otherwise. */
  function DefaultArm(ty: Expr -> Option<GoLiteType>, t: int, last: Option<Stmt>, cases: seq<CaseBlock>): string
    decreases cases, 6
  {
    if FirstDefault(cases).None? then ""
    else
      (if |cases| == 1 then "if" + " " + "True" else Tabs(t) + "else") + ":"
        + Block(ty, t, last, cases[FirstDefault(cases).value].caseStmts)
  }

  // ------------------------------------------------------------------ declarations

  function GroupTexts(groups: seq<ArgGroup>): seq<string>
  {
    seq(|groups|, i requires 0 <= i < |groups| => Join(groups[i].argIds, ", "))
  }

  /** A top-level declaration: each var spec on a line, nothing for type declarations,
      and a `def` with the argument names (no types) and the body as a block. */
  function TopCode(ty: Expr -> Option<GoLiteType>, t: int, last: Option<Stmt>, d: TopDec): string
  {
    match d
    case VarsTopDec(specs) => Concat(seq(|specs|, i requires 0 <= i < |specs| => SpecCode(ty, specs[i]) + "\n"))
    case TypesTopDec(_) => ""
    case FuncTopDec(f, groups, _, body) =>
      ("def" + " ") + f + "(" + Join(GroupTexts(groups), ", ") + ")" + ":" + Block(ty, t, last, body)
  }

  function TopAfter(last: Option<Stmt>, d: TopDec): Option<Stmt>
  {
    if d.FuncTopDec? then LinesAfter(last, d.funcBody) else last
  }

  function TopsAfter(last: Option<Stmt>, ds: seq<TopDec>): Option<Stmt>
  {
    if |ds| == 0 then last else TopAfter(TopsAfter(last, ds[..|ds| - 1]), ds[|ds| - 1])
  }

  /** Every top-level declaration followed by a newline. */
  function Tops(ty: Expr -> Option<GoLiteType>, t: int, last: Option<Stmt>, ds: seq<TopDec>): string
  {
    if |ds| == 0 then ""
    else Tops(ty, t, last, ds[..|ds| - 1]) + (TopCode(ty, t, TopsAfter(last, ds[..|ds| - 1]), ds[|ds| - 1]) + "\n")
  }

  /** The whole generated program. */
  function ProgCode(ty: Expr -> Option<GoLiteType>, t: int, last: Option<Stmt>, p: Prog): string
  {
    Header() + Tops(ty, t, last, p.topDecs) + Trailer()
  }

  // ------------------------------------------------------------------ the generator

  class Generator {
    /** The types the type checker recorded for expressions. */
    const typeOf: Expr -> Option<GoLiteType>
    var buffer: string
    var tabDepth: int
    /** The end statement of the last loop entered (`null` at first). */
    var lastForEnd: Option<Stmt>

    constructor(typeTable: Expr -> Option<GoLiteType>)
      ensures typeOf == typeTable && buffer == "" && tabDepth == 0 && lastForEnd == None
    {
      typeOf := typeTable;
      buffer := "";
      tabDepth := 0;
      lastForEnd := None;
    }

    /** `getGeneratedCode`. */
    function GetGeneratedCode(): string
      reads this
    {
      buffer
    }

    /** `addTabs`: one tab per level of depth. */
    method AddTabs()
      modifies this
      ensures buffer == old(buffer) + Tabs(tabDepth)
      ensures tabDepth == old(tabDepth) && lastForEnd == old(lastForEnd)
    {
      var i := 0;
      while i < tabDepth
        invariant 0 <= i && (tabDepth >= 0 ==> i <= tabDepth) && (tabDepth < 0 ==> i == 0)
        invariant buffer == old(buffer) + Chars('\t', i)
        invariant tabDepth == old(tabDepth) && lastForEnd == old(lastForEnd)
      {
        buffer := buffer + "\t";
        i := i + 1;
      }
      assert Chars('\t', i) == Tabs(tabDepth);
    }

    /** `addLines(n)`: `n` newlines. */
    method AddLines(n: int)
      modifies this
      ensures buffer == old(buffer) + NewLines(n)
      ensures tabDepth == old(tabDepth) && lastForEnd == old(lastForEnd)
    {
      var i := 0;
      while i < n
        invariant 0 <= i && (n >= 0 ==> i <= n) && (n < 0 ==> i == 0)
        invariant buffer == old(buffer) + Chars('\n', i)
        invariant tabDepth == old(tabDepth) && lastForEnd == old(lastForEnd)
      {
        buffer := buffer + "\n";
        i := i + 1;
      }
      assert Chars('\n', i) == NewLines(n);
    }

    /** One newline, as every caller of `addLines` asks for. */
    method AddLine()
      modifies this
      ensures buffer == old(buffer) + "\n"
      ensures tabDepth == old(tabDepth) && lastForEnd == old(lastForEnd)
    {
      AddLines(1);
      NewLineOne();
    }

    // ---------------------------------------------------------------- expressions

    /** `bitMask(n)`. */
    method BitMask(e: Expr)
      modifies this
      ensures buffer == old(buffer) + Mask(typeOf, e)
      ensures tabDepth == old(tabDepth) && lastForEnd == old(lastForEnd)
      decreases e, 2
    {
      if Masked(typeOf, e) {
        buffer := buffer + "bit_mask(";
      }
      GenExpr(e);
      if Masked(typeOf, e) {
        buffer := buffer + ")";
        Assoc3(old(buffer), "bit_mask(", Code(typeOf, e), ")");
      }
    }

    /** The expression hooks of the walk. */
    method GenExpr(e: Expr)
      modifies this
      ensures buffer == old(buffer) + Code(typeOf, e)
      ensures tabDepth == old(tabDepth) && lastForEnd == old(lastForEnd)
      decreases e, 1
    {
      match e {
        case Binary(_, _, _) => GenBinary(e);
        case Unary(_, _) => GenUnary(e);
        case FuncCallExpr(_, _) => GenCall(e);
        case IntLitExpr(s) => buffer := buffer + s;
        case OctLitExpr(s) => buffer := buffer + s;
        case HexLitExpr(s) => buffer := buffer + s;
        case FloatLitExpr(s) => buffer := buffer + s;
        case RuneLitExpr(s) => GenRune(s);
        case InterpretedStringLitExpr(s) => buffer := buffer + s;
        case RawStringLitExpr(s) => GenRaw(s);
        case VariableExpr(x) => buffer := buffer + x;
        case BlankExpr => buffer := buffer + "_";
        case _ =>
      }
    }

    /** Every binary operator: "(", the left operand (not masked for `>>`), the
        operator, the masked right operand, ")". */
    method GenBinary(e: Expr)
      requires e.Binary?
      modifies this
      ensures buffer == old(buffer) + Code(typeOf, e)
      ensures tabDepth == old(tabDepth) && lastForEnd == old(lastForEnd)
      decreases e, 0
    {
      buffer := buffer + "(";
      if e.op == BitRshift {
        GenExpr(e.left);
      } else {
        BitMask(e.left);
      }
      buffer := buffer + (" " + PyOp(e.op) + " ");
      BitMask(e.right);
      buffer := buffer + ")";
      Assoc5(old(buffer), "(", LeftOperand(typeOf, e.op, e.left), " " + PyOp(e.op) + " ", Mask(typeOf, e.right), ")");
    }

    /** Every unary operator: "(", the operator, a space, the masked operand, ")". */
    method GenUnary(e: Expr)
      requires e.Unary?
      modifies this
      ensures buffer == old(buffer) + Code(typeOf, e)
      ensures tabDepth == old(tabDepth) && lastForEnd == old(lastForEnd)
      decreases e, 0
    {
      buffer := buffer + ("(" + PyUnOp(e.uop) + " ");
      BitMask(e.operand);
      buffer := buffer + ")";
      Assoc3(old(buffer), "(" + PyUnOp(e.uop) + " ", Mask(typeOf, e.operand), ")");
    }

    /** A call: the name, then the arguments (not masked) in parentheses. */
    method GenCall(e: Expr)
      requires e.FuncCallExpr?
      modifies this
      ensures buffer == old(buffer) + Code(typeOf, e)
      ensures tabDepth == old(tabDepth) && lastForEnd == old(lastForEnd)
      decreases e, 0
    {
      buffer := buffer + (e.fname + "(");
      GenList(e.args, false);
      buffer := buffer + ")";
      Assoc3(old(buffer), e.fname + "(", Listed(typeOf, e.args, false), ")");
    }

    /** The expressions of a list separated by ", ", each masked when asked. */
    method GenList(es: seq<Expr>, masked: bool)
      modifies this
      ensures buffer == old(buffer) + Listed(typeOf, es, masked)
      ensures tabDepth == old(tabDepth) && lastForEnd == old(lastForEnd)
      decreases es, 0
    {
      var items := Items(typeOf, es, masked);
      var k := 0;
      while k < |es|
        invariant 0 <= k <= |es|
        invariant buffer == old(buffer) + Join(items[..k], ", ")
        invariant tabDepth == old(tabDepth) && lastForEnd == old(lastForEnd)
      {
        if k > 0 {
          buffer := buffer + ", ";
        }
        if masked {
          BitMask(es[k]);
        } else {
          GenExpr(es[k]);
        }
        JoinAppend(old(buffer), items, ", ", k);
        k := k + 1;
      }
      assert items[..k] == items;
    }

    /** A rune literal as the decimal value of its character. */
    method GenRune(s: string)
      modifies this
      ensures buffer == old(buffer) + Code(typeOf, RuneLitExpr(s))
      ensures tabDepth == old(tabDepth) && lastForEnd == old(lastForEnd)
    {
      var v := RuneValue(s);
      if v.Some? {
        buffer := buffer + NatToString(v.value);
      }
    }

    /** A raw string literal as a Python raw string. */
    method GenRaw(s: string)
      modifies this
      ensures buffer == old(buffer) + Code(typeOf, RawStringLitExpr(s))
      ensures tabDepth == old(tabDepth) && lastForEnd == old(lastForEnd)
    {
      if |s| >= 2 {
        var python := "r\"" + s[1..|s| - 1] + "\"";
        buffer := buffer + python;
      }
    }

    // ---------------------------------------------------------------- simple statements

    /** Identifiers separated by ", ", "_" for a blank one. */
    method GenIds(ids: seq<OptId>)
      modifies this
      ensures buffer == old(buffer) + Join(IdTexts(ids), ", ")
      ensures tabDepth == old(tabDepth) && lastForEnd == old(lastForEnd)
    {
      var texts := IdTexts(ids);
      var k := 0;
      while k < |ids|
        invariant 0 <= k <= |ids|
        invariant buffer == old(buffer) + Join(texts[..k], ", ")
        invariant tabDepth == old(tabDepth) && lastForEnd == old(lastForEnd)
      {
        if k > 0 {
          buffer := buffer + ", ";
        }
        match ids[k] {
          case IdOptId(x) => buffer := buffer + x;
          case BlankOptId => buffer := buffer + "_";
        }
        JoinAppend(old(buffer), texts, ", ", k);
        k := k + 1;
      }
      assert texts[..k] == texts;
    }

    /** `x++` or `x--`. */
    method GenStep(e: Expr, op: string)
      modifies this
      ensures buffer == old(buffer) + StepCode(typeOf, tabDepth, e, op)
      ensures tabDepth == old(tabDepth) && lastForEnd == old(lastForEnd)
    {
      GenExpr(e);
      buffer := buffer + op;
      Assoc2(old(buffer), Code(typeOf, e), op);
      ghost var done := Code(typeOf, e) + op;
      AddLine();
      Assoc2(old(buffer), done, "\n");
      done := done + "\n";
      AddTabs();
      Assoc2(old(buffer), done, Tabs(tabDepth));
      done := done + Tabs(tabDepth);
      GenExpr(e);
      Assoc2(old(buffer), done, Code(typeOf, e));
      done := done + Code(typeOf, e);
      buffer := buffer + " = ";
      Assoc2(old(buffer), done, " = ");
      done := done + " = ";
      BitMask(e);
      Assoc2(old(buffer), done, Mask(typeOf, e));
    }

    /** The hooks of the simple statements. */
    method GenSimple(s: Stmt)
      modifies this
      ensures buffer == old(buffer) + SimpleCode(typeOf, tabDepth, s)
      ensures tabDepth == old(tabDepth) && lastForEnd == old(lastForEnd)
    {
      match s {
        case ExprStmt(e) => GenExpr(e);
        case ShortAssignStmt(ids, vs) =>
          GenIds(ids);
          buffer := buffer + " = ";
          GenList(vs, true);
          Assoc3(old(buffer), Join(IdTexts(ids), ", "), " = ", Listed(typeOf, vs, true));
        case AssignStmt(l, r) =>
          GenList(l, false);
          buffer := buffer + " = ";
          GenList(r, true);
          Assoc3(old(buffer), Listed(typeOf, l, false), " = ", Listed(typeOf, r, true));
        case OpAssignStmt(op, x, v) =>
          GenExpr(x);
          buffer := buffer + AssignOpText(op);
          BitMask(v);
          Assoc3(old(buffer), Code(typeOf, x), AssignOpText(op), Mask(typeOf, v));
        case IncrStmt(e) => GenStep(e, " += 1");
        case DecrStmt(e) => GenStep(e, " -= 1");
        case _ =>
      }
    }

    /** An init statement applied before what it precedes, then a newline and tabs. */
    method GenLead(o: Option<Stmt>)
      modifies this
      ensures buffer == old(buffer) + LeadCode(typeOf, tabDepth, o)
      ensures tabDepth == old(tabDepth) && lastForEnd == old(lastForEnd)
    {
      if o.Some? {
        GenSimple(o.value);
        AddLine();
        AddTabs();
        Assoc3(old(buffer), SimpleCode(typeOf, tabDepth, o.value), "\n", Tabs(tabDepth));
      }
    }

    // ---------------------------------------------------------------- other statements

    /** The default values of a var spec with a type and no values. */
    method GenDefaults(v: VarSpec)
      modifies this
      ensures buffer == old(buffer) + Defaults(v)
      ensures tabDepth == old(tabDepth) && lastForEnd == old(lastForEnd)
    {
      if v.vtype.Some? && |v.exprs| == 0 {
        var value := DefaultValue(v.vtype.value);
        var texts := seq(|v.ids|, _ => value);
        var k := 0;
        while k < |v.ids|
          invariant 0 <= k <= |v.ids|
          invariant buffer == old(buffer) + Join(texts[..k], ", ")
          invariant tabDepth == old(tabDepth) && lastForEnd == old(lastForEnd)
        {
          if k > 0 {
            buffer := buffer + ", ";
          }
          buffer := buffer + value;
          JoinAppend(old(buffer), texts, ", ", k);
          k := k + 1;
        }
        assert texts[..k] == texts;
      }
    }

    /** `caseASpecVarSpec`: names, " = ", defaults, values. */
    method GenSpec(v: VarSpec)
      modifies this
      ensures buffer == old(buffer) + SpecCode(typeOf, v)
      ensures tabDepth == old(tabDepth) && lastForEnd == old(lastForEnd)
    {
      GenIds(v.ids);
      buffer := buffer + " = ";
      GenDefaults(v);
      GenList(v.exprs, false);
      Assoc4(old(buffer), Join(IdTexts(v.ids), ", "), " = ", Defaults(v), Listed(typeOf, v.exprs, false));
    }

    /** A var declaration statement: its specs, each after a newline and tabs but the first. */
    method GenVarDec(specs: seq<VarSpec>)
      modifies this
      ensures buffer == old(buffer) + Join(SpecCodes(typeOf, specs), "\n" + Tabs(tabDepth))
      ensures tabDepth == old(tabDepth) && lastForEnd == old(lastForEnd)
    {
      var texts := SpecCodes(typeOf, specs);
      var k := 0;
      while k < |specs|
        invariant 0 <= k <= |specs|
        invariant buffer == old(buffer) + Join(texts[..k], "\n" + Tabs(tabDepth))
        invariant tabDepth == old(tabDepth) && lastForEnd == old(lastForEnd)
      {
        if k > 0 {
          AddLine();
          AddTabs();
          Assoc2(old(buffer) + Join(texts[..k], "\n" + Tabs(tabDepth)), "\n", Tabs(tabDepth));
        }
        GenSpec(specs[k]);
        JoinAppend(old(buffer), texts, "\n" + Tabs(tabDepth), k);
        k := k + 1;
      }
      assert texts[..k] == texts;
    }

    /** `print`: every expression inside "str(" and ")", joined by " + ", then `end = ''`. */
    method GenPrint(es: seq<Expr>)
      modifies this
      ensures buffer == old(buffer) + StmtCode(typeOf, tabDepth, lastForEnd, PrintStmt(es))
      ensures tabDepth == old(tabDepth) && lastForEnd == old(lastForEnd)
    {
      buffer := buffer + ("print" + "(");
      var texts := StrItems(typeOf, es);
      var k := 0;
      while k < |es|
        invariant 0 <= k <= |es|
        invariant buffer == old(buffer) + ("print" + "(") + Join(texts[..k], " + ")
        invariant tabDepth == old(tabDepth) && lastForEnd == old(lastForEnd)
      {
        ghost var before := buffer;
        if k > 0 {
          buffer := buffer + " + ";
        }
        ghost var lead := buffer;
        buffer := buffer + ("str" + "(");
        GenExpr(es[k]);
        buffer := buffer + ")";
        Assoc3(lead, "str" + "(", Code(typeOf, es[k]), ")");
        JoinAppend(old(buffer) + ("print" + "("), texts, " + ", k);
        k := k + 1;
      }
      assert texts[..k] == texts;
      var comma := if |es| > 0 then ", " else "";
      buffer := buffer + comma;
      buffer := buffer + "end = ''";
      buffer := buffer + ")";
      Assoc5(old(buffer), "print" + "(", Join(texts, " + "), comma, "end = ''", ")");
    }

    /** `println`: the expressions as the arguments of one `print`. */
    method GenPrintln(es: seq<Expr>)
      modifies this
      ensures buffer == old(buffer) + StmtCode(typeOf, tabDepth, lastForEnd, PrintlnStmt(es))
      ensures tabDepth == old(tabDepth) && lastForEnd == old(lastForEnd)
    {
      buffer := buffer + ("print" + "(");
      GenList(es, false);
      buffer := buffer + ")";
      Assoc3(old(buffer), "print" + "(", Listed(typeOf, es, false), ")");
    }

    /** `continue`: the last loop's end statement on a line before it. */
    method GenContinue()
      modifies this
      ensures buffer == old(buffer) + StmtCode(typeOf, tabDepth, lastForEnd, ContinueStmt)
      ensures tabDepth == old(tabDepth) && lastForEnd == old(lastForEnd)
    {
      GenLead(lastForEnd);
      buffer := buffer + "continue";
      Assoc2(old(buffer), LeadCode(typeOf, tabDepth, lastForEnd), "continue");
    }

    method GenReturn(r: Option<Expr>)
      modifies this
      ensures buffer == old(buffer) + StmtCode(typeOf, tabDepth, lastForEnd, ReturnStmt(r))
      ensures tabDepth == old(tabDepth) && lastForEnd == old(lastForEnd)
    {
      buffer := buffer + ("return" + " ");
      if r.Some? {
        GenExpr(r.value);
      }
      Assoc2(old(buffer), "return" + " ", OptCode(typeOf, r));
    }

    /** `caseAConditionCondition`. */
    method GenCondition(i: Option<Stmt>, c: Expr)
      modifies this
      ensures buffer == old(buffer) + ConditionCode(typeOf, tabDepth, i, c)
      ensures tabDepth == old(tabDepth) && lastForEnd == old(lastForEnd)
    {
      GenLead(i);
      buffer := buffer + ("if" + " ");
      GenExpr(c);
      buffer := buffer + ":";
      Assoc4(old(buffer), LeadCode(typeOf, tabDepth, i), "if" + " ", Code(typeOf, c), ":");
    }

    /** One test of a case list. */
    method GenCaseTest(tag: Option<Expr>, e: Expr)
      modifies this
      ensures buffer == old(buffer) + CaseTest(typeOf, tag, e)
      ensures tabDepth == old(tabDepth) && lastForEnd == old(lastForEnd)
    {
      if tag.Some? {
        buffer := buffer + "(";
        GenExpr(tag.value);
        buffer := buffer + " == ";
        GenExpr(e);
        buffer := buffer + ")";
        Assoc5(old(buffer), "(", Code(typeOf, tag.value), " == ", Code(typeOf, e), ")");
      } else {
        GenExpr(e);
      }
    }

    /** The tests of a case list joined by " or ". */
    method GenCaseTests(tag: Option<Expr>, es: seq<Expr>)
      modifies this
      ensures buffer == old(buffer) + Join(CaseTests(typeOf, tag, es), " or ")
      ensures tabDepth == old(tabDepth) && lastForEnd == old(lastForEnd)
    {
      var texts := CaseTests(typeOf, tag, es);
      var k := 0;
      while k < |es|
        invariant 0 <= k <= |es|
        invariant buffer == old(buffer) + Join(texts[..k], " or ")
        invariant tabDepth == old(tabDepth) && lastForEnd == old(lastForEnd)
      {
        if k > 0 {
          buffer := buffer + " or ";
        }
        GenCaseTest(tag, es[k]);
        JoinAppend(old(buffer), texts, " or ", k);
        k := k + 1;
      }
      assert texts[..k] == texts;
    }

    /** `isBlockEmpty`: no statement but empty ones. */
    method IsBlockEmpty(ss: seq<Stmt>) returns (flag: bool)
      ensures flag <==> AllEmpty(ss)
    {
      flag := true;
      var k := 0;
      while k < |ss|
        invariant 0 <= k <= |ss|
        invariant flag && forall j :: 0 <= j < k ==> ss[j].EmptyStmt?
      {
        if !ss[k].EmptyStmt? {
          flag := false;
          break;
        }
        k := k + 1;
      }
    }

    /** The search of `caseASwitchStmt` for its default case. */
    method FindDefault(cases: seq<CaseBlock>) returns (d: Option<nat>)
      ensures d == FirstDefault(cases)
    {
      d := None;
      var k := 0;
      while k < |cases|
        invariant 0 <= k <= |cases| && d.None?
        invariant forall j :: 0 <= j < k ==> !cases[j].caseCond.DefaultCaseCondition?
      {
        if cases[k].caseCond.DefaultCaseCondition? {
          d := Some(k);
          break;
        }
        k := k + 1;
      }
    }

    /** `enterCodeBlock`: a newline, one level deeper. */
    method EnterCodeBlock()
      modifies this
      ensures buffer == old(buffer) + "\n" && tabDepth == old(tabDepth) + 1 && lastForEnd == old(lastForEnd)
    {
      AddLine();
      tabDepth := tabDepth + 1;
    }

    /** `exitCodeBlock(addPass)`: a `pass` line at the block's depth when asked, one
        level shallower. */
    method ExitCodeBlock(addPass: bool)
      modifies this
      ensures buffer == old(buffer) + Pass(old(tabDepth), addPass)
      ensures tabDepth == old(tabDepth) - 1 && lastForEnd == old(lastForEnd)
    {
      if addPass {
        AddTabs();
        buffer := buffer + "pass";
        AddLine();
        Assoc3(old(buffer), Tabs(tabDepth), "pass", "\n");
      }
      tabDepth := tabDepth - 1;
    }
    
    // ---------------------------------------------------------------- the statement walk

    /** `generateStatement`. */
    method GenerateStatement(s: Stmt)
      modifies this
      ensures buffer == old(buffer) + Line(typeOf, tabDepth, old(lastForEnd), s)
      ensures tabDepth == old(tabDepth) && lastForEnd == After(old(lastForEnd), s)
      decreases s, 4
    {
      if s.EmptyStmt? {
        return;
      }
      AddTabs();
      GenStmt(s);
      AddLine();
      Assoc3(old(buffer), Tabs(tabDepth), StmtCode(typeOf, tabDepth, old(lastForEnd), s), "\n");
    }

    /** The statements of a list, each through `generateStatement`. */
    method GenLines(ss: seq<Stmt>)
      modifies this
      ensures buffer == old(buffer) + Lines(typeOf, tabDepth, old(lastForEnd), ss)
      ensures tabDepth == old(tabDepth) && lastForEnd == LinesAfter(old(lastForEnd), ss)
      decreases ss, 4
    {
      var k := 0;
      while k < |ss|
        invariant 0 <= k <= |ss| && tabDepth == old(tabDepth)
        invariant buffer == old(buffer) + Lines(typeOf, tabDepth, old(lastForEnd), ss[..k])
        invariant lastForEnd == LinesAfter(old(lastForEnd), ss[..k])
      {
        ghost var before := buffer;
        GenerateStatement(ss[k]);
        assert ss[..k + 1][..k] == ss[..k];
        Assoc2(old(buffer), Lines(typeOf, tabDepth, old(lastForEnd), ss[..k]),
          Line(typeOf, tabDepth, LinesAfter(old(lastForEnd), ss[..k]), ss[k]));
        k := k + 1;
      }
      assert ss[..k] == ss;
    }

    /** A code block: enter, the statements, exit with `pass` when all are empty. */
    method GenBlock(ss: seq<Stmt>)
      modifies this
      ensures buffer == old(buffer) + Block(typeOf, tabDepth, old(lastForEnd), ss)
      ensures tabDepth == old(tabDepth) && lastForEnd == LinesAfter(old(lastForEnd), ss)
      decreases ss, 5
    {
      EnterCodeBlock();
      GenLines(ss);
      var empty := IsBlockEmpty(ss);
      ExitCodeBlock(empty);
      Assoc3(old(buffer), "\n", Lines(typeOf, tabDepth + 1, old(lastForEnd), ss), Pass(tabDepth + 1, AllEmpty(ss)));
    }

    /** The statement hooks. */
    method GenStmt(s: Stmt)
      modifies this
      ensures buffer == old(buffer) + StmtCode(typeOf, tabDepth, old(lastForEnd), s)
      ensures tabDepth == old(tabDepth) && lastForEnd == After(old(lastForEnd), s)
      decreases s, 3
    {
      match s {
        case VarDecStmt(specs) => GenVarDec(specs);
        case TypeDecStmt(_) =>
        case PrintStmt(es) => GenPrint(es);
        case PrintlnStmt(es) => GenPrintln(es);
        case ContinueStmt => GenContinue();
        case BreakStmt => buffer := buffer + "break";
        case ReturnStmt(r) => GenReturn(r);
        case BlockStmt(ss) => GenLines(ss);
        case IfElseStmt(_, _, _, _) => GenIfElse(s);
        case SwitchStmt(_, _, _) => GenSwitch(s);
        case LoopStmt(_, _, _, _) => GenLoop(s);
        case _ => GenSimple(s);
      }
    }

    method GenIfElse(s: Stmt)
      requires s.IfElseStmt?
      modifies this
      ensures buffer == old(buffer) + StmtCode(typeOf, tabDepth, old(lastForEnd), s)
      ensures tabDepth == old(tabDepth) && lastForEnd == After(old(lastForEnd), s)
      decreases s, 1
    {
      var t := tabDepth;
      var last := lastForEnd;
      GenCondition(s.condInit, s.cond);
      GenBlock(s.ifBlock);
      AddTabs();
      buffer := buffer + ("else" + ":");
      GenBlock(s.elseBlock);
      Assoc5(old(buffer), ConditionCode(typeOf, t, s.condInit, s.cond), Block(typeOf, t, last, s.ifBlock),
        Tabs(t), "else" + ":", Block(typeOf, t, LinesAfter(last, s.ifBlock), s.elseBlock));
    }

    /** `caseASwitchStmt`: the init, the non-default cases as `if`/`elif` arms in
        order, then the first default case. */
    method GenSwitch(s: Stmt)
      requires s.SwitchStmt?
      modifies this
      ensures buffer == old(buffer) + StmtCode(typeOf, tabDepth, old(lastForEnd), s)
      ensures tabDepth == old(tabDepth) && lastForEnd == After(old(lastForEnd), s)
      decreases s, 1
    {
      var t := tabDepth;
      var last := lastForEnd;
      GenLead(s.switchInit);
      var d := FindDefault(s.cases);
      GenArms(s.tag, s.cases);
      GenDefaultArm(s.cases, d);
      Assoc3(old(buffer), LeadCode(typeOf, t, s.switchInit), Arms(typeOf, t, last, s.tag, s.cases),
        DefaultArm(typeOf, t, ArmsAfter(last, s.cases), s.cases));
    }

    method GenArms(tag: Option<Expr>, cases: seq<CaseBlock>)
      modifies this
      ensures buffer == old(buffer) + Arms(typeOf, tabDepth, old(lastForEnd), tag, cases)
      ensures tabDepth == old(tabDepth) && lastForEnd == ArmsAfter(old(lastForEnd), cases)
      decreases cases, 7
    {
      var k := 0;
      while k < |cases|
        invariant 0 <= k <= |cases| && tabDepth == old(tabDepth)
        invariant buffer == old(buffer) + Arms(typeOf, tabDepth, old(lastForEnd), tag, cases[..k])
        invariant lastForEnd == ArmsAfter(old(lastForEnd), cases[..k])
      {
        GenArm(tag, cases[k], k == 0);
        assert cases[..k + 1][..k] == cases[..k];
        Assoc2(old(buffer), Arms(typeOf, tabDepth, old(lastForEnd), tag, cases[..k]),
          Arm(typeOf, tabDepth, ArmsAfter(old(lastForEnd), cases[..k]), tag, cases[k], k == 0));
        k := k + 1;
      }
      assert cases[..k] == cases;
    }

    /** One pass of the arm loop; a default case is skipped. */
    method GenArm(tag: Option<Expr>, c: CaseBlock, first: bool)
      modifies this
      ensures buffer == old(buffer) + Arm(typeOf, tabDepth, old(lastForEnd), tag, c, first)
      ensures tabDepth == old(tabDepth)
      ensures lastForEnd == if c.caseCond.DefaultCaseCondition? then old(lastForEnd) else LinesAfter(old(lastForEnd), c.caseStmts)
      decreases c, 0
    {
      if c.caseCond.DefaultCaseCondition? {
        return;
      }
      var keyword := if first then "if" else Tabs(tabDepth) + "elif";
      if first {
        buffer := buffer + "if";
      } else {
        AddTabs();
        buffer := buffer + "elif";
        Assoc2(old(buffer), Tabs(tabDepth), "elif");
      }
      buffer := buffer + " ";
      GenCaseTests(tag, c.caseCond.exprs);
      buffer := buffer + ":";
      GenBlock(c.caseStmts);
      Assoc5(old(buffer), keyword, " ", Join(CaseTests(typeOf, tag, c.caseCond.exprs), " or "), ":",
        Block(typeOf, tabDepth, old(lastForEnd), c.caseStmts));
    }

    method GenDefaultArm(cases: seq<CaseBlock>, d: Option<nat>)
      requires d == FirstDefault(cases)
      modifies this
      ensures buffer == old(buffer) + DefaultArm(typeOf, tabDepth, old(lastForEnd), cases)
      ensures tabDepth == old(tabDepth)
      ensures lastForEnd == if d.Some? then LinesAfter(old(lastForEnd), cases[d.value].caseStmts) else old(lastForEnd)
      decreases cases, 7
    {
      if d.None? {
        return;
      }
      var keyword := if |cases| == 1 then "if" + " " + "True" else Tabs(tabDepth) + "else";
      if |cases| == 1 {
        buffer := buffer + "if";
        buffer := buffer + " ";
        buffer := buffer + "True";
      } else {
        AddTabs();
        buffer := buffer + "else";
      }
      assert buffer == old(buffer) + keyword;
      buffer := buffer + ":";
      GenBlock(cases[d.value].caseStmts);
      Assoc3(old(buffer), keyword, ":", Block(typeOf, tabDepth, old(lastForEnd), cases[d.value].caseStmts));
    }

    /** `caseALoopStmt`: the init, "while", the condition or `True`, then the block. */
    method GenLoop(s: Stmt)
      requires s.LoopStmt?
      modifies this
      ensures buffer == old(buffer) + StmtCode(typeOf, tabDepth, old(lastForEnd), s)
      ensures tabDepth == old(tabDepth) && lastForEnd == After(old(lastForEnd), s)
      decreases s, 2
    {
      GenLead(s.init);
      buffer := buffer + ("while" + " ");
      var cond := if s.loopCond.Some? then Code(typeOf, s.loopCond.value) else "True";
      if s.loopCond.Some? {
        GenExpr(s.loopCond.value);
      } else {
        buffer := buffer + "True";
      }
      buffer := buffer + ":";
      GenLoopBlock(s);
      Assoc5(old(buffer), LeadCode(typeOf, tabDepth, s.init), "while" + " ", cond, ":", LoopBlock(typeOf, tabDepth, s));
    }

    /** The loop's block: the end statement becomes `lastForEnd` and runs after the body. */
    method GenLoopBlock(s: Stmt)
      requires s.LoopStmt?
      modifies this
      ensures buffer == old(buffer) + LoopBlock(typeOf, tabDepth, s)
      ensures tabDepth == old(tabDepth)
      ensures lastForEnd == if s.end.Some? then After(LinesAfter(s.end, s.body), s.end.value) else LinesAfter(s.end, s.body)
      decreases s, 1
    {
      EnterCodeBlock();
      lastForEnd := s.end;
      GenLoopLines(s);
      var empty := IsBlockEmpty(s.body + Ends(s.end));
      ExitCodeBlock(empty);
      Assoc3(old(buffer), "\n", LoopLines(typeOf, tabDepth + 1, s), Pass(tabDepth + 1, AllEmpty(s.body + Ends(s.end))));
    }

    /** The body, then the end statement, each through `generateStatement`. */
    method GenLoopLines(s: Stmt)
      requires s.LoopStmt? && lastForEnd == s.end
      modifies this
      ensures buffer == old(buffer) + LoopLines(typeOf, tabDepth, s)
      ensures tabDepth == old(tabDepth)
      ensures lastForEnd == if s.end.Some? then After(LinesAfter(s.end, s.body), s.end.value) else LinesAfter(s.end, s.body)
      decreases s, 0
    {
      GenLines(s.body);
      if s.end.Some? {
        GenerateStatement(s.end.value);
        Assoc2(old(buffer), Lines(typeOf, tabDepth, s.end, s.body), Line(typeOf, tabDepth, LinesAfter(s.end, s.body), s.end.value));
      }
    }

    // ---------------------------------------------------------------- declarations

    /** The argument names of a group, separated by ", " (their type is dropped). */
    method GenArgGroup(g: ArgGroup)
      modifies this
      ensures buffer == old(buffer) + Join(g.argIds, ", ")
      ensures tabDepth == old(tabDepth) && lastForEnd == old(lastForEnd)
    {
      var k := 0;
      while k < |g.argIds|
        invariant 0 <= k <= |g.argIds|
        invariant buffer == old(buffer) + Join(g.argIds[..k], ", ")
        invariant tabDepth == old(tabDepth) && lastForEnd == old(lastForEnd)
      {
        if k > 0 {
          buffer := buffer + ", ";
        }
        buffer := buffer + g.argIds[k];
        JoinAppend(old(buffer), g.argIds, ", ", k);
        k := k + 1;
      }
      assert g.argIds[..k] == g.argIds;
    }

    method GenArgGroups(groups: seq<ArgGroup>)
      modifies this
      ensures buffer == old(buffer) + Join(GroupTexts(groups), ", ")
      ensures tabDepth == old(tabDepth) && lastForEnd == old(lastForEnd)
    {
      var texts := GroupTexts(groups);
      var k := 0;
      while k < |groups|
        invariant 0 <= k <= |groups|
        invariant buffer == old(buffer) + Join(texts[..k], ", ")
        invariant tabDepth == old(tabDepth) && lastForEnd == old(lastForEnd)
      {
        if k > 0 {
          buffer := buffer + ", ";
        }
        GenArgGroup(groups[k]);
        JoinAppend(old(buffer), texts, ", ", k);
        k := k + 1;
      }
      assert texts[..k] == texts;
    }

    /** `caseAFuncTopDec`: "def", the name, the argument names, a colon, the block. */
    method GenFunc(f: string, groups: seq<ArgGroup>, body: seq<Stmt>)
      modifies this
      ensures buffer == old(buffer) + TopCode(typeOf, tabDepth, old(lastForEnd), FuncTopDec(f, groups, None, body))
      ensures tabDepth == old(tabDepth) && lastForEnd == LinesAfter(old(lastForEnd), body)
    {
      buffer := buffer + ("def" + " ");
      buffer := buffer + f;
      Assoc2(old(buffer), "def" + " ", f);
      ghost var done := ("def" + " ") + f;
      buffer := buffer + "(";
      Assoc2(old(buffer), done, "(");
      done := done + "(";
      GenArgGroups(groups);
      Assoc2(old(buffer), done, Join(GroupTexts(groups), ", "));
      done := done + Join(GroupTexts(groups), ", ");
      buffer := buffer + ")";
      Assoc2(old(buffer), done, ")");
      done := done + ")";
      buffer := buffer + ":";
      Assoc2(old(buffer), done, ":");
      done := done + ":";
      GenBlock(body);
      Assoc2(old(buffer), done, Block(typeOf, tabDepth, old(lastForEnd), body));
    }

    /** A top-level var declaration: each spec on a line of its own. */
    method GenVarsTopDec(specs: seq<VarSpec>)
      modifies this
      ensures buffer == old(buffer) + TopCode(typeOf, tabDepth, lastForEnd, VarsTopDec(specs))
      ensures tabDepth == old(tabDepth) && lastForEnd == old(lastForEnd)
    {
      var texts := seq(|specs|, i requires 0 <= i < |specs| => SpecCode(typeOf, specs[i]) + "\n");
      var k := 0;
      while k < |specs|
        invariant 0 <= k <= |specs|
        invariant buffer == old(buffer) + Concat(texts[..k])
        invariant tabDepth == old(tabDepth) && lastForEnd == old(lastForEnd)
      {
        GenSpec(specs[k]);
        AddLine();
        assert texts[..k + 1][..k] == texts[..k];
        Assoc2(old(buffer) + Concat(texts[..k]), SpecCode(typeOf, specs[k]), "\n");
        Assoc2(old(buffer), Concat(texts[..k]), texts[k]);
        k := k + 1;
      }
      assert texts[..k] == texts;
    }

    method GenTopDec(d: TopDec)
      modifies this
      ensures buffer == old(buffer) + TopCode(typeOf, tabDepth, old(lastForEnd), d)
      ensures tabDepth == old(tabDepth) && lastForEnd == TopAfter(old(lastForEnd), d)
    {
      match d {
        case VarsTopDec(specs) => GenVarsTopDec(specs);
        case TypesTopDec(_) =>
        case FuncTopDec(f, groups, _, body) => GenFunc(f, groups, body);
      }
    }

    /** `generateImport`. */
    method GenImport()
      modifies this
      ensures buffer == old(buffer) + Header()
      ensures tabDepth == old(tabDepth) && lastForEnd == old(lastForEnd)
    {
      buffer := buffer + "from __future__ import print_function\n";
      AddLine();
      buffer := buffer + "bit_mask = lambda x : (x + 2**31) % 2**32 - 2**31\n";
      AddLine();
      Assoc4(old(buffer), "from __future__ import print_function\n", "\n",
        "bit_mask = lambda x : (x + 2**31) % 2**32 - 2**31\n", "\n");
    }

    /** `generateMain`. */
    method GenMain()
      modifies this
      ensures buffer == old(buffer) + Trailer()
      ensures tabDepth == old(tabDepth) && lastForEnd == old(lastForEnd)
    {
      buffer := buffer + "if __name__ == '__main__':\n";
      buffer := buffer + "\tmain()\n";
      Assoc2(old(buffer), "if __name__ == '__main__':\n", "\tmain()\n");
    }

    /** `caseAProgProg`: the header, the top-level declarations, the trailer. */
    method GenProg(p: Prog)
      modifies this
      ensures buffer == old(buffer) + ProgCode(typeOf, tabDepth, old(lastForEnd), p)
      ensures tabDepth == old(tabDepth) && lastForEnd == TopsAfter(old(lastForEnd), p.topDecs)
    {
      GenImport();
      GenTops(p.topDecs);
      GenMain();
      Assoc3(old(buffer), Header(), Tops(typeOf, tabDepth, old(lastForEnd), p.topDecs), Trailer());
    }

    /** Each top-level declaration, then a newline. */
    method GenTops(ds: seq<TopDec>)
      modifies this
      ensures buffer == old(buffer) + Tops(typeOf, tabDepth, old(lastForEnd), ds)
      ensures tabDepth == old(tabDepth) && lastForEnd == TopsAfter(old(lastForEnd), ds)
    {
      var k := 0;
      while k < |ds|
        invariant 0 <= k <= |ds| && tabDepth == old(tabDepth)
        invariant buffer == old(buffer) + Tops(typeOf, tabDepth, old(lastForEnd), ds[..k])
        invariant lastForEnd == TopsAfter(old(lastForEnd), ds[..k])
      {
        TopsSnoc(typeOf, tabDepth, old(lastForEnd), ds, k);
        GenTopLine(ds[k]);
        Assoc2(old(buffer), Tops(typeOf, tabDepth, old(lastForEnd), ds[..k]),
          TopCode(typeOf, tabDepth, TopsAfter(old(lastForEnd), ds[..k]), ds[k]) + "\n");
        k := k + 1;
      }
      assert ds[..k] == ds;
    }

    /** One pass of the loop of `caseAProgProg`: the declaration, then a newline. */
    method GenTopLine(d: TopDec)
      modifies this
      ensures buffer == old(buffer) + (TopCode(typeOf, tabDepth, old(lastForEnd), d) + "\n")
      ensures tabDepth == old(tabDepth) && lastForEnd == TopAfter(old(lastForEnd), d)
    {
      GenTopDec(d);
      AddLine();
      Assoc2(old(buffer), TopCode(typeOf, tabDepth, old(lastForEnd), d), "\n");
    }
  }

  /** One more top-level declaration: its code and a newline after the others'. */
  lemma TopsSnoc(ty: Expr -> Option<GoLiteType>, t: int, last: Option<Stmt>, ds: seq<TopDec>, k: nat)
    requires k < |ds|
    ensures Tops(ty, t, last, ds[..k + 1])
      == Tops(ty, t, last, ds[..k]) + (TopCode(ty, t, TopsAfter(last, ds[..k]), ds[k]) + "\n")
    ensures TopsAfter(last, ds[..k + 1]) == TopAfter(TopsAfter(last, ds[..k]), ds[k])
  {
    assert ds[..k + 1][..k] == ds[..k];
  }

  /** The generator run on a program with a type table, as `getGeneratedCode` returns it. */
  method GenerateCode(typeTable: Expr -> Option<GoLiteType>, p: Prog) returns (r: string)
    ensures r == ProgCode(typeTable, 0, None, p)
  {
    var g := new Generator(typeTable);
    ghost var code := ProgCode(typeTable, 0, None, p);
    g.GenProg(p);
    assert g.buffer == "" + code;
    assert "" + code == code;
    r := g.GetGeneratedCode();
  }

  // ------------------------------------------------------------------ properties

  /** A block never comes out bare: its lines are empty exactly when every statement
      in it is empty, and then a `pass` line takes their place. */
  lemma {:induction false} LinesEmpty(ty: Expr -> Option<GoLiteType>, t: int, last: Option<Stmt>, ss: seq<Stmt>)
    ensures Lines(ty, t, last, ss) == "" <==> AllEmpty(ss)
    decreases |ss|
  {
    if |ss| > 0 {
      var init := ss[..|ss| - 1];
      LinesEmpty(ty, t, last, init);
      assert AllEmpty(ss) <==> AllEmpty(init) && ss[|ss| - 1].EmptyStmt? by {
        if AllEmpty(init) && ss[|ss| - 1].EmptyStmt? {
          forall i | 0 <= i < |ss| ensures ss[i].EmptyStmt? {
            if i < |ss| - 1 { assert ss[i] == init[i]; }
          }
        }
        if AllEmpty(ss) {
          forall i | 0 <= i < |init| ensures init[i].EmptyStmt? { assert init[i] == ss[i]; }
        }
      }
    }
  }

  lemma BlockNeverBare(ty: Expr -> Option<GoLiteType>, t: int, last: Option<Stmt>, ss: seq<Stmt>)
    ensures AllEmpty(ss) ==> Block(ty, t, last, ss) == "\n" + Tabs(t + 1) + "pass" + "\n"
    ensures !AllEmpty(ss) ==> Block(ty, t, last, ss) == "\n" + Lines(ty, t + 1, last, ss)
    ensures !AllEmpty(ss) ==> Lines(ty, t + 1, last, ss) != ""
  {
    LinesEmpty(ty, t + 1, last, ss);
    if AllEmpty(ss) {
      Assoc3("\n", Tabs(t + 1), "pass", "\n");
    }
  }

  /** No loop anywhere inside the statement. */
  predicate LoopFree(s: Stmt)
    decreases s, 1
  {
    match s
    case BlockStmt(ss) => AllLoopFree(ss)
    case IfElseStmt(_, _, a, b) => AllLoopFree(a) && AllLoopFree(b)
    case SwitchStmt(_, _, cases) => forall k :: 0 <= k < |cases| ==> AllLoopFree(cases[k].caseStmts)
    case LoopStmt(_, _, _, _) => false
    case _ => true
  }

  predicate AllLoopFree(ss: seq<Stmt>)
    decreases ss, 0
  {
    forall i :: 0 <= i < |ss| ==> LoopFree(ss[i])
  }

  /** Only entering a loop changes the end statement `continue` replays. */
  lemma {:induction false} LoopFreeKeepsEnd(last: Option<Stmt>, s: Stmt)
    requires LoopFree(s)
    ensures After(last, s) == last
    decreases s, 1
  {
    match s {
      case BlockStmt(ss) => LoopFreeLinesKeepEnd(last, ss);
      case IfElseStmt(_, _, a, b) =>
        LoopFreeLinesKeepEnd(last, a);
        LoopFreeLinesKeepEnd(last, b);
      case SwitchStmt(_, _, cases) =>
        LoopFreeArmsKeepEnd(last, cases);
        var d := FirstDefault(cases);
        if d.Some? {
          LoopFreeLinesKeepEnd(last, cases[d.value].caseStmts);
        }
      case _ =>
    }
  }

  lemma {:induction false} LoopFreeLinesKeepEnd(last: Option<Stmt>, ss: seq<Stmt>)
    requires AllLoopFree(ss)
    ensures LinesAfter(last, ss) == last
    decreases ss, 0
  {
    if |ss| > 0 {
      var init := ss[..|ss| - 1];
      assert AllLoopFree(init) by {
        forall i | 0 <= i < |init| ensures LoopFree(init[i]) { assert init[i] == ss[i]; }
      }
      LoopFreeLinesKeepEnd(last, init);
      LoopFreeKeepsEnd(last, ss[|ss| - 1]);
    }
  }

  lemma {:induction false} LoopFreeArmsKeepEnd(last: Option<Stmt>, cases: seq<CaseBlock>)
    requires forall k :: 0 <= k < |cases| ==> AllLoopFree(cases[k].caseStmts)
    ensures ArmsAfter(last, cases) == last
    decreases cases, 0
  {
    if |cases| > 0 {
      var init := cases[..|cases| - 1];
      assert forall k :: 0 <= k < |init| ==> AllLoopFree(init[k].caseStmts) by {
        forall k | 0 <= k < |init| ensures AllLoopFree(init[k].caseStmts) { assert init[k] == cases[k]; }
      }
      LoopFreeArmsKeepEnd(last, init);
      LoopFreeLinesKeepEnd(last, cases[|cases| - 1].caseStmts);
    }
  }

  /** In a `for` loop whose body holds no loop, every statement of the body, and so
      every `continue` in it, sees the loop's own end statement. */
  lemma ContinueReplaysOwnEnd(i: Option<Stmt>, c: Option<Expr>, e: Stmt, body: seq<Stmt>, k: nat)
    requires AllLoopFree(body) && k <= |body|
    ensures LinesAfter(Some(e), body[..k]) == Some(e)
  {
    assert AllLoopFree(body[..k]) by {
      forall j | 0 <= j < k ensures LoopFree(body[..k][j]) { assert body[..k][j] == body[j]; }
    }
    LoopFreeLinesKeepEnd(Some(e), body[..k]);
  }

  /** The end statement is never restored when a loop is left: a `continue` of an
      outer loop that follows an inner `for` loop replays the inner loop's end
      statement. */
  lemma InnerEndLeaksToOuterContinue(ty: Expr -> Option<GoLiteType>, t: int, outerEnd: Stmt, innerEnd: Stmt)
    requires IsSimple(innerEnd)
    ensures var inner := LoopStmt(None, None, Some(innerEnd), []);
      Lines(ty, t, Some(outerEnd), [inner, ContinueStmt])
        == Lines(ty, t, Some(outerEnd), [inner]) + Line(ty, t, Some(innerEnd), ContinueStmt)
  {
    var inner := LoopStmt(None, None, Some(innerEnd), []);
    assert [inner, ContinueStmt][..1] == [inner];
    assert [inner][..0] == [];
    assert LinesAfter(Some(innerEnd), []) == Some(innerEnd);
    assert After(Some(innerEnd), innerEnd) == Some(innerEnd);
    assert LinesAfter(Some(outerEnd), []) == Some(outerEnd);
    assert After(Some(outerEnd), inner) == Some(innerEnd);
    assert LinesAfter(Some(outerEnd), [inner]) == Some(innerEnd);
  }

  /** What that `continue` line holds: the inner end statement, then `continue`. */
  lemma ContinueLine(ty: Expr -> Option<GoLiteType>, t: int, e: Stmt)
    ensures Line(ty, t, Some(e), ContinueStmt) == Tabs(t) + (SimpleCode(ty, t, e) + "\n" + Tabs(t) + "continue") + "\n"
  {
  }

  /** A switch whose first case is the default one has no `if` arm: the next case
      starts with "elif". */
  lemma DefaultFirstLeavesElif(ty: Expr -> Option<GoLiteType>, t: int, last: Option<Stmt>, tag: Option<Expr>,
                               ds: seq<Stmt>, c: CaseBlock)
    requires c.caseCond.ExprsCaseCondition?
    ensures var arms := Arms(ty, t, last, tag, [CaseBlock(DefaultCaseCondition, ds), c]);
      |arms| >= |Tabs(t)| + 4 && arms[..|Tabs(t)| + 4] == Tabs(t) + "elif"
  {
    var cases := [CaseBlock(DefaultCaseCondition, ds), c];
    assert cases[..1][..0] == [];
    assert Arms(ty, t, last, tag, cases[..1]) == "";
  }

  /** A switch with a default case alone becomes `if True:` and its block. */
  lemma OnlyDefaultIsIfTrue(ty: Expr -> Option<GoLiteType>, t: int, last: Option<Stmt>, tag: Option<Expr>, ds: seq<Stmt>)
    ensures StmtCode(ty, t, last, SwitchStmt(None, tag, [CaseBlock(DefaultCaseCondition, ds)]))
      == "if True" + ":" + Block(ty, t, last, ds)
  {
    var cases := [CaseBlock(DefaultCaseCondition, ds)];
    assert cases[..0] == [];
    assert FirstDefault(cases) == Some(0);
    assert ArmsAfter(last, cases) == last;
    assert Arms(ty, t, last, tag, cases) == "";
    assert "if" + " " + "True" == "if True";
  }

  /** `>>` is the one binary operator whose left operand is never masked. */
  lemma ShiftRightLeftUnmasked(ty: Expr -> Option<GoLiteType>, l: Expr, r: Expr)
    requires Masked(ty, l)
    ensures Code(ty, Binary(BitRshift, l, r)) == "(" + Code(ty, l) + " >> " + Mask(ty, r) + ")"
    ensures Code(ty, Binary(BitLshift, l, r)) == "(" + ("bit_mask(" + Code(ty, l) + ")") + " << " + Mask(ty, r) + ")"
  {
    assert " " + PyOp(BitRshift) + " " == " >> ";
    assert " " + PyOp(BitLshift) + " " == " << ";
    assert LeftOperand(ty, BitRshift, l) == Code(ty, l);
    assert LeftOperand(ty, BitLshift, l) == Mask(ty, l) == "bit_mask(" + Code(ty, l) + ")";
  }

  /** The Python operators differ from the Go spellings only for `&^`, `&&` and `||`. */
  lemma OperatorSpellingsDiffer(op: BinOp)
    ensures PyOp(op) != OpText(op) <==> op == BitClear || op == And || op == Or
    ensures op == BitClear ==> PyOp(op) == "&~"
    ensures op == And ==> PyOp(op) == "and"
    ensures op == Or ==> PyOp(op) == "or"
  {
  }

  /** Rune literals become the decimal code of their character: the nine escapes by
      table, any other literal by the character after the quote. */
  lemma RuneCodes(ty: Expr -> Option<GoLiteType>, ch: char)
    requires ch != '\\'
    ensures Code(ty, RuneLitExpr("'\\n'")) == "10"
    ensures Code(ty, RuneLitExpr("'\\\\'")) == "92"
    ensures Code(ty, RuneLitExpr("'a'")) == "97"
    ensures RuneValue(['\'', ch, '\'']) == Some(ch as nat)
  {
    assert RuneValue("'\\n'") == Some(10);
    assert RuneValue("'\\\\'") == Some(92);
    assert RuneValue("'a'") == Some(97);
    assert NatToString(97) == NatToString(9) + "7";
  }

  /** A raw string's backquotes become `r"` and `"` around the same text. */
  lemma RawStringBecomesPythonRaw(ty: Expr -> Option<GoLiteType>, b: string)
    ensures Code(ty, RawStringLitExpr("`" + b + "`")) == "r\"" + b + "\""
  {
    var s := "`" + b + "`";
    assert s[1..|s| - 1] == b;
  }

  /** `print` with nothing to print still passes `end = ''`; one value is printed as
      its `str`. */
  lemma PrintShapes(ty: Expr -> Option<GoLiteType>, t: int, last: Option<Stmt>, e: Expr)
    ensures StmtCode(ty, t, last, PrintStmt([])) == "print(" + "end = ''" + ")"
    ensures StmtCode(ty, t, last, PrintStmt([e])) == "print(" + ("str(" + Code(ty, e) + ")") + ", " + "end = ''" + ")"
  {
    assert "print" + "(" == "print(" && "str" + "(" == "str(";
    assert Join(StrItems(ty, []), " + ") == "";
    assert StrItems(ty, [e]) == ["str(" + Code(ty, e) + ")"];
    JoinSingleton("str(" + Code(ty, e) + ")", " + ");
  }

  /** `println` with nothing to print is a bare `print()`. */
  lemma PrintlnEmpty(ty: Expr -> Option<GoLiteType>, t: int, last: Option<Stmt>)
    ensures StmtCode(ty, t, last, PrintlnStmt([])) == "print(" + ")"
  {
    assert Items(ty, [], false) == [];
    assert "print" + "(" == "print(";
  }

  /** `x++` on an int variable: the compound step, then the wrap-around on the next line. */
  lemma IncrementWraps(ty: Expr -> Option<GoLiteType>, t: int, last: Option<Stmt>, x: string)
    requires ty(VariableExpr(x)) == Some(IntT)
    ensures Line(ty, t, last, IncrStmt(VariableExpr(x)))
      == Tabs(t) + (x + " += 1" + "\n" + Tabs(t) + x + " = " + "bit_mask(" + x + ")") + "\n"
  {
    var e := VariableExpr(x);
    assert Mask(ty, e) == "bit_mask(" + x + ")";
    Assoc3(x + " += 1" + "\n" + Tabs(t) + x + " = ", "bit_mask(", x, ")");
  }

  /** Var specs without values: the type's default per name; `string` gives nothing at
      all and `rune` the text "null". */
  lemma DefaultValues(ty: Expr -> Option<GoLiteType>, x: string, y: string)
    ensures SpecCode(ty, VarSpec([IdOptId(x), IdOptId(y)], Some(IntTypeExpr), [])) == x + ", " + y + " = 0, 0"
    ensures SpecCode(ty, VarSpec([IdOptId(x)], Some(StringTypeExpr), [])) == x + " = "
    ensures SpecCode(ty, VarSpec([IdOptId(x)], Some(RuneTypeExpr), [])) == x + " = null"
  {
    var d := seq(2, _ => "0");
    assert d == ["0"] + ["0"];
    JoinSnoc(["0"], "0", ", ");
    assert IdTexts([IdOptId(x), IdOptId(y)]) == [x] + [y];
    JoinSnoc([x], y, ", ");
    assert IdTexts([IdOptId(x)]) == [x];
    assert seq(1, _ => "") == [""];
    assert seq(1, _ => "null") == ["null"];
  }

  /** The generated program opens with the import and `bit_mask`, and closes by
      calling `main`. */
  lemma ProgramFraming(ty: Expr -> Option<GoLiteType>, t: int, last: Option<Stmt>, p: Prog)
    ensures IsPrefix(Header(), ProgCode(ty, t, last, p))
    ensures IsSuffix(Trailer(), ProgCode(ty, t, last, p))
    ensures p.topDecs == [] ==> ProgCode(ty, t, last, p) == Header() + Trailer()
  {
    Framed(Header(), Tops(ty, t, last, p.topDecs), Trailer());
  }

}
