/**
 * The operator typing rules of the GoLite type checker. The checker is a depth-first
 * visitor whose `out*` hooks read the types recorded for an expression's operands
 * from a table and record the expression's own type. A node kind without a hook gets
 * no entry, and a lookup of such a node finds nothing (Java's `null`), which no type
 * predicate accepts. A rule that fails stops the whole compiler; here it is an error
 * outcome carrying the message.
 */
module TypeCheckers {
  import opened Wrappers
  import opened Ast

  /** What the table holds for a node: a type expression, or nothing. */
  type Entry = Option<TypeExpr>

  predicate IsBool(t: Entry) { t.Some? && t.value.BoolTypeExpr? }

  /** Int-like: int or rune. */
  predicate IsInt(t: Entry) { t.Some? && (t.value.IntTypeExpr? || t.value.RuneTypeExpr?) }

  predicate IsFloat(t: Entry) { t.Some? && t.value.FloatTypeExpr? }

  predicate IsNumeric(t: Entry) { IsInt(t) || IsFloat(t) }

  predicate IsString(t: Entry) { t.Some? && t.value.StringTypeExpr? }

  predicate IsOrdered(t: Entry) { IsNumeric(t) || IsString(t) }

  predicate IsComparable(t: Entry) { IsOrdered(t) || IsBool(t) }

  /** The five primitive type expressions, the only types the checker records. */
  predicate IsPrimitiveTag(t: TypeExpr)
  {
    t.BoolTypeExpr? || t.IntTypeExpr? || t.FloatTypeExpr? || t.RuneTypeExpr? || t.StringTypeExpr?
  }

  // ------------------------------------------------------------------ binary rules

  /** `+`: numbers add (int when both are int-like, float otherwise) and strings
      concatenate; any other pairing is an error. */
  function AddType(l: Entry, r: Entry): (res: Result<TypeExpr, string>)
    ensures res.Ok? <==> (IsNumeric(l) && IsNumeric(r)) || (IsString(l) && IsString(r))
    ensures res == Ok(IntTypeExpr) <==> IsInt(l) && IsInt(r)
    ensures res == Ok(FloatTypeExpr) <==> IsNumeric(l) && IsNumeric(r) && (IsFloat(l) || IsFloat(r))
    ensures res == Ok(StringTypeExpr) <==> IsString(l) && IsString(r)
    ensures res.Err? ==> res.error == "Binary operator '+' has miss-matched operands"
  {
    if IsNumeric(l) && IsNumeric(r) then
      if IsInt(l) && IsInt(r) then Ok(IntTypeExpr) else Ok(FloatTypeExpr)
    else if IsString(l) && IsString(r) then Ok(StringTypeExpr)
    else Err("Binary operator '+' has miss-matched operands")
  }

  /** `-`, `*`, `/`: both operands numeric; float when either is float, else int. */
  function ArithType(sym: string, l: Entry, r: Entry): (res: Result<TypeExpr, string>)
    ensures res.Ok? <==> IsNumeric(l) && IsNumeric(r)
    ensures res.Ok? ==> (res.value == FloatTypeExpr <==> IsFloat(l) || IsFloat(r))
    ensures res.Ok? ==> (res.value == IntTypeExpr <==> IsInt(l) && IsInt(r))
    ensures res.Err? ==> res.error == "Binary operator '" + sym + "' can only be applied to numeric"
  {
    if !IsNumeric(l) || !IsNumeric(r) then Err("Binary operator '" + sym + "' can only be applied to numeric")
    else if IsFloat(l) || IsFloat(r) then Ok(FloatTypeExpr)
    else Ok(IntTypeExpr)
  }

  /** `%`, `&`, `|`, `^`, `&^`, `<<`, `>>`: both operands int-like, result int. */
  function IntegerType(sym: string, l: Entry, r: Entry): (res: Result<TypeExpr, string>)
    ensures res.Ok? <==> IsInt(l) && IsInt(r)
    ensures res.Ok? ==> res.value == IntTypeExpr
    ensures res.Err? ==> res.error == "Binary operator '" + sym + "' can only be applied to integer"
  {
    if !IsInt(l) || !IsInt(r) then Err("Binary operator '" + sym + "' can only be applied to integer")
    else Ok(IntTypeExpr)
  }

  /** `==`, `!=`: comparable operands; `<`, `<=`, `>`, `>=`: ordered operands. The
      result is bool. */
  function RelationalType(sym: string, ordered: bool, l: Entry, r: Entry): (res: Result<TypeExpr, string>)
    ensures ordered ==> (res.Ok? <==> IsOrdered(l) && IsOrdered(r))
    ensures !ordered ==> (res.Ok? <==> IsComparable(l) && IsComparable(r))
    ensures res.Ok? ==> res.value == BoolTypeExpr
    ensures res.Err? ==> res.error == "Relational operator '" + sym + "' can only be applied to " + (if ordered then "ordered" else "comparable")
  {
    if ordered then
      if !IsOrdered(l) || !IsOrdered(r) then Err("Relational operator '" + sym + "' can only be applied to ordered")
      else Ok(BoolTypeExpr)
    else if !IsComparable(l) || !IsComparable(r) then Err("Relational operator '" + sym + "' can only be applied to comparable")
    else Ok(BoolTypeExpr)
  }

  /** `&&`, `||`: both operands bool, result bool. */
  function ConditionalType(sym: string, l: Entry, r: Entry): (res: Result<TypeExpr, string>)
    ensures res.Ok? <==> IsBool(l) && IsBool(r)
    ensures res.Ok? ==> res.value == BoolTypeExpr
    ensures res.Err? ==> res.error == "Conditional operator '" + sym + "' can only be applied to boolean"
  {
    if !IsBool(l) || !IsBool(r) then Err("Conditional operator '" + sym + "' can only be applied to boolean")
    else Ok(BoolTypeExpr)
  }

  /** The rule for each binary operator. */
  function BinaryType(op: BinOp, l: Entry, r: Entry): (res: Result<TypeExpr, string>)
    ensures res.Ok? ==> IsPrimitiveTag(res.value)
  {
    match op
    case Add => AddType(l, r)
    case Subtract => ArithType("-", l, r)
    case Mult => ArithType("*", l, r)
    case Div => ArithType("/", l, r)
    case Mod => IntegerType("%", l, r)
    case BitAnd => IntegerType("&", l, r)
    case BitOr => IntegerType("|", l, r)
    case BitXor => IntegerType("^", l, r)
    case BitClear => IntegerType("&^", l, r)
    case BitLshift => IntegerType("<<", l, r)
    case BitRshift => IntegerType(">>", l, r)
    case Eq => RelationalType("==", false, l, r)
    case Neq => RelationalType("!=", false, l, r)
    case Lt => RelationalType("<", true, l, r)
    case Lte => RelationalType("<=", true, l, r)
    case Gt => RelationalType(">", true, l, r)
    case Gte => RelationalType(">=", true, l, r)
    case And => ConditionalType("&&", l, r)
    case Or => ConditionalType("||", l, r)
  }

  // ------------------------------------------------------------------ unary rules

  /** The rule for each unary operator. `+` and `-` need a numeric operand and keep
      float, giving int otherwise. The guards of `^` and `!` are inverted in the
      checker: `^` fails exactly on an int-like operand and `!` exactly on a bool
      one, and otherwise they give int and bool. */
  function UnaryType(op: UnOp, t: Entry): (res: Result<TypeExpr, string>)
    ensures (op.Pos? || op.Neg?) ==> (res.Ok? <==> IsNumeric(t))
    ensures (op.Pos? || op.Neg?) && res.Ok? ==> (res.value == FloatTypeExpr <==> IsFloat(t))
    ensures (op.Pos? || op.Neg?) && res.Ok? ==> (res.value == IntTypeExpr <==> IsInt(t))
    ensures op.BitComp? ==> (res.Err? <==> IsInt(t)) && (res.Ok? ==> res.value == IntTypeExpr)
    ensures op.Not? ==> (res.Err? <==> IsBool(t)) && (res.Ok? ==> res.value == BoolTypeExpr)
  {
    match op
    case Pos =>
      if !IsNumeric(t) then Err("Unary operator '+' can only be applied to numeric")
      else if IsFloat(t) then Ok(FloatTypeExpr) else Ok(IntTypeExpr)
    case Neg =>
      if !IsNumeric(t) then Err("Unary operator '-' can only be applied to numeric")
      else if IsFloat(t) then Ok(FloatTypeExpr) else Ok(IntTypeExpr)
    case BitComp =>
      if IsInt(t) then Err("Unary operator '^' can only be applied to integer")
      else Ok(IntTypeExpr)
    case Not =>
      if IsBool(t) then Err("Unary operator '!' can only be applied to boolean")
      else Ok(BoolTypeExpr)
  }

  // ------------------------------------------------------------------ the whole visit

  /** The type literals get. The hook meant for hexadecimal literals is declared
      under the octal hook's name, so it is never called and a hex literal gets no
      type; a bool literal has no hook either. */
  function LiteralType(e: Expr): Entry
  {
    match e
    case IntLitExpr(_) => Some(IntTypeExpr)
    case OctLitExpr(_) => Some(IntTypeExpr)
    case FloatLitExpr(_) => Some(FloatTypeExpr)
    case RuneLitExpr(_) => Some(RuneTypeExpr)
    case InterpretedStringLitExpr(_) => Some(StringTypeExpr)
    case RawStringLitExpr(_) => Some(StringTypeExpr)
    case _ => None
  }

  /** Depth first, children in order: the first rule to fail decides the outcome;
      otherwise the outcome is what the node's own hook records, or nothing. */
  function Check(e: Expr): (r: Result<Entry, string>)
    ensures r.Ok? && r.value.Some? ==> IsPrimitiveTag(r.value.value)
    decreases e
  {
    match e
    case Binary(op, l, rt) =>
      (match Check(l)
       case Err(m) => Err(m)
       case Ok(lt) =>
         (match Check(rt)
          case Err(m) => Err(m)
          case Ok(rty) =>
            (match BinaryType(op, lt, rty)
             case Err(m) => Err(m)
             case Ok(t) => Ok(Some(t)))))
    case Unary(op, x) =>
      (match Check(x)
       case Err(m) => Err(m)
       case Ok(xt) =>
         (match UnaryType(op, xt)
          case Err(m) => Err(m)
          case Ok(t) => Ok(Some(t))))
    case FuncCallExpr(_, args) => Untyped(CheckAll(args))
    case AppendExpr(_, x) => Untyped(ErrorOf(Check(x)))
    case TypeCastExpr(ct, x) =>
      (match CheckTypeExpr(ct)
       case Some(m) => Err(m)
       case None => Untyped(ErrorOf(Check(x))))
    case FieldExpr(o, _) => Untyped(ErrorOf(Check(o)))
    case ArrayElemExpr(a, i) =>
      (match Check(a)
       case Err(m) => Err(m)
       case Ok(_) => Untyped(ErrorOf(Check(i))))
    case _ => Ok(LiteralType(e))
  }

  function ErrorOf(r: Result<Entry, string>): Option<string>
  {
    if r.Err? then Some(r.error) else None
  }

  /** A node without a hook: its children's first error, or no type. */
  function Untyped(err: Option<string>): Result<Entry, string>
  {
    if err.Some? then Err(err.value) else Ok(None)
  }

  /** The first error among expressions visited in order. */
  function CheckAll(es: seq<Expr>): Option<string>
    decreases es
  {
    if |es| == 0 then None
    else match Check(es[0])
      case Err(m) => Some(m)
      case Ok(_) => CheckAll(es[1..])
  }

  /** The first error among the array bounds inside a type expression. */
  function CheckTypeExpr(t: TypeExpr): Option<string>
    decreases t
  {
    match t
    case ArrayTypeExpr(b, el) =>
      (match Check(b)
       case Err(m) => Some(m)
       case Ok(_) => CheckTypeExpr(el))
    case SliceTypeExpr(el) => CheckTypeExpr(el)
    case StructTypeExpr(specs) => CheckSpecs(specs)
    case _ => None
  }

  function CheckSpecs(specs: seq<FieldSpec>): Option<string>
    decreases specs
  {
    if |specs| == 0 then None
    else match CheckTypeExpr(specs[0].ftype)
      case Some(m) => Some(m)
      case None => CheckSpecs(specs[1..])
  }

  class TypeChecker {
    /** `typeTable`. Java keys it by node identity; here it is keyed by the
        expression's value, which is sound because a node's recorded type is a
        function of its subtree (invariant `Valid`). */
    var typeTable: map<Expr, TypeExpr>

    /** Every recorded type is the one the rules give the expression. */
    ghost predicate Valid()
      reads this
    {
      forall e :: e in typeTable ==> Check(e) == Ok(Some(typeTable[e]))
    }

    constructor ()
      ensures typeTable == map[] && Valid()
    {
      typeTable := map[];
    }

    /** `typeTable.get(n)`. */
    function Get(e: Expr): (t: Entry)
      reads this
      requires Valid()
      ensures t.Some? ==> Check(e) == Ok(t)
    {
      if e in typeTable then Some(typeTable[e]) else None
    }

    /** After a successful visit of `e`, the table agrees with the rules about it. */
    ghost predicate Recorded(e: Expr)
      reads this
    {
      Check(e).Ok? && (Check(e).value.Some? ==> e in typeTable && typeTable[e] == Check(e).value.value)
    }

    lemma GetRecorded(e: Expr)
      requires Valid() && Recorded(e)
      ensures Get(e) == Check(e).value
    {
    }

    /** One `typeTable.put`, of the type the rules give. */
    method Put(e: Expr, t: TypeExpr)
      requires Valid() && Check(e) == Ok(Some(t))
      modifies this
      ensures typeTable == old(typeTable)[e := t] && Valid()
    {
      typeTable := typeTable[e := t];
    }

    /** The visit of one expression: its children first, then its hook. On success
        the expression's type is recorded; on failure the message is the first
        failing rule's. Entries made before stay. */
    method Visit(e: Expr) returns (err: Option<string>)
      requires Valid()
      modifies this
      ensures Valid()
      ensures err == ErrorOf(Check(e))
      ensures err.None? ==> Recorded(e)
      ensures forall x :: x in old(typeTable) ==> x in typeTable && typeTable[x] == old(typeTable)[x]
      decreases e, 1
    {
      match e {
        case Binary(_, _, _) =>
          err := VisitBinary(e);
        case Unary(_, _) =>
          err := VisitUnary(e);
        case FuncCallExpr(_, _) =>
          err := VisitUnhooked(e);
        case AppendExpr(_, _) =>
          err := VisitUnhooked(e);
        case TypeCastExpr(_, _) =>
          err := VisitUnhooked(e);
        case FieldExpr(_, _) =>
          err := VisitUnhooked(e);
        case ArrayElemExpr(_, _) =>
          err := VisitUnhooked(e);
        case _ =>
          err := VisitLiteral(e);
      }
    }

    /** The nodes without a hook: their children are visited, and nothing is recorded. */
    method VisitUnhooked(e: Expr) returns (err: Option<string>)
      requires Valid()
      requires e.FuncCallExpr? || e.AppendExpr? || e.TypeCastExpr? || e.FieldExpr? || e.ArrayElemExpr?
      modifies this
      ensures Valid()
      ensures err == ErrorOf(Check(e))
      ensures err.None? ==> Recorded(e)
      ensures forall x :: x in old(typeTable) ==> x in typeTable && typeTable[x] == old(typeTable)[x]
      decreases e, 0
    {
      match e {
        case FuncCallExpr(_, args) =>
          err := VisitAll(args);
        case AppendExpr(_, x) =>
          err := Visit(x);
        case TypeCastExpr(ct, x) =>
          err := VisitTypeExpr(ct);
          if err.Some? { return; }
          err := Visit(x);
        case FieldExpr(o, _) =>
          err := Visit(o);
        case ArrayElemExpr(a, i) =>
          err := Visit(a);
          if err.Some? { return; }
          err := Visit(i);
      }
    }

    /** The literal hooks, and the leaves without one. */
    method VisitLiteral(e: Expr) returns (err: Option<string>)
      requires Valid()
      requires !(e.Binary? || e.Unary? || e.FuncCallExpr? || e.AppendExpr? || e.TypeCastExpr? || e.FieldExpr? || e.ArrayElemExpr?)
      modifies this
      ensures Valid()
      ensures err == ErrorOf(Check(e))
      ensures err.None? ==> Recorded(e)
      ensures forall x :: x in old(typeTable) ==> x in typeTable && typeTable[x] == old(typeTable)[x]
    {
      err := None;
      match e {
        case IntLitExpr(_) =>
          Put(e, IntTypeExpr);
        case OctLitExpr(_) =>
          Put(e, IntTypeExpr);
        case FloatLitExpr(_) =>
          Put(e, FloatTypeExpr);
        case RuneLitExpr(_) =>
          Put(e, RuneTypeExpr);
        case InterpretedStringLitExpr(_) =>
          Put(e, StringTypeExpr);
        case RawStringLitExpr(_) =>
          Put(e, StringTypeExpr);
        case _ =>
      }
    }

    /** A binary expression: both operands, then the operator's rule. */
    method VisitBinary(e: Expr) returns (err: Option<string>)
      requires Valid() && e.Binary?
      modifies this
      ensures Valid()
      ensures err == ErrorOf(Check(e))
      ensures err.None? ==> Recorded(e)
      ensures forall x :: x in old(typeTable) ==> x in typeTable && typeTable[x] == old(typeTable)[x]
      decreases e, 0
    {
      var op, l, r := e.op, e.left, e.right;
      err := Visit(l);
      if err.Some? { return; }
      err := Visit(r);
      if err.Some? { return; }
      GetRecorded(l);
      GetRecorded(r);
      var t := BinaryType(op, Get(l), Get(r));
      if t.Err? { return Some(t.error); }
      Put(e, t.value);
    }

    /** A unary expression: the operand, then the operator's rule. */
    method VisitUnary(e: Expr) returns (err: Option<string>)
      requires Valid() && e.Unary?
      modifies this
      ensures Valid()
      ensures err == ErrorOf(Check(e))
      ensures err.None? ==> Recorded(e)
      ensures forall x :: x in old(typeTable) ==> x in typeTable && typeTable[x] == old(typeTable)[x]
      decreases e, 0
    {
      var op, x := e.uop, e.operand;
      err := Visit(x);
      if err.Some? { return; }
      GetRecorded(x);
      var t := UnaryType(op, Get(x));
      if t.Err? { return Some(t.error); }
      Put(e, t.value);
    }

    /** The visit of a list of expressions, in order, stopping at the first error. */
    method VisitAll(es: seq<Expr>) returns (err: Option<string>)
      requires Valid()
      modifies this
      ensures Valid()
      ensures err == CheckAll(es)
      ensures forall x :: x in old(typeTable) ==> x in typeTable && typeTable[x] == old(typeTable)[x]
      decreases es
    {
      var i := 0;
      while i < |es|
        invariant 0 <= i <= |es|
        invariant Valid()
        invariant CheckAll(es) == CheckAll(es[i..])
        invariant forall x :: x in old(typeTable) ==> x in typeTable && typeTable[x] == old(typeTable)[x]
      {
        assert es[i..][0] == es[i] && es[i..][1..] == es[i + 1..];
        err := Visit(es[i]);
        if err.Some? { return; }
        i := i + 1;
      }
      err := None;
    }

    /** The visit of the array bounds inside a type expression. */
    method VisitTypeExpr(t: TypeExpr) returns (err: Option<string>)
      requires Valid()
      modifies this
      ensures Valid()
      ensures err == CheckTypeExpr(t)
      ensures forall x :: x in old(typeTable) ==> x in typeTable && typeTable[x] == old(typeTable)[x]
      decreases t
    {
      match t {
        case ArrayTypeExpr(b, el) =>
          err := Visit(b);
          if err.Some? {
            assert CheckTypeExpr(t) == Some(Check(b).error);
            return;
          }
          assert CheckTypeExpr(t) == CheckTypeExpr(el);
          err := VisitTypeExpr(el);
        case SliceTypeExpr(el) =>
          err := VisitTypeExpr(el);
        case StructTypeExpr(specs) =>
          var i := 0;
          err := None;
          while i < |specs|
            invariant 0 <= i <= |specs|
            invariant Valid()
            invariant err.None? && CheckSpecs(specs) == CheckSpecs(specs[i..])
            invariant forall x :: x in old(typeTable) ==> x in typeTable && typeTable[x] == old(typeTable)[x]
          {
            assert specs[i..][0] == specs[i] && specs[i..][1..] == specs[i + 1..];
            assert specs[i] in specs;
            err := VisitTypeExpr(specs[i].ftype);
            if err.Some? { return; }
            i := i + 1;
          }
          assert specs[i..] == [];
        case _ =>
          err := None;
      }
    }
  }

  // ------------------------------------------------------------------ properties

  /** The type predicates form a chain: int-like, numeric, ordered, comparable. Rune
      is int-like; bool is comparable but not ordered; float is numeric but not
      int-like; string is ordered but not numeric. */
  lemma PredicateChain(t: Entry)
    ensures IsInt(t) ==> IsNumeric(t)
    ensures IsNumeric(t) ==> IsOrdered(t)
    ensures IsOrdered(t) ==> IsComparable(t)
    ensures IsInt(Some(RuneTypeExpr)) && !IsOrdered(Some(BoolTypeExpr)) && IsComparable(Some(BoolTypeExpr))
    ensures IsNumeric(Some(FloatTypeExpr)) && !IsInt(Some(FloatTypeExpr))
    ensures IsOrdered(Some(StringTypeExpr)) && !IsNumeric(Some(StringTypeExpr))
    ensures !IsComparable(None)
  {
  }

  /** Every binary rule either fails or gives bool, int, float or string, never rune:
      rune operands combine to int. */
  lemma RuneArithmeticGivesInt(op: BinOp)
    requires BinaryType(op, Some(RuneTypeExpr), Some(RuneTypeExpr)).Ok?
    ensures BinaryType(op, Some(RuneTypeExpr), Some(RuneTypeExpr)).value != RuneTypeExpr
  {
  }

  /** The inverted guards: `^x` fails for an int operand and succeeds for a bool or
      float one; `!x` fails for a bool operand and succeeds for an int one. */
  lemma InvertedUnaryGuards(x: Expr)
    ensures Check(Unary(BitComp, IntLitExpr("1"))) == Err("Unary operator '^' can only be applied to integer")
    ensures Check(Unary(BitComp, FloatLitExpr("1.0"))) == Ok(Some(IntTypeExpr))
    ensures Check(Unary(Not, IntLitExpr("1"))) == Ok(Some(BoolTypeExpr))
    ensures Check(x).Ok? && IsBool(Check(x).value) ==> Check(Unary(Not, x)).Err?
  {
  }

  /** A hex literal gets no type, so using one as an operand fails, while the same
      value written in octal or decimal passes. */
  lemma HexLiteralUntyped(h: string, d: string)
    ensures Check(HexLitExpr(h)) == Ok(None)
    ensures Check(Binary(Add, HexLitExpr(h), IntLitExpr(d))) == Err("Binary operator '+' has miss-matched operands")
    ensures Check(Binary(Add, OctLitExpr(h), IntLitExpr(d))) == Ok(Some(IntTypeExpr))
  {
  }

  /** Operand errors come first and left before right: an expression whose left
      operand fails fails with that operand's message, whatever its right operand. */
  lemma LeftErrorFirst(op: BinOp, l: Expr, r: Expr)
    requires Check(l).Err?
    ensures Check(Binary(op, l, r)) == Check(l)
  {
  }

  /** A binary expression over typed operands has the type the operator's rule gives
      for the operands' types, and an operand with no type (a variable, a call) makes
      every binary operator fail. */
  lemma {:induction false} UntypedOperandFails(op: BinOp, l: Expr, r: Expr)
    requires Check(l) == Ok(None) && Check(r).Ok?
    ensures Check(Binary(op, l, r)).Err?
  {
    assert !IsNumeric(None) && !IsString(None) && !IsInt(None) && !IsComparable(None) && !IsBool(None);
  }

  /** A variable has no recorded type, so `x + 1` for a variable `x` fails. */
  lemma VariablesAreUntyped(x: string, d: string)
    ensures Check(VariableExpr(x)) == Ok(None)
    ensures Check(Binary(Add, VariableExpr(x), IntLitExpr(d))).Err?
  {
  }
}
