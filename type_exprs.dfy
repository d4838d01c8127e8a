/**
 * From type expressions to types, as the symbol-table builder's first pass does it:
 * primitives map to primitive types, names stay unresolved, array bounds are parsed as
 * Java `int`s, and struct field lists are checked for repeated names.
 */
module TypeExprs {
  import opened Wrappers
  import opened Strings
  import opened Types
  import opened Ast
  import Structs

  /** The two ways the builder fails: its own symbol-table error, or the
      `NumberFormatException` that `Integer.parseInt` throws, which nothing catches. */
  datatype BuildError = SymbolTableError(msg: string) | NumberFormatError(input: string)

  const IntMin: int := -0x8000_0000
  const IntMax: int := 0x7fff_ffff

  // ------------------------------------------------------------------ Integer.parseInt

  /** `Character.digit` over ASCII: 0-9, then letters for 10 to 35, in either case. */
  function DigitValue(c: char, radix: nat): (r: Option<nat>)
    ensures r.Some? ==> r.value < radix
  {
    var v: int :=
      if '0' <= c <= '9' then c as int - '0' as int
      else if 'a' <= c <= 'z' then c as int - 'a' as int + 10
      else if 'A' <= c <= 'Z' then c as int - 'A' as int + 10
      else 36;
    if v < radix then Some(v) else None
  }

  /** The value of a nonempty digit string, or nothing when some character is not a
      digit of the radix. */
  function DigitsValue(s: string, radix: nat): (r: Option<nat>)
    decreases |s|
  {
    if |s| == 0 then None
    else
      var d := DigitValue(s[|s| - 1], radix);
      if d.None? then None
      else if |s| == 1 then d
      else match DigitsValue(s[..|s| - 1], radix)
        case None => None
        case Some(v) => Some(v * radix + d.value)
  }

  /** `Integer.parseInt(s, radix)`: an optional sign, at least one digit, and a value
      that fits in 32 bits; anything else is refused. */
  function ParseInt(s: string, radix: nat): (r: Option<int>)
    ensures r.Some? ==> IntMin <= r.value <= IntMax
  {
    if |s| == 0 then None
    else
      var signed := s[0] == '-' || s[0] == '+';
      var digits := if signed then s[1..] else s;
      match DigitsValue(digits, radix)
      case None => None
      case Some(v) =>
        var x: int := if s[0] == '-' then -(v as int) else v;
        if IntMin <= x <= IntMax then Some(x) else None
  }

  lemma {:induction false} DigitsRejectBadChar(s: string, radix: nat, k: nat)
    requires k < |s| && DigitValue(s[k], radix).None?
    ensures DigitsValue(s, radix).None?
    decreases |s|
  {
    if k < |s| - 1 {
      assert s[..|s| - 1][k] == s[k];
      DigitsRejectBadChar(s[..|s| - 1], radix, k);
    }
  }

  /** The builder hands hex literals to radix-16 parsing with their "0x" prefix, and
      'x' is no hexadecimal digit, so such a bound never parses. */
  lemma HexPrefixNeverParses(text: string)
    requires |text| >= 2 && text[0] == '0' && (text[1] == 'x' || text[1] == 'X')
    ensures ParseInt(text, 16).None?
  {
    DigitsRejectBadChar(text, 16, 1);
  }

  lemma {:induction false} DigitsOfNatToString(n: nat)
    ensures DigitsValue(NatToString(n), 10) == Some(n)
    ensures '0' <= NatToString(n)[0] <= '9'
    decreases n
  {
    var s := NatToString(n);
    if n >= 10 {
      DigitsOfNatToString(n / 10);
      assert s[..|s| - 1] == NatToString(n / 10);
    }
  }

  /** Parsing at radix 10 what `Integer.toString` prints gives the number back. */
  lemma DecimalRoundTrip(n: int)
    requires IntMin <= n <= IntMax
    ensures ParseInt(IntToString(n), 10) == Some(n)
  {
    if n < 0 {
      DigitsOfNatToString(-n);
      assert ("-" + NatToString(-n))[1..] == NatToString(-n);
    } else {
      DigitsOfNatToString(n);
    }
  }

  /** Leading zeros do not change a digit string's value, so an octal literal's "0"
      prefix is harmless at radix 8. */
  lemma {:induction false} LeadingZeroIgnored(s: string, radix: nat)
    requires |s| > 0 && radix > 0
    ensures DigitsValue("0" + s, radix) == DigitsValue(s, radix)
    decreases |s|
  {
    var z := "0" + s;
    assert z[|z| - 1] == s[|s| - 1];
    if |s| == 1 {
      assert z[..|z| - 1] == "0";
    } else {
      assert z[..|z| - 1] == "0" + s[..|s| - 1];
      LeadingZeroIgnored(s[..|s| - 1], radix);
    }
  }

  // ------------------------------------------------------------------ getType

  /** The array bound a literal denotes: decimal, octal or hexadecimal, each by
      `Integer.parseInt` of the literal's full text. */
  function BoundOf(e: Expr): (r: Result<int, BuildError>)
    ensures r.Ok? ==> IntMin <= r.value <= IntMax
  {
    var radix: nat := if e.IntLitExpr? then 10 else if e.OctLitExpr? then 8 else 16;
    if e.IntLitExpr? || e.OctLitExpr? || e.HexLitExpr? then
      match ParseInt(e.text, radix)
      case None => Err(NumberFormatError(e.text))
      case Some(b) => Ok(b)
    else Err(SymbolTableError("Non-integer array bound"))
  }

  predicate HasId(fs: seq<Field>, id: string)
  {
    exists k :: 0 <= k < |fs| && fs[k].id == id
  }

  /** `getType` of a type expression that is present. */
  function TypeFor(t: TypeExpr): Result<GoLiteType, BuildError>
    decreases t, 2
  {
    match t
    case BoolTypeExpr => Ok(BoolT)
    case IntTypeExpr => Ok(IntT)
    case FloatTypeExpr => Ok(FloatT)
    case RuneTypeExpr => Ok(RuneT)
    case StringTypeExpr => Ok(StringT)
    case AliasTypeExpr(a) => Ok(UnTypedAlias(a))
    case ArrayTypeExpr(b, e) =>
      (match BoundOf(b)
       case Err(err) => Err(err)
       case Ok(n) =>
         match TypeFor(e)
         case Err(err) => Err(err)
         case Ok(et) => Ok(ArrayT(et, n)))
    case SliceTypeExpr(e) =>
      (match TypeFor(e)
       case Err(err) => Err(err)
       case Ok(et) => Ok(SliceT(et)))
    case StructTypeExpr(_) =>
      match FieldsFrom(t, 0, [])
      case Err(err) => Err(err)
      case Ok(fs) => Ok(StructT(fs))
  }

  /** The struct loop from field specification `i` on, given the fields added so far. */
  function FieldsFrom(t: TypeExpr, i: nat, acc: seq<Field>): Result<seq<Field>, BuildError>
    requires t.StructTypeExpr? && i <= |t.fieldSpecs|
    decreases t, 1, |t.fieldSpecs| - i
  {
    if i == |t.fieldSpecs| then Ok(acc)
    else
      match SpecFieldsFrom(t, i, 0, acc)
      case Err(err) => Err(err)
      case Ok(acc') => FieldsFrom(t, i + 1, acc')
  }

  /** The inner loop over the ids of specification `i`: blanks are skipped, a name
      already added is an error, and every other name is added with the spec's type. */
  function SpecFieldsFrom(t: TypeExpr, i: nat, j: nat, acc: seq<Field>): Result<seq<Field>, BuildError>
    requires t.StructTypeExpr? && i < |t.fieldSpecs| && j <= |t.fieldSpecs[i].ids|
    decreases t, 0, |t.fieldSpecs[i].ids| - j
  {
    var spec := t.fieldSpecs[i];
    if j == |spec.ids| then Ok(acc)
    else match spec.ids[j]
      case BlankOptId => SpecFieldsFrom(t, i, j + 1, acc)
      case IdOptId(id) =>
        if HasId(acc, id) then Err(SymbolTableError("Duplicate field " + id))
        else
          assert spec in t.fieldSpecs;
          match TypeFor(spec.ftype)
          case Err(err) => Err(err)
          case Ok(ft) => SpecFieldsFrom(t, i, j + 1, acc + [Field(id, ft)])
  }

  function IdSet(fs: seq<Field>): set<string>
  {
    set k | 0 <= k < |fs| :: fs[k].id
  }

  lemma IdSetSnoc(fs: seq<Field>, f: Field)
    ensures IdSet(fs + [f]) == IdSet(fs) + {f.id}
    ensures f.id in IdSet(fs) <==> HasId(fs, f.id)
  {
    var gs := fs + [f];
    assert gs[|fs|].id == f.id;
    forall x | x in IdSet(gs) ensures x in IdSet(fs) + {f.id} {
      var k :| 0 <= k < |gs| && gs[k].id == x;
      if k < |fs| {
        assert gs[k] == fs[k];
      }
    }
    forall x | x in IdSet(fs) ensures x in IdSet(gs) {
      var k :| 0 <= k < |fs| && fs[k].id == x;
      assert gs[k] == fs[k];
    }
  }

  /** `getType`: the struct case fills a struct type and a set of the ids seen. */
  method GetType(t: TypeExpr) returns (r: Result<GoLiteType, BuildError>)
    ensures r == TypeFor(t)
    decreases t
  {
    match t
    case ArrayTypeExpr(b, e) =>
      var bound := BoundOf(b);
      if bound.Err? {
        return Err(bound.error);
      }
      var et := GetType(e);
      if et.Err? {
        return Err(et.error);
      }
      return Ok(ArrayT(et.value, bound.value));
    case SliceTypeExpr(e) =>
      var et := GetType(e);
      if et.Err? {
        return Err(et.error);
      }
      return Ok(SliceT(et.value));
    case StructTypeExpr(specs) =>
      var st := new Structs.StructType();
      var seen: set<string> := {};
      var i := 0;
      while i < |specs|
        invariant 0 <= i <= |specs|
        invariant seen == IdSet(st.fields)
        invariant FieldsFrom(t, i, st.fields) == FieldsFrom(t, 0, [])
      {
        var ids := specs[i].ids;
        var j := 0;
        ghost var start := st.fields;
        while j < |ids|
          invariant 0 <= j <= |ids|
          invariant seen == IdSet(st.fields)
          invariant SpecFieldsFrom(t, i, j, st.fields) == SpecFieldsFrom(t, i, 0, start)
        {
          if ids[j].IdOptId? {
            var id := ids[j].id;
            if id in seen {
              return Err(SymbolTableError("Duplicate field " + id));
            }
            assert specs[i] in specs;
            var ft := GetType(specs[i].ftype);
            if ft.Err? {
              return Err(ft.error);
            }
            IdSetSnoc(st.fields, Field(id, ft.value));
            st.AddField(id, ft.value);
            seen := seen + {id};
          }
          j := j + 1;
        }
        i := i + 1;
      }
      return Ok(StructT(st.fields));
    case _ =>
      return TypeFor(t);
  }

  // ------------------------------------------------------------------ struct fields

  /** The named fields a list of field specifications declares, blanks skipped, in
      declaration order, each with its spec's type expression. */
  function SpecDecls(ids: seq<OptId>, ft: TypeExpr): seq<(string, TypeExpr)>
    decreases |ids|
  {
    if |ids| == 0 then []
    else (if ids[0].IdOptId? then [(ids[0].id, ft)] else []) + SpecDecls(ids[1..], ft)
  }

  function Decls(specs: seq<FieldSpec>): seq<(string, TypeExpr)>
    decreases |specs|
  {
    if |specs| == 0 then [] else SpecDecls(specs[0].ids, specs[0].ftype) + Decls(specs[1..])
  }

  /** Each declared field name with the outcome of `getType` on its type. */
  function Items(ds: seq<(string, TypeExpr)>): (r: seq<(string, Result<GoLiteType, BuildError>)>)
    ensures |r| == |ds| && forall k :: 0 <= k < |ds| ==> r[k] == (ds[k].0, TypeFor(ds[k].1))
  {
    seq(|ds|, k requires 0 <= k < |ds| => (ds[k].0, TypeFor(ds[k].1)))
  }

  /** The struct loop over named fields whose types are already computed. */
  function Scan(items: seq<(string, Result<GoLiteType, BuildError>)>, acc: seq<Field>): Result<seq<Field>, BuildError>
    decreases |items|
  {
    if |items| == 0 then Ok(acc)
    else if HasId(acc, items[0].0) then Err(SymbolTableError("Duplicate field " + items[0].0))
    else match items[0].1
      case Err(err) => Err(err)
      case Ok(ft) => Scan(items[1..], acc + [Field(items[0].0, ft)])
  }

  lemma {:induction false} ScanAppend(a: seq<(string, Result<GoLiteType, BuildError>)>, b: seq<(string, Result<GoLiteType, BuildError>)>, acc: seq<Field>)
    ensures Scan(a + b, acc) == match Scan(a, acc) case Err(err) => Err(err) case Ok(acc') => Scan(b, acc')
    decreases |a|
  {
    if |a| == 0 {
      assert a + b == b;
    } else {
      assert (a + b)[0] == a[0];
      assert (a + b)[1..] == a[1..] + b;
      if !HasId(acc, a[0].0) && a[0].1.Ok? {
        ScanAppend(a[1..], b, acc + [Field(a[0].0, a[0].1.value)]);
      }
    }
  }

  lemma {:induction false} SpecBridge(t: TypeExpr, i: nat, j: nat, acc: seq<Field>)
    requires t.StructTypeExpr? && i < |t.fieldSpecs| && j <= |t.fieldSpecs[i].ids|
    ensures SpecFieldsFrom(t, i, j, acc)
         == Scan(Items(SpecDecls(t.fieldSpecs[i].ids[j..], t.fieldSpecs[i].ftype)), acc)
    decreases |t.fieldSpecs[i].ids| - j
  {
    var spec := t.fieldSpecs[i];
    var rest := spec.ids[j..];
    if j < |spec.ids| {
      assert rest[1..] == spec.ids[j + 1..];
      var tail := SpecDecls(spec.ids[j + 1..], spec.ftype);
      if spec.ids[j].IdOptId? {
        var id := spec.ids[j].id;
        var its := Items(SpecDecls(rest, spec.ftype));
        assert SpecDecls(rest, spec.ftype) == [(id, spec.ftype)] + tail;
        assert its[0] == (id, TypeFor(spec.ftype));
        assert its[1..] == Items(tail);
        if !HasId(acc, id) && TypeFor(spec.ftype).Ok? {
          SpecBridge(t, i, j + 1, acc + [Field(id, TypeFor(spec.ftype).value)]);
        }
      } else {
        assert SpecDecls(rest, spec.ftype) == tail;
        SpecBridge(t, i, j + 1, acc);
      }
    }
  }

  lemma {:induction false} FieldsBridge(t: TypeExpr, i: nat, acc: seq<Field>)
    requires t.StructTypeExpr? && i <= |t.fieldSpecs|
    ensures FieldsFrom(t, i, acc) == Scan(Items(Decls(t.fieldSpecs[i..])), acc)
    decreases |t.fieldSpecs| - i
  {
    var specs := t.fieldSpecs;
    if i < |specs| {
      var head := SpecDecls(specs[i].ids, specs[i].ftype);
      assert specs[i..][1..] == specs[i + 1..];
      assert Decls(specs[i..]) == head + Decls(specs[i + 1..]);
      assert Items(head + Decls(specs[i + 1..])) == Items(head) + Items(Decls(specs[i + 1..]));
      assert specs[i].ids[0..] == specs[i].ids;
      SpecBridge(t, i, 0, acc);
      ScanAppend(Items(head), Items(Decls(specs[i + 1..])), acc);
      match SpecFieldsFrom(t, i, 0, acc)
      case Err(_) =>
      case Ok(acc') => FieldsBridge(t, i + 1, acc');
    }
  }

  predicate DistinctIds(fs: seq<Field>)
  {
    forall a, b :: 0 <= a < b < |fs| ==> fs[a].id != fs[b].id
  }

  /** A successful scan adds exactly one field per item, in order, with the item's
      type, and never a name twice. */
  lemma {:induction false} ScanOk(items: seq<(string, Result<GoLiteType, BuildError>)>, acc: seq<Field>)
    requires DistinctIds(acc) && Scan(items, acc).Ok?
    ensures var fs := Scan(items, acc).value;
      |fs| == |acc| + |items| && fs[..|acc|] == acc && DistinctIds(fs)
      && forall k :: 0 <= k < |items| ==> items[k].1 == Ok(fs[|acc| + k].ftype) && fs[|acc| + k].id == items[k].0
    decreases |items|
  {
    if |items| > 0 {
      var acc' := acc + [Field(items[0].0, items[0].1.value)];
      forall a, b | 0 <= a < b < |acc'| ensures acc'[a].id != acc'[b].id {
        if b == |acc| {
          assert acc'[a] == acc[a];
        }
      }
      ScanOk(items[1..], acc');
      var fs := Scan(items, acc).value;
      assert fs[..|acc|] == fs[..|acc'|][..|acc|];
      forall k | 0 <= k < |items| ensures items[k].1 == Ok(fs[|acc| + k].ftype) && fs[|acc| + k].id == items[k].0 {
        if k > 0 {
          assert items[k] == items[1..][k - 1];
        } else {
          assert fs[|acc|] == fs[..|acc'|][|acc|];
        }
      }
    }
  }

  /** When every item's type is fine and no item repeats a name or one already added,
      the scan succeeds. */
  lemma {:induction false} ScanSucceeds(items: seq<(string, Result<GoLiteType, BuildError>)>, acc: seq<Field>)
    requires forall k :: 0 <= k < |items| ==> items[k].1.Ok? && !HasId(acc, items[k].0)
    requires forall a, b :: 0 <= a < b < |items| ==> items[a].0 != items[b].0
    ensures Scan(items, acc).Ok?
    decreases |items|
  {
    if |items| > 0 {
      var acc' := acc + [Field(items[0].0, items[0].1.value)];
      forall k | 0 <= k < |items[1..]| ensures items[1..][k].1.Ok? && !HasId(acc', items[1..][k].0) {
        assert items[1..][k] == items[k + 1];
        forall w | 0 <= w < |acc'| ensures acc'[w].id != items[k + 1].0 {
          if w < |acc| {
            assert acc'[w] == acc[w];
          }
        }
      }
      ScanSucceeds(items[1..], acc');
    }
  }

  /** When every field's type is fine but some field name repeats, the scan stops at the
      first repetition with "Duplicate field <name>". */
  lemma {:induction false} ScanDuplicate(items: seq<(string, Result<GoLiteType, BuildError>)>, acc: seq<Field>, b: nat)
    requires b < |items| && forall k :: 0 <= k < |items| ==> items[k].1.Ok?
    requires HasId(acc, items[b].0) || exists a :: 0 <= a < b && items[a].0 == items[b].0
    ensures exists x :: Scan(items, acc) == Err(SymbolTableError("Duplicate field " + x))
    decreases |items|
  {
    if !HasId(acc, items[0].0) {
      var acc' := acc + [Field(items[0].0, items[0].1.value)];
      assert b > 0;
      if HasId(acc, items[b].0) {
        var w :| 0 <= w < |acc| && acc[w].id == items[b].0;
        assert acc'[w] == acc[w];
      } else {
        var a :| 0 <= a < b && items[a].0 == items[b].0;
        if a == 0 {
          assert acc'[|acc|].id == items[b].0;
        } else {
          assert items[1..][a - 1] == items[a];
        }
      }
      assert items[1..][b - 1] == items[b];
      ScanDuplicate(items[1..], acc', b - 1);
    }
  }

  /** The struct case of `getType` is the scan over the declared field names. */
  lemma StructViaScan(specs: seq<FieldSpec>)
    ensures TypeFor(StructTypeExpr(specs))
         == match Scan(Items(Decls(specs)), []) case Err(err) => Err(err) case Ok(fs) => Ok(StructT(fs))
  {
    assert specs[0..] == specs;
    FieldsBridge(StructTypeExpr(specs), 0, []);
  }

  predicate DistinctNames(ds: seq<(string, TypeExpr)>)
  {
    forall a, b :: 0 <= a < b < |ds| ==> ds[a].0 != ds[b].0
  }

  /** A struct type expression that resolves gives one field per named id, blanks
      skipped, in declaration order, each with its spec's type, and no name twice. */
  lemma StructFieldsInOrder(specs: seq<FieldSpec>)
    requires TypeFor(StructTypeExpr(specs)).Ok?
    ensures var r := TypeFor(StructTypeExpr(specs)).value; var ds := Decls(specs);
      r.StructT? && |r.fields| == |ds| && DistinctIds(r.fields) && DistinctNames(ds)
      && forall k :: 0 <= k < |ds| ==> r.fields[k].id == ds[k].0 && TypeFor(ds[k].1) == Ok(r.fields[k].ftype)
  {
    var ds := Decls(specs);
    StructViaScan(specs);
    ScanOk(Items(ds), []);
    var fs := Scan(Items(ds), []).value;
    forall a, b | 0 <= a < b < |ds| ensures ds[a].0 != ds[b].0 {
      assert fs[a].id != fs[b].id;
    }
  }

  /** When every field type resolves, a struct type expression resolves exactly when
      its field names are distinct, and otherwise fails with "Duplicate field <name>". */
  lemma StructDuplicateFields(specs: seq<FieldSpec>)
    requires forall k :: 0 <= k < |Decls(specs)| ==> TypeFor(Decls(specs)[k].1).Ok?
    ensures TypeFor(StructTypeExpr(specs)).Ok? <==> DistinctNames(Decls(specs))
    ensures TypeFor(StructTypeExpr(specs)).Err? ==>
      exists x :: TypeFor(StructTypeExpr(specs)) == Err(SymbolTableError("Duplicate field " + x))
  {
    var ds := Decls(specs);
    var its := Items(ds);
    StructViaScan(specs);
    if DistinctNames(ds) {
      ScanSucceeds(its, []);
    } else {
      var a, b :| 0 <= a < b < |ds| && ds[a].0 == ds[b].0;
      ScanDuplicate(its, [], b);
    }
  }

  /** The primitive keywords map to the primitive types and type names stay unresolved;
      a bound that is not an integer literal is refused as "Non-integer array bound". */
  lemma BasicTypeExprs(a: string, b: Expr, e: TypeExpr)
    ensures TypeFor(BoolTypeExpr) == Ok(BoolT) && TypeFor(IntTypeExpr) == Ok(IntT)
    ensures TypeFor(FloatTypeExpr) == Ok(FloatT) && TypeFor(RuneTypeExpr) == Ok(RuneT)
    ensures TypeFor(StringTypeExpr) == Ok(StringT)
    ensures TypeFor(AliasTypeExpr(a)) == Ok(UnTypedAlias(a))
    ensures !(b.IntLitExpr? || b.OctLitExpr? || b.HexLitExpr?) ==>
      TypeFor(ArrayTypeExpr(b, e)) == Err(SymbolTableError("Non-integer array bound"))
  {
  }

  /** Decimal and octal bounds give their value; a hexadecimal bound written with its
      "0x" prefix always fails to parse. */
  lemma ArrayBounds(n: int, octal: string, hex: string, e: TypeExpr)
    requires 0 <= n <= IntMax
    requires |octal| > 0 && DigitsValue(octal, 8).Some? && DigitsValue(octal, 8).value <= IntMax
    requires |hex| >= 2 && hex[0] == '0' && (hex[1] == 'x' || hex[1] == 'X')
    requires TypeFor(e).Ok?
    ensures TypeFor(ArrayTypeExpr(IntLitExpr(IntToString(n)), e)) == Ok(ArrayT(TypeFor(e).value, n))
    ensures TypeFor(ArrayTypeExpr(OctLitExpr("0" + octal), e)) == Ok(ArrayT(TypeFor(e).value, DigitsValue(octal, 8).value))
    ensures TypeFor(ArrayTypeExpr(HexLitExpr(hex), e)) == Err(NumberFormatError(hex))
  {
    DecimalRoundTrip(n);
    LeadingZeroIgnored(octal, 8);
    HexPrefixNeverParses(hex);
  }
}
