/**
 * The GoLite type lattice: primitive, void, array, slice, alias and struct types,
 * plus the two placeholder types the symbol-table builder uses while it resolves
 * declarations. Equality is Java's `equals`: structural for arrays, slices and
 * structs, nominal for aliases, by class for primitives and void.
 */
module Types {
  import opened Wrappers
  import opened Strings

  datatype GoLiteType =
    | IntT | FloatT | BoolT | RuneT | StringT
    | VoidT
    | ArrayT(elem: GoLiteType, bound: int)
    | SliceT(elem: GoLiteType)
    | AliasT(alias: string, aliased: GoLiteType)
    | StructT(fields: seq<Field>)
      /** The type of a variable whose type is inferred from its initialiser. */
    | ToBeInferred
      /** A reference to a type name that has not been resolved yet. */
    | UnTypedAlias(name: string)

  datatype Field = Field(id: string, ftype: GoLiteType)

  predicate IsPrimitive(t: GoLiteType)
  {
    t.IntT? || t.FloatT? || t.BoolT? || t.RuneT? || t.StringT?
  }

  /** `getUnderlyingType`: aliases are looked through, arrays, slices and structs take
      the underlying types of their parts, every other type is its own. */
  function Underlying(t: GoLiteType): GoLiteType
    decreases t
  {
    match t
    case ArrayT(e, b) => ArrayT(Underlying(e), b)
    case SliceT(e) => SliceT(Underlying(e))
    case AliasT(_, a) => Underlying(a)
    case StructT(fs) => StructT(UnderlyingFields(fs, t))
    case _ => t
  }

  /** The fields with their underlying types: the loop of `StructType.getUnderlyingType`. */
  function UnderlyingFields(fs: seq<Field>, ghost owner: GoLiteType): (r: seq<Field>)
    requires owner.StructT? && fs == owner.fields
    ensures |r| == |fs|
    ensures forall i :: 0 <= i < |fs| ==> r[i].id == fs[i].id
    decreases owner, 0
  {
    seq(|fs|, i requires 0 <= i < |fs| => Field(fs[i].id, Underlying(fs[i].ftype)))
  }

  /** No alias anywhere inside the type. */
  predicate AliasFree(t: GoLiteType)
    decreases t
  {
    match t
    case AliasT(_, _) => false
    case ArrayT(e, _) => AliasFree(e)
    case SliceT(e) => AliasFree(e)
    case StructT(fs) => forall i :: 0 <= i < |fs| ==> AliasFree(fs[i].ftype)
    case _ => true
  }

  /** Java `equals`. The two placeholder types are compared by identity in the source;
      here two placeholders are equal when they are the same value. */
  predicate Equals(a: GoLiteType, b: GoLiteType)
    decreases a
  {
    match a
    case IntT => b.IntT?
    case FloatT => b.FloatT?
    case BoolT => b.BoolT?
    case RuneT => b.RuneT?
    case StringT => b.StringT?
    case VoidT => b.VoidT?
    case ArrayT(e, n) => b.ArrayT? && Equals(e, b.elem) && n == b.bound
    case SliceT(e) => b.SliceT? && Equals(e, b.elem)
    case AliasT(x, _) => b.AliasT? && x == b.alias
    case StructT(fs) =>
      b.StructT? && |fs| == |b.fields|
      && forall i :: 0 <= i < |fs| ==> fs[i].id == b.fields[i].id && Equals(fs[i].ftype, b.fields[i].ftype)
    case ToBeInferred => b == a
    case UnTypedAlias(_) => b == a
  }

  /** `isCompatible`, where the source defines it: the primitive types accept any type
      whose underlying type is of their own class, arrays accept arrays with the same
      bound and compatible elements. The slice, alias, struct, void and placeholder
      types do not implement it; for them the result is `None`. */
  function IsCompatible(t: GoLiteType, other: GoLiteType): (r: Option<bool>)
    ensures IsPrimitive(t) ==> r.Some?
    decreases t
  {
    match t
    case IntT => Some(Underlying(other).IntT?)
    case FloatT => Some(Underlying(other).FloatT?)
    case BoolT => Some(Underlying(other).BoolT?)
    case RuneT => Some(Underlying(other).RuneT?)
    case StringT => Some(Underlying(other).StringT?)
    case ArrayT(e, n) =>
      if !other.ArrayT? || n != other.bound then Some(false) else IsCompatible(e, other.elem)
    case _ => None
  }

  /** `toString`. */
  function ToString(t: GoLiteType): string
    decreases t
  {
    match t
    case IntT => "int"
    case FloatT => "float64"
    case BoolT => "bool"
    case RuneT => "rune"
    case StringT => "string"
    case VoidT => ""
    case ArrayT(e, n) => "[" + IntToString(n) + "]" + ToString(e)
    case SliceT(e) => "[]" + ToString(e)
    case AliasT(a, _) => a
    case StructT(fs) => "struct(" + Join(FieldStrings(fs, t), ", ") + ")"
    case ToBeInferred => "[TBI]"
    case UnTypedAlias(a) => a
  }

  /** Each field printed as its id, a space and its type. */
  function FieldStrings(fs: seq<Field>, ghost owner: GoLiteType): (r: seq<string>)
    requires owner.StructT? && fs == owner.fields
    ensures |r| == |fs|
    ensures forall i :: 0 <= i < |fs| ==> r[i] == fs[i].id + " " + ToString(fs[i].ftype)
    decreases owner, 0
  {
    seq(|fs|, i requires 0 <= i < |fs| => fs[i].id + " " + ToString(fs[i].ftype))
  }

  /** An alias chain `names[0]` → `names[1]` → … → `base`. */
  function AliasChain(names: seq<string>, base: GoLiteType): GoLiteType
    decreases |names|
  {
    if |names| == 0 then base else AliasT(names[0], AliasChain(names[1..], base))
  }

  // ---------------------------------------------------------------- underlying types

  /** The underlying type holds no alias, and taking it again changes nothing. */
  lemma {:induction false} UnderlyingIsAliasFree(t: GoLiteType)
    ensures AliasFree(Underlying(t))
    ensures Underlying(Underlying(t)) == Underlying(t)
    decreases t
  {
    match t
    case ArrayT(e, _) => UnderlyingIsAliasFree(e);
    case SliceT(e) => UnderlyingIsAliasFree(e);
    case AliasT(_, a) => UnderlyingIsAliasFree(a);
    case StructT(fs) =>
      var u := UnderlyingFields(fs, t);
      forall i | 0 <= i < |fs|
        ensures AliasFree(u[i].ftype) && Underlying(u[i].ftype) == u[i].ftype
      {
        UnderlyingIsAliasFree(fs[i].ftype);
      }
      var uu := UnderlyingFields(u, StructT(u));
      assert uu == u;
    case _ =>
  }

  /** An alias-free type is its own underlying type. */
  lemma {:induction false} AliasFreeIsUnderlying(t: GoLiteType)
    requires AliasFree(t)
    ensures Underlying(t) == t
    decreases t
  {
    match t
    case ArrayT(e, _) => AliasFreeIsUnderlying(e);
    case SliceT(e) => AliasFreeIsUnderlying(e);
    case StructT(fs) =>
      forall i | 0 <= i < |fs| ensures Underlying(fs[i].ftype) == fs[i].ftype {
        AliasFreeIsUnderlying(fs[i].ftype);
      }
      assert UnderlyingFields(fs, t) == fs;
    case _ =>
  }

  /** An alias chain collapses to the underlying type of the first non-alias type. */
  lemma {:induction false} AliasChainCollapses(names: seq<string>, base: GoLiteType)
    ensures Underlying(AliasChain(names, base)) == Underlying(base)
    decreases |names|
  {
    if |names| > 0 {
      AliasChainCollapses(names[1..], base);
    }
  }

  /** Shapes survive: arrays keep their bound, structs their field ids and order. */
  lemma UnderlyingKeepsShape(t: GoLiteType)
    ensures t.ArrayT? ==> Underlying(t).ArrayT? && Underlying(t).bound == t.bound
    ensures t.SliceT? ==> Underlying(t).SliceT?
    ensures t.StructT? ==> (Underlying(t).StructT? && |Underlying(t).fields| == |t.fields|
      && forall i :: 0 <= i < |t.fields| ==> Underlying(t).fields[i].id == t.fields[i].id)
    ensures IsPrimitive(t) || t.VoidT? ==> Underlying(t) == t
  {
  }

  // ---------------------------------------------------------------- equality

  lemma {:induction false} EqualsReflexive(t: GoLiteType)
    ensures Equals(t, t)
    decreases t
  {
    match t
    case ArrayT(e, _) => EqualsReflexive(e);
    case SliceT(e) => EqualsReflexive(e);
    case StructT(fs) =>
      forall i | 0 <= i < |fs| ensures Equals(fs[i].ftype, fs[i].ftype) {
        EqualsReflexive(fs[i].ftype);
      }
    case _ =>
  }

  lemma {:induction false} EqualsSymmetric(a: GoLiteType, b: GoLiteType)
    requires Equals(a, b)
    ensures Equals(b, a)
    decreases a
  {
    match a
    case ArrayT(e, _) => EqualsSymmetric(e, b.elem);
    case SliceT(e) => EqualsSymmetric(e, b.elem);
    case StructT(fs) =>
      forall i | 0 <= i < |fs| ensures Equals(b.fields[i].ftype, fs[i].ftype) {
        EqualsSymmetric(fs[i].ftype, b.fields[i].ftype);
      }
    case _ =>
  }

  lemma {:induction false} EqualsTransitive(a: GoLiteType, b: GoLiteType, c: GoLiteType)
    requires Equals(a, b) && Equals(b, c)
    ensures Equals(a, c)
    decreases a
  {
    match a
    case ArrayT(e, _) => EqualsTransitive(e, b.elem, c.elem);
    case SliceT(e) => EqualsTransitive(e, b.elem, c.elem);
    case StructT(fs) =>
      forall i | 0 <= i < |fs| ensures Equals(fs[i].ftype, c.fields[i].ftype) {
        EqualsTransitive(fs[i].ftype, b.fields[i].ftype, c.fields[i].ftype);
      }
    case _ =>
  }

  /** Aliases are equal iff their names are, whatever they stand for. */
  lemma AliasEqualityIsNominal(x: string, s: GoLiteType, y: string, t: GoLiteType)
    ensures Equals(AliasT(x, s), AliasT(y, t)) <==> x == y
    ensures x != y ==> !Equals(AliasT(x, s), AliasT(y, s))
  {
  }

  /** Primitive types are equal iff they are of the same class, and never equal a
      type of another kind. */
  lemma PrimitiveEquality(p: GoLiteType, t: GoLiteType)
    requires IsPrimitive(p)
    ensures Equals(p, t) <==> p == t
    ensures !IsPrimitive(t) ==> !Equals(p, t) && !Equals(t, p)
  {
  }

  /** Every void type equals every other, and nothing else. */
  lemma VoidEquality(t: GoLiteType)
    ensures Equals(VoidT, t) <==> t.VoidT?
    ensures Equals(t, VoidT) <==> t.VoidT?
  {
  }

  /** Arrays are equal iff their elements are and the bounds match; slices iff their
      elements are. */
  lemma ContainerEquality(e: GoLiteType, n: int, f: GoLiteType, m: int)
    ensures Equals(ArrayT(e, n), ArrayT(f, m)) <==> Equals(e, f) && n == m
    ensures Equals(SliceT(e), SliceT(f)) <==> Equals(e, f)
    ensures !Equals(ArrayT(e, n), SliceT(f)) && !Equals(SliceT(f), ArrayT(e, n))
  {
    var a, b := ArrayT(e, n), ArrayT(f, m);
    assert b.elem == f && b.bound == m;
    var c, d := SliceT(e), SliceT(f);
    assert d.elem == f;
  }

  // ---------------------------------------------------------------- compatibility

  /** A primitive type is compatible with exactly the types whose underlying type is
      of its class, in particular with any alias chain ending in it. */
  lemma PrimitiveCompatibility(p: GoLiteType, names: seq<string>)
    requires IsPrimitive(p)
    ensures IsCompatible(p, AliasChain(names, p)) == Some(true)
  {
    AliasChainCollapses(names, p);
  }

  /** int and rune are not compatible either way, nor float64 with either, nor bool or
      string with any other primitive. */
  lemma DistinctPrimitivesIncompatible(p: GoLiteType, q: GoLiteType)
    requires IsPrimitive(p) && IsPrimitive(q) && p != q
    ensures IsCompatible(p, q) == Some(false)
  {
  }

  /** An array accepts exactly the arrays with the same bound whose elements its own
      element type accepts. */
  lemma ArrayCompatibility(e: GoLiteType, n: int, t: GoLiteType)
    ensures IsCompatible(ArrayT(e, n), t) == Some(true)
        <==> t.ArrayT? && t.bound == n && IsCompatible(e, t.elem) == Some(true)
  {
  }

  /** Types without an `isCompatible` of their own have no answer. */
  lemma MissingCompatibility(t: GoLiteType, other: GoLiteType)
    requires t.SliceT? || t.AliasT? || t.StructT? || t.VoidT? || t.ToBeInferred? || t.UnTypedAlias?
    ensures IsCompatible(t, other).None?
  {
  }

  // ---------------------------------------------------------------- printing

  lemma PrintedForms(e: GoLiteType, n: int, a: string, s: GoLiteType)
    ensures ToString(ArrayT(e, n)) == "[" + IntToString(n) + "]" + ToString(e)
    ensures ToString(SliceT(e)) == "[]" + ToString(e)
    ensures ToString(AliasT(a, s)) == a
    ensures ToString(StructT([])) == "struct()"
  {
    assert FieldStrings([], StructT([])) == [];
  }
}
