/**
 * The symbol package's own type family (`SymbolType` and its subclasses), used by
 * function symbols: arrays, slices, aliases, structs and the placeholder for an
 * inferred type. Unlike the type package, a struct here is its own underlying type.
 */
module SymbolTypes {
  import opened Strings

  datatype SymbolType =
    | ArrayS(elem: SymbolType, bound: int)
    | SliceS(elem: SymbolType)
    | AliasS(alias: string, aliased: SymbolType)
    | StructS(fields: seq<SField>)
    | ToBeInferredS

  datatype SField = SField(id: string, ftype: SymbolType)

  /** `getUnderlyingType`: arrays and slices take their element's underlying type,
      aliases delegate to the aliased type, structs and the placeholder keep the
      default of being their own. */
  function Underlying(t: SymbolType): SymbolType
  {
    match t
    case ArrayS(e, b) => ArrayS(Underlying(e), b)
    case SliceS(e) => SliceS(Underlying(e))
    case AliasS(_, a) => Underlying(a)
    case _ => t
  }

  /** `toString`. */
  function ToString(t: SymbolType): string
    decreases t
  {
    match t
    case ArrayS(e, b) => "[" + IntToString(b) + "]" + ToString(e)
    case SliceS(e) => "[]" + ToString(e)
    case AliasS(a, _) => a
    case StructS(fs) => "struct(" + Join(FieldStrings(fs, t), ", ") + ")"
    case ToBeInferredS => "[TBI]"
  }

  /** Each field printed as its id, a space and its type. */
  function FieldStrings(fs: seq<SField>, ghost owner: SymbolType): (r: seq<string>)
    requires owner.StructS? && fs == owner.fields
    ensures |r| == |fs|
    ensures forall i :: 0 <= i < |fs| ==> r[i] == fs[i].id + " " + ToString(fs[i].ftype)
    decreases owner, 0
  {
    seq(|fs|, i requires 0 <= i < |fs| => fs[i].id + " " + ToString(fs[i].ftype))
  }

  /** The underlying type is never an alias, arrays keep their bound, and taking the
      underlying type twice gives what taking it once gives. */
  lemma {:induction false} UnderlyingShape(t: SymbolType)
    ensures !Underlying(t).AliasS?
    ensures Underlying(Underlying(t)) == Underlying(t)
    ensures t.ArrayS? ==> Underlying(t) == ArrayS(Underlying(t.elem), t.bound)
    ensures t.SliceS? ==> Underlying(t) == SliceS(Underlying(t.elem))
    decreases t
  {
    match t
    case ArrayS(e, _) => UnderlyingShape(e);
    case SliceS(e) => UnderlyingShape(e);
    case AliasS(_, a) => UnderlyingShape(a);
    case _ =>
  }

  /** A chain of aliases ends at the underlying type of its first non-alias type. */
  lemma {:induction false} AliasChainCollapses(names: seq<string>, base: SymbolType)
    ensures Underlying(AliasChain(names, base)) == Underlying(base)
    decreases |names|
  {
    if |names| > 0 {
      AliasChainCollapses(names[1..], base);
    }
  }

  function AliasChain(names: seq<string>, base: SymbolType): SymbolType
    decreases |names|
  {
    if |names| == 0 then base else AliasS(names[0], AliasChain(names[1..], base))
  }

  /** A struct symbol type is its own underlying type, even when a field's type is an
      alias. */
  lemma StructIsItsOwnUnderlying(fs: seq<SField>)
    ensures Underlying(StructS(fs)) == StructS(fs)
  {
  }

  /** The printed forms: the alias name rather than what it stands for, "struct()"
      for an empty struct and one "id type" entry for a one-field struct. */
  lemma PrintedForms(a: string, s: SymbolType, f: SField)
    ensures ToString(AliasS(a, s)) == a
    ensures ToString(StructS([])) == "struct()"
    ensures ToString(StructS([f])) == "struct(" + f.id + " " + ToString(f.ftype) + ")"
  {
    assert FieldStrings([], StructS([])) == [];
    assert FieldStrings([f], StructS([f])) == [f.id + " " + ToString(f.ftype)];
    JoinSingleton(f.id + " " + ToString(f.ftype), ", ");
  }
}
