/**
 * `getResolvedType`: replacing every unresolved type name by an alias of what the
 * symbol table says it names, with a stack of the aliases being resolved to catch
 * recursive definitions. The stack is threaded through explicitly: a resolution
 * returns the stack as it left it.
 */
module AliasResolution {
  import opened Wrappers
  import opened Types
  import opened SymbolTables

  /** Every name bound in some scope. */
  function AllKeys(scopes: seq<Scope>): set<string>
  {
    set i, j | 0 <= i < |scopes| && 0 <= j < |scopes[i]| :: scopes[i][j].0
  }

  /** The bound names not yet on the alias stack: the names a resolution can still
      look up. */
  function Pending(scopes: seq<Scope>, stack: seq<string>): set<string>
  {
    set x | x in AllKeys(scopes) && x !in stack
  }

  lemma PendingPush(scopes: seq<Scope>, stack: seq<string>, a: string)
    ensures |Pending(scopes, stack + [a])| <= |Pending(scopes, stack)|
    ensures a in AllKeys(scopes) && a !in stack ==> |Pending(scopes, stack + [a])| < |Pending(scopes, stack)|
  {
    var p, q := Pending(scopes, stack + [a]), Pending(scopes, stack);
    assert p <= q;
    assert q == p + (q - p) && p * (q - p) == {};
    if a in AllKeys(scopes) && a !in stack {
      assert a in q - p;
    }
  }

  lemma LookupIsKeyed(scopes: seq<Scope>, name: string)
    requires Lookup(scopes, name).Some?
    ensures name in AllKeys(scopes)
  {
    var k := InnermostIndex(scopes, name).value;
    var j :| 0 <= j < |scopes[k]| && scopes[k][j].0 == name;
  }

  /** No unresolved type name anywhere inside the type. */
  predicate NoUntyped(t: GoLiteType)
    decreases t
  {
    match t
    case UnTypedAlias(_) => false
    case AliasT(_, a) => NoUntyped(a)
    case ArrayT(e, _) => NoUntyped(e)
    case SliceT(e) => NoUntyped(e)
    case StructT(fs) => forall i :: 0 <= i < |fs| ==> NoUntyped(fs[i].ftype)
    case _ => true
  }

  /** What a symbol found for a type name stands for. A void function has no type;
      the source passes that null on unchanged, and the model writes `VoidT` for it. */
  function AliasedType(s: Symbol): GoLiteType
  {
    match TypeOf(s)
    case None => VoidT
    case Some(t) => t
  }

  datatype Resolution = Resolution(result: Result<GoLiteType, string>, after: seq<string>)

  datatype FieldsResolution = FieldsResolution(fields: Result<seq<Field>, string>, fafter: seq<string>)

  /** The step after resolving the type an alias stands for, with the alias pushed:
      on success pop it and wrap the result; on failure leave the stack as it is. */
  function Popped(a: string, inner: Resolution, ghost stack: seq<string>): (r: Resolution)
    requires |stack| + 1 <= |inner.after| && inner.after[..|stack| + 1] == stack + [a]
    requires inner.result.Ok? ==> inner.after == stack + [a] && NoUntyped(inner.result.value)
    ensures r.result.Ok? ==> r.after == stack && NoUntyped(r.result.value)
    ensures r.result.Ok? ==> inner.result.Ok? && r.result.value == AliasT(a, inner.result.value)
    ensures r.result.Err? ==> r == inner
    ensures |stack| <= |r.after| && r.after[..|stack|] == stack
  {
    if inner.result.Ok? then
      Resolution(Ok(AliasT(a, inner.result.value)), inner.after[..|inner.after| - 1])
    else
      assert inner.after[..|stack|] == inner.after[..|stack| + 1][..|stack|];
      inner
  }

  function Resolve(t: GoLiteType, stack: seq<string>, scopes: seq<Scope>): (r: Resolution)
    ensures r.result.Ok? ==> r.after == stack && NoUntyped(r.result.value)
    ensures |stack| <= |r.after| && r.after[..|stack|] == stack
    decreases |Pending(scopes, stack)|, t
  {
    match t
    case AliasT(a, aliased) =>
      if a in stack then Resolution(Err("Invalid recursive type " + a), stack)
      else
        PendingPush(scopes, stack, a);
        var inner := Resolve(aliased, stack + [a], scopes);
        assert inner.after[..|stack| + 1] == stack + [a];
        Popped(a, inner, stack)
    case UnTypedAlias(a) =>
      if a in stack then Resolution(Err("Invalid recursive type " + a), stack)
      else
        (match Lookup(scopes, a)
         case None => Resolution(Err("Undefined: " + a), stack)
         case Some(s) =>
           LookupIsKeyed(scopes, a);
           PendingPush(scopes, stack, a);
           var inner := Resolve(AliasedType(s), stack + [a], scopes);
           assert inner.after[..|stack| + 1] == stack + [a];
           Popped(a, inner, stack))
    case ArrayT(e, b) =>
      var r := Resolve(e, stack, scopes);
      if r.result.Ok? then Resolution(Ok(ArrayT(r.result.value, b)), r.after) else r
    case SliceT(e) =>
      var r := Resolve(e, stack, scopes);
      if r.result.Ok? then Resolution(Ok(SliceT(r.result.value)), r.after) else r
    case StructT(fs) =>
      var r := ResolveFields(fs, stack, scopes);
      if r.fields.Ok? then Resolution(Ok(StructT(r.fields.value)), r.fafter)
      else Resolution(Err(r.fields.error), r.fafter)
    case _ => Resolution(Ok(t), stack)
  }

  /** The fields of a struct resolved in order, ids kept, stopping at the first failure. */
  function ResolveFields(fs: seq<Field>, stack: seq<string>, scopes: seq<Scope>): (r: FieldsResolution)
    ensures r.fields.Ok? ==> (r.fafter == stack && |r.fields.value| == |fs|
      && forall i :: 0 <= i < |fs| ==> r.fields.value[i].id == fs[i].id && NoUntyped(r.fields.value[i].ftype))
    ensures |stack| <= |r.fafter| && r.fafter[..|stack|] == stack
    decreases |Pending(scopes, stack)|, fs
  {
    if |fs| == 0 then FieldsResolution(Ok([]), stack)
    else
      var h := Resolve(fs[0].ftype, stack, scopes);
      if h.result.Err? then FieldsResolution(Err(h.result.error), h.after)
      else
        var rest := ResolveFields(fs[1..], stack, scopes);
        if rest.fields.Err? then rest
        else
          var out := [Field(fs[0].id, h.result.value)] + rest.fields.value;
          assert forall i :: 1 <= i < |fs| ==> out[i] == rest.fields.value[i - 1] && fs[i] == fs[1..][i - 1];
          FieldsResolution(Ok(out), stack)
  }

  // ------------------------------------------------------------------ properties

  /** An alias, resolved or not, whose name is already being resolved fails as a
      recursive type; an unresolved name the table does not know fails as undefined. */
  lemma FailureMessages(a: string, s: GoLiteType, stack: seq<string>, scopes: seq<Scope>)
    ensures a in stack ==> Resolve(AliasT(a, s), stack, scopes).result == Err("Invalid recursive type " + a)
    ensures a in stack ==> Resolve(UnTypedAlias(a), stack, scopes).result == Err("Invalid recursive type " + a)
    ensures a !in stack && Lookup(scopes, a).None? ==>
      Resolve(UnTypedAlias(a), stack, scopes).result == Err("Undefined: " + a)
  {
  }

  /** A name bound to a type alias that names itself is reported as a recursive type,
      and so is a pair of names that name each other. */
  lemma SelfReferenceFails(a: string, scopes: seq<Scope>)
    requires Lookup(scopes, a).Some? && AliasedType(Lookup(scopes, a).value) == UnTypedAlias(a)
    ensures Resolve(UnTypedAlias(a), [], scopes).result == Err("Invalid recursive type " + a)
  {
    assert [] + [a] == [a];
    assert Resolve(UnTypedAlias(a), [a], scopes).result == Err("Invalid recursive type " + a);
  }

  lemma MutualReferenceFails(a: string, b: string, scopes: seq<Scope>)
    requires a != b
    requires Lookup(scopes, a).Some? && AliasedType(Lookup(scopes, a).value) == UnTypedAlias(b)
    requires Lookup(scopes, b).Some? && AliasedType(Lookup(scopes, b).value) == UnTypedAlias(a)
    ensures Resolve(UnTypedAlias(a), [], scopes).result == Err("Invalid recursive type " + a)
  {
    assert [] + [a] == [a];
    assert [a] + [b] == [a, b];
    var r2 := Resolve(UnTypedAlias(a), [a, b], scopes);
    assert r2.result == Err("Invalid recursive type " + a);
    var r1 := Resolve(UnTypedAlias(b), [a], scopes);
    assert r1.result == r2.result;
  }

  /** A type with no alias of either kind in it resolves to itself, whatever the stack
      and the table. */
  lemma {:induction false} ResolveIdentity(t: GoLiteType, stack: seq<string>, scopes: seq<Scope>)
    requires AliasFree(t) && NoUntyped(t)
    ensures Resolve(t, stack, scopes) == Resolution(Ok(t), stack)
    decreases t, 1
  {
    match t
    case ArrayT(e, _) => ResolveIdentity(e, stack, scopes);
    case SliceT(e) => ResolveIdentity(e, stack, scopes);
    case StructT(fs) => FieldsIdentity(fs, stack, scopes, t);
    case _ =>
  }

  lemma {:induction false} FieldsIdentity(fs: seq<Field>, stack: seq<string>, scopes: seq<Scope>, owner: GoLiteType)
    requires owner.StructT? && AliasFree(owner) && NoUntyped(owner)
    requires |fs| <= |owner.fields| && fs == owner.fields[|owner.fields| - |fs|..]
    ensures ResolveFields(fs, stack, scopes) == FieldsResolution(Ok(fs), stack)
    decreases owner, 0, |fs|
  {
    if |fs| > 0 {
      var k := |owner.fields| - |fs|;
      assert fs[0] == owner.fields[k];
      ResolveIdentity(fs[0].ftype, stack, scopes);
      assert fs[1..] == owner.fields[|owner.fields| - |fs[1..]|..];
      FieldsIdentity(fs[1..], stack, scopes, owner);
      assert [Field(fs[0].id, fs[0].ftype)] + fs[1..] == fs;
    }
  }

  /** Resolution keeps the structure: arrays keep their bound, slices stay slices,
      structs keep their field ids in order, and base types come back unchanged. */
  lemma ResolveKeepsShape(t: GoLiteType, stack: seq<string>, scopes: seq<Scope>)
    requires Resolve(t, stack, scopes).result.Ok?
    ensures var u := Resolve(t, stack, scopes).result.value;
      (t.ArrayT? ==> u == ArrayT(Resolve(t.elem, stack, scopes).result.value, t.bound))
      && (t.SliceT? ==> u == SliceT(Resolve(t.elem, stack, scopes).result.value))
      && (t.StructT? ==> (u.StructT? && |u.fields| == |t.fields|
            && forall i :: 0 <= i < |t.fields| ==> u.fields[i].id == t.fields[i].id))
      && (t.AliasT? ==> u.AliasT? && u.alias == t.alias)
      && (t.UnTypedAlias? ==> u.AliasT? && u.alias == t.name)
      && (IsPrimitive(t) || t.VoidT? || t.ToBeInferred? ==> u == t)
  {
  }

  /** A name bound to a symbol whose type resolves comes back as an alias of that name
      over the resolved type. */
  lemma ResolveBoundName(a: string, stack: seq<string>, scopes: seq<Scope>)
    requires a !in stack && Lookup(scopes, a).Some?
    requires Resolve(AliasedType(Lookup(scopes, a).value), stack + [a], scopes).result.Ok?
    ensures Resolve(UnTypedAlias(a), stack, scopes).result
         == Ok(AliasT(a, Resolve(AliasedType(Lookup(scopes, a).value), stack + [a], scopes).result.value))
  {
  }
}
