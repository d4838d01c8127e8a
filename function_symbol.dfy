/**
 * Function symbols: a name, an optional return type and the argument types, which
 * the symbol-table builder appends one argument group at a time.
 */
module FunctionSymbols {
  import opened Wrappers
  import opened Strings
  import opened SymbolTypes

  /** `count` copies of `t`. */
  function Copies(t: SymbolType, count: nat): (r: seq<SymbolType>)
    ensures |r| == count && forall i :: 0 <= i < count ==> r[i] == t
  {
    seq(count, _ => t)
  }

  /** A type printed as itself or as its underlying type. */
  function TypeString(t: SymbolType, underlying: bool): string
  {
    if underlying then SymbolTypes.ToString(Underlying(t)) else SymbolTypes.ToString(t)
  }

  function TypeStrings(ts: seq<SymbolType>, underlying: bool): (r: seq<string>)
    ensures |r| == |ts|
    ensures forall i :: 0 <= i < |ts| ==> r[i] == TypeString(ts[i], underlying)
  {
    seq(|ts|, i requires 0 <= i < |ts| => TypeString(ts[i], underlying))
  }

  lemma TypeStringsSnoc(ts: seq<SymbolType>, i: nat, underlying: bool)
    requires i < |ts|
    ensures TypeStrings(ts[..i + 1], underlying) == TypeStrings(ts[..i], underlying) + [TypeString(ts[i], underlying)]
  {
  }

  /** "(" + the printed argument types joined by ", " + ") -> (" + the printed return
      type + ")", the return type left empty when there is none. */
  function SignatureText(args: seq<string>, ret: Option<string>): string
  {
    "(" + Join(args, ", ") + ")" + " -> " + "(" + (if ret.Some? then ret.value else "") + ")"
  }

  /** The signature of argument and return types; with `underlying`, every type is
      replaced by its underlying type first. */
  function Signature(args: seq<SymbolType>, ret: Option<SymbolType>, underlying: bool): string
  {
    SignatureText(TypeStrings(args, underlying), if ret.Some? then Some(TypeString(ret.value, underlying)) else None)
  }

  class FunctionSymbol {
    var name: string
    var returnType: Option<SymbolType>
    var argTypes: seq<SymbolType>

    constructor (name: string, returnType: Option<SymbolType>)
      ensures this.name == name && this.returnType == returnType && argTypes == []
    {
      this.name := name;
      this.returnType := returnType;
      argTypes := [];
    }

    /** Replaces the argument list wholesale. */
    method SetArgTypes(ts: seq<SymbolType>)
      modifies this
      ensures argTypes == ts
      ensures name == old(name) && returnType == old(returnType)
    {
      argTypes := ts;
    }

    /** `addArgType(t)`: one more argument of type `t`. */
    method AddArgType(t: SymbolType)
      modifies this
      ensures argTypes == old(argTypes) + [t]
      ensures name == old(name) && returnType == old(returnType)
    {
      argTypes := argTypes + [t];
    }

    /** `addArgType(t, cnt)`: `cnt` more arguments of type `t`, none when `cnt` is not
        positive. */
    method AddArgTypes(t: SymbolType, cnt: int)
      modifies this
      ensures argTypes == old(argTypes) + Copies(t, if cnt > 0 then cnt else 0)
      ensures name == old(name) && returnType == old(returnType)
    {
      var i := 0;
      while i < cnt
        invariant 0 <= i <= (if cnt > 0 then cnt else 0)
        invariant argTypes == old(argTypes) + Copies(t, i)
        invariant name == old(name) && returnType == old(returnType)
      {
        assert Copies(t, i + 1) == Copies(t, i) + [t];
        argTypes := argTypes + [t];
        i := i + 1;
      }
    }

    method GetTypeString() returns (s: string)
      ensures s == Signature(argTypes, returnType, false)
    {
      s := ArgList(false);
      s := s + " -> " + "(";
      if returnType.Some? {
        s := s + SymbolTypes.ToString(returnType.value);
      }
      s := s + ")";
    }

    method GetUnderlyingTypeString() returns (s: string)
      ensures s == Signature(argTypes, returnType, true)
    {
      s := ArgList(true);
      s := s + " -> " + "(";
      if returnType.Some? {
        s := s + SymbolTypes.ToString(Underlying(returnType.value));
      }
      s := s + ")";
    }

    /** The parenthesised argument list, built with a flag that puts ", " only
        between entries. */
    method ArgList(underlying: bool) returns (s: string)
      ensures s == "(" + Join(TypeStrings(argTypes, underlying), ", ") + ")"
    {
      s := "(";
      var rest := false;
      var i := 0;
      while i < |argTypes|
        invariant 0 <= i <= |argTypes|
        invariant rest <==> i > 0
        invariant s == "(" + Join(TypeStrings(argTypes[..i], underlying), ", ")
      {
        var t := TypeString(argTypes[i], underlying);
        TypeStringsSnoc(argTypes, i, underlying);
        if rest {
          s := s + ", ";
          JoinSnoc(TypeStrings(argTypes[..i], underlying), t, ", ");
        } else {
          rest := true;
          JoinSingleton(t, ", ");
        }
        s := s + t;
        i := i + 1;
      }
      s := s + ")";
      assert argTypes[..i] == argTypes;
    }
  }

  /** The underlying-type signature is the plain signature of the underlying types. */
  lemma UnderlyingSignature(args: seq<SymbolType>, ret: Option<SymbolType>)
    ensures Signature(args, ret, true)
         == Signature(seq(|args|, i requires 0 <= i < |args| => Underlying(args[i])),
                      if ret.Some? then Some(Underlying(ret.value)) else None, false)
  {
    var us := seq(|args|, i requires 0 <= i < |args| => Underlying(args[i]));
    assert TypeStrings(args, true) == TypeStrings(us, false);
  }

  /** Without arguments and return type the signature is "() -> ()"; with one argument
      and no return type it is "(t) -> ()". */
  lemma SignatureForms(t: SymbolType)
    ensures Signature([], None, false) == "()" + " -> " + "()"
    ensures Signature([t], None, false) == "(" + SymbolTypes.ToString(t) + ")" + " -> " + "()"
  {
    assert TypeStrings([], false) == [];
    assert TypeStrings([t], false) == [SymbolTypes.ToString(t)];
    JoinSingleton(SymbolTypes.ToString(t), ", ");
  }

  /** Taking the underlying types first changes nothing in the underlying signature. */
  lemma UnderlyingSignatureStable(args: seq<SymbolType>, ret: Option<SymbolType>)
    ensures Signature(seq(|args|, i requires 0 <= i < |args| => Underlying(args[i])),
                      if ret.Some? then Some(Underlying(ret.value)) else None, true)
         == Signature(args, ret, true)
  {
    var us := seq(|args|, i requires 0 <= i < |args| => Underlying(args[i]));
    forall i | 0 <= i < |args| ensures Underlying(us[i]) == Underlying(args[i]) {
      UnderlyingShape(args[i]);
    }
    assert TypeStrings(us, true) == TypeStrings(args, true);
    if ret.Some? {
      UnderlyingShape(ret.value);
    }
  }
}
