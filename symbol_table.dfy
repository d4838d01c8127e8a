/**
 * The scoped symbol table: a stack of insertion-ordered scopes, looked up innermost
 * first, with an append-only activity log.
 */
module SymbolTables {
  import opened Wrappers
  import opened Strings
  import opened Types
  import FunctionSymbols

  /** A table entry. Variables and type aliases carry their type; a function carries
      its return type, absent when it is void, and its argument types. */
  datatype Symbol =
    | VariableSymbol(name: string, vtype: GoLiteType)
    | TypeAliasSymbol(name: string, atype: GoLiteType)
    | FunctionSymbol(name: string, returnType: Option<GoLiteType>, argTypes: seq<GoLiteType>)

  /** `getType`: absent only for a void function. */
  function TypeOf(s: Symbol): (r: Option<GoLiteType>)
    ensures r.None? <==> s.FunctionSymbol? && s.returnType.None?
  {
    match s
    case VariableSymbol(_, t) => Some(t)
    case TypeAliasSymbol(_, t) => Some(t)
    case FunctionSymbol(_, ret, _) => ret
  }

  /** The simple class name the log prints for a symbol. */
  function KindName(s: Symbol): string
  {
    match s
    case VariableSymbol(_, _) => "VariableSymbol"
    case TypeAliasSymbol(_, _) => "TypeAliasSymbol"
    case FunctionSymbol(_, _, _) => "FunctionSymbol"
  }

  /** `getTypeString`: the printed type, or a function's signature. */
  function TypeString(s: Symbol): string
  {
    match s
    case VariableSymbol(_, t) => Types.ToString(t)
    case TypeAliasSymbol(_, t) => Types.ToString(t)
    case FunctionSymbol(_, ret, args) =>
      FunctionSymbols.SignatureText(seq(|args|, i requires 0 <= i < |args| => Types.ToString(args[i])),
                                    if ret.Some? then Some(Types.ToString(ret.value)) else None)
  }

  /** The log line written when a symbol is put. */
  function PutLine(s: Symbol): string
  {
    KindName(s) + "\t" + s.name + "\t" + TypeString(s)
  }

  const Header := "(KIND\tNAME\tTYPE)"

  // ------------------------------------------------------------------ scopes

  /** One scope, an insertion-ordered map from names to symbols. */
  type Scope = seq<(string, Symbol)>

  predicate DistinctKeys(sc: Scope)
  {
    forall i, j :: 0 <= i < j < |sc| ==> sc[i].0 != sc[j].0
  }

  function ScopeGet(sc: Scope, name: string): (r: Option<Symbol>)
    ensures r.Some? <==> exists i :: 0 <= i < |sc| && sc[i].0 == name
    ensures r.Some? ==> exists i :: 0 <= i < |sc| && sc[i] == (name, r.value)
    decreases |sc|
  {
    if |sc| == 0 then None
    else if sc[0].0 == name then Some(sc[0].1)
    else
      var r := ScopeGet(sc[1..], name);
      assert forall i :: 0 < i < |sc| ==> sc[i] == sc[1..][i - 1];
      r
  }

  /** `put`: a name already present keeps its position and takes the new symbol;
      a new name goes at the end. */
  function ScopePut(sc: Scope, name: string, s: Symbol): (r: Scope)
    decreases |sc|
  {
    if |sc| == 0 then [(name, s)]
    else if sc[0].0 == name then [(name, s)] + sc[1..]
    else [sc[0]] + ScopePut(sc[1..], name, s)
  }

  /** `values`, in insertion order. */
  function Values(sc: Scope): (r: seq<Symbol>)
    ensures |r| == |sc| && forall i :: 0 <= i < |sc| ==> r[i] == sc[i].1
  {
    seq(|sc|, i requires 0 <= i < |sc| => sc[i].1)
  }

  /** After a put, the name maps to the new symbol and every other name to what it
      mapped to before. */
  lemma {:induction false} ScopePutGet(sc: Scope, name: string, s: Symbol, other: string)
    ensures ScopeGet(ScopePut(sc, name, s), other) == if other == name then Some(s) else ScopeGet(sc, other)
    decreases |sc|
  {
    if |sc| > 0 && sc[0].0 != name {
      ScopePutGet(sc[1..], name, s, other);
      var r := ScopePut(sc, name, s);
      assert r[1..] == ScopePut(sc[1..], name, s);
    } else if |sc| > 0 {
      var r := ScopePut(sc, name, s);
      assert r[1..] == sc[1..];
    }
  }

  /** A put keeps the keys distinct, overwrites in place when the name is present and
      appends otherwise. */
  lemma {:induction false} ScopePutShape(sc: Scope, name: string, s: Symbol)
    requires DistinctKeys(sc)
    ensures DistinctKeys(ScopePut(sc, name, s))
    ensures ScopeGet(sc, name).Some? ==> |ScopePut(sc, name, s)| == |sc|
    ensures ScopeGet(sc, name).None? ==> ScopePut(sc, name, s) == sc + [(name, s)]
    decreases |sc|
  {
    if |sc| > 0 {
      var r := ScopePut(sc, name, s);
      if sc[0].0 == name {
        assert r[1..] == sc[1..];
        forall i | 0 < i < |r| ensures r[i].0 != name {
          assert r[i] == sc[i];
        }
      } else {
        assert forall i :: 0 < i < |sc| ==> sc[i] == sc[1..][i - 1];
        ScopePutShape(sc[1..], name, s);
        assert r[1..] == ScopePut(sc[1..], name, s);
        ScopePutGet(sc[1..], name, s, sc[0].0);
        assert ScopeGet(sc[1..], sc[0].0).None?;
        forall i | 0 < i < |r| ensures r[i].0 != r[0].0 {
          assert r[i] == r[1..][i - 1];
        }
      }
    }
  }

  // ------------------------------------------------------------------ the stack

  /** The index, counted from the outermost scope, of the innermost scope binding
      the name. */
  function InnermostIndex(scopes: seq<Scope>, name: string): (r: Option<nat>)
    ensures r.Some? ==> (r.value < |scopes| && ScopeGet(scopes[r.value], name).Some?
      && forall k :: r.value < k < |scopes| ==> ScopeGet(scopes[k], name).None?)
    ensures r.None? <==> forall k :: 0 <= k < |scopes| ==> ScopeGet(scopes[k], name).None?
    decreases |scopes|
  {
    if |scopes| == 0 then None
    else if ScopeGet(scopes[|scopes| - 1], name).Some? then Some(|scopes| - 1)
    else InnermostIndex(scopes[..|scopes| - 1], name)
  }

  /** The innermost scope binding the name is the one above which no scope binds it. */
  lemma InnermostIndexIs(scopes: seq<Scope>, name: string, i: nat)
    requires i < |scopes| && ScopeGet(scopes[i], name).Some?
    requires forall k :: i < k < |scopes| ==> ScopeGet(scopes[k], name).None?
    ensures InnermostIndex(scopes, name) == Some(i)
  {
  }

  /** `getSymbol`: the binding in the innermost scope that has the name. */
  function Lookup(scopes: seq<Scope>, name: string): Option<Symbol>
  {
    match InnermostIndex(scopes, name)
    case None => None
    case Some(k) => ScopeGet(scopes[k], name)
  }

  /** `getScopeDepth`. */
  function Depth(scopes: seq<Scope>, name: string): Result<nat, string>
  {
    match InnermostIndex(scopes, name)
    case None => Err("ERROR: " + name + " not in Symbol table")
    case Some(k) => Ok(k)
  }

  /** The stack after a put into its innermost scope. */
  function PutTop(scopes: seq<Scope>, s: Symbol): seq<Scope>
    requires |scopes| > 0
  {
    scopes[..|scopes| - 1] + [ScopePut(scopes[|scopes| - 1], s.name, s)]
  }

  /** The log as one text, every line ended by the line separator. */
  function LogText(lines: seq<string>): string
    decreases |lines|
  {
    if |lines| == 0 then "" else LogText(lines[..|lines| - 1]) + lines[|lines| - 1] + "\n"
  }

  class SymbolTable {
    /** Outermost scope first, innermost last. */
    var scopes: seq<Scope>
    var log: seq<string>

    constructor ()
      ensures scopes == [] && log == [Header, ""]
    {
      scopes := [];
      log := [Header, ""];
    }

    /** `scope`: enter a fresh, empty innermost scope. */
    method EnterScope()
      modifies this
      ensures scopes == old(scopes) + [[]]
      ensures log == old(log) + ["ENTER SCOPE"]
    {
      scopes := scopes + [[]];
      log := log + ["ENTER SCOPE"];
    }

    /** `unscope`: drop the innermost scope. */
    method ExitScope()
      requires |scopes| > 0
      modifies this
      ensures scopes == old(scopes)[..|old(scopes)| - 1]
      ensures log == old(log) + ["EXIT SCOPE"]
    {
      scopes := scopes[..|scopes| - 1];
      log := log + ["EXIT SCOPE"];
    }

    method InGlobalScope() returns (b: bool)
      ensures b <==> |scopes| == 2
    {
      b := |scopes| == 2;
    }

    /** The scopes are searched innermost first with a counter that starts at the
        innermost index and counts down. */
    method GetScopeDepth(name: string) returns (r: Result<nat, string>)
      ensures r == Depth(scopes, name)
    {
      var i := |scopes| - 1;
      while i >= 0
        invariant -1 <= i < |scopes|
        invariant forall k :: i < k < |scopes| ==> ScopeGet(scopes[k], name).None?
      {
        if ScopeGet(scopes[i], name).Some? {
          InnermostIndexIs(scopes, name, i);
          return Ok(i);
        }
        i := i - 1;
      }
      return Err("ERROR: " + name + " not in Symbol table");
    }

    method GetSymbol(name: string) returns (r: Option<Symbol>)
      ensures r == Lookup(scopes, name)
    {
      var i := |scopes| - 1;
      while i >= 0
        invariant -1 <= i < |scopes|
        invariant forall k :: i < k < |scopes| ==> ScopeGet(scopes[k], name).None?
      {
        var s := ScopeGet(scopes[i], name);
        if s.Some? {
          InnermostIndexIs(scopes, name, i);
          return s;
        }
        i := i - 1;
      }
      return None;
    }

    /** `getSymbolType`: absent when there is no such symbol, and also for a void
        function. */
    method GetSymbolType(name: string) returns (r: Option<GoLiteType>)
      ensures r.None? <==> Lookup(scopes, name).None? || TypeOf(Lookup(scopes, name).value).None?
      ensures r.Some? ==> r == TypeOf(Lookup(scopes, name).value)
    {
      var s := GetSymbol(name);
      if s.None? {
        return None;
      }
      return TypeOf(s.value);
    }

    method GetSymbolFromCurrentScope(name: string) returns (r: Option<Symbol>)
      requires |scopes| > 0
      ensures r == ScopeGet(scopes[|scopes| - 1], name)
    {
      r := ScopeGet(scopes[|scopes| - 1], name);
    }

    method GetSymbolsFromCurrentScope() returns (r: seq<Symbol>)
      requires |scopes| > 0
      ensures r == Values(scopes[|scopes| - 1])
    {
      r := Values(scopes[|scopes| - 1]);
    }

    /** `putSymbol`: write into the innermost scope only and log the put. */
    method PutSymbol(s: Symbol)
      requires |scopes| > 0
      modifies this
      ensures scopes == PutTop(old(scopes), s)
      ensures log == old(log) + [PutLine(s)]
    {
      scopes := scopes[..|scopes| - 1] + [ScopePut(scopes[|scopes| - 1], s.name, s)];
      log := log + [PutLine(s)];
    }

    method DefSymbolInCurrentScope(name: string) returns (b: bool)
      requires |scopes| > 0
      ensures b <==> ScopeGet(scopes[|scopes| - 1], name).Some?
    {
      var s := GetSymbolFromCurrentScope(name);
      b := s.Some?;
    }

    method DefSymbol(name: string) returns (b: bool)
      ensures b <==> Lookup(scopes, name).Some?
    {
      var s := GetSymbol(name);
      b := s.Some?;
    }

    method GetLog() returns (text: string)
      ensures text == LogText(log)
    {
      text := "";
      var i := 0;
      while i < |log|
        invariant 0 <= i <= |log|
        invariant text == LogText(log[..i])
      {
        assert log[..i + 1][..i] == log[..i];
        text := text + log[i] + "\n";
        i := i + 1;
      }
      assert log[..i] == log;
    }
  }

  // ------------------------------------------------------------------ properties

  /** A put into the innermost scope makes the name resolve to the new symbol and
      leaves every other name's resolution alone. */
  lemma LookupAfterPut(scopes: seq<Scope>, s: Symbol, name: string)
    requires |scopes| > 0
    ensures Lookup(PutTop(scopes, s), name) == if name == s.name then Some(s) else Lookup(scopes, name)
    ensures |PutTop(scopes, s)| == |scopes|
    ensures forall k :: 0 <= k < |scopes| - 1 ==> PutTop(scopes, s)[k] == scopes[k]
  {
    var n := |scopes|;
    var p := PutTop(scopes, s);
    assert p[..n - 1] == scopes[..n - 1];
    ScopePutGet(scopes[n - 1], s.name, s, name);
    if ScopeGet(p[n - 1], name).None? {
      assert InnermostIndex(p, name) == InnermostIndex(p[..n - 1], name);
      assert InnermostIndex(scopes, name) == InnermostIndex(scopes[..n - 1], name);
    }
  }

  /** A name bound in the innermost scope is bound in the table, and resolves to
      that binding. */
  lemma CurrentScopeShadows(scopes: seq<Scope>, name: string)
    requires |scopes| > 0 && ScopeGet(scopes[|scopes| - 1], name).Some?
    ensures Lookup(scopes, name) == ScopeGet(scopes[|scopes| - 1], name)
    ensures Depth(scopes, name) == Ok(|scopes| - 1)
  {
  }

  /** Entering a scope hides nothing: every name resolves as before. */
  lemma EnterScopeKeepsLookup(scopes: seq<Scope>, name: string)
    ensures Lookup(scopes + [[]], name) == Lookup(scopes, name)
    ensures Depth(scopes + [[]], name) == Depth(scopes, name)
  {
    assert (scopes + [[]])[..|scopes|] == scopes;
  }

  /** A put into a freshly entered scope shadows the outer binding, and leaving the
      scope again restores it. */
  lemma ShadowThenRestore(scopes: seq<Scope>, s: Symbol)
    ensures Lookup(PutTop(scopes + [[]], s), s.name) == Some(s)
    ensures PutTop(scopes + [[]], s)[..|scopes|] == scopes
  {
    LookupAfterPut(scopes + [[]], s, s.name);
    assert (scopes + [[]])[..|scopes|] == scopes;
  }

  /** The log only grows: the text before an action is a prefix of the text after it. */
  lemma {:induction false} LogAppendOnly(lines: seq<string>, more: seq<string>)
    ensures LogText(lines + more) == LogText(lines) + LogText(more)
    decreases |more|
  {
    if |more| > 0 {
      var m := more[..|more| - 1];
      assert (lines + more)[..|lines + more| - 1] == lines + m;
      LogAppendOnly(lines, m);
    } else {
      assert lines + more == lines;
    }
  }

  /** A fresh table's log is the header line and a blank line. */
  lemma FreshLog()
    ensures LogText([Header, ""]) == Header + "\n" + "\n"
  {
    assert [Header, ""][..1] == [Header];
    assert [Header][..0] == [];
    assert LogText([Header]) == Header + "\n";
    assert LogText([Header, ""]) == LogText([Header]) + "" + "\n";
  }
}
