/**
 * The symbol-table builder: the universe scope with `true` and `false`, the first
 * pass that declares every top-level variable, type and function in the global scope,
 * and the resolution of every global symbol's type once the pass is done.
 */
module SymbolTableBuilders {
  import opened Wrappers
  import opened Types
  import opened Ast
  import opened SymbolTables
  import opened TypeExprs
  import opened AliasResolution

  /** The part of the table the builder changes: the scopes and the log. */
  datatype TableState = TableState(scopes: seq<Scope>, log: seq<string>)

  /** Where a pass left the table, and the error that stopped it, if any. */
  datatype Outcome = Outcome(state: TableState, error: Option<BuildError>)

  function Top(st: TableState): Scope
    requires |st.scopes| > 0
  {
    st.scopes[|st.scopes| - 1]
  }

  predicate Declared(st: TableState, id: string)
    requires |st.scopes| > 0
  {
    ScopeGet(Top(st), id).Some?
  }

  /** `putSymbol` on the state. */
  function Put(st: TableState, s: Symbol): (r: TableState)
    requires |st.scopes| > 0
    ensures |r.scopes| == |st.scopes|
  {
    TableState(PutTop(st.scopes, s), st.log + [PutLine(s)])
  }

  function Redeclared(id: string): BuildError
  {
    SymbolTableError(id + " redeclared in this block")
  }

  const TrueSymbol := VariableSymbol("true", BoolT)
  const FalseSymbol := VariableSymbol("false", BoolT)

  /** The universe scope: `true` then `false`, both boolean variables. */
  function Universe(): Scope
  {
    [("true", TrueSymbol), ("false", FalseSymbol)]
  }

  // ------------------------------------------------------------------ first pass

  /** Top-level variables: every named id is checked for redeclaration, and only an id
      whose spec has a type is put, as a variable of that type. */
  function VarsFrom(st: TableState, specs: seq<VarSpec>, i: nat, j: nat): (o: Outcome)
    requires |st.scopes| > 0 && i <= |specs| && (i < |specs| ==> j <= |specs[i].ids|)
    ensures |o.state.scopes| == |st.scopes|
    decreases |specs| - i, if i < |specs| then |specs[i].ids| - j else 0
  {
    if i == |specs| then Outcome(st, None)
    else if j == |specs[i].ids| then VarsFrom(st, specs, i + 1, 0)
    else match specs[i].ids[j]
      case BlankOptId => VarsFrom(st, specs, i, j + 1)
      case IdOptId(id) =>
        if Declared(st, id) then Outcome(st, Some(Redeclared(id)))
        else if specs[i].vtype.None? then VarsFrom(st, specs, i, j + 1)
        else match TypeFor(specs[i].vtype.value)
          case Err(e) => Outcome(st, Some(e))
          case Ok(t) => VarsFrom(Put(st, VariableSymbol(id, t)), specs, i, j + 1)
  }

  /** Top-level types: every named spec is checked for redeclaration and put as a type
      alias symbol. */
  function TypesFrom(st: TableState, specs: seq<TypeSpec>, i: nat): (o: Outcome)
    requires |st.scopes| > 0 && i <= |specs|
    ensures |o.state.scopes| == |st.scopes|
    decreases |specs| - i
  {
    if i == |specs| then Outcome(st, None)
    else match specs[i].name
      case BlankOptId => TypesFrom(st, specs, i + 1)
      case IdOptId(id) =>
        if Declared(st, id) then Outcome(st, Some(Redeclared(id)))
        else match TypeFor(specs[i].texpr)
          case Err(e) => Outcome(st, Some(e))
          case Ok(t) => TypesFrom(Put(st, TypeAliasSymbol(id, t)), specs, i + 1)
  }

  /** The argument types from group `k` on, appended to those collected so far: one
      copy of the group's type per identifier of the group. */
  function ArgTypesFrom(groups: seq<ArgGroup>, k: nat, acc: seq<GoLiteType>): Result<seq<GoLiteType>, BuildError>
    requires k <= |groups|
    decreases |groups| - k
  {
    if k == |groups| then Ok(acc)
    else match TypeFor(groups[k].argType)
      case Err(e) => Err(e)
      case Ok(t) => ArgTypesFrom(groups, k + 1, acc + seq(|groups[k].argIds|, _ => t))
  }

  function ArgCount(groups: seq<ArgGroup>): nat
    decreases |groups|
  {
    if |groups| == 0 then 0 else |groups[0].argIds| + ArgCount(groups[1..])
  }

  /** A top-level function: redeclaration check, then the return type, then the
      argument types, then the put. */
  function FuncFrom(st: TableState, f: string, groups: seq<ArgGroup>, ret: Option<TypeExpr>): (o: Outcome)
    requires |st.scopes| > 0
    ensures |o.state.scopes| == |st.scopes|
  {
    if Declared(st, f) then Outcome(st, Some(Redeclared(f)))
    else
      var rt: Result<Option<GoLiteType>, BuildError> :=
        if ret.None? then Ok(None)
        else match TypeFor(ret.value) case Err(e) => Err(e) case Ok(t) => Ok(Some(t));
      if rt.Err? then Outcome(st, Some(rt.error))
      else match ArgTypesFrom(groups, 0, [])
        case Err(e) => Outcome(st, Some(e))
        case Ok(args) => Outcome(Put(st, FunctionSymbol(f, rt.value, args)), None)
  }

  function TopDecStep(st: TableState, d: TopDec): (o: Outcome)
    requires |st.scopes| > 0
    ensures |o.state.scopes| == |st.scopes|
  {
    match d
    case VarsTopDec(specs) => VarsFrom(st, specs, 0, 0)
    case TypesTopDec(specs) => TypesFrom(st, specs, 0)
    case FuncTopDec(f, groups, ret, _) => FuncFrom(st, f, groups, ret)
  }

  /** The first pass over the top-level declarations from index `i` on. */
  function FirstPassFrom(st: TableState, decs: seq<TopDec>, i: nat): (o: Outcome)
    requires |st.scopes| > 0 && i <= |decs|
    ensures |o.state.scopes| == |st.scopes|
    decreases |decs| - i
  {
    if i == |decs| then Outcome(st, None)
    else
      var o := TopDecStep(st, decs[i]);
      if o.error.Some? then o else FirstPassFrom(o.state, decs, i + 1)
  }

  // ------------------------------------------------------------------ resolving the globals

  predicate SymbolResolved(s: Symbol)
  {
    match s
    case VariableSymbol(_, t) => NoUntyped(t)
    case TypeAliasSymbol(_, t) => NoUntyped(t)
    case FunctionSymbol(_, ret, args) =>
      (ret.Some? ==> NoUntyped(ret.value)) && forall k :: 0 <= k < |args| ==> NoUntyped(args[k])
  }

  /** Each argument type resolved with a fresh alias stack. */
  function ResolveArgs(args: seq<GoLiteType>, scopes: seq<Scope>): (r: Result<seq<GoLiteType>, string>)
    ensures r.Ok? ==> |r.value| == |args| && forall k :: 0 <= k < |args| ==> NoUntyped(r.value[k])
    decreases |args|
  {
    if |args| == 0 then Ok([])
    else match Resolve(args[0], [], scopes).result
      case Err(m) => Err(m)
      case Ok(t) =>
        match ResolveArgs(args[1..], scopes)
        case Err(m) => Err(m)
        case Ok(rest) =>
          assert forall k :: 1 <= k < |args| ==> ([t] + rest)[k] == rest[k - 1];
          Ok([t] + rest)
  }

  /** A symbol with its type resolved; a function has its return type resolved first,
      then its arguments. The name and the kind of symbol stay. */
  function ResolveSymbol(s: Symbol, scopes: seq<Scope>): (r: Result<Symbol, string>)
    ensures r.Ok? ==> r.value.name == s.name && SymbolResolved(r.value)
    ensures r.Ok? ==> (r.value.VariableSymbol? <==> s.VariableSymbol?) && (r.value.TypeAliasSymbol? <==> s.TypeAliasSymbol?)
    ensures r.Ok? && s.FunctionSymbol? ==> (r.value.FunctionSymbol?
      && (r.value.returnType.Some? <==> s.returnType.Some?) && |r.value.argTypes| == |s.argTypes|)
  {
    match s
    case VariableSymbol(n, t) =>
      (match Resolve(t, [], scopes).result
       case Err(m) => Err(m)
       case Ok(u) => Ok(VariableSymbol(n, u)))
    case TypeAliasSymbol(n, t) =>
      (match Resolve(t, [], scopes).result
       case Err(m) => Err(m)
       case Ok(u) => Ok(TypeAliasSymbol(n, u)))
    case FunctionSymbol(n, ret, args) =>
      var rr: Result<Option<GoLiteType>, string> :=
        if ret.None? then Ok(None)
        else match Resolve(ret.value, [], scopes).result case Err(m) => Err(m) case Ok(u) => Ok(Some(u));
      if rr.Err? then Err(rr.error)
      else match ResolveArgs(args, scopes)
        case Err(m) => Err(m)
        case Ok(us) => Ok(FunctionSymbol(n, rr.value, us))
  }

  /** The innermost scope with the symbol at position `k` replaced, in place. */
  function SetTopSymbol(scopes: seq<Scope>, k: nat, s: Symbol): (r: seq<Scope>)
    requires |scopes| > 0 && k < |scopes[|scopes| - 1]|
    ensures |r| == |scopes| && r[..|scopes| - 1] == scopes[..|scopes| - 1]
    ensures |r[|r| - 1]| == |scopes[|scopes| - 1]|
  {
    var top := scopes[|scopes| - 1];
    scopes[..|scopes| - 1] + [top[k := (top[k].0, s)]]
  }

  /** The resolution of the global symbols from position `k` on, in insertion order;
      each lookup sees the symbols resolved before it. */
  function GlobalsFrom(scopes: seq<Scope>, k: nat): (r: (seq<Scope>, Option<BuildError>))
    requires |scopes| > 0 && k <= |scopes[|scopes| - 1]|
    ensures |r.0| == |scopes| && r.0[..|scopes| - 1] == scopes[..|scopes| - 1]
    ensures |r.0[|r.0| - 1]| == |scopes[|scopes| - 1]|
    decreases |scopes[|scopes| - 1]| - k
  {
    var top := scopes[|scopes| - 1];
    if k == |top| then (scopes, None)
    else match ResolveSymbol(top[k].1, scopes)
      case Err(m) => (scopes, Some(SymbolTableError(m)))
      case Ok(s) =>
        var next := SetTopSymbol(scopes, k, s);
        var r := GlobalsFrom(next, k + 1);
        assert r.0[..|scopes| - 1] == next[..|scopes| - 1];
        r
  }

  /** One step of the resolution: the symbol at `k` fails, or the rest goes on from
      the table with it resolved. */
  lemma GlobalsStep(scopes: seq<Scope>, k: nat)
    requires |scopes| > 0 && k < |scopes[|scopes| - 1]|
    ensures var r := ResolveSymbol(scopes[|scopes| - 1][k].1, scopes);
      GlobalsFrom(scopes, k)
        == if r.Err? then (scopes, Some(SymbolTableError(r.error))) else GlobalsFrom(SetTopSymbol(scopes, k, r.value), k + 1)
  {
  }

  lemma GlobalsDone(scopes: seq<Scope>)
    requires |scopes| > 0
    ensures GlobalsFrom(scopes, |scopes[|scopes| - 1]|) == (scopes, None)
  {
  }

  /** The whole visit of a program, from the state after `inStart`: enter the global
      scope, make the first pass, then resolve the globals. */
  function BuildSpec(st: TableState, prog: Prog): (o: Outcome)
  {
    var entered := TableState(st.scopes + [[]], st.log + ["ENTER SCOPE"]);
    var first := FirstPassFrom(entered, prog.topDecs, 0);
    if first.error.Some? then first
    else
      var resolved := GlobalsFrom(first.state.scopes, 0);
      Outcome(TableState(resolved.0, first.state.log), resolved.1)
  }

  // ------------------------------------------------------------------ the builder

  class SymbolTableBuilder {
    var table: SymbolTable

    function State(): TableState
      reads this, table
    {
      TableState(table.scopes, table.log)
    }

    /** `inStart`: a new table whose universe scope holds `true` and `false`. */
    constructor ()
      ensures fresh(table)
      ensures table.scopes == [Universe()]
      ensures table.log == [Header, "", "ENTER SCOPE", PutLine(TrueSymbol), PutLine(FalseSymbol)]
    {
      var t := new SymbolTable();
      t.EnterScope();
      t.PutSymbol(TrueSymbol);
      t.PutSymbol(FalseSymbol);
      table := t;
      ghost var e: seq<Scope> := [[]];
      ghost var one: seq<Scope> := [[("true", TrueSymbol)]];
      assert e[..0] == [] && one[..0] == [];
      assert ScopePut([], "true", TrueSymbol) == [("true", TrueSymbol)];
      assert [("true", TrueSymbol)][1..] == [];
      assert ScopePut([("true", TrueSymbol)], "false", FalseSymbol) == Universe();
    }

    method CheckDeclared(id: string) returns (err: Option<BuildError>)
      requires |table.scopes| > 0
      ensures err == if Declared(State(), id) then Some(Redeclared(id)) else None
    {
      var d := table.DefSymbolInCurrentScope(id);
      err := if d then Some(Redeclared(id)) else None;
    }

    method DeclareVars(specs: seq<VarSpec>) returns (err: Option<BuildError>)
      requires |table.scopes| > 0
      modifies table
      ensures Outcome(State(), err) == VarsFrom(old(State()), specs, 0, 0)
    {
      var i := 0;
      while i < |specs|
        invariant 0 <= i <= |specs| && |table.scopes| > 0
        invariant VarsFrom(State(), specs, i, 0) == VarsFrom(old(State()), specs, 0, 0)
      {
        var ids := specs[i].ids;
        var j := 0;
        while j < |ids|
          invariant 0 <= j <= |ids| && |table.scopes| > 0
          invariant VarsFrom(State(), specs, i, j) == VarsFrom(old(State()), specs, 0, 0)
        {
          if ids[j].IdOptId? {
            var id := ids[j].id;
            err := CheckDeclared(id);
            if err.Some? {
              return;
            }
            if specs[i].vtype.Some? {
              var t := GetType(specs[i].vtype.value);
              if t.Err? {
                return Some(t.error);
              }
              table.PutSymbol(VariableSymbol(id, t.value));
            }
          }
          j := j + 1;
        }
        i := i + 1;
      }
      return None;
    }

    method DeclareTypes(specs: seq<TypeSpec>) returns (err: Option<BuildError>)
      requires |table.scopes| > 0
      modifies table
      ensures Outcome(State(), err) == TypesFrom(old(State()), specs, 0)
    {
      var i := 0;
      while i < |specs|
        invariant 0 <= i <= |specs| && |table.scopes| > 0
        invariant TypesFrom(State(), specs, i) == TypesFrom(old(State()), specs, 0)
      {
        if specs[i].name.IdOptId? {
          var id := specs[i].name.id;
          err := CheckDeclared(id);
          if err.Some? {
            return;
          }
          var t := GetType(specs[i].texpr);
          if t.Err? {
            return Some(t.error);
          }
          table.PutSymbol(TypeAliasSymbol(id, t.value));
        }
        i := i + 1;
      }
      return None;
    }

    method DeclareFunc(f: string, groups: seq<ArgGroup>, ret: Option<TypeExpr>) returns (err: Option<BuildError>)
      requires |table.scopes| > 0
      modifies table
      ensures Outcome(State(), err) == FuncFrom(old(State()), f, groups, ret)
    {
      err := CheckDeclared(f);
      if err.Some? {
        return;
      }
      var rt: Option<GoLiteType> := None;
      if ret.Some? {
        var t := GetType(ret.value);
        if t.Err? {
          return Some(t.error);
        }
        rt := Some(t.value);
      }
      var args: seq<GoLiteType> := [];
      var k := 0;
      while k < |groups|
        invariant 0 <= k <= |groups|
        invariant State() == old(State())
        invariant ArgTypesFrom(groups, k, args) == ArgTypesFrom(groups, 0, [])
      {
        var t := GetType(groups[k].argType);
        if t.Err? {
          return Some(t.error);
        }
        args := args + seq(|groups[k].argIds|, _ => t.value);
        k := k + 1;
      }
      table.PutSymbol(FunctionSymbol(f, rt, args));
      return None;
    }

    method FirstPass(decs: seq<TopDec>) returns (err: Option<BuildError>)
      requires |table.scopes| > 0
      modifies table
      ensures Outcome(State(), err) == FirstPassFrom(old(State()), decs, 0)
    {
      var i := 0;
      while i < |decs|
        invariant 0 <= i <= |decs| && |table.scopes| > 0
        invariant FirstPassFrom(State(), decs, i) == FirstPassFrom(old(State()), decs, 0)
      {
        match decs[i] {
          case VarsTopDec(specs) => err := DeclareVars(specs);
          case TypesTopDec(specs) => err := DeclareTypes(specs);
          case FuncTopDec(f, groups, ret, _) => err := DeclareFunc(f, groups, ret);
        }
        if err.Some? {
          return;
        }
        i := i + 1;
      }
      return None;
    }

    /** `outAProgProg`: every symbol of the current scope gets its type resolved, in
        insertion order, each with a fresh alias stack. */
    method ResolveGlobals() returns (err: Option<BuildError>)
      requires |table.scopes| > 0
      modifies table
      ensures (table.scopes, err) == GlobalsFrom(old(table.scopes), 0)
      ensures table.log == old(table.log)
    {
      ghost var goal := GlobalsFrom(table.scopes, 0);
      var k := 0;
      var scopes := table.scopes;
      var n := |scopes[|scopes| - 1]|;
      while k < n
        invariant 0 <= k <= n && |scopes| > 0 && n == |scopes[|scopes| - 1]|
        invariant table.scopes == scopes && table.log == old(table.log)
        invariant GlobalsFrom(scopes, k) == goal
      {
        var top := scopes[|scopes| - 1];
        var r := ResolveSymbol(top[k].1, scopes);
        GlobalsStep(scopes, k);
        if r.Err? {
          return Some(SymbolTableError(r.error));
        }
        scopes := SetTopSymbol(scopes, k, r.value);
        table.scopes := scopes;
        k := k + 1;
      }
      GlobalsDone(scopes);
      return None;
    }

    /** `inAProgProg` and `outAProgProg`: enter the global scope, make the first pass,
        then resolve the global symbols. */
    method VisitProg(prog: Prog) returns (err: Option<BuildError>)
      modifies table
      ensures Outcome(State(), err) == BuildSpec(old(State()), prog)
    {
      table.EnterScope();
      err := FirstPass(prog.topDecs);
      if err.Some? {
        return;
      }
      err := ResolveGlobals();
    }
  }

  // ------------------------------------------------------------------ properties

  /** The universe scope binds exactly `true` and `false`, both of type bool, in that
      order of insertion. */
  lemma UniverseContents(x: string)
    ensures Lookup([Universe()], x) == if x == "true" then Some(TrueSymbol) else if x == "false" then Some(FalseSymbol) else None
    ensures Values(Universe()) == [TrueSymbol, FalseSymbol]
    ensures TypeOf(TrueSymbol) == Some(BoolT) && TypeOf(FalseSymbol) == Some(BoolT)
  {
    assert Universe()[1..] == [("false", FalseSymbol)];
    assert Universe()[1..][1..] == [];
  }

  /** A later state of the same table: same depth, outer scopes untouched, the log
      extended, and every name declared in the current scope still declared. */
  ghost predicate Grows(st: TableState, st': TableState)
    requires |st.scopes| > 0
  {
    |st'.scopes| == |st.scopes| && st'.scopes[..|st.scopes| - 1] == st.scopes[..|st.scopes| - 1]
    && |st.log| <= |st'.log| && st'.log[..|st.log|] == st.log
    && forall x :: Declared(st, x) ==> Declared(st', x)
  }

  lemma PutGrows(st: TableState, s: Symbol)
    requires |st.scopes| > 0
    ensures Grows(st, Put(st, s)) && Declared(Put(st, s), s.name)
  {
    var st' := Put(st, s);
    assert st'.scopes[..|st.scopes| - 1] == st.scopes[..|st.scopes| - 1];
    assert Top(st') == ScopePut(Top(st), s.name, s);
    forall x ensures ScopeGet(Top(st'), x) == if x == s.name then Some(s) else ScopeGet(Top(st), x) {
      ScopePutGet(Top(st), s.name, s, x);
    }
  }

  lemma GrowsTrans(a: TableState, b: TableState, c: TableState)
    requires |a.scopes| > 0 && Grows(a, b) && Grows(b, c)
    ensures Grows(a, c)
  {
    assert c.log[..|a.log|] == c.log[..|b.log|][..|a.log|];
    assert c.scopes[..|a.scopes| - 1] == c.scopes[..|b.scopes| - 1];
  }

  lemma GrowsRefl(st: TableState)
    requires |st.scopes| > 0
    ensures Grows(st, st)
  {
  }

  lemma {:induction false} VarsGrows(st: TableState, specs: seq<VarSpec>, i: nat, j: nat)
    requires |st.scopes| > 0 && i <= |specs| && (i < |specs| ==> j <= |specs[i].ids|)
    ensures Grows(st, VarsFrom(st, specs, i, j).state)
    decreases |specs| - i, if i < |specs| then |specs[i].ids| - j else 0
  {
    if i == |specs| {
      GrowsRefl(st);
    } else if j == |specs[i].ids| {
      VarsGrows(st, specs, i + 1, 0);
    } else if specs[i].ids[j].BlankOptId? {
      VarsGrows(st, specs, i, j + 1);
    } else {
      var id := specs[i].ids[j].id;
      if Declared(st, id) {
        GrowsRefl(st);
      } else if specs[i].vtype.None? {
        VarsGrows(st, specs, i, j + 1);
      } else if TypeFor(specs[i].vtype.value).Err? {
        GrowsRefl(st);
      } else {
        var st' := Put(st, VariableSymbol(id, TypeFor(specs[i].vtype.value).value));
        PutGrows(st, VariableSymbol(id, TypeFor(specs[i].vtype.value).value));
        VarsGrows(st', specs, i, j + 1);
        GrowsTrans(st, st', VarsFrom(st', specs, i, j + 1).state);
      }
    }
  }

  lemma {:induction false} TypesGrows(st: TableState, specs: seq<TypeSpec>, i: nat)
    requires |st.scopes| > 0 && i <= |specs|
    ensures Grows(st, TypesFrom(st, specs, i).state)
    decreases |specs| - i
  {
    if i == |specs| {
      GrowsRefl(st);
    } else if specs[i].name.BlankOptId? {
      TypesGrows(st, specs, i + 1);
    } else {
      var id := specs[i].name.id;
      if Declared(st, id) || TypeFor(specs[i].texpr).Err? {
        GrowsRefl(st);
      } else {
        var s := TypeAliasSymbol(id, TypeFor(specs[i].texpr).value);
        PutGrows(st, s);
        TypesGrows(Put(st, s), specs, i + 1);
        GrowsTrans(st, Put(st, s), TypesFrom(Put(st, s), specs, i + 1).state);
      }
    }
  }

  lemma StepGrows(st: TableState, d: TopDec)
    requires |st.scopes| > 0
    ensures Grows(st, TopDecStep(st, d).state)
  {
    match d
    case VarsTopDec(specs) => VarsGrows(st, specs, 0, 0);
    case TypesTopDec(specs) => TypesGrows(st, specs, 0);
    case FuncTopDec(f, groups, ret, _) =>
      var o := FuncFrom(st, f, groups, ret);
      if o.error.None? {
        var rt := if ret.None? then None else Some(TypeFor(ret.value).value);
        PutGrows(st, FunctionSymbol(f, rt, ArgTypesFrom(groups, 0, []).value));
      } else {
        GrowsRefl(st);
      }
  }

  /** The first pass only ever writes into the current scope and only appends to the
      log; nothing it declares is later undeclared. */
  lemma {:induction false} FirstPassGrows(st: TableState, decs: seq<TopDec>, i: nat)
    requires |st.scopes| > 0 && i <= |decs|
    ensures Grows(st, FirstPassFrom(st, decs, i).state)
    decreases |decs| - i
  {
    if i == |decs| {
      GrowsRefl(st);
    } else {
      var o := TopDecStep(st, decs[i]);
      StepGrows(st, decs[i]);
      if o.error.None? {
        FirstPassGrows(o.state, decs, i + 1);
        GrowsTrans(st, o.state, FirstPassFrom(o.state, decs, i + 1).state);
      }
    }
  }

  /** The named ids of the var specs from spec `i`, id `j` on. */
  function RemainingVarIds(specs: seq<VarSpec>, i: nat, j: nat): seq<string>
    requires i <= |specs| && (i < |specs| ==> j <= |specs[i].ids|)
    decreases |specs| - i, if i < |specs| then |specs[i].ids| - j else 0
  {
    if i == |specs| then []
    else if j == |specs[i].ids| then RemainingVarIds(specs, i + 1, 0)
    else (if specs[i].ids[j].IdOptId? then [specs[i].ids[j].id] else []) + RemainingVarIds(specs, i, j + 1)
  }

  /** A var declaration that goes through redeclares no name the current scope already
      had. */
  lemma {:induction false} VarsNoRedeclaration(st: TableState, specs: seq<VarSpec>, i: nat, j: nat)
    requires |st.scopes| > 0 && i <= |specs| && (i < |specs| ==> j <= |specs[i].ids|)
    requires VarsFrom(st, specs, i, j).error.None?
    ensures forall x :: x in RemainingVarIds(specs, i, j) ==> !Declared(st, x)
    decreases |specs| - i, if i < |specs| then |specs[i].ids| - j else 0
  {
    if i == |specs| {
    } else if j == |specs[i].ids| {
      VarsNoRedeclaration(st, specs, i + 1, 0);
    } else if specs[i].ids[j].BlankOptId? {
      VarsNoRedeclaration(st, specs, i, j + 1);
    } else {
      var id := specs[i].ids[j].id;
      if specs[i].vtype.None? {
        VarsNoRedeclaration(st, specs, i, j + 1);
      } else {
        var s := VariableSymbol(id, TypeFor(specs[i].vtype.value).value);
        VarsNoRedeclaration(Put(st, s), specs, i, j + 1);
        PutGrows(st, s);
      }
    }
  }

  /** Variables declared without a type are not entered, so when all specs are
      untyped the table is left as it was, whatever the outcome. */
  lemma {:induction false} UntypedVarsSkipped(st: TableState, specs: seq<VarSpec>, i: nat, j: nat)
    requires |st.scopes| > 0 && i <= |specs| && (i < |specs| ==> j <= |specs[i].ids|)
    requires forall k :: 0 <= k < |specs| ==> specs[k].vtype.None?
    ensures VarsFrom(st, specs, i, j).state == st
    decreases |specs| - i, if i < |specs| then |specs[i].ids| - j else 0
  {
    if i < |specs| {
      if j == |specs[i].ids| {
        UntypedVarsSkipped(st, specs, i + 1, 0);
      } else if specs[i].ids[j].BlankOptId? || !Declared(st, specs[i].ids[j].id) {
        UntypedVarsSkipped(st, specs, i, j + 1);
      }
    }
  }

  /** So an untyped variable can be declared twice in the global scope without the
      first pass noticing. */
  lemma UntypedRedeclarationUndetected(st: TableState, x: string, e: Expr)
    requires |st.scopes| > 0 && !Declared(st, x)
    ensures VarsFrom(st, [VarSpec([IdOptId(x)], None, [e]), VarSpec([IdOptId(x)], None, [e])], 0, 0) == Outcome(st, None)
  {
    var specs := [VarSpec([IdOptId(x)], None, [e]), VarSpec([IdOptId(x)], None, [e])];
    assert VarsFrom(st, specs, 2, 0) == Outcome(st, None);
    assert VarsFrom(st, specs, 1, 1) == Outcome(st, None);
    assert VarsFrom(st, specs, 1, 0) == Outcome(st, None);
    assert VarsFrom(st, specs, 0, 1) == Outcome(st, None);
  }

  /** A typed variable, or a type, whose name the current scope already binds is
      reported as redeclared; a name declared by one top-level declaration cannot be
      declared again by a later one. */
  lemma RedeclarationFails(st: TableState, x: string, t: TypeExpr, rest: seq<TopDec>, body: seq<Stmt>)
    requires |st.scopes| > 0 && Declared(st, x)
    ensures VarsFrom(st, [VarSpec([IdOptId(x)], Some(t), [])], 0, 0) == Outcome(st, Some(Redeclared(x)))
    ensures TypesFrom(st, [TypeSpec(IdOptId(x), t)], 0) == Outcome(st, Some(Redeclared(x)))
    ensures FuncFrom(st, x, [], None) == Outcome(st, Some(Redeclared(x)))
  {
  }

  lemma DuplicateFunctionFails(st: TableState, f: string, body1: seq<Stmt>, body2: seq<Stmt>)
    requires |st.scopes| > 0 && !Declared(st, f)
    ensures FirstPassFrom(st, [FuncTopDec(f, [], None, body1), FuncTopDec(f, [], None, body2)], 0).error == Some(Redeclared(f))
  {
    var decs := [FuncTopDec(f, [], None, body1), FuncTopDec(f, [], None, body2)];
    var s := FunctionSymbol(f, None, []);
    PutGrows(st, s);
    assert TopDecStep(st, decs[0]) == Outcome(Put(st, s), None);
    assert TopDecStep(Put(st, s), decs[1]).error == Some(Redeclared(f));
  }

  /** A function gets one argument type per identifier of each group: as many
      arguments as identifiers, the ones collected before kept in front, and the
      next group's type repeated once per identifier of that group. */
  lemma {:induction false} ArgTypesCount(groups: seq<ArgGroup>, k: nat, acc: seq<GoLiteType>)
    requires k <= |groups| && ArgTypesFrom(groups, k, acc).Ok?
    ensures var r := ArgTypesFrom(groups, k, acc).value;
      |r| == |acc| + ArgCount(groups[k..]) && r[..|acc|] == acc
      && (k < |groups| ==> forall m :: |acc| <= m < |acc| + |groups[k].argIds| ==> r[m] == TypeFor(groups[k].argType).value)
    decreases |groups| - k
  {
    if k < |groups| {
      var t := TypeFor(groups[k].argType).value;
      var acc' := acc + seq(|groups[k].argIds|, _ => t);
      ArgTypesCount(groups, k + 1, acc');
      assert groups[k..][1..] == groups[k + 1..];
      var r := ArgTypesFrom(groups, k, acc).value;
      assert r[..|acc|] == r[..|acc'|][..|acc|];
      forall m | |acc| <= m < |acc| + |groups[k].argIds| ensures r[m] == t {
        assert r[m] == r[..|acc'|][m];
      }
    } else {
      assert groups[k..] == [];
    }
  }

  function Last(scopes: seq<Scope>): Scope
    requires |scopes| > 0
  {
    scopes[|scopes| - 1]
  }

  /** A resolved symbol keeps its name and kind and has no unresolved name left in any
      of its types; the resolved global scope keeps every name in place. */
  lemma {:induction false} GlobalsResolved(scopes: seq<Scope>, k: nat)
    requires |scopes| > 0 && k <= |scopes[|scopes| - 1]|
    requires GlobalsFrom(scopes, k).1.None?
    requires forall m :: 0 <= m < k ==> SymbolResolved(Last(scopes)[m].1)
    ensures forall m :: 0 <= m < |Last(scopes)| ==>
      Last(GlobalsFrom(scopes, k).0)[m].0 == Last(scopes)[m].0 && SymbolResolved(Last(GlobalsFrom(scopes, k).0)[m].1)
    decreases |scopes[|scopes| - 1]| - k
  {
    var top := scopes[|scopes| - 1];
    if k < |top| {
      var s := ResolveSymbol(top[k].1, scopes).value;
      var next := SetTopSymbol(scopes, k, s);
      assert Last(next) == top[k := (top[k].0, s)];
      forall m | 0 <= m < k + 1 ensures SymbolResolved(Last(next)[m].1) {
        if m < k {
          assert Last(next)[m] == Last(scopes)[m];
        }
      }
      GlobalsResolved(next, k + 1);
      assert forall m :: 0 <= m < |top| ==> Last(next)[m].0 == top[m].0;
    }
  }

  /** A program's visit adds exactly the global scope on top of the universe scope and
      leaves the universe scope as it was. */
  lemma BuildKeepsUniverse(prog: Prog)
    ensures var o := BuildSpec(TableState([Universe()], []), prog);
      |o.state.scopes| == 2 && o.state.scopes[0] == Universe()
  {
    var st := TableState([Universe()], []);
    var entered := TableState(st.scopes + [[]], st.log + ["ENTER SCOPE"]);
    FirstPassGrows(entered, prog.topDecs, 0);
    var first := FirstPassFrom(entered, prog.topDecs, 0);
    assert first.state.scopes[..1] == entered.scopes[..1];
    assert first.state.scopes[0] == first.state.scopes[..1][0];
    if first.error.None? {
      var resolved := GlobalsFrom(first.state.scopes, 0);
      assert resolved.0[0] == resolved.0[..1][0];
    }
  }
}
