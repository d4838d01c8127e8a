# GoLite compiler core, modelled in Dafny

GoLite is a subset of Go. The repository compiles it to Python with a Java front end
built on SableCC, and ships a Python script that writes the JUnit suites for the
compiler's test corpus. This project models the deterministic core of both and proves
what each part promises.

| Dafny file | Module | What it models |
|---|---|---|
| `wrappers.dfy`, `strings.dfy` | `Wrappers`, `Strings` | `Option`/`Result`, and string helpers (join, concatenation, prefix/suffix, parenthesis balance) shared by the rest |
| `build_tests.dfy` | `BuildTests` | `build_tests.py`: test names from file names (camel case, the `2d`/`3d`/leading-digit rewrites, other groups' prefix), the nested try/catch test bodies, category dispatch, the ignore list and the template markers |
| `lexer.dfy` | `Lexer` | `GoLiteLexer.filter`: the `lastToken`/`lastEffectiveToken` state machine that turns a line end after an identifier, a literal, `break`, `continue`, `return`, `++`, `--`, `)`, `]` or `}` into a semicolon (rule 1 of the "Semicolons" section of The Go Programming Language Specification) |
| `types.dfy` | `Types` | the `golite.type` lattice: primitives, arrays, slices, structs, aliases, void and the two placeholders, with equality, underlying type, `isCompatible` and `toString` |
| `struct_type.dfy` | `Structs` | the `StructType` class: fields appended in place, looked up, compared and printed |
| `symbol_types.dfy`, `struct_symbol_type.dfy` | `SymbolTypes`, `StructSymbols` | the `golite.symbol` types and the `StructSymbolType` class |
| `function_symbol.dfy` | `FunctionSymbols` | the `FunctionSymbol` class: the argument list built in a loop and the signature strings |
| `symbol_table.dfy` | `SymbolTables` | `SymbolTable`: a stack of scopes, innermost-first lookup, current-scope redeclaration checks, and the log |
| `type_exprs.dfy`, `alias_resolution.dfy`, `symbol_table_builder.dfy` | `TypeExprs`, `AliasResolution`, `SymbolTableBuilders` | `SymbolTableBuilder`: type expressions to types (array bounds, struct fields), alias resolution with its stack of names in progress, and the first pass over the top-level declarations |
| `type_checker.dfy` | `TypeCheckers` | `TypeChecker`: literal, unary, binary and relational operator typing over the type tags, with the error outcome |
| `weeders.dfy` | `Weeders` | `Weeder` and `GoLiteWeeder`: return on every path, `break`/`continue` only inside loops, count matching, at most one default case, array bounds |
| `ast.dfy` | `Ast` | the GoLite syntax tree that stands in for the SableCC node classes |
| `ast_encoder.dfy` | `AstEncoders` | `ASTEncoder`: the tree in treebank form, `(Name child ...)` |
| `pretty_printer.dfy` | `PrettyPrinters` | `PrettyPrinter`: GoLite source text from the tree |
| `code_generator.dfy` | `CodeGenerators` | `CodeGenerator`: Python text from the typed tree, with 32-bit wrap-around through `bit_mask`, Python `while` loops that replay the `for` end statement before `continue`, and switches as `if`/`elif`/`else` chains |

The code is imperative where the source mutates state: the lexer filter, the struct
classes, the function symbol, the symbol table, the builder's passes, the encoder, the
printer and the generator are classes whose methods update their fields. Each method is
stated against a function of the old state, such as `buffer == old(buffer) + Text(x)`,
and lemmas about those functions state what the source promises. Pure code, such as the
type lattice, the operator rules, the weeder predicates, alias resolution and the test
name functions, becomes functions and lemmas.

Quirks of the source, modelled as written:
- `to_camel_case` lowers only the very first character, so the rest of the first run keeps its case (`BuildTests.CamelCaseKeepsFirstRunTail`).
- Another group's method name is "Group", then the parent directory's name as it is, then the capitalized test name (`BuildTests.OtherGroupsMethodName`).
- The type checker's guards for unary `^` and `!` are inverted: each one rejects exactly the operand type it should accept (`TypeCheckers.InvertedUnaryGuards`).
- The hex literal hook is an overload that the walk never calls, so hex literals get no type (`TypeCheckers.HexLiteralUntyped`).
- A hex array bound keeps its "0x" prefix when it is parsed in radix 16, so it always fails with a number-format error (`TypeExprs.HexPrefixNeverParses`).
- Untyped variables are not entered by the first pass, so redeclaring one goes undetected (`SymbolTableBuilders.UntypedRedeclarationUndetected`).
- The printer deletes the last character before `)` of a call with no argument, and before the values of a spec without values; it also prints an array bound twice (`PrettyPrinters.ZeroArgumentCall`, `PrettyPrinters.ValuelessSpecDropsLastChar`, `PrettyPrinters.ArrayBoundPrintedTwice`).
- The generator's default for a `string` variable is empty text (`CodeGenerators.DefaultValues`). Its loop end statement is never restored when a loop is left (`CodeGenerators.InnerEndLeaksToOuterContinue`). A switch whose first case is the default one opens with "elif" (`CodeGenerators.DefaultFirstLeavesElif`).
- `isCompatible` is missing from slices, aliases, structs and void; the model gives no answer there rather than inventing one (`Types.MissingCompatibility`).

## Model

| member | source | states |
|---|---|---|
| `Lexer.Filtered` | src/golite/GoLiteLexer.java:46-83 | the filter hands a token on unchanged or, for a line end or the end of input only, as a semicolon; the result is a semicolon exactly when the token already was one or a semicolon was due |
| `Lexer.FilterStream` | src/golite/GoLiteLexer.java:81-89 | filtering a stream of raw tokens hands on exactly one token per raw token |
| `Lexer.GoLiteLexer.constructor` | src/golite/GoLiteLexer.java:17-27 | a new scanner has seen no token and no effective token |
| `Lexer.GoLiteLexer.Filter` | src/golite/GoLiteLexer.java:81-89 | `filter` replaces the current token as `Filtered` says, moves the last effective token only to an effective token, and records the current token as the last one |
| `Lexer.GoLiteLexer.FilterAll` | src/golite/GoLiteLexer.java:81-89 | the scanner's loop of `filter` calls returns the filtered stream and leaves the last effective token and the last token of the whole stream |
| `Lexer.OnlyLineEndsRewritten` | src/golite/GoLiteLexer.java:46-48 | every token but a line end or the end of input passes unchanged, and a rewritten token always becomes a semicolon |
| `Lexer.OneSemiPerLineEndRun` | src/golite/GoLiteLexer.java:46-86 | after a token that ends a statement, a run of line ends yields one semicolon and then the remaining line ends unchanged |
| `Lexer.LineEndsAfterSemi` | src/golite/GoLiteLexer.java:46-76 | once the last effective token is a semicolon, line ends are handed on unchanged |
| `Lexer.IgnoredTokensKeepTrigger` | src/golite/GoLiteLexer.java:36-38 | blanks and comments between a statement-ending token and a line end keep the semicolon insertion |
| `Lexer.NextEffectiveIsEffective` | src/golite/GoLiteLexer.java:85-86 | the last effective token only ever moves to an effective token, and an ignored token leaves it unchanged |
| `Types.UnderlyingFields` | src/golite/type/StructType.java:154-162 | the underlying struct keeps every field's id, in order, one field per field |
| `Types.IsCompatible` | src/golite/type/IntType.java:9-12 | every primitive type answers `isCompatible`; the other types only where the source defines it |
| `Types.FieldStrings` | src/golite/type/StructType.java:67-70 | each field prints as its id, a space and its type |
| `Types.UnderlyingIsAliasFree` | src/golite/type/AliasType.java:39-42 | the underlying type holds no alias anywhere, and taking it twice is taking it once |
| `Types.AliasFreeIsUnderlying` | src/golite/type/GoLiteType.java:9-16 | a type without aliases is its own underlying type |
| `Types.AliasChainCollapses` | src/golite/type/AliasType.java:39-42 | a chain of aliases has the underlying type of the type at its end |
| `Types.UnderlyingKeepsShape` | src/golite/type/ArrayType.java:45-48 | arrays keep their bound, slices stay slices, structs keep their field ids in order, primitives and void are unchanged |
| `Types.EqualsReflexive` | src/golite/type/StructType.java:164-186 | `equals` is reflexive for every type |
| `Types.EqualsSymmetric` | src/golite/type/ArrayType.java:60-71 | `equals` is symmetric |
| `Types.EqualsTransitive` | src/golite/type/SliceType.java:40-51 | `equals` is transitive |
| `Types.AliasEqualityIsNominal` | src/golite/type/AliasType.java:44-55 | two aliases are equal exactly when their names are, whatever they stand for |
| `Types.PrimitiveEquality` | src/golite/type/PrimitiveGoLiteType.java:9-20 | a primitive type equals exactly the primitive type of its own class, and never a non-primitive type |
| `Types.VoidEquality` | src/golite/type/VoidType.java:9-20 | every void type equals every other void type and nothing else |
| `Types.ContainerEquality` | src/golite/type/ArrayType.java:60-71 | arrays are equal exactly when their elements are and their bounds match, slices exactly when their elements are, and an array never equals a slice |
| `Types.PrimitiveCompatibility` | src/golite/type/IntType.java:10-12 | a primitive type is compatible with any alias chain ending in itself |
| `Types.DistinctPrimitivesIncompatible` | src/golite/type/IntType.java:10-12 | two different primitive types are never compatible (int and rune included) |
| `Types.ArrayCompatibility` | src/golite/type/ArrayType.java:50-58 | an array accepts exactly the arrays with its bound whose element type its own element type accepts |
| `Types.MissingCompatibility` | src/golite/type/GoLiteType.java:18-24 | slices, aliases, structs, void and the placeholder types have no `isCompatible` answer in the model |
| `Types.PrintedForms` | src/golite/type/ArrayType.java:79-82 | arrays print as `[n]` and the element, slices as `[]` and the element, aliases as their name, an empty struct as `struct()` |
| `Structs.FieldIndex` | src/golite/type/StructType.java:125-132 | the first position holding a field of that id, and none exactly when no field has it |
| `Structs.StructType.constructor` | src/golite/type/StructType.java:77-83 | a new struct type has no fields |
| `Structs.StructType.Size` | src/golite/type/StructType.java:85-92 | `size` is the number of fields |
| `Structs.StructType.AddField` | src/golite/type/StructType.java:144-152 | `addField` appends the field at the end, duplicates included |
| `Structs.StructType.HasField` | src/golite/type/StructType.java:103-116 | `hasField` holds exactly when some field has the id |
| `Structs.StructType.GetField` | src/golite/type/StructType.java:118-132 | `getField` returns the first field with the id, or fails with "No such field <id>" exactly when there is none |
| `Structs.StructType.GetFieldType` | src/golite/type/StructType.java:134-142 | the type of that first field, with the same failure |
| `Structs.StructType.GetUnderlyingType` | src/golite/type/StructType.java:154-162 | a new struct with the same ids in the same order, each field with its underlying type |
| `Structs.StructType.Equals` | src/golite/type/StructType.java:164-186 | `equals` agrees with the value-level equality of types |
| `Structs.StructType.ToString` | src/golite/type/StructType.java:188-204 | `toString` agrees with the value-level printing of types |
| `Structs.StructToString` | src/golite/type/StructType.java:188-204 | a struct prints as "struct(", its fields joined by ", ", and ")" |
| `Structs.FieldIndexFirst` | src/golite/type/StructType.java:126-129 | the scan stops at the first field with the id |
| `Structs.AddFieldGrows` | src/golite/type/StructType.java:150-152 | adding a field keeps the earlier fields, makes the id found, and leaves an id that was found where it was |
| `SymbolTypes.FieldStrings` | src/golite/symbol/StructSymbolType.java:33-36 | each field prints as its id, a space and its type |
| `SymbolTypes.UnderlyingShape` | src/golite/symbol/AliasSymbolType.java:39-42 | the underlying symbol type is never an alias, taking it twice is taking it once, arrays keep their bound and slices stay slices |
| `SymbolTypes.AliasChainCollapses` | src/golite/symbol/AliasSymbolType.java:39-42 | a chain of aliases has the underlying type of the type at its end |
| `SymbolTypes.StructIsItsOwnUnderlying` | src/golite/symbol/SymbolType.java:9-16 | a struct symbol type is its own underlying type, even when a field's type is an alias |
| `SymbolTypes.PrintedForms` | src/golite/symbol/AliasSymbolType.java:44-47 | an alias prints as its name, an empty struct as "struct()", a one-field struct as "struct(id type)" |
| `StructSymbols.StructSymbolType.constructor` | src/golite/symbol/StructSymbolType.java:43-49 | a new struct symbol type has no fields |
| `StructSymbols.StructSymbolType.AddField` | src/golite/symbol/StructSymbolType.java:51-59 | `addField` appends the field at the end |
| `StructSymbols.StructSymbolType.ToString` | src/golite/symbol/StructSymbolType.java:61-77 | `toString` agrees with the value-level printing of symbol types |
| `StructSymbols.StructToString` | src/golite/symbol/StructSymbolType.java:61-77 | a struct symbol type prints as "struct(", its fields joined by ", ", and ")" |
| `FunctionSymbols.FunctionSymbol.constructor` | src/golite/symbol/FunctionSymbol.java:25-30 | a new function symbol keeps its name and return type (none for a void function), with no arguments yet |
| `FunctionSymbols.FunctionSymbol.SetArgTypes` | src/golite/symbol/FunctionSymbol.java:42-44 | `setArgTypes` replaces the argument list and nothing else |
| `FunctionSymbols.FunctionSymbol.AddArgType` | src/golite/symbol/FunctionSymbol.java:51-53 | `addArgType(t)` appends one argument of type `t` |
| `FunctionSymbols.FunctionSymbol.AddArgTypes` | src/golite/symbol/FunctionSymbol.java:61-64 | `addArgType(t, cnt)` appends `cnt` copies of `t`, none when `cnt` is not positive |
| `FunctionSymbols.FunctionSymbol.ArgList` | src/golite/symbol/FunctionSymbol.java:70-79 | the flag loop writes "(", the argument types separated by ", " (never before the first), and ")" |
| `FunctionSymbols.FunctionSymbol.GetTypeString` | src/golite/symbol/FunctionSymbol.java:67-89 | the signature "(args) -> (ret)", the return part empty for a void function |
| `FunctionSymbols.FunctionSymbol.GetUnderlyingTypeString` | src/golite/symbol/FunctionSymbol.java:92-114 | the same signature with every type replaced by its underlying type |
| `FunctionSymbols.UnderlyingSignature` | src/golite/symbol/FunctionSymbol.java:97-111 | the underlying signature equals the plain signature of the underlying types |
| `FunctionSymbols.UnderlyingSignatureStable` | src/golite/symbol/FunctionSymbol.java:97-111 | taking the underlying types first does not change the underlying signature |
| `FunctionSymbols.SignatureForms` | src/golite/symbol/FunctionSymbol.java:70-86 | with no arguments and no return type the signature is "() -> ()", and with one argument "(t) -> ()" |
| `SymbolTables.TypeOf` | src/golite/symbol/Symbol.java:25-27 | `getType` is absent exactly for a function without a return type |
| `SymbolTables.ScopeGet` | src/golite/symbol/SymbolTable.java:123-125 | a scope lookup finds a symbol exactly when the name is a key of the scope, and returns that key's symbol |
| `SymbolTables.Values` | src/golite/symbol/SymbolTable.java:132-134 | `values` lists the symbols in insertion order |
| `SymbolTables.ScopePutGet` | src/golite/symbol/SymbolTable.java:141-144 | after a put the name maps to the new symbol and every other name to what it mapped to before |
| `SymbolTables.ScopePutShape` | src/golite/symbol/SymbolTable.java:141-144 | a put keeps the keys distinct, overwrites a present name in place and appends a new name at the end |
| `SymbolTables.InnermostIndex` | src/golite/symbol/SymbolTable.java:76-86 | the innermost scope binding the name, with no scope above it binding it; none exactly when no scope binds it |
| `SymbolTables.InnermostIndexIs` | src/golite/symbol/SymbolTable.java:76-83 | a scope that binds the name with no binding scope above it is the one found |
| `SymbolTables.SymbolTable.constructor` | src/golite/symbol/SymbolTable.java:30-36 | a new table has no scopes and logs the header line and a blank line |
| `SymbolTables.SymbolTable.EnterScope` | src/golite/symbol/SymbolTable.java:47-50 | `scope` pushes an empty innermost scope and logs "ENTER SCOPE" |
| `SymbolTables.SymbolTable.ExitScope` | src/golite/symbol/SymbolTable.java:55-58 | `unscope` pops the innermost scope and logs "EXIT SCOPE" |
| `SymbolTables.SymbolTable.InGlobalScope` | src/golite/symbol/SymbolTable.java:65-67 | the table is in the global scope exactly when it holds two scopes |
| `SymbolTables.SymbolTable.GetScopeDepth` | src/golite/symbol/SymbolTable.java:76-86 | the innermost-first search with a counter yields the index of the innermost binding scope, or the error "ERROR: <name> not in Symbol table" |
| `SymbolTables.SymbolTable.GetSymbol` | src/golite/symbol/SymbolTable.java:94-103 | the innermost-first search yields the binding of the innermost scope that has the name |
| `SymbolTables.SymbolTable.GetSymbolType` | src/golite/symbol/SymbolTable.java:111-115 | absent exactly when the name is unbound or bound to a void function; otherwise the symbol's type |
| `SymbolTables.SymbolTable.GetSymbolFromCurrentScope` | src/golite/symbol/SymbolTable.java:123-125 | only the innermost scope is searched |
| `SymbolTables.SymbolTable.GetSymbolsFromCurrentScope` | src/golite/symbol/SymbolTable.java:132-134 | the innermost scope's symbols in insertion order |
| `SymbolTables.SymbolTable.PutSymbol` | src/golite/symbol/SymbolTable.java:141-146 | `putSymbol` writes into the innermost scope only and logs kind, name and type separated by tabs |
| `SymbolTables.SymbolTable.DefSymbolInCurrentScope` | src/golite/symbol/SymbolTable.java:154-156 | true exactly when the innermost scope binds the name |
| `SymbolTables.SymbolTable.DefSymbol` | src/golite/symbol/SymbolTable.java:164-166 | true exactly when some scope binds the name |
| `SymbolTables.SymbolTable.GetLog` | src/golite/symbol/SymbolTable.java:173-175 | the logged lines, each ended by the line separator |
| `SymbolTables.LookupAfterPut` | src/golite/symbol/SymbolTable.java:141-144 | after a put the name resolves to the new symbol, other names resolve as before, and outer scopes are unchanged |
| `SymbolTables.CurrentScopeShadows` | src/golite/symbol/SymbolTable.java:94-103 | a name bound in the innermost scope resolves to that binding, at depth one less than the number of scopes |
| `SymbolTables.EnterScopeKeepsLookup` | src/golite/symbol/SymbolTable.java:47-50 | entering a scope changes no lookup and no depth |
| `SymbolTables.ShadowThenRestore` | src/golite/symbol/SymbolTable.java:47-58 | a put into a fresh scope shadows the outer binding, and leaving that scope restores the stack as it was |
| `SymbolTables.LogAppendOnly` | src/golite/symbol/SymbolTable.java:39-42 | the log only grows: the text of more lines is appended to the text before them |
| `SymbolTables.FreshLog` | src/golite/symbol/SymbolTable.java:30-36 | a fresh table's log is the header, a line separator, and a blank line |
| `TypeExprs.DigitValue` | src/golite/symbol/SymbolTableBuilder.java:92-96 | a digit character read at a radix, as the parser used for array bounds reads it, is always below the radix |
| `TypeExprs.ParseInt` | src/golite/symbol/SymbolTableBuilder.java:92-96 | `Integer.parseInt` succeeds only with a value in the 32-bit range |
| `TypeExprs.DigitsRejectBadChar` | src/golite/symbol/SymbolTableBuilder.java:92-96 | one character that is not a digit of the radix makes the digit string fail |
| `TypeExprs.HexPrefixNeverParses` | src/golite/symbol/SymbolTableBuilder.java:95-96 | a hex literal passed to radix-16 parsing with its "0x" prefix never parses |
| `TypeExprs.DecimalRoundTrip` | src/golite/symbol/SymbolTableBuilder.java:91-92 | parsing at radix 10 what is printed in decimal gives back any 32-bit value |
| `TypeExprs.LeadingZeroIgnored` | src/golite/symbol/SymbolTableBuilder.java:93-94 | a leading "0" does not change a digit string's value, so an octal literal's prefix is harmless |
| `TypeExprs.BoundOf` | src/golite/symbol/SymbolTableBuilder.java:87-98 | an array bound is a decimal, octal or hex literal's 32-bit value; any other expression fails with "Non-integer array bound" |
| `TypeExprs.GetType` | src/golite/symbol/SymbolTableBuilder.java:71-136 | the struct loop with its set of seen ids computes what the recursive definition of `getType` gives |
| `TypeExprs.ScanOk` | src/golite/symbol/SymbolTableBuilder.java:111-130 | a struct scan that succeeds adds exactly one field per named id, in order, with that id's type, and keeps ids distinct |
| `TypeExprs.ScanSucceeds` | src/golite/symbol/SymbolTableBuilder.java:111-130 | when every field type resolves and no name repeats, the struct scan succeeds |
| `TypeExprs.ScanDuplicate` | src/golite/symbol/SymbolTableBuilder.java:121-123 | when every field type resolves but a name repeats, the scan fails with "Duplicate field <id>" |
| `TypeExprs.StructViaScan` | src/golite/symbol/SymbolTableBuilder.java:104-133 | the struct case of `getType` is the scan over the declared names with blanks skipped |
| `TypeExprs.StructFieldsInOrder` | src/golite/symbol/SymbolTableBuilder.java:104-133 | a struct type expression that resolves gives one field per named id, blanks skipped, in declaration order, all ids distinct |
| `TypeExprs.StructDuplicateFields` | src/golite/symbol/SymbolTableBuilder.java:118-127 | when all field types resolve, the struct resolves exactly when its named ids are distinct, and otherwise fails with a duplicate-field error |
| `TypeExprs.BasicTypeExprs` | src/golite/symbol/SymbolTableBuilder.java:75-98 | the primitive keywords give the primitive types, a type name stays an unresolved alias, and a bound that is not an integer literal fails |
| `TypeExprs.ArrayBounds` | src/golite/symbol/SymbolTableBuilder.java:90-101 | decimal and octal bounds give their value, and a hex bound written with "0x" fails with a number-format error |
| `AliasResolution.Resolve` | src/golite/symbol/SymbolTableBuilder.java:341-410 | `getResolvedType`: a success leaves no unresolved type name and the alias stack as it found it; a failure leaves the stack's old part untouched |
| `AliasResolution.Popped` | src/golite/symbol/SymbolTableBuilder.java:352-357 | after the aliased type resolves with the alias pushed, the result is that alias over the resolved type and the pop restores the stack |
| `AliasResolution.ResolveFields` | src/golite/symbol/SymbolTableBuilder.java:372-383 | a struct's fields resolve in order with their ids kept, one resolved field per field, stopping at the first failure |
| `AliasResolution.FailureMessages` | src/golite/symbol/SymbolTableBuilder.java:348-397 | an alias already on the stack fails with "Invalid recursive type <a>", typed or not; an unbound name fails with "Undefined: <a>" |
| `AliasResolution.SelfReferenceFails` | src/golite/symbol/SymbolTableBuilder.java:385-403 | a type name bound to itself is reported as a recursive type |
| `AliasResolution.MutualReferenceFails` | src/golite/symbol/SymbolTableBuilder.java:385-403 | two type names bound to each other are reported as a recursive type at the first |
| `AliasResolution.ResolveIdentity` | src/golite/symbol/SymbolTableBuilder.java:359-409 | a type with no alias of either kind resolves to itself without touching the stack |
| `AliasResolution.ResolveKeepsShape` | src/golite/symbol/SymbolTableBuilder.java:343-409 | resolution keeps structure: arrays keep their bound, slices stay slices, structs keep their ids, basic types stay as they are |
| `AliasResolution.ResolveBoundName` | src/golite/symbol/SymbolTableBuilder.java:385-405 | a bound name whose aliased type resolves comes back as an alias of that name over the resolved type |
| `SymbolTableBuilders.ResolveArgs` | src/golite/symbol/SymbolTableBuilder.java:320-326 | each argument type is resolved with a fresh alias stack: one resolved type per argument, none with an unresolved name |
| `SymbolTableBuilders.ResolveSymbol` | src/golite/symbol/SymbolTableBuilder.java:309-327 | a resolved symbol keeps its name and kind, a function keeps whether it returns and its number of arguments, and no unresolved name is left |
| `SymbolTableBuilders.GlobalsFrom` | src/golite/symbol/SymbolTableBuilder.java:307-331 | resolving the globals in insertion order touches only the current scope and keeps its size |
| `SymbolTableBuilders.SymbolTableBuilder.constructor` | src/golite/symbol/SymbolTableBuilder.java:277-290 | `inStart`: a new table whose one scope binds `true` and `false`, with the matching log |
| `SymbolTableBuilders.SymbolTableBuilder.CheckDeclared` | src/golite/symbol/SymbolTableBuilder.java:159-162 | the error "<id> redeclared in this block" exactly when the current scope already binds the id |
| `SymbolTableBuilders.SymbolTableBuilder.DeclareVars` | src/golite/symbol/SymbolTableBuilder.java:166-193 | the nested loops over var specs and ids leave the table and error the per-id definition gives |
| `SymbolTableBuilders.SymbolTableBuilder.DeclareTypes` | src/golite/symbol/SymbolTableBuilder.java:197-217 | the loop over type specs leaves the table and error the per-spec definition gives |
| `SymbolTableBuilders.SymbolTableBuilder.DeclareFunc` | src/golite/symbol/SymbolTableBuilder.java:221-249 | a function's redeclaration check, return type and argument groups, as the definition gives them |
| `SymbolTableBuilders.SymbolTableBuilder.FirstPass` | src/golite/symbol/SymbolTableBuilder.java:38-251 | the first pass over the top-level declarations, stopping at the first error |
| `SymbolTableBuilders.SymbolTableBuilder.ResolveGlobals` | src/golite/symbol/SymbolTableBuilder.java:304-332 | `outAProgProg` resolves the current scope's symbols in order as the definition gives, and writes nothing to the log |
| `SymbolTableBuilders.SymbolTableBuilder.VisitProg` | src/golite/symbol/SymbolTableBuilder.java:294-332 | entering the global scope, the first pass and the resolution, as the whole-visit definition gives them |
| `SymbolTableBuilders.UniverseContents` | src/golite/symbol/SymbolTableBuilder.java:285-289 | the universe scope binds exactly `true` and `false`, in that order, both of type bool |
| `SymbolTableBuilders.PutGrows` | src/golite/symbol/SymbolTableBuilder.java:188-189 | a put keeps the depth and the outer scopes, appends to the log, and declares the name |
| `SymbolTableBuilders.VarsGrows` | src/golite/symbol/SymbolTableBuilder.java:166-193 | declaring variables writes only into the current scope and only appends to the log |
| `SymbolTableBuilders.TypesGrows` | src/golite/symbol/SymbolTableBuilder.java:197-217 | declaring types writes only into the current scope and only appends to the log |
| `SymbolTableBuilders.StepGrows` | src/golite/symbol/SymbolTableBuilder.java:164-249 | one top-level declaration writes only into the current scope and only appends to the log |
| `SymbolTableBuilders.FirstPassGrows` | src/golite/symbol/SymbolTableBuilder.java:38-251 | the first pass writes only into the current scope and only appends to the log |
| `SymbolTableBuilders.VarsNoRedeclaration` | src/golite/symbol/SymbolTableBuilder.java:178-180 | a var declaration that goes through names nothing the current scope already bound |
| `SymbolTableBuilders.UntypedVarsSkipped` | src/golite/symbol/SymbolTableBuilder.java:182-189 | variables without a declared type are not entered: the table is unchanged |
| `SymbolTableBuilders.UntypedRedeclarationUndetected` | src/golite/symbol/SymbolTableBuilder.java:178-189 | an untyped global declared twice passes the first pass without error |
| `SymbolTableBuilders.RedeclarationFails` | src/golite/symbol/SymbolTableBuilder.java:159-161 | a typed variable, a type or a function whose name the current scope binds fails with the redeclaration error and changes nothing |
| `SymbolTableBuilders.DuplicateFunctionFails` | src/golite/symbol/SymbolTableBuilder.java:221-227 | a second top-level function of the same name fails with the redeclaration error |
| `SymbolTableBuilders.ArgTypesCount` | src/golite/symbol/SymbolTableBuilder.java:241-245 | a function gets one argument type per identifier of each group, that group's type repeated once per identifier |
| `SymbolTableBuilders.GlobalsResolved` | src/golite/symbol/SymbolTableBuilder.java:307-331 | after resolution every global keeps its name and place and has no unresolved type name left |
| `SymbolTableBuilders.BuildKeepsUniverse` | src/golite/symbol/SymbolTableBuilder.java:294-301 | a program's visit adds exactly the global scope on top of an untouched universe scope |
| `TypeCheckers.AddType` | src/golite/type/TypeChecker.java:25-39 | `+` succeeds exactly on two numbers or two strings: int when both are int-like, float when either is float, string for strings, else "Binary operator '+' has miss-matched operands" |
| `TypeCheckers.ArithType` | src/golite/type/TypeChecker.java:41-81 | `-`, `*`, `/` succeed exactly on two numbers, float when either is float and int otherwise, else the "can only be applied to numeric" error |
| `TypeCheckers.IntegerType` | src/golite/type/TypeChecker.java:83-152 | `%`, `&`, `\|`, `^`, `&^`, `<<`, `>>` succeed exactly on two int-like operands and give int, else the "can only be applied to integer" error |
| `TypeCheckers.RelationalType` | src/golite/type/TypeChecker.java:196-254 | `==`/`!=` need comparable and `<`, `<=`, `>`, `>=` ordered operands; the result is bool, else the matching relational error |
| `TypeCheckers.ConditionalType` | src/golite/type/TypeChecker.java:257-275 | `&&`, `\|\|` succeed exactly on two bools and give bool, else the "can only be applied to boolean" error |
| `TypeCheckers.BinaryType` | src/golite/type/TypeChecker.java:25-275 | every binary rule that succeeds records one of the five primitive types |
| `TypeCheckers.UnaryType` | src/golite/type/TypeChecker.java:155-193 | unary `+`/`-` need a number and keep float or give int; `^` fails exactly on an int-like operand and `!` exactly on a bool, as written |
| `TypeCheckers.Check` | src/golite/type/TypeChecker.java:25-305 | the depth-first check of an expression records only primitive types |
| `TypeCheckers.TypeChecker.constructor` | src/golite/type/TypeChecker.java:18-22 | a new checker has an empty type table |
| `TypeCheckers.TypeChecker.Get` | src/golite/type/TypeChecker.java:26-27 | `typeTable.get`: a recorded type is the one the rules give the node |
| `TypeCheckers.TypeChecker.GetRecorded` | src/golite/type/TypeChecker.java:26-27 | after a successful visit the table holds what the rules give, absence included |
| `TypeCheckers.TypeChecker.Put` | src/golite/type/TypeChecker.java:30-35 | `typeTable.put` of the type the rules give keeps the table consistent |
| `TypeCheckers.TypeChecker.Visit` | src/golite/type/TypeChecker.java:25-305 | the walk reports the first error the rules give, records the node on success, and overwrites no entry with a different type |
| `TypeCheckers.TypeChecker.VisitBinary` | src/golite/type/TypeChecker.java:25-153 | a binary node is checked after both operands, left first: the first operand error wins, then the operator rule's error, otherwise the rule's type is recorded for the node |
| `TypeCheckers.TypeChecker.VisitUnary` | src/golite/type/TypeChecker.java:155-194 | a unary node is checked after its operand: the operand's error wins, then the operator rule's error, otherwise the rule's type is recorded |
| `TypeCheckers.TypeChecker.VisitLiteral` | src/golite/type/TypeChecker.java:278-306 | integer and octal literals record `int`, float literals `float64`, rune literals `rune`, both string forms `string`; no literal fails, and hex literals and identifiers record nothing |
| `TypeCheckers.TypeChecker.VisitUnhooked` | src/golite/type/TypeChecker.java:10 | calls, appends, casts, field selections and indexing have no hook: the default walk visits their children in order and reports the first child error, recording nothing for the node |
| `TypeCheckers.TypeChecker.VisitAll` | src/golite/type/TypeChecker.java:10-14 | a list of expressions is visited in order, stopping at the first error |
| `TypeCheckers.TypeChecker.VisitTypeExpr` | src/golite/type/TypeChecker.java:10-14 | the walk also checks the array-bound expressions inside a type expression |
| `TypeCheckers.PredicateChain` | src/golite/type/TypeChecker.java:308-334 | int-like implies numeric implies ordered implies comparable; rune is int-like, bool is comparable but not ordered, no type is not comparable |
| `TypeCheckers.RuneArithmeticGivesInt` | src/golite/type/TypeChecker.java:28-30 | arithmetic on runes never yields rune |
| `TypeCheckers.InvertedUnaryGuards` | src/golite/type/TypeChecker.java:179-193 | `^1` fails, `^1.0` is int, `!1` is bool, and `!b` fails for a bool `b` |
| `TypeCheckers.HexLiteralUntyped` | src/golite/type/TypeChecker.java:278-288 | the hex hook is an overload the walk never calls, so a hex literal gets no type and `0x1 + 1` fails while an octal one succeeds |
| `TypeCheckers.LeftErrorFirst` | src/golite/type/TypeChecker.java:25-39 | an error in the left operand decides the outcome of the binary expression |
| `TypeCheckers.UntypedOperandFails` | src/golite/type/TypeChecker.java:25-275 | an operand without a recorded type makes every binary rule fail |
| `TypeCheckers.VariablesAreUntyped` | src/golite/type/TypeChecker.java:278-305 | no hook types a variable, so `x + 1` fails |
| `Weeders.ExprStmtRule` | src/golite/Weeder.java:172-179 | an expression statement passes exactly when it is a call, or for `GoLiteWeeder` also an append |
| `Weeders.VarSpecRule` | src/golite/Weeder.java:183-191 | a var spec with values passes exactly when it has as many ids as values |
| `Weeders.ShortAssignRule` | src/golite/Weeder.java:195-208 | `:=` passes exactly when its counts match (or it has no values) and it is not a lone blank; `Weeder` reports "Assignment count mismatch: n = m" |
| `Weeders.AssignRule` | src/golite/Weeder.java:212-219 | an assignment passes exactly when both sides have the same length |
| `Weeders.IncDecRule` | src/golite/Weeder.java:222-238 | `++`/`--` pass exactly on a variable, a field or an element |
| `Weeders.DefaultsRule` | src/golite/Weeder.java:240-256 | a switch passes exactly when it has at most one default case |
| `Weeders.LoopRule` | src/golite/Weeder.java:274-280 | a loop passes exactly when its for-post is not a short assignment |
| `Weeders.ArrayRule` | src/golite/Weeder.java:300-307 | `Weeder`: an array bound passes exactly when it is an int, octal or hex literal; `GoLiteWeeder`: exactly when no variable occurs in the bound or the element type |
| `Weeders.AccessRule` | src/golite/Weeder.java:316-333 | field and element access pass exactly on a variable, field, element or call object, or always under `GoLiteWeeder` |
| `Weeders.CastRule` | src/golite/Weeder.java:309-314 | a cast passes exactly when its type is not string |
| `Weeders.BreakStmtFinder.constructor` | src/golite/Weeder.java:33-38 | the finder applied to a subtree from a cleared flag reports whether a break occurs anywhere in it |
| `Weeders.BreakStmtFinder.Apply` | src/golite/Weeder.java:49-53 | the walk sets the flag exactly when the statement contains a break, and never clears it |
| `Weeders.BreakStmtFinder.ApplyOpt` | src/golite/Weeder.java:49-53 | the same for an optional statement |
| `Weeders.BreakStmtFinder.ApplyAll` | src/golite/Weeder.java:49-53 | the same for a list of statements |
| `Weeders.VariableExprFinder.constructor` | src/golite/GoLiteWeeder.java:32-37 | the finder applied to an array type from a cleared flag reports whether a variable occurs anywhere in it |
| `Weeders.VariableExprFinder.ApplyExpr` | src/golite/GoLiteWeeder.java:48-52 | the walk sets the flag exactly when the expression contains a variable |
| `Weeders.VariableExprFinder.ApplyType` | src/golite/GoLiteWeeder.java:48-52 | the same for a type expression |
| `Weeders.WeederPass.constructor` | src/golite/Weeder.java:14-19 | a new weeder starts at loop depth zero |
| `Weeders.WeederPass.CheckBlockHasReturn` | src/golite/Weeder.java:102-162 | the recursive return check gives "Missing return" for an empty block, a non-returnable last statement, a switch without default or a loop that can exit, as the return-check definition does |
| `Weeders.WeederPass.CheckDefaults` | src/golite/Weeder.java:240-256 | the flag loop reports the multiple-defaults error exactly when there are two or more default cases |
| `Weeders.WeederPass.VisitStmt` | src/golite/Weeder.java:259-292 | the visit of a statement reports the first rule violation in it, jumps judged by the loop depth, and restores the depth on success |
| `Weeders.WeederPass.VisitIfElse` | src/golite/Weeder.java:259-292 | the same for an if-else statement |
| `Weeders.WeederPass.VisitSwitch` | src/golite/Weeder.java:240-256 | the same for a switch, its default rule checked before its cases |
| `Weeders.WeederPass.VisitLoop` | src/golite/Weeder.java:274-292 | the loop hooks check the for-post, raise the depth for the body and lower it after |
| `Weeders.WeederPass.VisitOpt` | src/golite/Weeder.java:259-292 | the same for an optional statement |
| `Weeders.WeederPass.VisitStmts` | src/golite/Weeder.java:259-292 | the same for a list of statements, stopping at the first error |
| `Weeders.WeederPass.VisitCases` | src/golite/Weeder.java:240-256 | the same for the case blocks of a switch |
| `Weeders.WeederPass.VisitProg` | src/golite/Weeder.java:88-93 | the visit of a program reports the first error of its declarations, functions with a return type return-checked first |
| `Weeders.NoBreakNoBroke` | src/golite/Weeder.java:22-54 | a statement without a break statement cannot complete by breaking |
| `Weeders.CaughtModes` | src/golite/Weeder.java:128-146 | no break escapes a switch |
| `Weeders.NoStrayJumps` | src/golite/Weeder.java:259-272 | a statement accepted outside every loop can complete neither by breaking nor by continuing |
| `Weeders.AcceptedBodiesReturn` | src/golite/Weeder.java:88-162 | a body that passes the return check and the other rules cannot complete normally: every path ends in a return |
| `Weeders.NestedBreakRejected` | src/golite/Weeder.java:148-155 | a break that only leaves an inner loop still makes the outer loop fail the return check |
| `Weeders.ReturnRules` | src/golite/Weeder.java:102-155 | the return check case by case on the last statement: empty, not returnable, return, if-else, loop |
| `Weeders.SwitchReturnRule` | src/golite/Weeder.java:128-146 | a trailing switch passes exactly when every case passes and one of them is a default |
| `Weeders.CasesReturnAll` | src/golite/Weeder.java:131-134 | the cases pass exactly when each case's block passes |
| `Weeders.IfWithoutElseFails` | src/golite/Weeder.java:121-126 | an if without an else fails the return check, its else block being empty |
| `Weeders.VoidFunctionsUnchecked` | src/golite/Weeder.java:88-93 | a function without a return type is never return-checked |
| `Weeders.JumpRules` | src/golite/Weeder.java:259-272 | break and continue fail outside a loop and pass directly inside one |
| `Weeders.ForPostRule` | src/golite/Weeder.java:274-280 | a loop whose for-post is a short assignment fails with "Cannot declare in the for-increment" |
| `Weeders.LoopBodyIsInLoop` | src/golite/Weeder.java:274-297 | a loop's body is checked as inside a loop, however deep the loop itself sits |
| `Weeders.TwoDefaultsFail` | src/golite/Weeder.java:240-256 | a switch with two defaults fails before anything inside it is looked at |
| `Weeders.ShortAssignRules` | src/golite/Weeder.java:195-208 | `_ := e` fails in both weeders; two targets for one value fail with each weeder's own message; no values passes |
| `Weeders.AppendStatementDiffers` | src/golite/GoLiteWeeder.java:216-223 | an append used as a statement fails in `Weeder` and passes in `GoLiteWeeder` |
| `Weeders.ArrayBoundDiffers` | src/golite/GoLiteWeeder.java:351-358 | a computed constant bound fails `Weeder` and passes `GoLiteWeeder`; a variable bound fails both with their own messages |
| `Weeders.FieldAccessDiffers` | src/golite/Weeder.java:316-323 | a field access on a literal fails `Weeder` only |
| `AstEncoders.Encoder.constructor` | src/golite/ASTEncoder.java:17-19 | a new encoder's text is empty |
| `AstEncoders.Encoder.DefaultIn` | src/golite/ASTEncoder.java:32-40 | `defaultIn` adds a space after a closed sibling, then "(" and the class name and a space |
| `AstEncoders.Encoder.DefaultOut` | src/golite/ASTEncoder.java:43-52 | `defaultOut` drops a trailing space left with nothing after it, then closes with ")" |
| `AstEncoders.Encoder.InEmbedding` | src/golite/ASTEncoder.java:55-68 | `inAIdOptId` and `inAVariableExpr` open the node as usual and then write the identifier's text |
| `AstEncoders.Encoder.Open` | src/golite/ASTEncoder.java:32-68 | opening a node writes the separator, "(", the class name, a space and, for identifier nodes only, the identifier's text |
| `AstEncoders.Encoder.Apply` | src/golite/ASTEncoder.java:10-68 | the depth-first walk over a subtree appends, after a separator, exactly the treebank encoding of that subtree |
| `AstEncoders.Encoder.ApplyAll` | src/golite/ASTEncoder.java:32-40 | the children are written in order, separated by single spaces |
| `AstEncoders.EncodeTree` | src/golite/ASTEncoder.java:27-29 | `getEncoding` after applying the encoder to a tree is that tree's treebank encoding |
| `AstEncoders.EncodingIsOneTree` | src/golite/ASTEncoder.java:7-10 | the encoding of a tree is a single balanced parenthesised term |
| `AstEncoders.Shapes` | src/golite/ASTEncoder.java:39-51 | a node's text starts with "(" and its class name and ends with ")", and a bare leaf is "(Name)" |
| `AstEncoders.IdentifierEmbedded` | src/golite/ASTEncoder.java:55-68 | an identifier follows the class name after one space: "(AVariableExpr x)" and "(AIdOptId x)" |
| `AstEncoders.SiblingsSeparated` | src/golite/ASTEncoder.java:35-37 | siblings are separated by exactly one space, and the first child follows the parent's name after one space |
| `BuildTests.Capitalize` | src/build_tests/build_tests.py:69-82 | the same length, the first character upper-cased, the rest unchanged |
| `BuildTests.Uncapitalize` | src/build_tests/build_tests.py:85-98 | the same length, the first character lower-cased, the rest unchanged |
| `BuildTests.ToCamelCase` | src/build_tests/build_tests.py:101-111 | `to_camel_case`: the `[0-9a-zA-Z]+` runs, each capitalized, joined, then the first character lowered; its meaning is given by `RunsAndGaps`, `RunsOfWeave`, `RunsKeepAlnumOnly` and `CamelCaseOfWeave` |
| `BuildTests.RunLength` | src/build_tests/build_tests.py:110-111 | the alphanumeric run at the front of a string is maximal |
| `BuildTests.RunsOfJoin` | src/build_tests/build_tests.py:110-111 | the alphanumeric runs of words joined by a non-alphanumeric separator are those words |
| `BuildTests.RunsAppend` | src/build_tests/build_tests.py:110-111 | the runs of `a + b` are those of `a` then those of `b` when `b` starts at a non-alphanumeric character |
| `BuildTests.RunsSkip` | src/build_tests/build_tests.py:110-111 | leading non-alphanumeric text contributes no run |
| `BuildTests.RunsOfWord` | src/build_tests/build_tests.py:110-111 | a nonempty alphanumeric word is one run |
| `BuildTests.RunsAndGaps` | src/build_tests/build_tests.py:110-111 | every string is its gaps and its runs taking turns: the runs are non-empty and alphanumeric, the gaps hold no alphanumeric character, and the gaps between runs are non-empty, so each run is a maximal alphanumeric stretch |
| `BuildTests.RunsOfWeave` | src/build_tests/build_tests.py:110-111 | conversely, for any runs and any such gaps around and between them, the runs found are exactly those runs, in order |
| `BuildTests.RunsKeepAlnumOnly` | src/build_tests/build_tests.py:110-111 | the runs put side by side are exactly the alphanumeric characters of the string, in order: every other character is dropped |
| `BuildTests.CamelCaseOfJoin` | src/build_tests/build_tests.py:101-111 | a stem of runs joined by one repeated non-alphanumeric separator becomes the capitalized runs concatenated, first character lowered |
| `BuildTests.CamelCaseOfWeave` | src/build_tests/build_tests.py:101-111 | any stem whose runs are separated by gaps of other characters, at either end too, becomes its capitalized runs concatenated, first character lowered |
| `BuildTests.CamelCaseKeepsFirstRunTail` | src/build_tests/build_tests.py:101-111 | only the very first character is lowered: the rest of the first run keeps its case |
| `BuildTests.ToTestName` | src/build_tests/build_tests.py:114-131 | `to_test_name`: the camel-cased stem plus "Test", then the first matching rule of the elif chain; its properties are the `TestName*`, `DigitBefore2dNotEscaped`, `ThreeDimKeptAfter2d` and `LeadingTwoDimName` lemmas |
| `BuildTests.TestNameHasNo2d` | src/build_tests/build_tests.py:122-125 | a test name never holds "2d" after the rewriting |
| `BuildTests.TestNameHasNo3dWithout2d` | src/build_tests/build_tests.py:124-127 | a name without "2d" has no "3d" after the rewriting |
| `BuildTests.TestNameEscapesDigit` | src/build_tests/build_tests.py:122-131 | without "2d" or "3d" a test name never starts with a digit and ends in "Test" |
| `BuildTests.DigitBefore2dNotEscaped` | src/build_tests/build_tests.py:124-129 | the rules are exclusive: a name with "2d" that starts with a digit keeps that digit in front |
| `BuildTests.ThreeDimKeptAfter2d` | src/build_tests/build_tests.py:124-127 | when a name holds both "2d" and "3d", only "2d" is rewritten |
| `BuildTests.LeadingTwoDimName` | src/build_tests/build_tests.py:122-125 | a stem that starts with "2d" gives a name starting with "TwoDim" |
| `BuildTests.LastIndexOf` | src/build_tests/build_tests.py:142 | the index of the last occurrence of a character, or -1 when there is none |
| `BuildTests.LastIndexOfBefore` | src/build_tests/build_tests.py:142 | the last `c` of `a + [c] + b` is the one after `a` when `b` has none |
| `BuildTests.DirName` | src/build_tests/build_tests.py:142 | `os.path.split(p)[0]`: everything before the last slash, trailing slashes dropped unless the head is all slashes; `SplitJoinPath` states its round trip |
| `BuildTests.BaseName` | src/build_tests/build_tests.py:283 | `os.path.basename`: everything after the last slash; `SplitJoinPath` states its round trip |
| `BuildTests.JoinPath` | src/build_tests/build_tests.py:382 | `os.path.join(parent, fname)`: an absolute name wins, otherwise one slash is put between them unless the parent is empty or ends in one |
| `BuildTests.SplitExtRoot` | src/build_tests/build_tests.py:201 | `os.path.splitext(p)[0]`: the path without its last extension, leading dots of the final component not starting one; `GenReadsSiblingOutFile` states its use |
| `BuildTests.SplitJoinPath` | src/build_tests/build_tests.py:382 | splitting a joined path of a slash-free parent end and a plain file name gives back the parent and the name |
| `BuildTests.TestMethodName` | src/build_tests/build_tests.py:280-284 | the method name: the test name, or for another group's program "Group", the parent directory's name and the capitalized test name; `OtherGroupsMethodName` states it |
| `BuildTests.OtherGroupsMethodName` | src/build_tests/build_tests.py:134-142 | a program is another group's test exactly when its parent path mentions "other_groups", and its method name is then "Group", the parent directory's name and the capitalized test name |
| `BuildTests.AssertExceptionBody` | src/build_tests/build_tests.py:171-193 | `create_assert_exception_method_body`: each kind but the last tried inside a `try` whose `catch` falls back to the rest; `ExceptionBodyShape` and `SingleKindIsUnguarded` state its shape |
| `BuildTests.ExceptionBodyShape` | src/build_tests/build_tests.py:171-193 | the exception body for n kinds is a try/catch chain of depth n-1 asserting the kinds in order, the catch with k kinds left labelled `e(k-1)` |
| `BuildTests.SingleKindIsUnguarded` | src/build_tests/build_tests.py:174-178 | one kind gives one unguarded `assertThatThrownBy` line |
| `BuildTests.GenMethodBodyShape` | src/build_tests/build_tests.py:198-267 | the code-generation body ends with the `finally` block and declares the expected-output file |
| `BuildTests.GenReadsSiblingOutFile` | src/build_tests/build_tests.py:201 | for a program `stem.go` the expected output is read from `stem.out` |
| `BuildTests.CategoryOf` | src/build_tests/build_tests.py:286-312 | exactly the six test categories are accepted; any other `tpe` is rejected |
| `BuildTests.MethodBody` | src/build_tests/build_tests.py:286-309 | the method body chosen by category and reference mode, with the check names, kinds and tab depth 2 the source passes; the `*BodyGuard` and `GenMethodBodyShape` lemmas state it |
| `BuildTests.InvalidParseBodyGuard` | src/build_tests/build_tests.py:292-295 | outside reference mode an invalid-syntax test asserts a lexer, parser or weeder exception, a chain of depth two |
| `BuildTests.InvalidTypeBodyGuard` | src/build_tests/build_tests.py:305-307 | outside reference mode an ill-typed test asserts a symbol-table or type-check exception, a chain of depth one |
| `BuildTests.ThrownKinds` | src/build_tests/build_tests.py:316-321 | every test method throws IOException, LexerException and ParserException, and InterruptedException exactly in reference mode or for code generation |
| `BuildTests.TestMethodStr` | src/build_tests/build_tests.py:145-325 | a test method is produced exactly for a known category, otherwise the `ValueError` message |
| `BuildTests.IgnoreSet` | src/build_tests/build_tests.py:359-370 | the stripped ignore-file lines that are not blank and do not start with '#', lines ending at '\n', '\r' or both; empty without an ignore file |
| `BuildTests.SelectedEntries` | src/build_tests/build_tests.py:376-386 | exactly the walked files whose name ends in ".go" and whose joined path is not ignored |
| `BuildTests.CreateTestMethods` | src/build_tests/build_tests.py:372-386 | one test method per selected file, in walk order, failing exactly when some file is selected and the category is unknown |
| `BuildTests.CreateTest` | src/build_tests/build_tests.py:339-405 | `create_test` reads the ignore set, builds those methods and fills the class template with the name and the methods joined by blank lines |
| `BuildTests.ClassSource` | src/build_tests/build_tests.py:391-397 | the template with every name marker replaced by the class name, then every tests marker by the methods joined by blank lines; `ClassSourceFillsMarkers` and `MarkerAbsentAfterOther` state it |
| `BuildTests.ClassSourceFillsMarkers` | src/build_tests/build_tests.py:392-397 | in a template with one name marker and then one tests marker, each marker is replaced by its text and nothing else changes |
| `BuildTests.MarkerAbsentAfterOther` | src/build_tests/build_tests.py:393-397 | filling one marker does not touch a different marker |
| `BuildTests.PlanIsConsistent` | src/build_tests/build_tests.py:438-476 | every class `main` builds has a known category and the requested mode |
| `BuildTests.SuiteListsBuiltClasses` | src/build_tests/build_tests.py:483-495 | the suite lists the built classes as class literals separated by ",\n\t": four in reference mode, six otherwise |
| `BuildTests.SuiteSourceFillsMarker` | src/build_tests/build_tests.py:483-495 | the suite template's marker is replaced by that list and nothing else changes |
| `PrettyPrinters.Printer.constructor` | src/golite/PrettyPrinter.java:26-30 | a new printer has an empty buffer and no indentation |
| `PrettyPrinters.Printer.AddTabs` | src/golite/PrettyPrinter.java:780-784 | `addTabs` appends exactly `numTabs` tabs |
| `PrettyPrinters.Printer.AddNewLine` | src/golite/PrettyPrinter.java:791-795 | `addNewLine(n)` appends exactly `n` newlines, none when `n` is not positive |
| `PrettyPrinters.TypeText` | src/golite/PrettyPrinter.java:112-177 | the printed text of a type expression, built as the hooks append it; `TypeBalanced` and `ArrayBoundPrintedTwice` state its properties |
| `PrettyPrinters.Printer.PrintType` | src/golite/PrettyPrinter.java:112-177 | the walk over a type expression appends that type's printed text and keeps the indentation |
| `PrettyPrinters.Printer.PrintArrayType` | src/golite/PrettyPrinter.java:166-168 | an array type writes "[" + the bound's `toString` + "]", then the default walk over bound and element |
| `PrettyPrinters.Printer.PrintFieldTypes` | src/golite/PrettyPrinter.java:112-159 | a struct type has no hook: the walk prints its field types in order |
| `PrettyPrinters.ExprText` | src/golite/PrettyPrinter.java:188-769 | the printed text of an expression, built as the hooks append it; `ExprBalanced` and `ZeroArgumentCall` state its properties |
| `PrettyPrinters.Printer.PrintExpr` | src/golite/PrettyPrinter.java:188-769 | the walk over an expression appends that expression's printed text and keeps the indentation |
| `PrettyPrinters.Printer.PrintBinary` | src/golite/PrettyPrinter.java:188-372 | a binary expression prints as "(" left, the operator, right ")" |
| `PrettyPrinters.Printer.PrintUnary` | src/golite/PrettyPrinter.java:384-436 | the `in` hook writes "(" and the operator, the `out` hook ")" |
| `PrettyPrinters.Printer.PrintAppend` | src/golite/PrettyPrinter.java:614-625 | an append prints as "append(" id "," value ")" |
| `PrettyPrinters.Printer.PrintCast` | src/golite/PrettyPrinter.java:632-641 | a cast prints as the type, "(", the value, ")" |
| `PrettyPrinters.Printer.PrintField` | src/golite/PrettyPrinter.java:652-660 | a field access prints as the object, ".", the field name |
| `PrettyPrinters.Printer.PrintElem` | src/golite/PrettyPrinter.java:671-680 | an element access prints as the array, "[", the index, "]" |
| `PrettyPrinters.Printer.PrintCall` | src/golite/PrettyPrinter.java:591-603 | a call prints its name, "(", each argument followed by a comma, the last character deleted, and ")" |
| `PrettyPrinters.Printer.PrintEachId` | src/golite/PrettyPrinter.java:86-90 | the identifier loop of a var spec writes each identifier followed by a comma |
| `PrettyPrinters.Printer.PrintVarSpec` | src/golite/PrettyPrinter.java:75-105 | a var spec prints its tabs, its ids separated by commas, its type, its values each followed by a comma with the last character deleted, and a newline |
| `PrettyPrinters.Printer.PrintSpecHead` | src/golite/PrettyPrinter.java:86-95 | the identifiers with the last comma deleted, then the type |
| `PrettyPrinters.Printer.PrintValues` | src/golite/PrettyPrinter.java:96-101 | the value loop writes each value followed by a comma |
| `PrettyPrinters.Printer.PrintVarSpecs` | src/golite/PrettyPrinter.java:75-105 | the specs are printed in order, at the same indentation |
| `PrettyPrinters.Printer.PrintVarsTopDec` | src/golite/PrettyPrinter.java:49-66 | one spec prints after "var " on the same line; several go inside "var (" and ")" one tab deeper; the indentation is restored |
| `PrettyPrinters.StmtText` | src/golite/PrettyPrinter.java:14-21 | what the default walk prints for a statement: its nested expressions, type expressions and var specs only |
| `PrettyPrinters.Printer.WalkStmt` | src/golite/PrettyPrinter.java:14-21 | statements have no hook: the walk prints only their nested expressions, type expressions and var specs, in order |
| `PrettyPrinters.Printer.WalkIfElse` | src/golite/PrettyPrinter.java:14-21 | the same for an if-else statement |
| `PrettyPrinters.Printer.WalkSwitch` | src/golite/PrettyPrinter.java:14-21 | the same for a switch statement and its cases |
| `PrettyPrinters.Printer.WalkCase` | src/golite/PrettyPrinter.java:14-21 | the same for one case block |
| `PrettyPrinters.Printer.WalkLoop` | src/golite/PrettyPrinter.java:14-21 | the same for a loop |
| `PrettyPrinters.Printer.WalkOpt` | src/golite/PrettyPrinter.java:14-21 | the same for an optional statement |
| `PrettyPrinters.Printer.WalkOptExpr` | src/golite/PrettyPrinter.java:14-21 | the same for an optional expression |
| `PrettyPrinters.Printer.WalkStmts` | src/golite/PrettyPrinter.java:14-21 | the same for a list of statements |
| `PrettyPrinters.Printer.WalkExprs` | src/golite/PrettyPrinter.java:188-769 | a list of expressions prints with nothing between |
| `PrettyPrinters.Printer.WalkTypeSpecs` | src/golite/PrettyPrinter.java:112-177 | type declarations print only their type expressions |
| `PrettyPrinters.Printer.WalkArgTypes` | src/golite/PrettyPrinter.java:112-177 | argument groups print only their types |
| `PrettyPrinters.Printer.PrintTopDec` | src/golite/PrettyPrinter.java:49-66 | a top-level declaration prints as its var block, or as the walk over its types and body |
| `PrettyPrinters.Printer.WalkFunc` | src/golite/PrettyPrinter.java:112-177 | a function declaration has no hook: its text is its argument types, then its return type if any, then its statements, with the indentation unchanged |
| `PrettyPrinters.ProgText` | src/golite/PrettyPrinter.java:37-41 | the package line, then each top-level declaration's text; `PackageLineFirst` states its prefix |
| `PrettyPrinters.Printer.PrintProg` | src/golite/PrettyPrinter.java:37-41 | a program prints as the package line and then each top-level declaration |
| `PrettyPrinters.Printer.PrintPackage` | src/golite/PrettyPrinter.java:37-41 | `inAProgProg` writes no tabs at the top level, "package " and the id, and a newline |
| `PrettyPrinters.PrettyPrint` | src/golite/PrettyPrinter.java:26-41 | a fresh printer applied to a program holds that program's printed text |
| `PrettyPrinters.CharsExact` | src/golite/PrettyPrinter.java:780-795 | `addTabs` and `addNewLine` emit exactly that many copies of their character, none for a negative count |
| `PrettyPrinters.OperatorSpellings` | src/golite/PrettyPrinter.java:188-580 | `&&`, `\|\|` and `&^` are spelled as in Go, and no two binary operators print alike |
| `PrettyPrinters.ExprBalanced` | src/golite/PrettyPrinter.java:188-693 | over parenthesis-free leaves, every parenthesis the printer writes around an expression is matched |
| `PrettyPrinters.TypeBalanced` | src/golite/PrettyPrinter.java:112-177 | the same for type expressions |
| `PrettyPrinters.ZeroArgumentCall` | src/golite/PrettyPrinter.java:591-603 | a call without arguments deletes its own "(": `f()` prints as "f)", one more ")" than "(" |
| `PrettyPrinters.ValuelessSpecDropsLastChar` | src/golite/PrettyPrinter.java:96-101 | a var spec without values loses the last character of its type: `var x int` prints as "xin" |
| `PrettyPrinters.ArrayBoundPrintedTwice` | src/golite/PrettyPrinter.java:166-168 | an array type prints its bound twice: `[n]int` prints as "[n]nint" |
| `PrettyPrinters.PackageLineFirst` | src/golite/PrettyPrinter.java:37-41 | the printed program starts with its package clause on a line of its own |
| `CodeGenerators.BitMaskValue` | src/golite/generator/CodeGenerator.java:38-49 | the emitted `bit_mask` maps every integer into [-2^31, 2^31), to a value congruent to it modulo 2^32, and leaves values already in that range unchanged (32-bit wrap-around) |
| `CodeGenerators.RuneValue` | src/golite/generator/CodeGenerator.java:1628-1676 | a rune literal has a value exactly when its text holds at least three characters; a plain one-character literal stands for the code of that character |
| `CodeGenerators.RawValue` | src/golite/generator/CodeGenerator.java:1688-1702 | a raw string literal has a converted form exactly when its text holds at least the two backquotes |
| `CodeGenerators.FirstDefault` | src/golite/generator/CodeGenerator.java:820-894 | the switch's search finds the first default case: it is a default, no case before it is, and nothing is found only when the switch has no default case |
| `CodeGenerators.Generator.constructor` | src/golite/generator/CodeGenerator.java:29-35 | a new generator holds the given type table, an empty buffer, depth 0 and no loop end statement |
| `CodeGenerators.Generator.AddTabs` | src/golite/generator/CodeGenerator.java:1712-1716 | `addTabs` appends one tab per level of the current depth and changes nothing else |
| `CodeGenerators.Generator.AddLines` | src/golite/generator/CodeGenerator.java:1718-1722 | `addLines(n)` appends exactly `n` newlines (none when `n` is not positive) and changes nothing else |
| `CodeGenerators.Generator.AddLine` | src/golite/generator/CodeGenerator.java:1718-1722 | `addLines(1)` appends one newline |
| `CodeGenerators.Generator.BitMask` | src/golite/generator/CodeGenerator.java:38-49 | an expression the type table marks int or rune is wrapped in `bit_mask(...)`; any other expression is emitted bare |
| `CodeGenerators.Code` | src/golite/generator/CodeGenerator.java:1000-1702 | the Python text of an expression, int and rune operands masked; `ShiftRightLeftUnmasked`, `OperatorSpellingsDiffer`, `RuneCodes` and `RawStringBecomesPythonRaw` state its properties |
| `CodeGenerators.Generator.GenExpr` | src/golite/generator/CodeGenerator.java:1000-1702 | walking an expression appends exactly its Python text and leaves depth and loop end unchanged |
| `CodeGenerators.Generator.GenBinary` | src/golite/generator/CodeGenerator.java:1010-1497 | a binary expression appends its parenthesised Python form with masked operands (the left operand of `>>` excepted) |
| `CodeGenerators.Generator.GenUnary` | src/golite/generator/CodeGenerator.java:1251-1320 | a unary expression appends "(", the Python operator, a space, the masked operand and ")" |
| `CodeGenerators.Generator.GenCall` | src/golite/generator/CodeGenerator.java:1504-1529 | a call appends the function name and its unmasked arguments between parentheses |
| `CodeGenerators.Generator.GenList` | src/golite/generator/CodeGenerator.java:294-325 | a list of expressions is appended separated by ", ", each masked when asked |
| `CodeGenerators.Generator.GenRune` | src/golite/generator/CodeGenerator.java:1628-1676 | a rune literal appends the decimal code of its character |
| `CodeGenerators.Generator.GenRaw` | src/golite/generator/CodeGenerator.java:1688-1702 | a raw string literal appends a Python raw string over the same text |
| `CodeGenerators.Generator.GenIds` | src/golite/generator/CodeGenerator.java:328-345 | identifiers are appended separated by ", ", a blank identifier as "_" |
| `CodeGenerators.Generator.GenStep` | src/golite/generator/CodeGenerator.java:592-634 | `x++`/`x--` appends the compound step, then on the next line the target assigned its own masked value (the wrap-around for int and rune targets) |
| `CodeGenerators.Generator.GenSimple` | src/golite/generator/CodeGenerator.java:266-645 | a simple statement (empty, short assignment, assignment, compound assignment, increment, decrement, expression) appends exactly its Python text |
| `CodeGenerators.Generator.GenLead` | src/golite/generator/CodeGenerator.java:757-813 | an init statement, when present, is emitted first and followed by a newline and the current tabs |
| `CodeGenerators.Generator.GenDefaults` | src/golite/generator/CodeGenerator.java:138-161 | a typed var spec without values appends one default value per name, separated by ", " |
| `CodeGenerators.Generator.GenSpec` | src/golite/generator/CodeGenerator.java:121-176 | a var spec appends its names, " = ", then its defaults or its values (not masked) |
| `CodeGenerators.Generator.GenVarDec` | src/golite/generator/CodeGenerator.java:275-291 | a var declaration statement appends its specs, each after a newline and the tabs except the first |
| `CodeGenerators.Generator.GenPrint` | src/golite/generator/CodeGenerator.java:652-684 | `print` appends one Python `print` call of the `str(...)` texts joined by " + ", always ending in `end = ''` |
| `CodeGenerators.Generator.GenPrintln` | src/golite/generator/CodeGenerator.java:687-709 | `println` appends one Python `print` call with the expressions as arguments |
| `CodeGenerators.Generator.GenContinue` | src/golite/generator/CodeGenerator.java:716-727 | `continue` first replays the end statement of the last loop entered, on a line of its own, then `continue` |
| `CodeGenerators.Generator.GenReturn` | src/golite/generator/CodeGenerator.java:739-750 | `return` appends "return " and the value, unmasked, when there is one |
| `CodeGenerators.Generator.GenCondition` | src/golite/generator/CodeGenerator.java:794-813 | a condition appends its init statement and a new line first, then "if ", the expression and a colon |
| `CodeGenerators.Generator.GenCaseTest` | src/golite/generator/CodeGenerator.java:820-894 | one case test is `(tag == e)`, or the bare expression for a switch without a tag |
| `CodeGenerators.Generator.GenCaseTests` | src/golite/generator/CodeGenerator.java:820-894 | the tests of one case are appended joined by " or " |
| `CodeGenerators.Generator.IsBlockEmpty` | src/golite/generator/CodeGenerator.java:1771-1782 | `isBlockEmpty` answers true exactly when every statement of the block is empty |
| `CodeGenerators.Generator.FindDefault` | src/golite/generator/CodeGenerator.java:820-894 | the switch's search loop returns the first default case, as `FirstDefault` characterises it |
| `CodeGenerators.Generator.EnterCodeBlock` | src/golite/generator/CodeGenerator.java:1754-1757 | entering a block appends a newline and goes one level deeper |
| `CodeGenerators.Generator.ExitCodeBlock` | src/golite/generator/CodeGenerator.java:1759-1769 | leaving a block appends a `pass` line at the block's depth when asked, and goes one level back |
| `CodeGenerators.Generator.GenerateStatement` | src/golite/generator/CodeGenerator.java:1744-1752 | `generateStatement` appends the tabs, the statement's text and a newline, or nothing for an empty statement; the loop end changes only as the statement's loops dictate |
| `CodeGenerators.Generator.GenLines` | src/golite/generator/CodeGenerator.java:981-992 | a statement list appends each statement's line in order |
| `CodeGenerators.Block` | src/golite/generator/CodeGenerator.java:981-992 | a newline, the statements one tab deeper, and a `pass` line when they are all empty; `BlockNeverBare` and `LinesEmpty` state its properties |
| `CodeGenerators.Generator.GenBlock` | src/golite/generator/CodeGenerator.java:981-992 | a block appends a newline and its lines one level deeper, or a single `pass` line when all its statements are empty, and restores the depth |
| `CodeGenerators.StmtCode` | src/golite/generator/CodeGenerator.java:266-992 | the Python text of a statement at a tab depth, with the loop end that `continue` replays; `LoopFreeKeepsEnd`, `ContinueReplaysOwnEnd` and `InnerEndLeaksToOuterContinue` state its properties |
| `CodeGenerators.Generator.GenStmt` | src/golite/generator/CodeGenerator.java:266-992 | walking any statement appends exactly its Python text at the current depth and leaves the depth unchanged |
| `CodeGenerators.Generator.GenIfElse` | src/golite/generator/CodeGenerator.java:757-791 | if-else appends the condition and its block, then always an `else:` line and the else block (a `pass` block when that is empty) |
| `CodeGenerators.Generator.GenSwitch` | src/golite/generator/CodeGenerator.java:820-894 | a switch appends the init, its non-default cases as `if`/`elif` arms in order, then the default case as an `else` arm |
| `CodeGenerators.Generator.GenArms` | src/golite/generator/CodeGenerator.java:820-894 | the arm loop appends one arm per non-default case, "if" for the first case and "elif" after it |
| `CodeGenerators.Generator.GenArm` | src/golite/generator/CodeGenerator.java:820-916 | one pass of the arm loop appends the keyword, the case tests, a colon and the case block, and nothing for a default case |
| `CodeGenerators.Generator.GenDefaultArm` | src/golite/generator/CodeGenerator.java:820-916 | the default case, when there is one, appends the `else` arm (`if True:` when it is the only case) |
| `CodeGenerators.Generator.GenLoop` | src/golite/generator/CodeGenerator.java:933-974 | a loop appends the init, "while", the condition or `True`, a colon and the loop block |
| `CodeGenerators.Generator.GenLoopBlock` | src/golite/generator/CodeGenerator.java:933-974 | the loop block records the loop's end statement as the one `continue` replays, then appends the body followed by the end statement |
| `CodeGenerators.Generator.GenLoopLines` | src/golite/generator/CodeGenerator.java:933-974 | inside the loop, the body's statements come first, then the end statement, each as a line |
| `CodeGenerators.Generator.GenArgGroup` | src/golite/generator/CodeGenerator.java:241-259 | an argument group appends its names separated by ", " and drops their type |
| `CodeGenerators.Generator.GenArgGroups` | src/golite/generator/CodeGenerator.java:197-238 | the argument groups of a function are appended separated by ", " |
| `CodeGenerators.Generator.GenFunc` | src/golite/generator/CodeGenerator.java:197-238 | a function declaration appends "def", its name, its argument names in parentheses, a colon and its block |
| `CodeGenerators.Generator.GenVarsTopDec` | src/golite/generator/CodeGenerator.java:106-118 | a top-level var declaration appends each spec on a line of its own |
| `CodeGenerators.Generator.GenTopDec` | src/golite/generator/CodeGenerator.java:106-238 | each top-level declaration appends its Python text; type declarations add nothing |
| `CodeGenerators.Generator.GenImport` | src/golite/generator/CodeGenerator.java:73-78 | `generateImport` appends the `print_function` import and the `bit_mask` definition |
| `CodeGenerators.Generator.GenMain` | src/golite/generator/CodeGenerator.java:80-83 | `generateMain` appends the `__main__` guard that calls `main()` |
| `CodeGenerators.ProgCode` | src/golite/generator/CodeGenerator.java:86-99 | the header, the top-level declarations each followed by a newline, then the trailer; `ProgramFraming` states its framing |
| `CodeGenerators.Generator.GenProg` | src/golite/generator/CodeGenerator.java:86-99 | a program appends the header, its top-level declarations, then the trailer |
| `CodeGenerators.Generator.GenTops` | src/golite/generator/CodeGenerator.java:86-99 | the top-level declarations are appended in order, each followed by a newline |
| `CodeGenerators.Generator.GenTopLine` | src/golite/generator/CodeGenerator.java:92-95 | each top-level declaration's text is followed by exactly one newline; the indentation is unchanged and the for-end memory moves as the declaration dictates |
| `CodeGenerators.GenerateCode` | src/golite/generator/CodeGenerator.java:29-99 | a fresh generator applied to a program returns exactly the program's Python text at depth 0 with no loop end statement |
| `CodeGenerators.LinesEmpty` | src/golite/generator/CodeGenerator.java:1744-1752 | a statement list produces no text exactly when every statement in it is empty |
| `CodeGenerators.BlockNeverBare` | src/golite/generator/CodeGenerator.java:981-992 | a block whose statements are all empty becomes a single `pass` line; any other block produces a non-empty body, so no Python block is left without a statement |
| `CodeGenerators.LoopFreeKeepsEnd` | src/golite/generator/CodeGenerator.java:933-974 | a statement with no loop inside does not change the end statement that `continue` replays |
| `CodeGenerators.LoopFreeLinesKeepEnd` | src/golite/generator/CodeGenerator.java:933-974 | a list of loop-free statements does not change the end statement that `continue` replays |
| `CodeGenerators.LoopFreeArmsKeepEnd` | src/golite/generator/CodeGenerator.java:820-974 | switch arms with loop-free blocks do not change the end statement that `continue` replays |
| `CodeGenerators.ContinueReplaysOwnEnd` | src/golite/generator/CodeGenerator.java:716-727 | in a loop whose body holds no inner loop, every `continue` in the body replays that loop's own end statement |
| `CodeGenerators.InnerEndLeaksToOuterContinue` | src/golite/generator/CodeGenerator.java:716-727 | the end statement is not restored when a loop is left: a `continue` of the outer loop that follows an inner loop replays the inner loop's end statement |
| `CodeGenerators.ContinueLine` | src/golite/generator/CodeGenerator.java:716-727 | the `continue` line holds the replayed end statement, a newline with the tabs, then `continue` |
| `CodeGenerators.DefaultFirstLeavesElif` | src/golite/generator/CodeGenerator.java:820-894 | when the first case of a switch is the default one, the next case is emitted with "elif" and no `if` arm precedes it |
| `CodeGenerators.OnlyDefaultIsIfTrue` | src/golite/generator/CodeGenerator.java:820-894 | a switch whose only case is the default becomes `if True:` and that case's block |
| `CodeGenerators.ShiftRightLeftUnmasked` | src/golite/generator/CodeGenerator.java:1204-1243 | of `<<` and `>>`, only `>>` leaves its left operand unmasked; both mask the right operand |
| `CodeGenerators.OperatorSpellingsDiffer` | src/golite/generator/CodeGenerator.java:1010-1497 | the Python operator differs from the Go one exactly for `&^` (written `&~`), `&&` (`and`) and `\|\|` (`or`) |
| `CodeGenerators.RuneCodes` | src/golite/generator/CodeGenerator.java:1628-1676 | `'\n'` becomes 10, `'\\'` becomes 92, `'a'` becomes 97, and every plain character becomes its code |
| `CodeGenerators.RawStringBecomesPythonRaw` | src/golite/generator/CodeGenerator.java:1688-1702 | a raw string's backquotes become `r"` and `"` around the same text |
| `CodeGenerators.PrintShapes` | src/golite/generator/CodeGenerator.java:652-684 | `print` of nothing is still `print(end = '')`, and one value becomes `str(v), end = ''` |
| `CodeGenerators.PrintlnEmpty` | src/golite/generator/CodeGenerator.java:687-709 | `println` of nothing is a bare `print()` |
| `CodeGenerators.IncrementWraps` | src/golite/generator/CodeGenerator.java:592-612 | `x++` on an int variable becomes `x += 1` followed, on the next line, by the assignment of `bit_mask(x)` to `x` |
| `CodeGenerators.DefaultValues` | src/golite/generator/CodeGenerator.java:138-161 | var specs without values give `0` per name for int, nothing after " = " for string, and `null` for rune |
| `CodeGenerators.ProgramFraming` | src/golite/generator/CodeGenerator.java:73-99 | every generated program starts with the header and ends with the `__main__` trailer, and an empty program is exactly those two |

## Left out

- File-system and process I/O of `build_tests.py`: the directory walk, file reads and writes, `makedirs`, argument parsing, logging and the check that the reference compiler exists. The walk is a given sequence of (parent, file name) pairs, and the template and the ignore list are given strings.
- The generated Java and Python are text only; their runtime behaviour is not modelled.
- A type name bound to a void function: `getResolvedType` returns its null argument unchanged, so the source builds an alias of the null type. `AliasResolution.AliasedType` stands in `VoidT` for that missing type. The result therefore prints and compares like the void type rather than failing on null.
- The `Main`, tester and template Java files are command-line and test-runner glue; only the template marker strings are modelled. The marker on line 39 of `GoLiteTest.template.java` is never substituted by the script, and the model does not substitute it either.
- The SableCC-generated lexer, parser, node and visitor classes are not part of this model. The `Ast` datatypes replace the nodes. The tree walks visit children in field order, as the generated `DepthFirstAdapter` does.
- Line and position tracking and the "[line,pos]" prefixes of error messages: errors are tagged results carrying the message text.
- `printStackTrace` and `System.exit` in the type checker become an error outcome.
- `TypedPrettyPrinter` is glue that calls methods that do not exist; the stale duplicates in `golite.symbol` (its `StructType`, `ArrayType`, `AliasType` and `ToBeInferredType`) duplicate `golite.type`; neither is modelled.
- Hash codes, `SymbolTable.toString` and platform line separators. Only `equals` is modelled. Java identity of placeholder types is modelled as value equality.
- `GoLiteWeeder` messages that embed a node's printed text, such as an expression "evaluated but not used" or "Cannot assign to " an expression: the model keeps the fixed part of the message and drops the node text.
- Floating-point values: float literals and types appear only as tags.
- Java's `char` to `int` conversion counts UTF-16 code units, while a Dafny `char` is a code point. Rune codes agree for characters of the Basic Multilingual Plane.
- Character classes and case mapping in `build_tests.py` are ASCII only.
- The type table is keyed by expression value, not by node identity: two equal sub-expressions always get the same type.
- The `toString()` of an array bound node is generated SableCC code; the printer takes it as a parameter.
- An element expression's array part is any expression, where the grammar may be narrower.
- The program's file name, which the generator never uses.
- SymbolTables.SymbolTable.ExitScope: requires a non-empty scope stack. The source fails with a Java exception on an empty one, which no caller reaches because the builder opens two scopes first.
- SymbolTables.SymbolTable.GetSymbolFromCurrentScope: requires a non-empty scope stack, for the same reason.
- SymbolTables.SymbolTable.GetSymbolsFromCurrentScope: requires a non-empty scope stack, for the same reason.
- SymbolTables.SymbolTable.PutSymbol: requires a non-empty scope stack, for the same reason.
- SymbolTables.SymbolTable.DefSymbolInCurrentScope: requires a non-empty scope stack, for the same reason.
- PrettyPrinters.Printer.PrintVarSpec: requires the spec's first identifier to have non-empty text, which the grammar guarantees. The character deletion of a spec without values then stays inside the spec's own text.
- PrettyPrinters.Printer.PrintSpecHead: the same requirement.
- PrettyPrinters.Printer.PrintProg: requires that requirement of every var spec in the program, and a printer at depth 0.
- PrettyPrinters.PrettyPrint: the same requirement of every var spec in the program.
- CodeGenerators.RuneValue: a rune literal shorter than three characters has no value, and the generator emits nothing for it, where Java would throw on the out-of-range index. The parser never produces one.
- CodeGenerators.RawValue: a raw literal shorter than two characters is treated the same way.
- CodeGenerators.Generator.GenSimple: a statement that is not simple, in a position that the grammar keeps for simple statements, emits nothing. The parser never produces one.
- CodeGenerators.Generator.GenExpr: boolean literals, the empty expression, and the still unimplemented `append`, cast, element and field nodes emit nothing, as their source hooks do.
