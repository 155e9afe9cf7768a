# bpftrace semantic analyser, modelled in Dafny

This project models the semantic analyser of bpftrace's tracing language. The
analyser is a multi-pass type checker over an already-parsed tree of probes.

- **What it checks.** It gives every expression a `SizedType` (a category and a
  size in bytes, plus a struct/union name for casts). It checks builtins, calls,
  map and variable references, operators, casts, field access, predicates and
  attach points.
- **What it records.** It keeps one schema per map (a key shape in `map_key_`
  and a value type in `map_val_`), a probe-local variable scope
  (`variable_val_`) and an append-only diagnostics buffer.
- **The driver.** `analyse` runs the visitor ten times and stops at the first
  pass that leaves a diagnostic. Checks that must tolerate forward references
  fire only on the final (tenth) pass.
- **Materialisation.** `create_maps` turns the recorded schemas into map
  objects.
- **The smaller pieces.** The model also covers the type vocabulary and
  provider classifier (`types.h`/`types.cpp`), the `printf` format verifier
  (`printf.cpp`) and the x86_64 argument-register table (`arch/x86_64.cpp`).

The model is functional. Every `visit` overload is a pure function from a node
and the analyser `State` to the re-annotated node and the new state. Nodes keep
their `ty` annotation from one pass to the next. A rule that "assigns no type"
leaves the previous annotation in place, and that annotation is none/0 before
the first pass.

| file | module | models |
|---|---|---|
| `types.dfy` | `Types` | the UTF-8 byte length of a string, `Type`, `SizedType` and its equality, `typestr`, the printed form of a `SizedType`, `ProbeType`, `probetype` |
| `arch.dfy` | `Arch` | the x86_64 argument-offset table, `max_arg`, `arg_offset`, the ret/pc/sp offsets, `name` |
| `printf.dfy` | `Printf` | `verify_format_string`: the `%-?[0-9]*[a-zA-Z]+` tokeniser, the count check, the per-argument type check |
| `ast.dfy` | `Ast` | the tree: expressions, map and variable nodes, statements, attach points, probes, the program |
| `analyser.dfy` | `Analyser` | the analyser state, every `visit` overload, `is_final_pass`, `check_assignment`, `check_nargs`, `check_varargs`, `check_arg` |
| `driver.dfy` | `Driver` | `analyse` (over any pass function and over the analyser), `create_maps` |
| `properties.dfy` | `ExprProperties` | lemmas about the expression rules |
| `stmt_properties.dfy` | `StmtProperties` | lemmas about statements, variable scope, attach points and the `func` abort |
| `example_program.dfy` | `ExampleProgram` | a full analysis of `kprobe:f { @x = count(); }` through `analyse` and `create_maps` |

How the inputs and outputs are represented:

- **Diagnostics.** Each diagnostic is a `Diag` value naming its kind and
  operands. The exact message text is not modelled.
- **Abort.** `probetype` aborts on an unknown provider, so `Types.ProbeTypeOf`
  requires a known provider. The `func` builtin calls `probetype` on every
  attach point of the current probe. A probe whose attach points include an
  invalid provider still has its statements visited, so a `func` there aborts
  the process. `Ast.AbortFree` therefore rules out exactly these programs, and
  `Driver.Analyse` requires it. `StmtProperties.FuncUnderUnknownProviderAborts`
  shows that such programs exist.
- **Struct/union registry.** It lives in the state: `structs_[name]` with
  `operator[]` inserts a default entry for a missing name.
- **Runtime sinks.** `add_probe` and `printf_args_` are outputs in the state:
  `probes` and `printfArgs`.
- **Parameters.** The `printf` conversion table and the register lookup
  `arch::offset` are parameters in `Analyser.Env`. They are not part of this
  model's sources. The register lookup returns -1 for an unknown name.

Where the sources disagree with each other:

- **`SizedType` shape.** `src/types.h` declares `SizedType` with only a
  category and a size. The analyser reads and writes a `cast_type` name and
  uses a three-argument constructor. The model follows the analyser:
  `SizedType(ty, size, castType)`. Equality still compares only category and
  size, as `src/types.cpp` does.
- **Struct registry shape.** `src/bpftrace.h` declares the struct registry as
  a map of name to a map of field name to `int`. The analyser reads a struct's `size` and each
  field's `type`. The model follows the analyser:
  `StructInfo(size, fields: map<string, SizedType>)`.

Rules of the analyser's code that are easy to misread:

- **The `func` type.** The type is overwritten once per attach point, so the
  last attach point that is not `profile` decides. `kprobe:f,
  uprobe:/bin/sh:g` gives usym/8 although a kprobe is present
  (`ExprProperties.FuncUnderKprobeThenUprobe`); `kprobe:f, profile:hz:99`
  gives sym/8 (`ExprProperties.FuncUnderKprobeThenProfile`).
- **`func` under `profile`.** Every `profile` attach point of the probe is
  reported, once each, even when a kprobe among them already gave `func` a
  type (`Analyser.ProfileDiags`).
- **A variable's stored none.** A later assignment does not only compare
  categories: a stored none is overwritten before the final pass, and on the
  final pass the assignment is reported as "Undefined variable"
  (`StmtProperties.ReassignVariable`).
- **A variable node's annotation.** It is set only by the first assignment;
  a reassignment leaves it as it was (`StmtProperties.ReassignVariable`).

## Model

| member | source | states |
|---|---|---|
| Types.Utf8Length | src/ast/semantic_analyser.cpp:20 | the byte length `size()` reports for a string lies between its character count and four times that count |
| Types.Utf8LengthIsCountOnAscii | src/ast/semantic_analyser.cpp:20 | the byte length equals the character count exactly when every character is ASCII |
| Types.SameSizedTypeIsEquivalence | src/types.cpp:19-22 | `SizedType` equality is reflexive, symmetric and transitive |
| Types.SameSizedTypeIgnoresCastType | src/types.cpp:19-22 | equality depends only on category and size: renaming the struct on either side never changes the verdict |
| Types.TypeStr | src/types.cpp:24-40 | `typestr` is defined for every category except `del` (the source aborts there) and never yields an empty name |
| Types.TypeStrInjective | src/types.cpp:24-40 | two categories print the same name exactly when they are the same category |
| Types.ShowSizedTypeIgnoresSizeAndName | src/types.cpp:13-17 | two `SizedType`s print identically iff their categories agree: the size and struct name never appear |
| Types.ProbeTypeOf | src/types.cpp:42-61 | `probetype` is defined only on the eight provider names, never returns `invalid`, and maps BEGIN and END to uprobe |
| Types.ProbeTypeOfPreimages | src/types.cpp:42-61 | for each probe kind, exactly which provider names map to it (uprobe: uprobe, BEGIN, END; the others one name each) |
| Arch.MaxArg | src/arch/x86_64.cpp:17-20 | the highest argument index is the table length minus one, i.e. 5 |
| Arch.ArgOffset | src/arch/x86_64.cpp:22-25 | `arg_offset` is defined only for 0..max_arg and returns one of the table's offsets |
| Arch.ArgOffsetsDistinct | src/arch/x86_64.cpp:8-15 | distinct argument indices have distinct register offsets |
| Arch.SpecialOffsetsDisjoint | src/arch/x86_64.cpp:27-40 | the return, pc and sp offsets differ from each other and from every argument offset |
| Printf.MatchAtIsToken | src/printf.cpp:11 | whatever the scanner matches at a position is a string of the form `%-?[0-9]*[a-zA-Z]+` |
| Printf.MatchAtIsLongest | src/printf.cpp:11-13 | no match starting at a position is longer than the scanner's, so a skipped position starts no match |
| Printf.TokensWellFormed | src/printf.cpp:11-16 | every token of a format string has the regex's shape |
| Printf.PercentPercentIsOneToken | src/printf.cpp:11-16 | `%%d` yields the single token `%d` |
| Printf.SpecifierOfToken | src/printf.cpp:37-45 | on a token, skipping '%', the optional '-' and the width digits leaves exactly the non-empty run of trailing letters |
| Printf.PrintedAs | src/printf.cpp:34-36 | sym and usym arguments are checked as string, and every other category as itself, so no argument is ever checked as sym or usym |
| Printf.Misfit | src/printf.cpp:46-58 | a token/argument pair that does not fit is reported as an unknown token iff its specifier is not in the table, otherwise as a mismatch whose wanted and given categories differ |
| Printf.CheckArgs | src/printf.cpp:31-60 | the per-argument loop succeeds iff every token fits its argument, and otherwise reports an unknown token or a mismatch |
| Printf.CheckArgsReportsFirstMisfit | src/printf.cpp:46-59 | a failing check reports the first pair, in argument order, that does not fit, and only that one |
| Printf.VerifyFormatString | src/printf.cpp:8-61 | "not enough arguments" iff fewer args than tokens, "too many" iff more, and success iff the counts match and every argument's printed category equals its token's |
| Analyser.InitialState | src/ast/semantic_analyser.h:53-60 | before the first pass the stack-id, BEGIN and END flags are clear and the schemas, scope and diagnostics are empty |
| Analyser.CheckAssignment | src/ast/semantic_analyser.cpp:550-585 | no diagnostic iff the call's assignment context is one the caller allows; otherwise exactly one diagnostic naming the wanted context |
| Analyser.CheckNargs | src/ast/semantic_analyser.cpp:587-600 | no diagnostic iff the argument count equals the expected count, otherwise exactly one naming both counts |
| Analyser.CheckVarargs | src/ast/semantic_analyser.cpp:602-621 | no diagnostic iff min <= count <= max; below min one "too few", above max one "too many" |
| Analyser.CheckArg | src/ast/semantic_analyser.cpp:623-641 | false exactly when it appends one diagnostic, except that it is false silently with no arguments; a literal check applies on every pass, a plain type check only on the final pass |
| Analyser.ProfileDiags | src/ast/semantic_analyser.cpp:48-61 | `func` gets one "can not be used with 'profile' probes" diagnostic per profile attach point of the probe, and none iff there is no profile attach point |
| Analyser.FuncType | src/ast/semantic_analyser.cpp:48-61 | whatever the attach points before it, `func` takes the type of the last non-profile attach point: sym/8 for kprobe, kretprobe and tracepoint, usym/8 for uprobe, uretprobe, BEGIN and END; with only profile attach points it keeps its previous type |
| Analyser.VisitPrintf | src/ast/semantic_analyser.cpp:133-151 | a count outside 1..7 gives only the varargs diagnostic; a non-literal format gives an "expects a string literal" diagnostic; before the final pass a well-formed call (1..7 arguments, literal format) changes nothing; on the final pass a literal format is recorded for the runtime, and the pass is clean iff the format verifier accepts the argument types |
| Analyser.StripStar | src/ast/semantic_analyser.cpp:243-245 | stripping the pointer marker removes exactly one trailing '*' |
| Analyser.BinopDiags | src/ast/semantic_analyser.cpp:214-225 | only on the final pass: one mismatch diagnostic if the operand categories differ, else one if they are non-integer and the operator is not == or != |
| Analyser.UnopType | src/ast/semantic_analyser.cpp:234-254 | deref of a pointer cast strips one '*' and gives cast/8; deref of a non-pointer cast keeps the old type and reports it; every other case gives integer/8; a non-integer, non-cast operand is reported on the final pass only, so before it only the non-pointer deref reports anything; dereferencing a pointer cast is clean on every pass |
| Analyser.FieldType | src/ast/semantic_analyser.cpp:261-285 | a field access is clean only on a non-pointer cast whose registered struct has the field, and then yields exactly that field's type; a non-cast base is reported on the final pass only, a pointer base on every pass |
| Analyser.CastType | src/ast/semantic_analyser.cpp:292-307 | a cast to a known struct gives cast of the struct's size, or of pointer width when the name ends in '*'; an unknown struct is reported and the old type kept |
| Analyser.VisitExpr | src/ast/semantic_analyser.cpp:13-24 | visiting an expression only appends diagnostics and printf records, only adds map keys and struct entries, never clears the stack flag, and types integer literals integer/8 and string literals string/64 |
| Analyser.KeyOfEquality | src/ast/semantic_analyser.cpp:161-181 | two index lists give the same key shape iff they have the same length and their types are pairwise equal as `SizedType`s (category and size), so a cast's struct name never causes a key mismatch |
| Analyser.RecordKey | src/ast/semantic_analyser.cpp:168-181 | a new map name records the key shape; a known name keeps its first key and gets one mismatch diagnostic iff the shapes differ |
| Analyser.VisitMap | src/ast/semantic_analyser.cpp:158-193 | after a map reference its name always has a key shape recorded, and the value table is untouched |
| Analyser.VisitVariable | src/ast/semantic_analyser.cpp:195-205 | a bound variable reads as its stored type; an unbound one reads as none/0 with one "undefined variable" diagnostic on every pass |
| Analyser.RecordValue | src/ast/semantic_analyser.cpp:321-355 | an unseen name stores the value type; a stored none is overwritten (struct name included) before the final pass, and on the final pass is kept and reported as undefined; a stored category and size are kept and a different category reported; an equal non-cast category changes nothing; other names unchanged |
| Analyser.VisitStmt | src/ast/semantic_analyser.cpp:310-399 | a statement may add map keys and map/variable names but never replaces a key, never removes a diagnostic, and keeps every stored value type's key recorded |
| Analyser.VisitPredicate | src/ast/semantic_analyser.cpp:401-407 | a guard is visited as its expression; it adds exactly one predicate-type diagnostic after the expression's iff the pass is final and the guard is not an integer, and otherwise changes nothing beyond the expression |
| Analyser.ShapeDiags | src/ast/semantic_analyser.cpp:409-458 | per provider, an attach point is clean iff its target, function and frequency have the required shape; an unknown provider is reported as invalid; duplicates are never reported here |
| Analyser.VisitAttachPoint | src/ast/semantic_analyser.cpp:409-459 | an attach point adds its shape diagnostics and changes nothing else, except that on the final pass BEGIN (END) also adds one duplicate diagnostic iff a BEGIN (END) was already seen and then sets that flag, leaving the other flag alone |
| Analyser.VisitAttachPoints | src/ast/semantic_analyser.cpp:443-454 | after a probe's attach points the BEGIN (END) flag is set iff it was set before, or the pass is final and some attach point is BEGIN (END) |
| Analyser.VisitProbe | src/ast/semantic_analyser.cpp:461-480 | a probe keeps its attach points, never removes diagnostics or replaces map keys, keeps every stored value type's key recorded, is handed to the runtime exactly on the final pass, and sets the BEGIN/END flags exactly as its attach points do |
| Analyser.VisitProgram | src/ast/semantic_analyser.cpp:486-492 | a pass keeps the tree's shape and the pass number, only appends diagnostics, and preserves the key-for-every-value invariant |
| Driver.RunPasses | src/ast/semantic_analyser.cpp:499-508 | the result is 0 iff the final state has no diagnostic, and otherwise a pass number in range |
| Driver.Analyse | src/ast/semantic_analyser.cpp:494-509 | `analyse` returns 0 iff no diagnostic was produced, returns at most 10, and leaves every map value with a key shape |
| Driver.IterateDiagsGrow | src/ast/semantic_analyser.cpp:499-505 | diagnostics only accumulate: after more passes the buffer extends the earlier one |
| Driver.RunPassesMatchesIterate | src/ast/semantic_analyser.cpp:499-508 | the stopping driver agrees with running the passes unconditionally up to the reported pass |
| Driver.RunPassesReportsFirstDirtyPass | src/ast/semantic_analyser.cpp:494-509 | for any pass that only appends diagnostics, the result is 0 iff all ten passes are clean, else the first pass that produced a diagnostic |
| Driver.AnalyseReportsFirstDirtyPass | src/ast/semantic_analyser.cpp:494-509 | `analyse` returns 0 iff all ten analyser passes are clean, else the 1-based number of the first dirty one |
| Driver.CreateMaps | src/ast/semantic_analyser.cpp:511-543 | one map per value-typed name with its type and key shape, the stack-trace map iff the stack-id flag is set (only `stack` and `ustack` set it, see `ExprProperties.StackBuiltinsNeedStackMap`), the perf-event map always, all simulated iff `debug` |
| Driver.CreateMapsNeverAborts | src/ast/semantic_analyser.cpp:518-520 | after any number of passes every map with a value type has a key shape, so the `abort()` in `create_maps` is unreachable |
| ExprProperties.IntegerLiteralTyping | src/ast/semantic_analyser.cpp:13-16 | an integer literal types as integer/8 and changes nothing else |
| ExprProperties.StringLiteralTyping | src/ast/semantic_analyser.cpp:18-24 | a string literal types as string/64, with one "too long" diagnostic iff its UTF-8 encoding exceeds 63 bytes |
| ExprProperties.ArgBuiltinTyping | src/ast/semantic_analyser.cpp:63-69 | `argN` types as integer/8, with one diagnostic iff N exceeds the architecture's highest argument index |
| ExprProperties.Arg5AcceptedArg6Rejected | src/ast/semantic_analyser.cpp:63-69 | on x86_64 `arg5` is accepted and `arg6` is reported |
| ExprProperties.UnknownBuiltinTyping | src/ast/semantic_analyser.cpp:70-73 | an unknown builtin types as none/0 with exactly one diagnostic |
| ExprProperties.FuncUnderKprobeThenProfile | src/ast/semantic_analyser.cpp:48-61 | under `kprobe:f, profile:hz:99` `func` is sym/8 and the profile attach point is reported once |
| ExprProperties.FuncUnderKprobeThenUprobe | src/ast/semantic_analyser.cpp:48-61 | under `kprobe:f, uprobe:/bin/sh:g` `func` is usym/8 with no diagnostic |
| ExprProperties.StackBuiltinsNeedStackMap | src/ast/semantic_analyser.cpp:37-44 | `stack` and `ustack` set the stack-id flag; no other builtin changes it |
| ExprProperties.ScalarMapRead | src/ast/semantic_analyser.cpp:158-193 | reading `@x` records the empty key if new, reports a key mismatch against an earlier shape, and types as the stored value or none/0, undefined only on the final pass |
| ExprProperties.ScalarVisitMap | src/ast/semantic_analyser.cpp:183-192 | an unseen map reads as none/0, reported as undefined only on the final pass |
| ExprProperties.MapKeyNeverReplaced | src/ast/semantic_analyser.cpp:168-181 | the first key shape recorded for a map is never replaced |
| ExprProperties.MapAccessChecksKey | src/ast/semantic_analyser.cpp:168-192 | a later access with a different key shape appends exactly one mismatch diagnostic and leaves the schema unchanged, whether or not the map has a value yet; with no value it is none/0 and the final pass adds the undefined-map diagnostic |
| ExprProperties.PredicateMustBeInteger | src/ast/semantic_analyser.cpp:401-407 | example: a string-literal guard is reported on the final pass only; an integer-literal guard never is |
| ExprProperties.UnboundVariableRead | src/ast/semantic_analyser.cpp:195-205 | reading an unbound variable is one diagnostic on every pass, not only the final one |
| ExprProperties.BinopIsInteger8 | src/ast/semantic_analyser.cpp:227 | every binary operation types as integer/8, whatever its operands |
| ExprProperties.BinopMismatchOnlyOnFinalPass | src/ast/semantic_analyser.cpp:214-219 | comparing a string with an integer is reported on the final pass only |
| ExprProperties.StringOperands | src/ast/semantic_analyser.cpp:220-224 | two strings may be compared with == and !=; any other operator on them is reported on the final pass |
| ExprProperties.DerefStripsOneStar | src/ast/semantic_analyser.cpp:241-246 | dereferencing a cast to `T*` yields cast/8 naming `T`, without a diagnostic |
| ExprProperties.DerefOfNonPointerFails | src/ast/semantic_analyser.cpp:247-250 | dereferencing a cast to a non-pointer struct is one diagnostic and leaves the node's previous type |
| ExprProperties.FieldOfStructCast | src/ast/semantic_analyser.cpp:278-285 | a field of a cast to a registered struct has exactly the registry's field type |
| ExprProperties.FieldThroughPointerFails | src/ast/semantic_analyser.cpp:270-276 | a field access through a pointer cast is one diagnostic on every pass and leaves the node's previous type |
| ExprProperties.QuantizeRules | src/ast/semantic_analyser.cpp:76-90 | `quantize` types as quantize/8 and is clean iff it is assigned to a map, has exactly one argument, and that argument is an integer or the pass is not final; the assignment and count problems are each reported |
| ExprProperties.DeleteRules | src/ast/semantic_analyser.cpp:97-106 | `delete` types as none/0 and is clean iff it is not assigned, has exactly one argument and that argument is a map access; each problem is reported, on every pass |
| ExprProperties.SymbolCallRules | src/ast/semantic_analyser.cpp:107-117 | `str`, `sym` and `usym` type as string/64, sym/8 and usym/8; each is clean iff it has exactly one argument that is an integer or the pass is not final, wherever the call sits |
| ExprProperties.UnknownFunctionRules | src/ast/semantic_analyser.cpp:76-155 | a call to any other name types as none/0 with exactly one "unknown function" diagnostic after its arguments' |
| ExprProperties.CountRules | src/ast/semantic_analyser.cpp:91-96 | `count()` types as count/8 and is reported unless assigned to a map |
| ExprProperties.CountArgumentRules | src/ast/semantic_analyser.cpp:91-96 | for any argument list `count` is count/8 and clean iff it is a map's value and has no argument; otherwise exactly the assignment and then the argument-count diagnostic are added |
| ExprProperties.CountTakesNoArgument | src/ast/semantic_analyser.cpp:91-96 | `count(n)` gets exactly one argument-count diagnostic |
| ExprProperties.PrintfIsStatementOnly | src/ast/semantic_analyser.cpp:133-151 | `printf` types as none/0 and is reported when assigned to a map or a variable |
| ExprProperties.PrintfArity | src/ast/semantic_analyser.cpp:133-151 | `printf` with no argument or more than seven is reported, and records nothing for the runtime beyond what its arguments record |
| ExprProperties.PrintfRules | src/ast/semantic_analyser.cpp:133-151 | `printf` is clean iff it is not assigned, has 1..7 arguments and a literal format, and on the final pass the format verifier accepts the argument types; before the final pass a well-formed call leaves the state as its arguments left it |
| ExprProperties.PrintfNonLiteralFormat | src/ast/semantic_analyser.cpp:136 | a non-literal format is reported on every pass, so the final-pass cast to a string literal is never reached through `analyse` |
| ExprProperties.RegIsInteger8 | src/ast/semantic_analyser.cpp:118-132 | `reg(...)` always types as integer/8 |
| ExprProperties.RegRules | src/ast/semantic_analyser.cpp:118-132 | `reg` is clean iff it has one argument, a string literal naming a known register; otherwise exactly one diagnostic: the count, the non-literal argument or the unknown name, on every pass |
| ExprProperties.UnknownRegister | src/ast/semantic_analyser.cpp:118-132 | an unknown register name is exactly one diagnostic, and the call still types as integer/8 |
| StmtProperties.CastNameFixedByFirstAssignment | src/ast/semantic_analyser.cpp:343-351 | assigning a cast with a different struct name to a slot whose name is fixed is one diagnostic and leaves the stored name |
| StmtProperties.CastNameRecorded | src/ast/semantic_analyser.cpp:343-355 | a cast assignment to a slot with no name, or the same name, records the name without a diagnostic |
| StmtProperties.FirstAssignmentBindsVariable | src/ast/semantic_analyser.cpp:358-384 | for any right-hand side, the first assignment to a variable binds the right-hand type (struct name included), annotates the variable node with it and reports nothing |
| StmtProperties.ReassignVariable | src/ast/semantic_analyser.cpp:360-379 | for any right-hand side, a later assignment keeps the node's annotation and other variables; a stored none is overwritten before the final pass, and on the final pass stays none and is reported as undefined; otherwise category and size are kept, a different category is reported on any pass, and an equal non-cast category changes nothing (sizes are never compared) |
| StmtProperties.VisitProbeIgnoresIncomingVariables | src/ast/semantic_analyser.cpp:461-465 | a probe's analysis does not depend on the variables bound before it: the scope is emptied on entry |
| StmtProperties.AssignMapRecordsKeyAndValue | src/ast/semantic_analyser.cpp:315-341 | after a map assignment the map has a key shape and a value type, a new map stores the right-hand type, and other maps keep theirs |
| StmtProperties.AssignMapKeepsStoredType | src/ast/semantic_analyser.cpp:331-336 | a stored value type keeps its category and size; a right-hand side of another category is reported |
| StmtProperties.AssignMapOverNone | src/ast/semantic_analyser.cpp:323-330 | a stored none is overwritten by the right-hand type before the final pass; on the final pass it stays none of the same size and is reported as undefined |
| StmtProperties.AttachPointsOnlyCheckShape | src/ast/semantic_analyser.cpp:409-439 | apart from BEGIN/END on the final pass, attach points add exactly their shape diagnostics, on every pass |
| StmtProperties.ShapeDiagsAccumulate | src/ast/semantic_analyser.cpp:409-439 | the shape diagnostics of a list of attach points are the concatenation of each one's, and the BEGIN/END flags are untouched |
| StmtProperties.DuplicateBeginOnlyOnFinalPass | src/ast/semantic_analyser.cpp:443-448 | two BEGIN attach points give one "more than one BEGIN" diagnostic, on the final pass only |
| StmtProperties.DuplicateEndOnlyOnFinalPass | src/ast/semantic_analyser.cpp:449-453 | two END attach points give one "more than one END" diagnostic, on the final pass only |
| StmtProperties.TwoBeginProbesReportOnce | src/ast/semantic_analyser.cpp:443-448 | a program of two `BEGIN {}` probes gets exactly one "more than one BEGIN" diagnostic, on the final pass only |
| StmtProperties.FuncUnderUnknownProviderAborts | src/types.cpp:60 | `func` in a probe with an unknown provider reaches the abort in `probetype` |
| StmtProperties.FuncUnderKprobeDoesNotAbort | src/types.cpp:42-45 | `func` under a kprobe never aborts, whatever probes follow |
| ExampleProgram.CountStmtClean | src/ast/semantic_analyser.cpp:315-356 | `@x = count();` is clean on every pass and records `@x` with the empty key and count/8 values |
| ExampleProgram.CountProgramIterate | src/ast/semantic_analyser.cpp:499-506 | after each pass of `kprobe:f { @x = count(); }` the buffer is empty, and the probe is handed to the runtime only on the tenth |
| ExampleProgram.CountProgramAnalysesClean | src/ast/semantic_analyser.cpp:494-509 | `analyse` returns 0 for that program and the runtime receives the probe exactly once |
| ExampleProgram.CountProgramMaps | src/ast/semantic_analyser.cpp:511-527 | `create_maps` then builds exactly one user map, `@x`, of count/8 values with the empty key |

## Left out

- Message text and the output streams (`err_`, `out_`) are not modelled; diagnostics are values, and the driver's return value is modelled, not its printing.
- `opstr` and the contents of the `printf` conversion table are not part of this model: they are parameters (`Analyser.Env`).
- The register lookup `arch::offset(name)` is not part of this model: it is a parameter of `Analyser.Env`, returning -1 for an unknown name.
- The concrete `Map`/`FakeMap` objects and BPF map kinds of `create_maps` are reduced to a map name, value type and key shape per map, the set of system maps and a `fake` flag.
- `.back()` on an empty struct name is undefined behaviour in C++; the model reads an empty name as "not a pointer".
- A call whose argument list is present but empty is treated like one with no argument list (`check_arg` returns false silently); the parser, which decides between the two, is not modelled.
- The `toMap`/`toVar` flags of a call (the source's `call.map`/`call.var`) say whether the call is the right-hand side of a map or variable assignment. The code that sets them, on the direct right-hand side only, is not part of this model, so the flags are taken as given and the model also admits trees where a nested call carries them; every rule stated here reads them as the source's `check_assignment` does.
- Analyser.VisitPrintf: a non-literal format on the final pass is read as the empty string, where the source casts it to a string literal (undefined behaviour); that state is unreachable through `analyse` (`ExprProperties.PrintfNonLiteralFormat`).
- A string is a sequence of Unicode characters, and its length is the byte count of its UTF-8 encoding (`Types.Utf8Length`). A literal holding bytes that are not valid UTF-8 cannot be written in the model.
- `variable_casts_` and `map_casts_` are declared but never used, so they are not modelled.
- Analyser.VisitCall: its contract states only the frame (what a call may change). The rule of each function is stated by a lemma instead: `QuantizeRules`, `CountRules`, `CountArgumentRules`, `DeleteRules`, `SymbolCallRules`, `RegRules`, `RegIsInteger8`, `UnknownRegister`, `PrintfRules` and the other `Printf…` lemmas and `UnknownFunctionRules`, all in `ExprProperties`.
- Analyser.VisitReg: its contract states only the frame; `ExprProperties.RegRules`, `ExprProperties.RegIsInteger8` and `ExprProperties.UnknownRegister` state its behaviour.
- Arch.Name: returns "x86_64"; the name only appears in diagnostic text, so nothing is proved about it.
- The parser, code generation, probe attachment and every other part of the runtime are outside this model.
