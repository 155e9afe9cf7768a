/**
 The semantic analyser: one visit function per node kind, each taking the
 analyser state and returning the re-annotated node together with the new
 state. Diagnostics are appended to `diags`; a pass has failed when it ends
 with a non-empty list.
 */
module Analyser {
  import opened Types
  import opened Ast
  import Arch
  import Printf

  /** Number of passes; the last one is the final pass. */
  const NUM_PASSES: nat := 10

  /** `sizeof(uintptr_t)` on x86_64. */
  const PTR_WIDTH: nat := 8

  /** One positional index argument of a map: its category and size. */
  datatype KeyArg = KeyArg(ty: Type, size: nat)

  /** The ordered argument shape a map is indexed with. */
  datatype MapKey = MapKey(args: seq<KeyArg>)

  /** Layout of a struct/union known to the embedding system. */
  datatype StructInfo = StructInfo(size: nat, fields: map<string, SizedType>)

  /** What a stored value type belongs to, for the diagnostics shared by maps and variables. */
  datatype Slot = MapSlot | VarSlot

  /** The assignment context a call demands (`check_assignment`'s two flags). */
  datatype AssignTarget = WantMap | WantVar | WantMapOrVar | WantNone

  /** A recorded `printf` call: its format string and its argument types. */
  datatype PrintfCall = PrintfCall(fmt: string, argTypes: seq<SizedType>)

  datatype Diag =
    | StringTooLong(str: string)
    | FuncNotSupported(provider: string)
    | ArgNotSupported(ident: string)
    | UnknownBuiltin(ident: string)
    | BadAssignment(func: string, want: AssignTarget)
    | WrongArgCount(func: string, expected: nat, nargs: nat)
    | TooFewArgs(func: string, minArgs: nat, nargs: nat)
    | TooManyArgs(func: string, maxArgs: nat, nargs: nat)
    | ExpectsLiteral(func: string, wantTy: Type, gotTy: Type)
    | UnsupportedArg(func: string, wantTy: Type, gotTy: Type)
    | DeleteNeedsMap
    | InvalidRegister(reg: string)
    | PrintfFormat(check: Printf.FormatCheck)
    | UnknownFunction(func: string)
    | MapArgMismatch(ident: string, given: MapKey, expectedKey: MapKey)
    | Undefined(slot: Slot, ident: string)
    | ValueTypeMismatch(slot: Slot, ident: string, gotTy: Type, storedTy: Type)
    | CastTypeMismatch(slot: Slot, ident: string, gotName: string, storedName: string)
    | BinopTypeMismatch(bop: BinaryOp, lhs: Type, rhs: Type)
    | BinopBadType(bop: BinaryOp, gotTy: Type)
    | UnopBadType(uop: UnaryOp, gotTy: Type)
    | DerefNonPointer(name: string)
    | FieldOnNonCast(field: string, gotTy: Type)
    | FieldThroughPointer(field: string, name: string)
    | NoSuchField(name: string, field: string)
    | UnknownStruct(name: string)
    | PredicateType(gotTy: Type)
    | KprobeHasTarget
    | KprobeNeedsFunc
    | UprobeNeedsTarget
    | UprobeNeedsFunc
    | TracepointNeedsTarget
    | ProfileNeedsUnit
    | BadTimeUnit(unit: string)
    | ProfileNeedsIntFreq
    | ProfileFreqNotPositive
    | BeginEndHasTarget
    | DuplicateBegin
    | DuplicateEnd
    | InvalidProvider(provider: string)

  /**
   Inputs the analyser consults but never changes: the printf conversion table
   and the architecture's register lookup (-1 for an unknown name).
   */
  datatype Env = Env(formatTypes: map<string, Type>, regOffset: string -> int)

  /**
   The analyser state. `structs` is here rather than in `Env` because looking
   up a missing name with `operator[]` inserts a default entry. `probeAps` is
   the current probe's attach points; `probes` and `printfArgs` are the
   outputs handed to the runtime.
   */
  datatype State = State(
    pass: nat,
    structs: map<string, StructInfo>,
    mapKey: map<string, MapKey>,
    mapVal: map<string, SizedType>,
    varVal: map<string, SizedType>,
    probeAps: seq<AttachPoint>,
    needsStackidMap: bool,
    hasBeginProbe: bool,
    hasEndProbe: bool,
    diags: seq<Diag>,
    printfArgs: seq<PrintfCall>,
    probes: seq<Probe>)

  /** The state before the first pass. */
  function InitialState(structs: map<string, StructInfo>): (st: State)
    ensures !st.needsStackidMap && !st.hasBeginProbe && !st.hasEndProbe
    ensures st.diags == [] && st.mapKey == map[] && st.mapVal == map[] && st.varVal == map[]
  {
    State(0, structs, map[], map[], map[], [], false, false, false, [], [], [])
  }

  predicate IsFinalPass(st: State)
  {
    st.pass == NUM_PASSES
  }

  function Emit(st: State, ds: seq<Diag>): (st': State)
    ensures st' == st.(diags := st.diags + ds)
    ensures ExprFrame(st, st')
  {
    st.(diags := st.diags + ds)
  }

  /** `m2` keeps every entry of `m`. */
  predicate Extends<K, V(==)>(m: map<K, V>, m2: map<K, V>)
  {
    forall k :: k in m ==> k in m2 && m2[k] == m[k]
  }

  /** The map schema invariant `create_maps` relies on. */
  predicate ValuesHaveKeys(st: State)
  {
    st.mapVal.Keys <= st.mapKey.Keys
  }

  /**
   What visiting an expression may change: it appends diagnostics and printf
   records, records new map keys and struct defaults without replacing old
   ones, and can only set the stack-id flag.
   */
  predicate ExprFrame(st: State, st2: State)
  {
    && st2.pass == st.pass
    && st2.mapVal == st.mapVal
    && st2.varVal == st.varVal
    && st2.probeAps == st.probeAps
    && st2.hasBeginProbe == st.hasBeginProbe
    && st2.hasEndProbe == st.hasEndProbe
    && st2.probes == st.probes
    && Extends(st.mapKey, st2.mapKey)
    && Extends(st.structs, st2.structs)
    && st.diags <= st2.diags
    && st.printfArgs <= st2.printfArgs
    && (st.needsStackidMap ==> st2.needsStackidMap)
  }

  predicate LiteralTyped(e: Expr)
  {
    && (e.IntLit? ==> e.ty == Sized(Integer, 8))
    && (e.StrLit? ==> e.ty == Sized(String, STRING_SIZE))
  }

  predicate FuncSafe(st: State)
  {
    ProvidersValid(st.probeAps)
  }

  // ---------------------------------------------------------------------
  // Call validation helpers

  function TargetOf(wantMap: bool, wantVar: bool): AssignTarget
  {
    if wantMap && wantVar then WantMapOrVar
    else if wantMap then WantMap
    else if wantVar then WantVar
    else WantNone
  }

  /** `check_assignment`: success is the empty list. */
  function CheckAssignment(func: string, toMap: bool, toVar: bool, wantMap: bool, wantVar: bool): (ds: seq<Diag>)
    ensures ds == [] || ds == [BadAssignment(func, TargetOf(wantMap, wantVar))]
    ensures wantMap && wantVar ==> (ds == [] <==> toMap || toVar)
    ensures wantMap && !wantVar ==> (ds == [] <==> toMap)
    ensures !wantMap && wantVar ==> (ds == [] <==> toVar)
    ensures !wantMap && !wantVar ==> (ds == [] <==> !toMap && !toVar)
  {
    var ok :=
      if wantMap && wantVar then toMap || toVar
      else if wantMap then toMap
      else if wantVar then toVar
      else !toMap && !toVar;
    if ok then [] else [BadAssignment(func, TargetOf(wantMap, wantVar))]
  }

  /** `check_nargs`. */
  function CheckNargs(func: string, args: seq<Expr>, expected: nat): (ds: seq<Diag>)
    ensures ds == [] <==> |args| == expected
    ensures ds != [] ==> ds == [WrongArgCount(func, expected, |args|)]
  {
    if |args| != expected then [WrongArgCount(func, expected, |args|)] else []
  }

  /** `check_varargs`. */
  function CheckVarargs(func: string, args: seq<Expr>, minArgs: nat, maxArgs: nat): (ds: seq<Diag>)
    ensures ds == [] <==> minArgs <= |args| <= maxArgs
    ensures |args| < minArgs ==> ds == [TooFewArgs(func, minArgs, |args|)]
    ensures minArgs <= |args| ==> ds == [] || ds == [TooManyArgs(func, maxArgs, |args|)]
  {
    if |args| < minArgs then [TooFewArgs(func, minArgs, |args|)]
    else if |args| > maxArgs then [TooManyArgs(func, maxArgs, |args|)]
    else []
  }

  /**
   `check_arg`: with no arguments it fails without a diagnostic; a literal
   requirement is checked on every pass, a plain type requirement only on
   the final pass.
   */
  function CheckArg(func: string, args: seq<Expr>, t: Type, argNum: nat, wantLiteral: bool, finalPass: bool)
    : (r: (bool, seq<Diag>))
    requires args == [] || argNum < |args|
    ensures args == [] ==> !r.0 && r.1 == []
    ensures r.0 <==> r.1 == [] && args != []
    ensures |r.1| <= 1
    ensures args != [] && wantLiteral ==>
      (r.0 <==> IsLiteral(args[argNum]) && TypeOf(args[argNum]).ty == t)
    ensures args != [] && !wantLiteral ==> (r.0 <==> !finalPass || TypeOf(args[argNum]).ty == t)
  {
    if args == [] then (false, [])
    else
      var a := TypeOf(args[argNum]).ty;
      if wantLiteral && (!IsLiteral(args[argNum]) || a != t) then (false, [ExpectsLiteral(func, t, a)])
      else if finalPass && a != t then (false, [UnsupportedArg(func, t, a)])
      else (true, [])
  }

  // ---------------------------------------------------------------------
  // Builtins

  const IntegerBuiltins: set<string> := {"nsecs", "pid", "tid", "uid", "gid", "cpu", "retval"}

  /** `argN` with a single decimal digit N. */
  predicate IsArgN(ident: string)
  {
    |ident| == 4 && ident[..3] == "arg" && '0' <= ident[3] <= '9'
  }

  function ArgIndex(ident: string): (n: nat)
    requires IsArgN(ident)
    ensures n <= 9
  {
    (ident[3] as int) - ('0' as int)
  }

  predicate KernelSide(k: ProbeType)
  {
    k == KProbe || k == KRetProbe || k == Tracepoint
  }

  /** How many attach points of the list have the `profile` provider. */
  function ProfileCount(aps: seq<AttachPoint>): nat
  {
    if aps == [] then 0 else (if aps[0].provider == "profile" then 1 else 0) + ProfileCount(aps[1..])
  }

  /** The diagnostics `func` gives under a list of attach points: one per `profile` one. */
  function ProfileDiags(aps: seq<AttachPoint>): (ds: seq<Diag>)
    requires ProvidersValid(aps)
    ensures ds == [] <==> forall i :: 0 <= i < |aps| ==> ProbeTypeOf(aps[i].provider) != Profile
    ensures |ds| == ProfileCount(aps)
    ensures forall i :: 0 <= i < |ds| ==> ds[i] == FuncNotSupported("profile")
    ensures |ds| <= |aps|
    decreases |aps|
  {
    if aps == [] then []
    else
      var rest := aps[1..];
      assert forall i :: 1 <= i < |aps| ==> aps[i] == rest[i - 1];
      ProbeTypeOfPreimages(aps[0].provider);
      (if ProbeTypeOf(aps[0].provider) == Profile then [FuncNotSupported(aps[0].provider)] else [])
        + ProfileDiags(rest)
  }

  /** `aps[j]` is the last attach point whose kind is not `profile`. */
  predicate LastNonProfile(aps: seq<AttachPoint>, j: int)
    requires ProvidersValid(aps)
  {
    && 0 <= j < |aps|
    && ProbeTypeOf(aps[j].provider) != Profile
    && forall k :: j < k < |aps| ==> ProbeTypeOf(aps[k].provider) == Profile
  }

  /**
   The `func` builtin's type: each attach point in turn overwrites it with
   `sym` (kernel-side kinds) or `usym` (user-side kinds, BEGIN and END among
   them), so the last attach point that is not `profile` decides; a
   `profile` attach point leaves the type as it was (and is diagnosed by
   `ProfileDiags`).
   */
  function FuncType(aps: seq<AttachPoint>, ty: SizedType): (r: SizedType)
    requires ProvidersValid(aps)
    ensures forall j :: LastNonProfile(aps, j) ==>
      r == Sized(if KernelSide(ProbeTypeOf(aps[j].provider)) then Sym else USym, 8)
    ensures |aps| > 0 && ProbeTypeOf(aps[|aps| - 1].provider) != Profile ==>
      r == Sized(if KernelSide(ProbeTypeOf(aps[|aps| - 1].provider)) then Sym else USym, 8)
    ensures (forall i :: 0 <= i < |aps| ==> ProbeTypeOf(aps[i].provider) == Profile) ==> r == ty
    decreases |aps|
  {
    if aps == [] then ty
    else
      var k := ProbeTypeOf(aps[0].provider);
      var rest := aps[1..];
      assert forall i :: 1 <= i < |aps| ==> aps[i] == rest[i - 1];
      assert forall j :: 0 < j < |aps| && LastNonProfile(aps, j) ==> LastNonProfile(rest, j - 1);
      if KernelSide(k) then FuncType(rest, Sized(Sym, 8))
      else if k == UProbe || k == URetProbe then FuncType(rest, Sized(USym, 8))
      else FuncType(rest, ty)
  }

  function VisitBuiltin(ident: string, ty: SizedType, st: State): (r: (SizedType, State))
    requires ident == "func" ==> FuncSafe(st)
    ensures ExprFrame(st, r.1)
  {
    if ident in IntegerBuiltins then (Sized(Integer, 8), st)
    else if ident == "stack" then (Sized(Stack, 8), st.(needsStackidMap := true))
    else if ident == "ustack" then (Sized(UStack, 8), st.(needsStackidMap := true))
    else if ident == "comm" then (Sized(String, STRING_SIZE), st)
    else if ident == "func" then (FuncType(st.probeAps, ty), Emit(st, ProfileDiags(st.probeAps)))
    else if IsArgN(ident) then
      (Sized(Integer, 8), if ArgIndex(ident) > Arch.MaxArg() then Emit(st, [ArgNotSupported(ident)]) else st)
    else (Untyped, Emit(st, [UnknownBuiltin(ident)]))
  }

  // ---------------------------------------------------------------------
  // Calls

  /** The argument types `printf` passes on: every argument after the format. */
  function PrintfArgTypes(args: seq<Expr>): (ts: seq<SizedType>)
    requires |args| >= 1
    ensures |ts| == |args| - 1
    ensures forall i :: 0 <= i < |ts| ==> ts[i] == TypeOf(args[i + 1])
  {
    seq(|args| - 1, i requires 0 <= i < |args| - 1 => TypeOf(args[i + 1]))
  }

  /** The `printf` rule, after the assignment check. */
  function VisitPrintf(env: Env, args: seq<Expr>, st: State): (st': State)
    requires forall i :: 0 <= i < |args| ==> LiteralTyped(args[i])
    ensures ExprFrame(st, st')
    ensures !(1 <= |args| <= 7) ==> st' == Emit(st, CheckVarargs("printf", args, 1, 7))
    ensures 1 <= |args| <= 7 && !args[0].StrLit? ==>
      |st'.diags| > |st.diags| && st'.diags[|st.diags|] == ExpectsLiteral("printf", String, TypeOf(args[0]).ty)
    ensures !IsFinalPass(st) || !(1 <= |args| <= 7) ==> st'.printfArgs == st.printfArgs
    ensures IsFinalPass(st) && 1 <= |args| <= 7 && args[0].StrLit? ==>
      && st'.printfArgs == st.printfArgs + [PrintfCall(args[0].s, PrintfArgTypes(args))]
      && (st'.diags == st.diags <==> Printf.VerifyFormatString(env.formatTypes, args[0].s, PrintfArgTypes(args)) == Printf.FormatOk)
    ensures !IsFinalPass(st) && 1 <= |args| <= 7 && args[0].StrLit? ==> st' == st
  {
    var arity := CheckVarargs("printf", args, 1, 7);
    if arity != [] then Emit(st, arity)
    else
      var lit := CheckArg("printf", args, String, 0, true, IsFinalPass(st)).1;
      var st1 := Emit(st, lit);
      assert !args[0].StrLit? ==> lit == [ExpectsLiteral("printf", String, TypeOf(args[0]).ty)] by {
        assert LiteralTyped(args[0]);
      }
      assert args[0].StrLit? ==> lit == [] && st1 == st by {
        assert LiteralTyped(args[0]);
        assert st.diags + [] == st.diags;
      }
      if IsFinalPass(st1) then
        // A non-literal format already failed the literal check above, on every pass.
        var fmt := if args[0].StrLit? then args[0].s else "";
        var argTypes := PrintfArgTypes(args);
        var check := Printf.VerifyFormatString(env.formatTypes, fmt, argTypes);
        var st2 := if check == Printf.FormatOk then st1 else Emit(st1, [PrintfFormat(check)]);
        st2.(printfArgs := st2.printfArgs + [PrintfCall(fmt, argTypes)])
      else st1
  }

  /** The `reg` rule: the register name must be a string literal the architecture knows. */
  function VisitReg(env: Env, args: seq<Expr>, st: State): (st': State)
    requires forall i :: 0 <= i < |args| ==> LiteralTyped(args[i])
    ensures ExprFrame(st, st')
  {
    var arity := CheckNargs("reg", args, 1);
    if arity != [] then Emit(st, arity)
    else
      var (ok, lit) := CheckArg("reg", args, String, 0, true, IsFinalPass(st));
      if !ok then Emit(st, lit)
      else
        assert args[0].StrLit? by { assert LiteralTyped(args[0]); }
        var name := args[0].s;
        if env.regOffset(name) == -1 then Emit(st, [InvalidRegister(name)]) else st
  }

  /** Typing and validation of a call whose arguments have already been visited. */
  function VisitCall(env: Env, func: string, args: seq<Expr>, toMap: bool, toVar: bool, st: State)
    : (r: (SizedType, State))
    requires forall i :: 0 <= i < |args| ==> LiteralTyped(args[i])
    ensures ExprFrame(st, r.1)
  {
    var fin := IsFinalPass(st);
    if func == "quantize" then
      (Sized(Quantize, 8),
       Emit(st, CheckAssignment(func, toMap, toVar, true, false) + CheckNargs(func, args, 1)
                  + CheckArg(func, args, Integer, 0, false, fin).1))
    else if func == "count" then
      (Sized(Count, 8), Emit(st, CheckAssignment(func, toMap, toVar, true, false) + CheckNargs(func, args, 0)))
    else if func == "delete" then
      var arity := CheckNargs(func, args, 1);
      var notMap := if arity == [] && !IsMap(args[0]) then [DeleteNeedsMap] else [];
      (Untyped, Emit(st, CheckAssignment(func, toMap, toVar, false, false) + arity + notMap))
    else if func == "str" || func == "sym" || func == "usym" then
      var t := if func == "str" then Sized(String, STRING_SIZE)
               else if func == "sym" then Sized(Sym, 8)
               else Sized(USym, 8);
      (t, Emit(st, CheckNargs(func, args, 1) + CheckArg(func, args, Integer, 0, false, fin).1))
    else if func == "reg" then
      (Sized(Integer, 8), VisitReg(env, args, st))
    else if func == "printf" then
      (Untyped, VisitPrintf(env, args, Emit(st, CheckAssignment(func, toMap, toVar, false, false))))
    else
      (Untyped, Emit(st, [UnknownFunction(func)]))
  }

  // ---------------------------------------------------------------------
  // Operators, casts and field access

  predicate EndsInStar(name: string)
  {
    |name| > 0 && name[|name| - 1] == '*'
  }

  /** The name with its last character (a '*') removed. */
  function StripStar(name: string): (r: string)
    requires EndsInStar(name)
    ensures r + "*" == name
  {
    name[..|name| - 1]
  }

  function BinopDiags(op: BinaryOp, lhs: Type, rhs: Type, finalPass: bool): (ds: seq<Diag>)
    ensures |ds| <= 1
    ensures !finalPass ==> ds == []
    ensures finalPass && lhs != rhs ==> ds == [BinopTypeMismatch(op, lhs, rhs)]
    ensures finalPass && lhs == rhs ==> (ds == [] <==> lhs == Integer || op == Eq || op == Ne)
  {
    if !finalPass then []
    else if lhs != rhs then [BinopTypeMismatch(op, lhs, rhs)]
    else if lhs != Integer && op != Eq && op != Ne then [BinopBadType(op, lhs)]
    else []
  }

  /** The unary-operator rule, given the visited operand's type and the node's previous type. */
  function UnopType(op: UnaryOp, operand: SizedType, prev: SizedType, st: State): (r: (SizedType, State))
    ensures ExprFrame(st, r.1) && r.1 == st.(diags := r.1.diags)
    ensures op == Deref && operand.ty == Cast && EndsInStar(operand.castType) ==>
      r.0.ty == Cast && r.0.size == 8 && r.0.castType + "*" == operand.castType
    ensures op == Deref && operand.ty == Cast && !EndsInStar(operand.castType) ==>
      r.0 == prev && r.1.diags == st.diags + [DerefNonPointer(operand.castType)]
    ensures !(op == Deref && operand.ty == Cast) ==> r.0 == Sized(Integer, 8)
    ensures IsFinalPass(st) && operand.ty != Integer && operand.ty != Cast ==>
      r.1.diags == st.diags + [UnopBadType(op, operand.ty)]
    ensures operand.ty == Integer ==> r.1.diags == st.diags
    ensures !IsFinalPass(st) && !(op == Deref && operand.ty == Cast && !EndsInStar(operand.castType)) ==> r.1 == st
    ensures op == Deref && operand.ty == Cast && EndsInStar(operand.castType) ==> r.1 == st
  {
    var bad := if IsFinalPass(st) && operand.ty != Integer && operand.ty != Cast
               then [UnopBadType(op, operand.ty)] else [];
    if op == Deref && operand.ty == Cast then
      if EndsInStar(operand.castType) then
        (SizedType(Cast, 8, StripStar(operand.castType)), Emit(st, bad))
      else
        (prev, Emit(st, bad + [DerefNonPointer(operand.castType)]))
    else (Sized(Integer, 8), Emit(st, bad))
  }

  /** The field-access rule, given the visited base's type and the node's previous type. */
  function FieldType(field: string, base: SizedType, prev: SizedType, st: State): (r: (SizedType, State))
    ensures ExprFrame(st, r.1)
    ensures base.ty != Cast ==>
      r.0 == prev && r.1.diags == st.diags + (if IsFinalPass(st) then [FieldOnNonCast(field, base.ty)] else [])
    ensures base.ty == Cast && EndsInStar(base.castType) ==>
      r.0 == prev && r.1.diags == st.diags + [FieldThroughPointer(field, base.castType)]
    ensures base.ty == Cast && !EndsInStar(base.castType) && base.castType in st.structs
            && field in st.structs[base.castType].fields ==>
      r == (st.structs[base.castType].fields[field], st)
    ensures r.1.diags == st.diags ==>
      (base.ty != Cast && !IsFinalPass(st) && r.0 == prev) ||
      (&& base.ty == Cast && !EndsInStar(base.castType) && base.castType in st.structs
       && field in st.structs[base.castType].fields && r.0 == st.structs[base.castType].fields[field])
  {
    if base.ty != Cast then
      (prev, if IsFinalPass(st) then Emit(st, [FieldOnNonCast(field, base.ty)]) else st)
    else if EndsInStar(base.castType) then
      (prev, Emit(st, [FieldThroughPointer(field, base.castType)]))
    else
      var name := base.castType;
      // `structs_[name]` default-constructs a missing entry
      var st1 := if name in st.structs then st
                 else st.(structs := st.structs[name := StructInfo(0, map[])]);
      var fields := st1.structs[name].fields;
      if field !in fields then (prev, Emit(st1, [NoSuchField(name, field)]))
      else (fields[field], st1)
  }

  /** The cast rule, given the node's previous type. */
  function CastType(castType: string, prev: SizedType, st: State): (r: (SizedType, State))
    ensures ExprFrame(st, r.1)
    ensures EndsInStar(castType) && StripStar(castType) in st.structs ==>
      r == (SizedType(Cast, PTR_WIDTH, castType), st)
    ensures !EndsInStar(castType) && castType in st.structs ==>
      r == (SizedType(Cast, st.structs[castType].size, castType), st)
    ensures EndsInStar(castType) && StripStar(castType) !in st.structs ==>
      r == (prev, Emit(st, [UnknownStruct(StripStar(castType))]))
    ensures !EndsInStar(castType) && castType !in st.structs ==>
      r == (prev, Emit(st, [UnknownStruct(castType)]))
  {
    var name := if EndsInStar(castType) then StripStar(castType) else castType;
    if name !in st.structs then (prev, Emit(st, [UnknownStruct(name)]))
    else
      var size := if EndsInStar(castType) then PTR_WIDTH else st.structs[castType].size;
      (SizedType(Cast, size, castType), st)
  }

  // ---------------------------------------------------------------------
  // Expressions

  function VisitExpr(env: Env, e: Expr, st: State): (r: (Expr, State))
    requires UsesFunc(e) ==> FuncSafe(st)
    ensures ExprFrame(st, r.1)
    ensures UsesFunc(r.0) == UsesFunc(e)
    ensures LiteralTyped(r.0)
    ensures IsLiteral(r.0) == IsLiteral(e) && IsMap(r.0) == IsMap(e)
    ensures r.0.StrLit? == e.StrLit? && (e.StrLit? ==> r.0.s == e.s)
    decreases e, 1
  {
    match e
    case IntLit(n, _) => (IntLit(n, Sized(Integer, 8)), st)
    case StrLit(s, _) =>
      (StrLit(s, Sized(String, STRING_SIZE)),
       if Utf8Length(s) > STRING_SIZE - 1 then Emit(st, [StringTooLong(s)]) else st)
    case Builtin(ident, ty) =>
      var (t, st1) := VisitBuiltin(ident, ty, st);
      (Builtin(ident, t), st1)
    case Call(_, _, _, _, _) => VisitCallExpr(env, e, st)
    case MapExpr(m) =>
      var (m1, st1) := VisitMap(env, m, st);
      (MapExpr(m1), st1)
    case VarExpr(v) =>
      var (v1, st1) := VisitVariable(v, st);
      (VarExpr(v1), st1)
    case Binop(_, _, _, _) => VisitBinop(env, e, st)
    case Unop(_, _, _) => VisitUnop(env, e, st)
    case FieldAccess(_, _, _) => VisitFieldAccess(env, e, st)
    case CastExpr(_, _, _) => VisitCast(env, e, st)
  }

  function VisitCallExpr(env: Env, e: Expr, st: State): (r: (Expr, State))
    requires e.Call? && (UsesFunc(e) ==> FuncSafe(st))
    ensures ExprFrame(st, r.1)
    ensures r.0.Call? && UsesFunc(r.0) == UsesFunc(e)
    decreases e, 0
  {
    var (args1, st1) := VisitExprs(env, e.args, st);
    var (t, st2) := VisitCall(env, e.func, args1, e.toMap, e.toVar, st1);
    (Call(e.func, args1, e.toMap, e.toVar, t), st2)
  }

  function VisitBinop(env: Env, e: Expr, st: State): (r: (Expr, State))
    requires e.Binop? && (UsesFunc(e) ==> FuncSafe(st))
    ensures ExprFrame(st, r.1)
    ensures r.0.Binop? && UsesFunc(r.0) == UsesFunc(e)
    decreases e, 0
  {
    var (l1, st1) := VisitExpr(env, e.left, st);
    var (r1, st2) := VisitExpr(env, e.right, st1);
    (Binop(l1, e.bop, r1, Sized(Integer, 8)),
     Emit(st2, BinopDiags(e.bop, TypeOf(l1).ty, TypeOf(r1).ty, IsFinalPass(st2))))
  }

  function VisitUnop(env: Env, e: Expr, st: State): (r: (Expr, State))
    requires e.Unop? && (UsesFunc(e) ==> FuncSafe(st))
    ensures ExprFrame(st, r.1)
    ensures r.0.Unop? && UsesFunc(r.0) == UsesFunc(e)
    decreases e, 0
  {
    var (x1, st1) := VisitExpr(env, e.operand, st);
    var (t, st2) := UnopType(e.uop, TypeOf(x1), e.ty, st1);
    (Unop(e.uop, x1, t), st2)
  }

  function VisitFieldAccess(env: Env, e: Expr, st: State): (r: (Expr, State))
    requires e.FieldAccess? && (UsesFunc(e) ==> FuncSafe(st))
    ensures ExprFrame(st, r.1)
    ensures r.0.FieldAccess? && UsesFunc(r.0) == UsesFunc(e)
    decreases e, 0
  {
    var (b1, st1) := VisitExpr(env, e.base, st);
    var (t, st2) := FieldType(e.field, TypeOf(b1), e.ty, st1);
    (FieldAccess(b1, e.field, t), st2)
  }

  function VisitCast(env: Env, e: Expr, st: State): (r: (Expr, State))
    requires e.CastExpr? && (UsesFunc(e) ==> FuncSafe(st))
    ensures ExprFrame(st, r.1)
    ensures r.0.CastExpr? && UsesFunc(r.0) == UsesFunc(e)
    decreases e, 0
  {
    var (x1, st1) := VisitExpr(env, e.inner, st);
    var (t, st2) := CastType(e.castType, e.ty, st1);
    (CastExpr(e.castType, x1, t), st2)
  }

  function VisitExprs(env: Env, es: seq<Expr>, st: State): (r: (seq<Expr>, State))
    requires AnyUsesFunc(es) ==> FuncSafe(st)
    ensures ExprFrame(st, r.1)
    ensures |r.0| == |es|
    ensures AnyUsesFunc(r.0) == AnyUsesFunc(es)
    ensures forall i :: 0 <= i < |r.0| ==> LiteralTyped(r.0[i])
    ensures forall i :: 0 <= i < |r.0| ==> IsMap(r.0[i]) == IsMap(es[i]) && r.0[i].StrLit? == es[i].StrLit?
    decreases es, 2
  {
    if es == [] then ([], st)
    else
      var (e1, st1) := VisitExpr(env, es[0], st);
      var (rest, st2) := VisitExprs(env, es[1..], st1);
      assert ([e1] + rest)[1..] == rest;
      ([e1] + rest, st2)
  }

  /** The key shape of a visited argument list. */
  function KeyOf(args: seq<Expr>): (k: MapKey)
    ensures |k.args| == |args|
    ensures forall i :: 0 <= i < |args| ==> k.args[i] == KeyArg(TypeOf(args[i]).ty, TypeOf(args[i]).size)
  {
    MapKey(seq(|args|, i requires 0 <= i < |args| => KeyArg(TypeOf(args[i]).ty, TypeOf(args[i]).size)))
  }

  /**
   Two argument lists give the same key exactly when they have the same
   length and their types agree pairwise in category and size; the struct
   name of a cast argument plays no part.
   */
  lemma KeyOfEquality(a: seq<Expr>, b: seq<Expr>)
    ensures KeyOf(a) == KeyOf(b) <==>
      |a| == |b| && forall i :: 0 <= i < |a| ==> SameSizedType(TypeOf(a[i]), TypeOf(b[i]))
  {
    if |a| == |b| && forall i :: 0 <= i < |a| ==> SameSizedType(TypeOf(a[i]), TypeOf(b[i])) {
      assert KeyOf(a).args == KeyOf(b).args;
    }
  }

  /**
   Records the key on first use of the name, otherwise checks it against the
   recorded one; the recorded key is never replaced.
   */
  function RecordKey(ident: string, key: MapKey, st: State): (st': State)
    ensures ident in st'.mapKey
    ensures ident in st.mapKey ==> st'.mapKey == st.mapKey
    ensures ident !in st.mapKey ==> st'.mapKey == st.mapKey[ident := key] && st'.diags == st.diags
    ensures ident in st.mapKey ==>
      st'.diags == st.diags + (if st.mapKey[ident] != key then [MapArgMismatch(ident, key, st.mapKey[ident])] else [])
    ensures st' == st.(mapKey := st'.mapKey, diags := st'.diags)
  {
    if ident in st.mapKey then
      if st.mapKey[ident] != key then Emit(st, [MapArgMismatch(ident, key, st.mapKey[ident])]) else st
    else st.(mapKey := st.mapKey[ident := key])
  }

  function VisitMap(env: Env, m: MapNode, st: State): (r: (MapNode, State))
    requires MapUsesFunc(m) ==> FuncSafe(st)
    ensures ExprFrame(st, r.1)
    ensures m.ident in r.1.mapKey
    ensures r.0.ident == m.ident && |r.0.args| == |m.args|
    ensures MapUsesFunc(r.0) == MapUsesFunc(m)
    decreases m, 2
  {
    var (args1, st1) := VisitExprs(env, m.args, st);
    var st2 := RecordKey(m.ident, KeyOf(args1), st1);
    if m.ident in st2.mapVal then (MapNode(m.ident, args1, st2.mapVal[m.ident]), st2)
    else
      (MapNode(m.ident, args1, Untyped),
       if IsFinalPass(st2) then Emit(st2, [Undefined(MapSlot, m.ident)]) else st2)
  }

  /** Reading a variable: an unbound name is an error on every pass. */
  function VisitVariable(v: VarNode, st: State): (r: (VarNode, State))
    ensures ExprFrame(st, r.1)
    ensures r.0.ident == v.ident
    ensures v.ident in st.varVal ==> r == (VarNode(v.ident, st.varVal[v.ident]), st)
    ensures v.ident !in st.varVal ==>
      r == (VarNode(v.ident, Untyped), st.(diags := st.diags + [Undefined(VarSlot, v.ident)]))
  {
    if v.ident in st.varVal then (VarNode(v.ident, st.varVal[v.ident]), st)
    else (VarNode(v.ident, Untyped), Emit(st, [Undefined(VarSlot, v.ident)]))
  }

  // ---------------------------------------------------------------------
  // Statements

  /**
   Stores an assigned value type for a map or variable name, shared by both
   assignment rules: a new name takes the value's type; a stored `none` is
   replaced before the final pass and is "undefined" on it; otherwise only
   the category is compared. For a `cast` value the first struct name is
   kept and a different later one is a mismatch.
   */
  function RecordValue(slot: Slot, store: map<string, SizedType>, ident: string, t: SizedType, finalPass: bool)
    : (r: (map<string, SizedType>, seq<Diag>))
    ensures r.0.Keys == store.Keys + {ident}
    ensures forall k :: k in store && k != ident ==> r.0[k] == store[k]
    ensures |r.1| <= 2
    ensures ident !in store ==> r.0[ident] == t && r.1 == []
    ensures ident in store && store[ident].ty == None && !finalPass ==> r.0[ident] == t && r.1 == []
    ensures ident in store && store[ident].ty == None && finalPass ==> |r.1| > 0 && r.1[0] == Undefined(slot, ident)
    ensures ident in store && store[ident].ty == None && finalPass ==>
      r.0[ident].ty == None && r.0[ident].size == store[ident].size
    ensures ident in store && store[ident].ty != None ==> r.0[ident].ty == store[ident].ty && r.0[ident].size == store[ident].size
    ensures ident in store && store[ident].ty != None && store[ident].ty != t.ty ==>
      |r.1| > 0 && r.1[0] == ValueTypeMismatch(slot, ident, t.ty, store[ident].ty)
    ensures ident in store && store[ident].ty != None && store[ident].ty == t.ty && t.ty != Cast ==>
      r == (store, [])
  {
    var (s1, ds1) :=
      if ident in store then
        var stored := store[ident];
        if stored.ty == None then
          if finalPass then (store, [Undefined(slot, ident)]) else (store[ident := t], [])
        else if stored.ty != t.ty then (store, [ValueTypeMismatch(slot, ident, t.ty, stored.ty)])
        else (store, [])
      else (store[ident := t], []);
    if t.ty == Cast then
      var cur := s1[ident].castType;
      if cur != "" && cur != t.castType then (s1, ds1 + [CastTypeMismatch(slot, ident, t.castType, cur)])
      else (s1[ident := s1[ident].(castType := t.castType)], ds1)
    else (s1, ds1)
  }

  /** Frame of a statement: like an expression, but the map and variable tables may gain entries. */
  predicate StmtFrame(st: State, st2: State)
  {
    && st2.pass == st.pass
    && st2.probeAps == st.probeAps
    && st2.hasBeginProbe == st.hasBeginProbe
    && st2.hasEndProbe == st.hasEndProbe
    && st2.probes == st.probes
    && Extends(st.mapKey, st2.mapKey)
    && Extends(st.structs, st2.structs)
    && st.mapVal.Keys <= st2.mapVal.Keys
    && st.diags <= st2.diags
    && st.printfArgs <= st2.printfArgs
    && (st.needsStackidMap ==> st2.needsStackidMap)
    && (ValuesHaveKeys(st) ==> ValuesHaveKeys(st2))
  }

  function VisitStmt(env: Env, s: Stmt, st: State): (r: (Stmt, State))
    requires StmtUsesFunc(s) ==> FuncSafe(st)
    ensures StmtFrame(st, r.1)
    ensures StmtUsesFunc(r.0) == StmtUsesFunc(s)
  {
    match s
    case ExprStmt(e) =>
      var (e1, st1) := VisitExpr(env, e, st);
      (ExprStmt(e1), st1)
    case AssignMap(m, e) => VisitAssignMap(env, m, e, st)
    case AssignVar(v, e) => VisitAssignVar(env, v, e, st)
  }

  /** The map is visited (recording its key) before its value type is stored. */
  function VisitAssignMap(env: Env, m: MapNode, e: Expr, st: State): (r: (Stmt, State))
    requires MapUsesFunc(m) || UsesFunc(e) ==> FuncSafe(st)
    ensures StmtFrame(st, r.1)
    ensures r.0.AssignMap? && StmtUsesFunc(r.0) == (MapUsesFunc(m) || UsesFunc(e))
  {
    var (m1, st1) := VisitMap(env, m, st);
    var (e1, st2) := VisitExpr(env, e, st1);
    assert m.ident in st2.mapKey && st2.mapVal == st.mapVal;
    var (vals, ds) := RecordValue(MapSlot, st2.mapVal, m.ident, TypeOf(e1), IsFinalPass(st2));
    var st3 := st2.(mapVal := vals, diags := st2.diags + ds);
    assert ExprFrame(st, st2) && vals.Keys == st.mapVal.Keys + {m.ident};
    assert ValuesHaveKeys(st) ==> ValuesHaveKeys(st3);
    (AssignMap(m1, e1), st3)
  }

  function VisitAssignVar(env: Env, v: VarNode, e: Expr, st: State): (r: (Stmt, State))
    requires UsesFunc(e) ==> FuncSafe(st)
    ensures StmtFrame(st, r.1)
    ensures r.0.AssignVar? && StmtUsesFunc(r.0) == UsesFunc(e)
  {
    var (e1, st1) := VisitExpr(env, e, st);
    var (vars, ds) := RecordValue(VarSlot, st1.varVal, v.ident, TypeOf(e1), IsFinalPass(st1));
    // the variable node is annotated only when this assignment binds the name
    var v1 := if v.ident in st1.varVal then v else VarNode(v.ident, TypeOf(e1));
    (AssignVar(v1, e1), Emit(st1.(varVal := vars), ds))
  }

  function VisitStmts(env: Env, ss: seq<Stmt>, st: State): (r: (seq<Stmt>, State))
    requires AnyStmtUsesFunc(ss) ==> FuncSafe(st)
    ensures StmtFrame(st, r.1)
    ensures |r.0| == |ss|
    ensures AnyStmtUsesFunc(r.0) == AnyStmtUsesFunc(ss)
    decreases ss
  {
    if ss == [] then ([], st)
    else
      var (s1, st1) := VisitStmt(env, ss[0], st);
      var (rest, st2) := VisitStmts(env, ss[1..], st1);
      assert ([s1] + rest)[1..] == rest;
      ([s1] + rest, st2)
  }

  function VisitPredicate(env: Env, e: Expr, st: State): (r: (Expr, State))
    requires UsesFunc(e) ==> FuncSafe(st)
    ensures ExprFrame(st, r.1)
    ensures UsesFunc(r.0) == UsesFunc(e)
    ensures IsFinalPass(st) && TypeOf(r.0).ty != Integer ==>
      |r.1.diags| > 0 && r.1.diags[|r.1.diags| - 1] == PredicateType(TypeOf(r.0).ty)
    ensures r.0 == VisitExpr(env, e, st).0
    ensures !IsFinalPass(st) || TypeOf(r.0).ty == Integer ==> r.1 == VisitExpr(env, e, st).1
    ensures IsFinalPass(st) && TypeOf(r.0).ty != Integer ==>
      r.1 == Emit(VisitExpr(env, e, st).1, [PredicateType(TypeOf(r.0).ty)])
  {
    var (e1, st1) := VisitExpr(env, e, st);
    (e1, if IsFinalPass(st1) && TypeOf(e1).ty != Integer then Emit(st1, [PredicateType(TypeOf(e1).ty)]) else st1)
  }

  // ---------------------------------------------------------------------
  // Attach points, probes and the program

  const TimeUnits: set<string> := {"hz", "us", "ms", "s"}

  /** Shape rules of one attach point, checked on every pass. */
  function ShapeDiags(ap: AttachPoint): (ds: seq<Diag>)
    ensures |ds| <= 2
    ensures IsProvider(ap.provider) <==> InvalidProvider(ap.provider) !in ds
    ensures ap.provider in {"kprobe", "kretprobe"} ==> (ds == [] <==> ap.target == "" && ap.func != "")
    ensures ap.provider in {"uprobe", "uretprobe", "tracepoint"} ==> (ds == [] <==> ap.target != "" && ap.func != "")
    ensures ap.provider == "profile" ==> (ds == [] <==> ap.target in TimeUnits && ap.func == "" && ap.freq > 0)
    ensures ap.provider in {"BEGIN", "END"} ==> (ds == [] <==> ap.target == "" && ap.func == "")
    ensures DuplicateBegin !in ds && DuplicateEnd !in ds
  {
    var p := ap.provider;
    if p == "kprobe" || p == "kretprobe" then
      (if ap.target != "" then [KprobeHasTarget] else []) + (if ap.func == "" then [KprobeNeedsFunc] else [])
    else if p == "uprobe" || p == "uretprobe" then
      (if ap.target == "" then [UprobeNeedsTarget] else []) + (if ap.func == "" then [UprobeNeedsFunc] else [])
    else if p == "tracepoint" then
      if ap.target == "" || ap.func == "" then [TracepointNeedsTarget] else []
    else if p == "profile" then
      (if ap.target == "" then [ProfileNeedsUnit]
       else if ap.target !in TimeUnits then [BadTimeUnit(ap.target)] else [])
      + (if ap.func != "" then [ProfileNeedsIntFreq]
         else if ap.freq <= 0 then [ProfileFreqNotPositive] else [])
    else if p == "BEGIN" || p == "END" then
      if ap.target != "" || ap.func != "" then [BeginEndHasTarget] else []
    else [InvalidProvider(p)]
  }

  function VisitAttachPoint(ap: AttachPoint, st: State): (st': State)
    ensures st.diags <= st'.diags
    ensures st' == st.(diags := st'.diags, hasBeginProbe := st'.hasBeginProbe, hasEndProbe := st'.hasEndProbe)
    ensures !IsFinalPass(st) ==> st' == Emit(st, ShapeDiags(ap))
    ensures ap.provider != "BEGIN" && ap.provider != "END" ==> st' == Emit(st, ShapeDiags(ap))
    ensures IsFinalPass(st) && ap.provider == "BEGIN" ==>
      && st'.diags == st.diags + ShapeDiags(ap) + (if st.hasBeginProbe then [DuplicateBegin] else [])
      && st'.hasBeginProbe && st'.hasEndProbe == st.hasEndProbe
    ensures IsFinalPass(st) && ap.provider == "END" ==>
      && st'.diags == st.diags + ShapeDiags(ap) + (if st.hasEndProbe then [DuplicateEnd] else [])
      && st'.hasEndProbe && st'.hasBeginProbe == st.hasBeginProbe
  {
    var st1 := Emit(st, ShapeDiags(ap));
    if IsFinalPass(st1) && ap.provider == "BEGIN" then
      Emit(st1, if st1.hasBeginProbe then [DuplicateBegin] else []).(hasBeginProbe := true)
    else if IsFinalPass(st1) && ap.provider == "END" then
      Emit(st1, if st1.hasEndProbe then [DuplicateEnd] else []).(hasEndProbe := true)
    else st1
  }

  /** Whether some attach point of the list has the given provider. */
  predicate HasProvider(aps: seq<AttachPoint>, provider: string)
  {
    exists i :: 0 <= i < |aps| && aps[i].provider == provider
  }

  /**
   The BEGIN and END flags are set exactly on the final pass, by a BEGIN or
   END attach point.
   */
  function VisitAttachPoints(aps: seq<AttachPoint>, st: State): (st': State)
    ensures st' == st.(diags := st'.diags, hasBeginProbe := st'.hasBeginProbe, hasEndProbe := st'.hasEndProbe)
    ensures st.diags <= st'.diags
    ensures st'.hasBeginProbe == (st.hasBeginProbe || (IsFinalPass(st) && HasProvider(aps, "BEGIN")))
    ensures st'.hasEndProbe == (st.hasEndProbe || (IsFinalPass(st) && HasProvider(aps, "END")))
    decreases |aps|
  {
    if aps == [] then st
    else
      var rest := aps[1..];
      assert forall name :: HasProvider(aps, name) <==> aps[0].provider == name || HasProvider(rest, name) by {
        forall name ensures HasProvider(aps, name) <==> aps[0].provider == name || HasProvider(rest, name) {
          if HasProvider(aps, name) && aps[0].provider != name {
            var i :| 0 <= i < |aps| && aps[i].provider == name;
            assert rest[i - 1] == aps[i];
          }
          if HasProvider(rest, name) {
            var i :| 0 <= i < |rest| && rest[i].provider == name;
            assert aps[i + 1] == rest[i];
          }
        }
      }
      VisitAttachPoints(rest, VisitAttachPoint(aps[0], st))
  }

  function VisitProbe(env: Env, p: Probe, st: State): (r: (Probe, State))
    requires ProbeAbortFree(p)
    ensures ProbeAbortFree(r.0)
    ensures r.0.aps == p.aps
    ensures ProbeUsesFunc(r.0) == ProbeUsesFunc(p)
    ensures r.1.pass == st.pass
    ensures st.diags <= r.1.diags
    ensures Extends(st.mapKey, r.1.mapKey)
    ensures ValuesHaveKeys(st) ==> ValuesHaveKeys(r.1)
    ensures r.1.probes == st.probes + (if IsFinalPass(st) then [r.0] else [])
    ensures r.1.hasBeginProbe == (st.hasBeginProbe || (IsFinalPass(st) && HasProvider(p.aps, "BEGIN")))
    ensures r.1.hasEndProbe == (st.hasEndProbe || (IsFinalPass(st) && HasProvider(p.aps, "END")))
  {
    // variables are probe-local
    var st0 := st.(varVal := map[], probeAps := p.aps);
    var st1 := VisitAttachPoints(p.aps, st0);
    var (pred1, st2) :=
      match p.pred
      case NoPredicate => (NoPredicate, st1)
      case Predicate(e) =>
        var (e1, s) := VisitPredicate(env, e, st1);
        (Predicate(e1), s);
    var (stmts1, st3) := VisitStmts(env, p.stmts, st2);
    var p1 := Probe(p.aps, pred1, stmts1);
    (p1, if IsFinalPass(st3) then st3.(probes := st3.probes + [p1]) else st3)
  }

  function VisitProbes(env: Env, ps: seq<Probe>, st: State): (r: (seq<Probe>, State))
    requires ProbesAbortFree(ps)
    ensures |r.0| == |ps|
    ensures ProbesAbortFree(r.0)
    ensures r.1.pass == st.pass
    ensures st.diags <= r.1.diags
    ensures Extends(st.mapKey, r.1.mapKey)
    ensures ValuesHaveKeys(st) ==> ValuesHaveKeys(r.1)
    decreases ps
  {
    if ps == [] then ([], st)
    else
      var r1 := VisitProbe(env, ps[0], st);
      var r2 := VisitProbes(env, ps[1..], r1.1);
      assert ([r1.0] + r2.0)[1..] == r2.0;
      ([r1.0] + r2.0, r2.1)
  }

  /** Includes carry no semantic content; probes are visited in source order. */
  function VisitProgram(env: Env, prog: Program, st: State): (r: (Program, State))
    requires AbortFree(prog)
    ensures AbortFree(r.0)
    ensures r.0.includes == prog.includes && |r.0.probes| == |prog.probes|
    ensures r.1.pass == st.pass
    ensures st.diags <= r.1.diags
    ensures Extends(st.mapKey, r.1.mapKey)
    ensures ValuesHaveKeys(st) ==> ValuesHaveKeys(r.1)
  {
    var (ps, st1) := VisitProbes(env, prog.probes, st);
    (Program(prog.includes, ps), st1)
  }
}
