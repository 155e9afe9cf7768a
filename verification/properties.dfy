/**
 Properties of the expression rules, stated on `VisitExpr` for small trees
 whose shape a rule of the analyser singles out.
 */
module ExprProperties {
  import opened Types
  import opened Ast
  import opened Analyser
  import Arch

  // ---------------------------------------------------------------------
  // Literals and builtins

  /** An integer literal is integer/8 and leaves the state alone. */
  lemma IntegerLiteralTyping(env: Env, n: int, ty: SizedType, st: State)
    ensures VisitExpr(env, IntLit(n, ty), st) == (IntLit(n, Sized(Integer, 8)), st)
  {
  }

  /**
   A string literal is always string/64; it is too long, with exactly one
   diagnostic, iff its UTF-8 encoding has more than 63 bytes.
   */
  lemma StringLiteralTyping(env: Env, s: string, ty: SizedType, st: State)
    ensures var r := VisitExpr(env, StrLit(s, ty), st);
            && r.0 == StrLit(s, Sized(String, 64))
            && r.1 == st.(diags := r.1.diags)
            && (r.1.diags == st.diags <==> Utf8Length(s) <= 63)
            && (Utf8Length(s) > 63 ==> r.1.diags == st.diags + [StringTooLong(s)])
  {
  }

  /** `argN` is integer/8 whatever N is; N above the architecture's last argument register is one diagnostic. */
  lemma ArgBuiltinTyping(env: Env, ident: string, ty: SizedType, st: State)
    requires IsArgN(ident)
    ensures var r := VisitExpr(env, Builtin(ident, ty), st);
            && r.0 == Builtin(ident, Sized(Integer, 8))
            && r.1 == st.(diags := r.1.diags)
            && (r.1.diags == st.diags <==> ArgIndex(ident) <= Arch.MaxArg())
            && (ArgIndex(ident) > Arch.MaxArg() ==> r.1.diags == st.diags + [ArgNotSupported(ident)])
  {
    assert ident[..3] == "arg";
    assert ident !in IntegerBuiltins && ident != "stack" && ident != "ustack";
    assert ident != "comm" by { assert "comm"[..3] == "com"; }
    assert ident != "func" by { assert "func"[..3] == "fun"; }
  }

  /** On x86_64 `arg5` is the last argument accepted and `arg6` the first rejected. */
  lemma Arg5AcceptedArg6Rejected(env: Env, ty: SizedType, st: State)
    ensures VisitExpr(env, Builtin("arg5", ty), st).1 == st
    ensures VisitExpr(env, Builtin("arg6", ty), st).1.diags == st.diags + [ArgNotSupported("arg6")]
  {
    assert IsArgN("arg5") && ArgIndex("arg5") == 5;
    assert IsArgN("arg6") && ArgIndex("arg6") == 6;
    ArgBuiltinTyping(env, "arg5", ty, st);
    ArgBuiltinTyping(env, "arg6", ty, st);
  }

  /** A name no rule knows is none/0 with exactly one diagnostic. */
  lemma UnknownBuiltinTyping(env: Env, ident: string, ty: SizedType, st: State)
    requires ident !in IntegerBuiltins && ident !in {"stack", "ustack", "comm", "func"} && !IsArgN(ident)
    ensures VisitExpr(env, Builtin(ident, ty), st) ==
              (Builtin(ident, Untyped), st.(diags := st.diags + [UnknownBuiltin(ident)]))
  {
  }

  /** The attach points `kprobe:f, profile:hz:99`: one profile among them, after the kprobe. */
  lemma KprobeThenProfile(ty: SizedType)
    ensures var aps := [AttachPoint("kprobe", "", "f", 0), AttachPoint("profile", "hz", "", 99)];
            && ProvidersValid(aps)
            && FuncType(aps, ty) == Sized(Sym, 8)
            && ProfileDiags(aps) == [FuncNotSupported("profile")]
  {
    var aps := [AttachPoint("kprobe", "", "f", 0), AttachPoint("profile", "hz", "", 99)];
    assert IsProvider("kprobe") && IsProvider("profile");
    assert LastNonProfile(aps, 0);
    assert aps[1..] == [aps[1]] && aps[1..][1..] == [];
    assert ProfileCount(aps[1..]) == 1 + ProfileCount([]);
    assert aps[0].provider != "profile" by { assert aps[0].provider[0] == 'k'; }
  }

  /**
   `func` in `kprobe:f, profile:hz:99 { ... }`: the profile attach point is
   diagnosed and leaves the kprobe's sym/8 in place.
   */
  lemma FuncUnderKprobeThenProfile(env: Env, ty: SizedType, st: State)
    requires st.probeAps == [AttachPoint("kprobe", "", "f", 0), AttachPoint("profile", "hz", "", 99)]
    ensures VisitExpr(env, Builtin("func", ty), st) ==
              (Builtin("func", Sized(Sym, 8)), st.(diags := st.diags + [FuncNotSupported("profile")]))
  {
    KprobeThenProfile(ty);
    assert VisitBuiltin("func", ty, st) == (Sized(Sym, 8), Emit(st, [FuncNotSupported("profile")]));
  }

  /** The attach points `kprobe:f, uprobe:/bin/sh:g`: no profile among them, and the uprobe last. */
  lemma KprobeThenUprobe(ty: SizedType)
    ensures var aps := [AttachPoint("kprobe", "", "f", 0), AttachPoint("uprobe", "/bin/sh", "g", 0)];
            && ProvidersValid(aps)
            && FuncType(aps, ty) == Sized(USym, 8)
            && ProfileDiags(aps) == []
  {
    var aps := [AttachPoint("kprobe", "", "f", 0), AttachPoint("uprobe", "/bin/sh", "g", 0)];
    assert IsProvider("kprobe") && IsProvider("uprobe");
    assert aps[1..] == [aps[1]] && aps[1..][1..] == [];
    assert ProfileDiags(aps) == [] + ([] + []);
  }

  /**
   `func` in `kprobe:f, uprobe:/bin/sh:g { ... }` is usym/8: the last
   attach point decides, although a kprobe is among them.
   */
  lemma FuncUnderKprobeThenUprobe(env: Env, ty: SizedType, st: State)
    requires st.probeAps == [AttachPoint("kprobe", "", "f", 0), AttachPoint("uprobe", "/bin/sh", "g", 0)]
    ensures VisitExpr(env, Builtin("func", ty), st) == (Builtin("func", Sized(USym, 8)), st)
  {
    KprobeThenUprobe(ty);
    assert st.diags + [] == st.diags;
    assert VisitBuiltin("func", ty, st) == (Sized(USym, 8), st);
  }

  /** `stack` and `ustack` ask for the stack-trace map; no other builtin changes that flag. */
  lemma StackBuiltinsNeedStackMap(env: Env, ident: string, ty: SizedType, st: State)
    requires ident == "func" ==> FuncSafe(st)
    ensures var r := VisitExpr(env, Builtin(ident, ty), st);
            && (ident == "stack" ==> r == (Builtin(ident, Sized(Stack, 8)), st.(needsStackidMap := true)))
            && (ident == "ustack" ==> r == (Builtin(ident, Sized(UStack, 8)), st.(needsStackidMap := true)))
            && (ident != "stack" && ident != "ustack" ==> r.1.needsStackidMap == st.needsStackidMap)
  {
  }

  // ---------------------------------------------------------------------
  // Maps and variables read in an expression

  /**
   A scalar map reference `@x`: the first access records the empty key, a
   later one never replaces it and is one mismatch diagnostic when the
   recorded key is not empty; a map with no value type yet reads as none/0,
   which is a diagnostic only on the final pass.
   */
  lemma ScalarMapRead(env: Env, x: string, ty: SizedType, st: State)
    ensures !UsesFunc(MapExpr(MapNode(x, [], ty)))
    ensures var r := VisitExpr(env, MapExpr(MapNode(x, [], ty)), st);
            && r.0 == MapExpr(MapNode(x, [], if x in st.mapVal then st.mapVal[x] else Untyped))
            && r.1.mapKey == (if x in st.mapKey then st.mapKey else st.mapKey[x := MapKey([])])
            && r.1.diags == st.diags
                 + (if x in st.mapKey && st.mapKey[x] != MapKey([]) then [MapArgMismatch(x, MapKey([]), st.mapKey[x])] else [])
                 + (if x !in st.mapVal && IsFinalPass(st) then [Undefined(MapSlot, x)] else [])
  {
    var m := MapNode(x, [], ty);
    ScalarVisitMap(env, x, ty, st);
    var st2 := RecordKey(x, MapKey([]), st);
    assert VisitExpr(env, MapExpr(m), st) == (MapExpr(VisitMap(env, m, st).0), VisitMap(env, m, st).1);
  }

  lemma ScalarVisitMap(env: Env, x: string, ty: SizedType, st: State)
    ensures !MapUsesFunc(MapNode(x, [], ty))
    ensures var st2 := RecordKey(x, MapKey([]), st);
            VisitMap(env, MapNode(x, [], ty), st) ==
              if x in st2.mapVal then (MapNode(x, [], st2.mapVal[x]), st2)
              else (MapNode(x, [], Untyped), if IsFinalPass(st2) then Emit(st2, [Undefined(MapSlot, x)]) else st2)
  {
    assert VisitExprs(env, [], st) == ([], st);
    assert KeyOf([]) == MapKey([]);
  }

  /** The key shape recorded for a map name is never replaced, whatever later accesses use. */
  lemma MapKeyNeverReplaced(env: Env, m: MapNode, st: State)
    requires MapUsesFunc(m) ==> FuncSafe(st)
    requires m.ident in st.mapKey
    ensures VisitMap(env, m, st).1.mapKey[m.ident] == st.mapKey[m.ident]
  {
  }

  /**
   An access with a different key shape is exactly one mismatch diagnostic,
   after those of the index expressions, and the recorded key is unchanged.
   This holds also while the map has a key but no value yet (`@x[1, 2] = @x[1]`
   on an early pass), where the final pass adds the undefined-map diagnostic.
   */
  lemma MapAccessChecksKey(env: Env, m: MapNode, st: State)
    requires MapUsesFunc(m) ==> FuncSafe(st)
    requires m.ident in st.mapKey
    ensures var (args1, st1) := VisitExprs(env, m.args, st);
            var r := VisitMap(env, m, st);
            && r.1.mapKey == st1.mapKey
            && r.1.diags == st1.diags
                 + (if KeyOf(args1) != st.mapKey[m.ident] then [MapArgMismatch(m.ident, KeyOf(args1), st.mapKey[m.ident])] else [])
                 + (if m.ident !in st.mapVal && IsFinalPass(st) then [Undefined(MapSlot, m.ident)] else [])
            && r.0.ty == (if m.ident in st.mapVal then st.mapVal[m.ident] else Untyped)
  {
  }

  /** Reading a variable with no binding is a diagnostic on every pass, not only the final one. */
  lemma UnboundVariableRead(env: Env, x: string, ty: SizedType, st: State)
    requires x !in st.varVal
    ensures VisitExpr(env, VarExpr(VarNode(x, ty)), st) ==
              (VarExpr(VarNode(x, Untyped)), st.(diags := st.diags + [Undefined(VarSlot, x)]))
  {
  }

  /** A string guard is rejected on the final pass only; an integer guard never is. */
  lemma PredicateMustBeInteger(env: Env, s: string, n: int, t: SizedType, st: State)
    requires Utf8Length(s) <= 63
    ensures VisitPredicate(env, StrLit(s, t), st) ==
              (StrLit(s, Sized(String, 64)), st.(diags := st.diags + (if IsFinalPass(st) then [PredicateType(String)] else [])))
    ensures VisitPredicate(env, IntLit(n, t), st) == (IntLit(n, Sized(Integer, 8)), st)
  {
    assert VisitExpr(env, StrLit(s, t), st) == (StrLit(s, Sized(String, 64)), st);
    assert st.diags + [] == st.diags;
    assert VisitExpr(env, IntLit(n, t), st) == (IntLit(n, Sized(Integer, 8)), st);
  }

  // ---------------------------------------------------------------------
  // Operators, casts and field access

  /** A binary operation is integer/8 whatever its operands are. */
  lemma BinopIsInteger8(env: Env, e: Expr, st: State)
    requires e.Binop? && (UsesFunc(e) ==> FuncSafe(st))
    ensures TypeOf(VisitExpr(env, e, st).0) == Sized(Integer, 8)
  {
  }

  /** Comparing a string with an integer is a mismatch, reported only on the final pass. */
  lemma BinopMismatchOnlyOnFinalPass(env: Env, s: string, op: BinaryOp, n: int, t1: SizedType, t2: SizedType, ty: SizedType, st: State)
    requires Utf8Length(s) <= 63
    ensures !UsesFunc(Binop(StrLit(s, t1), op, IntLit(n, t2), ty))
    ensures VisitExpr(env, Binop(StrLit(s, t1), op, IntLit(n, t2), ty), st).1.diags ==
              st.diags + (if IsFinalPass(st) then [BinopTypeMismatch(op, String, Integer)] else [])
  {
    StringLiteralTyping(env, s, t1, st);
    var l := VisitExpr(env, StrLit(s, t1), st);
    IntegerLiteralTyping(env, n, t2, l.1);
  }

  /** Two strings can be compared with == and != only; other operators fail on the final pass. */
  lemma StringOperands(env: Env, s1: string, op: BinaryOp, s2: string, t1: SizedType, t2: SizedType, ty: SizedType, st: State)
    requires Utf8Length(s1) <= 63 && Utf8Length(s2) <= 63
    ensures !UsesFunc(Binop(StrLit(s1, t1), op, StrLit(s2, t2), ty))
    ensures VisitExpr(env, Binop(StrLit(s1, t1), op, StrLit(s2, t2), ty), st).1.diags ==
              st.diags + (if IsFinalPass(st) && op != Eq && op != Ne then [BinopBadType(op, String)] else [])
  {
    StringLiteralTyping(env, s1, t1, st);
    var l := VisitExpr(env, StrLit(s1, t1), st);
    StringLiteralTyping(env, s2, t2, l.1);
  }

  /**
   Dereferencing a cast to a pointer strips exactly one '*' and gives a
   cast of pointer size: `*(foo*)e` is an 8-byte `foo`.
   */
  lemma DerefStripsOneStar(env: Env, name: string, n: int, t: SizedType, t0: SizedType, t1: SizedType, st: State)
    requires name in st.structs
    ensures !UsesFunc(Unop(Deref, CastExpr(name + "*", IntLit(n, t), t0), t1))
    ensures var r := VisitExpr(env, Unop(Deref, CastExpr(name + "*", IntLit(n, t), t0), t1), st);
            && TypeOf(r.0) == SizedType(Cast, 8, name)
            && r.1 == st
  {
    assert StripStar(name + "*") == name by {
      var p := name + "*";
      assert StripStar(p) + "*" == name + "*";
      assert StripStar(p) == (StripStar(p) + "*")[..|name|];
      assert name == (name + "*")[..|name|];
    }
    IntegerLiteralTyping(env, n, t, st);
    var c := VisitExpr(env, CastExpr(name + "*", IntLit(n, t), t0), st);
    assert c == VisitCast(env, CastExpr(name + "*", IntLit(n, t), t0), st);
    assert c == (CastExpr(name + "*", IntLit(n, Sized(Integer, 8)), SizedType(Cast, 8, name + "*")), st);
    var u := UnopType(Deref, SizedType(Cast, 8, name + "*"), t1, st);
    assert u.0.castType + "*" == name + "*";
    assert u.0.castType == name by {
      assert u.0.castType == (u.0.castType + "*")[..|name|];
      assert name == (name + "*")[..|name|];
    }
  }

  /** Dereferencing a cast to a struct that is not a pointer is a diagnostic and assigns no type. */
  lemma DerefOfNonPointerFails(env: Env, name: string, n: int, t: SizedType, t0: SizedType, t1: SizedType, st: State)
    requires name in st.structs && !EndsInStar(name)
    ensures !UsesFunc(Unop(Deref, CastExpr(name, IntLit(n, t), t0), t1))
    ensures var r := VisitExpr(env, Unop(Deref, CastExpr(name, IntLit(n, t), t0), t1), st);
            && TypeOf(r.0) == t1
            && r.1 == st.(diags := st.diags + [DerefNonPointer(name)])
  {
    IntegerLiteralTyping(env, n, t, st);
    var c := VisitExpr(env, CastExpr(name, IntLit(n, t), t0), st);
    assert c == VisitCast(env, CastExpr(name, IntLit(n, t), t0), st);
    assert c == (CastExpr(name, IntLit(n, Sized(Integer, 8)), SizedType(Cast, st.structs[name].size, name)), st);
  }

  /** A field of a struct cast is exactly the registry's type of that field, with no diagnostic. */
  lemma FieldOfStructCast(env: Env, name: string, f: string, n: int, t: SizedType, t0: SizedType, t1: SizedType, st: State)
    requires name in st.structs && !EndsInStar(name) && f in st.structs[name].fields
    ensures !UsesFunc(FieldAccess(CastExpr(name, IntLit(n, t), t0), f, t1))
    ensures var r := VisitExpr(env, FieldAccess(CastExpr(name, IntLit(n, t), t0), f, t1), st);
            && TypeOf(r.0) == st.structs[name].fields[f]
            && r.1 == st
  {
    IntegerLiteralTyping(env, n, t, st);
    var c := VisitExpr(env, CastExpr(name, IntLit(n, t), t0), st);
    assert c == VisitCast(env, CastExpr(name, IntLit(n, t), t0), st);
    assert c == (CastExpr(name, IntLit(n, Sized(Integer, 8)), SizedType(Cast, st.structs[name].size, name)), st);
  }

  /** A field cannot be read through a pointer cast; that is one diagnostic and no type. */
  lemma FieldThroughPointerFails(env: Env, name: string, f: string, n: int, t: SizedType, t0: SizedType, t1: SizedType, st: State)
    requires name in st.structs
    ensures !UsesFunc(FieldAccess(CastExpr(name + "*", IntLit(n, t), t0), f, t1))
    ensures var r := VisitExpr(env, FieldAccess(CastExpr(name + "*", IntLit(n, t), t0), f, t1), st);
            && TypeOf(r.0) == t1
            && r.1 == st.(diags := st.diags + [FieldThroughPointer(f, name + "*")])
  {
    assert StripStar(name + "*") == name by {
      var p := name + "*";
      assert StripStar(p) + "*" == name + "*";
      assert StripStar(p) == (StripStar(p) + "*")[..|name|];
      assert name == (name + "*")[..|name|];
    }
    IntegerLiteralTyping(env, n, t, st);
    var c := VisitExpr(env, CastExpr(name + "*", IntLit(n, t), t0), st);
    assert c == VisitCast(env, CastExpr(name + "*", IntLit(n, t), t0), st);
    assert c == (CastExpr(name + "*", IntLit(n, Sized(Integer, 8)), SizedType(Cast, 8, name + "*")), st);
  }

  // ---------------------------------------------------------------------
  // Calls

  /** `count()` is count/8 and must be the value of a map assignment. */
  lemma CountRules(env: Env, toMap: bool, toVar: bool, ty: SizedType, st: State)
    ensures !UsesFunc(Call("count", [], toMap, toVar, ty))
    ensures VisitExpr(env, Call("count", [], toMap, toVar, ty), st) ==
              (Call("count", [], toMap, toVar, Sized(Count, 8)),
               st.(diags := st.diags + (if toMap then [] else [BadAssignment("count", WantMap)])))
  {
    var e := Call("count", [], toMap, toVar, ty);
    assert !UsesFunc(e);
    assert VisitExpr(env, e, st) == VisitCallExpr(env, e, st);
    assert VisitExprs(env, [], st) == ([], st);
    var assign := CheckAssignment("count", toMap, toVar, true, false);
    assert assign == if toMap then [] else [BadAssignment("count", WantMap)];
    assert CheckNargs("count", [], 0) == [];
    assert VisitCall(env, "count", [], toMap, toVar, st) == (Sized(Count, 8), Emit(st, assign + []));
    assert assign + [] == assign;
  }

  /** `count` takes no argument: `@x = count(1)` is one arity diagnostic. */
  lemma CountTakesNoArgument(env: Env, n: int, t: SizedType, ty: SizedType, st: State)
    ensures !UsesFunc(Call("count", [IntLit(n, t)], true, false, ty))
    ensures VisitExpr(env, Call("count", [IntLit(n, t)], true, false, ty), st).1 ==
              st.(diags := st.diags + [WrongArgCount("count", 0, 1)])
  {
    assert [IntLit(n, t)][1..] == [];
    IntegerLiteralTyping(env, n, t, st);
    var a := VisitExpr(env, IntLit(n, t), st);
    assert VisitExprs(env, [], a.1) == ([], a.1);
    var es := [IntLit(n, t)];
    assert es[0] == IntLit(n, t) && es[1..] == [];
    assert [a.0] + [] == [a.0];
    assert VisitExprs(env, es, st) == ([a.0], a.1);
  }

  /**
   `count` for any argument list: count/8, reported unless it is the value of a
   map assignment, and reported once more for any argument at all.
   */
  lemma CountArgumentRules(env: Env, args: seq<Expr>, toMap: bool, toVar: bool, ty: SizedType, st: State)
    requires AnyUsesFunc(args) ==> FuncSafe(st)
    ensures var (args1, st1) := VisitExprs(env, args, st);
            var r := VisitExpr(env, Call("count", args, toMap, toVar, ty), st);
            && r.0 == Call("count", args1, toMap, toVar, Sized(Count, 8))
            && r.1 == st1.(diags := r.1.diags)
            && r.1.diags == st1.diags
                 + (if toMap then [] else [BadAssignment("count", WantMap)])
                 + (if |args| == 0 then [] else [WrongArgCount("count", 0, |args|)])
            && (r.1.diags == st1.diags <==> toMap && |args| == 0)
  {
    var (args1, st1) := VisitExprs(env, args, st);
    CallVisit(env, "count", args, toMap, toVar, ty, st);
    var assign := CheckAssignment("count", toMap, toVar, true, false);
    var arity := CheckNargs("count", args1, 0);
    assert VisitCall(env, "count", args1, toMap, toVar, st1) == (Sized(Count, 8), Emit(st1, assign + arity));
    assert st1.diags + (assign + arity) == st1.diags + assign + arity;
  }

  /** Visiting a call visits its arguments in order and then applies the call's own rule. */
  lemma CallVisit(env: Env, func: string, args: seq<Expr>, toMap: bool, toVar: bool, ty: SizedType, st: State)
    requires AnyUsesFunc(args) ==> FuncSafe(st)
    ensures var (args1, st1) := VisitExprs(env, args, st);
            var (t, st2) := VisitCall(env, func, args1, toMap, toVar, st1);
            VisitExpr(env, Call(func, args, toMap, toVar, ty), st) == (Call(func, args1, toMap, toVar, t), st2)
  {
    var e := Call(func, args, toMap, toVar, ty);
    assert VisitExpr(env, e, st) == VisitCallExpr(env, e, st);
  }

  /**
   `quantize(n)` is quantize/8: it must be the value of a map assignment,
   takes one argument, and that argument must be an integer on the final
   pass. Nothing else is reported.
   */
  lemma QuantizeRules(env: Env, args: seq<Expr>, toMap: bool, toVar: bool, ty: SizedType, st: State)
    requires AnyUsesFunc(args) ==> FuncSafe(st)
    ensures var (args1, st1) := VisitExprs(env, args, st);
            var r := VisitExpr(env, Call("quantize", args, toMap, toVar, ty), st);
            && r.0 == Call("quantize", args1, toMap, toVar, Sized(Quantize, 8))
            && r.1 == st1.(diags := r.1.diags)
            && st1.diags <= r.1.diags
            && (r.1.diags == st1.diags <==>
                  toMap && |args| == 1 && (!IsFinalPass(st) || TypeOf(args1[0]).ty == Integer))
            && (!toMap ==> BadAssignment("quantize", WantMap) in r.1.diags)
            && (|args| != 1 ==> WrongArgCount("quantize", 1, |args|) in r.1.diags)
  {
    var (args1, st1) := VisitExprs(env, args, st);
    CallVisit(env, "quantize", args, toMap, toVar, ty, st);
    QuantizeCall(env, args1, toMap, toVar, st1);
  }

  /** `QuantizeRules` for the call's own rule, once its arguments are visited. */
  lemma QuantizeCall(env: Env, args: seq<Expr>, toMap: bool, toVar: bool, st: State)
    requires forall i :: 0 <= i < |args| ==> LiteralTyped(args[i])
    ensures var r := VisitCall(env, "quantize", args, toMap, toVar, st);
            && r.0 == Sized(Quantize, 8)
            && r.1 == st.(diags := r.1.diags)
            && st.diags <= r.1.diags
            && (r.1.diags == st.diags <==>
                  toMap && |args| == 1 && (!IsFinalPass(st) || TypeOf(args[0]).ty == Integer))
            && (!toMap ==> BadAssignment("quantize", WantMap) in r.1.diags)
            && (|args| != 1 ==> WrongArgCount("quantize", 1, |args|) in r.1.diags)
  {
    var assign := CheckAssignment("quantize", toMap, toVar, true, false);
    var arity := CheckNargs("quantize", args, 1);
    var arg := CheckArg("quantize", args, Integer, 0, false, IsFinalPass(st)).1;
    assert VisitCall(env, "quantize", args, toMap, toVar, st) == (Sized(Quantize, 8), Emit(st, assign + arity + arg));
    var ds := st.diags + (assign + arity + arg);
    if !toMap {
      assert ds[|st.diags|] == BadAssignment("quantize", WantMap);
    }
    if |args| != 1 {
      assert ds[|st.diags| + |assign|] == WrongArgCount("quantize", 1, |args|);
    }
  }

  /**
   `delete(@m[...])` is none/0: it is never assigned, takes one argument,
   and that argument must be a map access, whatever the pass.
   */
  lemma DeleteRules(env: Env, args: seq<Expr>, toMap: bool, toVar: bool, ty: SizedType, st: State)
    requires AnyUsesFunc(args) ==> FuncSafe(st)
    ensures var (args1, st1) := VisitExprs(env, args, st);
            var r := VisitExpr(env, Call("delete", args, toMap, toVar, ty), st);
            && r.0 == Call("delete", args1, toMap, toVar, Untyped)
            && r.1 == st1.(diags := r.1.diags)
            && st1.diags <= r.1.diags
            && (r.1.diags == st1.diags <==> !toMap && !toVar && |args| == 1 && IsMap(args[0]))
            && (toMap || toVar ==> BadAssignment("delete", WantNone) in r.1.diags)
            && (|args| != 1 ==> WrongArgCount("delete", 1, |args|) in r.1.diags)
            && (|args| == 1 && !IsMap(args[0]) ==> DeleteNeedsMap in r.1.diags)
  {
    var (args1, st1) := VisitExprs(env, args, st);
    CallVisit(env, "delete", args, toMap, toVar, ty, st);
    DeleteCall(env, args1, toMap, toVar, st1);
  }

  /** `DeleteRules` for the call's own rule, once its arguments are visited. */
  lemma DeleteCall(env: Env, args: seq<Expr>, toMap: bool, toVar: bool, st: State)
    requires forall i :: 0 <= i < |args| ==> LiteralTyped(args[i])
    ensures var r := VisitCall(env, "delete", args, toMap, toVar, st);
            && r.0 == Untyped
            && r.1 == st.(diags := r.1.diags)
            && st.diags <= r.1.diags
            && (r.1.diags == st.diags <==> !toMap && !toVar && |args| == 1 && IsMap(args[0]))
            && (toMap || toVar ==> BadAssignment("delete", WantNone) in r.1.diags)
            && (|args| != 1 ==> WrongArgCount("delete", 1, |args|) in r.1.diags)
            && (|args| == 1 && !IsMap(args[0]) ==> DeleteNeedsMap in r.1.diags)
  {
    var assign := CheckAssignment("delete", toMap, toVar, false, false);
    var arity := CheckNargs("delete", args, 1);
    var notMap := if arity == [] && !IsMap(args[0]) then [DeleteNeedsMap] else [];
    assert VisitCall(env, "delete", args, toMap, toVar, st) == (Untyped, Emit(st, assign + arity + notMap));
    var ds := st.diags + (assign + arity + notMap);
    if toMap || toVar {
      assert ds[|st.diags|] == BadAssignment("delete", WantNone);
    }
    if |args| != 1 {
      assert ds[|st.diags| + |assign|] == WrongArgCount("delete", 1, |args|);
    }
    if |args| == 1 && !IsMap(args[0]) {
      assert ds[|st.diags| + |assign|] == DeleteNeedsMap;
    }
  }

  /** The type `str`, `sym` or `usym` gives its result. */
  function SymbolCallType(func: string): (t: SizedType)
    requires func in {"str", "sym", "usym"}
    ensures t.castType == ""
    ensures func == "str" <==> t.ty == String
  {
    if func == "str" then Sized(String, STRING_SIZE) else if func == "sym" then Sized(Sym, 8) else Sized(USym, 8)
  }

  /**
   `str(p)` is string/64, `sym(a)` sym/8 and `usym(a)` usym/8. Each takes
   one argument, which must be an integer on the final pass; where the call
   sits is not checked.
   */
  lemma SymbolCallRules(env: Env, func: string, args: seq<Expr>, toMap: bool, toVar: bool, ty: SizedType, st: State)
    requires func in {"str", "sym", "usym"}
    requires AnyUsesFunc(args) ==> FuncSafe(st)
    ensures var (args1, st1) := VisitExprs(env, args, st);
            var r := VisitExpr(env, Call(func, args, toMap, toVar, ty), st);
            && r.0 == Call(func, args1, toMap, toVar, SymbolCallType(func))
            && r.1 == st1.(diags := r.1.diags)
            && st1.diags <= r.1.diags
            && (r.1.diags == st1.diags <==> |args| == 1 && (!IsFinalPass(st) || TypeOf(args1[0]).ty == Integer))
            && (|args| != 1 ==> WrongArgCount(func, 1, |args|) in r.1.diags)
            && (IsFinalPass(st) && |args| == 1 && TypeOf(args1[0]).ty != Integer ==>
                  UnsupportedArg(func, Integer, TypeOf(args1[0]).ty) in r.1.diags)
  {
    var (args1, st1) := VisitExprs(env, args, st);
    CallVisit(env, func, args, toMap, toVar, ty, st);
    SymbolCall(env, func, args1, toMap, toVar, st1);
  }

  /** `SymbolCallRules` for the call's own rule, once its arguments are visited. */
  lemma SymbolCall(env: Env, func: string, args: seq<Expr>, toMap: bool, toVar: bool, st: State)
    requires func in {"str", "sym", "usym"}
    requires forall i :: 0 <= i < |args| ==> LiteralTyped(args[i])
    ensures var r := VisitCall(env, func, args, toMap, toVar, st);
            && r.0 == SymbolCallType(func)
            && r.1 == st.(diags := r.1.diags)
            && st.diags <= r.1.diags
            && (r.1.diags == st.diags <==> |args| == 1 && (!IsFinalPass(st) || TypeOf(args[0]).ty == Integer))
            && (|args| != 1 ==> WrongArgCount(func, 1, |args|) in r.1.diags)
            && (IsFinalPass(st) && |args| == 1 && TypeOf(args[0]).ty != Integer ==>
                  UnsupportedArg(func, Integer, TypeOf(args[0]).ty) in r.1.diags)
  {
    var arity := CheckNargs(func, args, 1);
    var arg := CheckArg(func, args, Integer, 0, false, IsFinalPass(st)).1;
    assert VisitCall(env, func, args, toMap, toVar, st) == (SymbolCallType(func), Emit(st, arity + arg));
    var ds := st.diags + (arity + arg);
    if |args| != 1 {
      assert ds[|st.diags|] == WrongArgCount(func, 1, |args|);
    } else if IsFinalPass(st) && TypeOf(args[0]).ty != Integer {
      assert ds[|st.diags|] == UnsupportedArg(func, Integer, TypeOf(args[0]).ty);
    }
  }

  /** A call to any other name is none/0 and exactly one diagnostic after its arguments'. */
  lemma UnknownFunctionRules(env: Env, func: string, args: seq<Expr>, toMap: bool, toVar: bool, ty: SizedType, st: State)
    requires func !in {"quantize", "count", "delete", "str", "sym", "usym", "reg", "printf"}
    requires AnyUsesFunc(args) ==> FuncSafe(st)
    ensures var (args1, st1) := VisitExprs(env, args, st);
            VisitExpr(env, Call(func, args, toMap, toVar, ty), st) ==
              (Call(func, args1, toMap, toVar, Untyped), st1.(diags := st1.diags + [UnknownFunction(func)]))
  {
    var e := Call(func, args, toMap, toVar, ty);
    assert VisitExpr(env, e, st) == VisitCallExpr(env, e, st);
  }

  /** `printf` is never assigned and types as none/0. */
  lemma PrintfIsStatementOnly(env: Env, args: seq<Expr>, toMap: bool, toVar: bool, ty: SizedType, st: State)
    requires AnyUsesFunc(args) ==> FuncSafe(st)
    ensures var r := VisitExpr(env, Call("printf", args, toMap, toVar, ty), st);
            && TypeOf(r.0) == Untyped
            && (toMap || toVar ==> BadAssignment("printf", WantNone) in r.1.diags)
  {
    var e := Call("printf", args, toMap, toVar, ty);
    var (args1, st1) := VisitExprs(env, args, st);
    var st2 := Emit(st1, CheckAssignment("printf", toMap, toVar, false, false));
    var r := VisitPrintf(env, args1, st2);
    assert VisitExpr(env, e, st) == VisitCallExpr(env, e, st);
    assert VisitExpr(env, e, st) == (Call("printf", args1, toMap, toVar, Untyped), r);
    if toMap || toVar {
      assert st2.diags[|st1.diags|] == BadAssignment("printf", WantNone);
      assert r.diags[|st1.diags|] == BadAssignment("printf", WantNone);
    }
  }

  /** `printf` takes one to seven arguments; outside that range nothing is recorded for it. */
  lemma PrintfArity(env: Env, args: seq<Expr>, toMap: bool, toVar: bool, ty: SizedType, st: State)
    requires AnyUsesFunc(args) ==> FuncSafe(st)
    requires |args| == 0 || |args| > 7
    ensures var r := VisitExpr(env, Call("printf", args, toMap, toVar, ty), st);
            && (|args| == 0 ==> TooFewArgs("printf", 1, 0) in r.1.diags)
            && (|args| > 7 ==> TooManyArgs("printf", 7, |args|) in r.1.diags)
            && r.1.printfArgs == VisitExprs(env, args, st).1.printfArgs
  {
    var e := Call("printf", args, toMap, toVar, ty);
    var (args1, st1) := VisitExprs(env, args, st);
    var st2 := Emit(st1, CheckAssignment("printf", toMap, toVar, false, false));
    var r := VisitPrintf(env, args1, st2);
    assert VisitExpr(env, e, st) == VisitCallExpr(env, e, st);
    assert VisitExpr(env, e, st).1 == r;
    var arity := CheckVarargs("printf", args1, 1, 7);
    assert r.diags[|st2.diags|] == arity[0];
  }

  /**
   `printf` is clean exactly when it is not assigned, has one to seven
   arguments and a literal format, and, on the final pass, the format
   verifier accepts the remaining arguments' types. Before the final pass a
   well-formed call reports nothing.
   */
  lemma PrintfRules(env: Env, args: seq<Expr>, toMap: bool, toVar: bool, ty: SizedType, st: State)
    requires AnyUsesFunc(args) ==> FuncSafe(st)
    ensures var (args1, st1) := VisitExprs(env, args, st);
            var r := VisitExpr(env, Call("printf", args, toMap, toVar, ty), st);
            && r.0 == Call("printf", args1, toMap, toVar, Untyped)
            && st1.diags <= r.1.diags
            && (r.1.diags == st1.diags <==>
                  && !toMap && !toVar && 1 <= |args| <= 7 && args1[0].StrLit?
                  && (!IsFinalPass(st)
                      || Printf.VerifyFormatString(env.formatTypes, args1[0].s, PrintfArgTypes(args1)) == Printf.FormatOk))
            && (!IsFinalPass(st) && !toMap && !toVar && 1 <= |args| <= 7 && args1[0].StrLit? ==> r.1 == st1)
  {
    var (args1, st1) := VisitExprs(env, args, st);
    CallVisit(env, "printf", args, toMap, toVar, ty, st);
    PrintfCall(env, args1, toMap, toVar, st1);
  }

  /** `PrintfRules` for the call's own rule, once its arguments are visited. */
  lemma PrintfCall(env: Env, args: seq<Expr>, toMap: bool, toVar: bool, st: State)
    requires forall i :: 0 <= i < |args| ==> LiteralTyped(args[i])
    ensures var r := VisitCall(env, "printf", args, toMap, toVar, st);
            && r.0 == Untyped
            && st.diags <= r.1.diags
            && (r.1.diags == st.diags <==>
                  && !toMap && !toVar && 1 <= |args| <= 7 && args[0].StrLit?
                  && (!IsFinalPass(st)
                      || Printf.VerifyFormatString(env.formatTypes, args[0].s, PrintfArgTypes(args)) == Printf.FormatOk))
            && (!IsFinalPass(st) && !toMap && !toVar && 1 <= |args| <= 7 && args[0].StrLit? ==> r.1 == st)
  {
    var assign := CheckAssignment("printf", toMap, toVar, false, false);
    var st2 := Emit(st, assign);
    assert VisitCall(env, "printf", args, toMap, toVar, st) == (Untyped, VisitPrintf(env, args, st2));
    if toMap || toVar {
      assert |st2.diags| > |st.diags|;
    } else {
      assert st2 == st by { assert st.diags + [] == st.diags; }
    }
  }

  /** Whether some diagnostic says that `func` wants a literal. */
  predicate ComplainsAboutLiteral(ds: seq<Diag>, func: string)
  {
    exists i :: 0 <= i < |ds| && ds[i].ExpectsLiteral? && ds[i].func == func
  }

  /**
   A `printf` format that is not a string literal is diagnosed on every
   pass, so the final pass, which reads the format as a literal, is never
   reached with one.
   */
  lemma PrintfNonLiteralFormat(env: Env, args: seq<Expr>, toMap: bool, toVar: bool, ty: SizedType, st: State)
    requires AnyUsesFunc(args) ==> FuncSafe(st)
    requires 1 <= |args| <= 7 && !args[0].StrLit?
    ensures ComplainsAboutLiteral(VisitExpr(env, Call("printf", args, toMap, toVar, ty), st).1.diags, "printf")
  {
    var e := Call("printf", args, toMap, toVar, ty);
    var (args1, st1) := VisitExprs(env, args, st);
    var st2 := Emit(st1, CheckAssignment("printf", toMap, toVar, false, false));
    var r := VisitPrintf(env, args1, st2);
    assert VisitExpr(env, e, st) == VisitCallExpr(env, e, st);
    assert VisitExpr(env, e, st).1 == r;
    assert r.diags[|st2.diags|].ExpectsLiteral? && r.diags[|st2.diags|].func == "printf";
  }

  /** `reg` is integer/8 whatever its argument, even an unknown register. */
  lemma RegIsInteger8(env: Env, args: seq<Expr>, toMap: bool, toVar: bool, ty: SizedType, st: State)
    requires AnyUsesFunc(args) ==> FuncSafe(st)
    ensures TypeOf(VisitExpr(env, Call("reg", args, toMap, toVar, ty), st).0) == Sized(Integer, 8)
  {
  }

  /**
   `reg` is clean iff it has exactly one argument, a string literal naming a
   register the architecture knows; a wrong count, a non-literal argument and
   an unknown name are each reported, on every pass.
   */
  lemma RegRules(env: Env, args: seq<Expr>, toMap: bool, toVar: bool, ty: SizedType, st: State)
    requires AnyUsesFunc(args) ==> FuncSafe(st)
    ensures var (args1, st1) := VisitExprs(env, args, st);
            var r := VisitExpr(env, Call("reg", args, toMap, toVar, ty), st);
            && r.0 == Call("reg", args1, toMap, toVar, Sized(Integer, 8))
            && r.1 == st1.(diags := r.1.diags)
            && st1.diags <= r.1.diags
            && (r.1.diags == st1.diags <==> |args| == 1 && args[0].StrLit? && env.regOffset(args[0].s) != -1)
            && (|args| != 1 ==> r.1.diags == st1.diags + [WrongArgCount("reg", 1, |args|)])
            && (|args| == 1 && !args[0].StrLit? ==> r.1.diags == st1.diags + [ExpectsLiteral("reg", String, TypeOf(args1[0]).ty)])
            && (|args| == 1 && args[0].StrLit? && env.regOffset(args[0].s) == -1 ==>
                  r.1.diags == st1.diags + [InvalidRegister(args[0].s)])
  {
    var (args1, st1) := VisitExprs(env, args, st);
    CallVisit(env, "reg", args, toMap, toVar, ty, st);
    assert VisitCall(env, "reg", args1, toMap, toVar, st1) == (Sized(Integer, 8), VisitReg(env, args1, st1));
    RegCheck(env, args1, st1);
    if |args| == 1 && args[0].StrLit? {
      assert args1[0] == VisitExpr(env, args[0], st).0;
    }
  }

  /** `RegRules` for the call's own check, once its arguments are visited. */
  lemma RegCheck(env: Env, args: seq<Expr>, st: State)
    requires forall i :: 0 <= i < |args| ==> LiteralTyped(args[i])
    ensures var st' := VisitReg(env, args, st);
            && st' == st.(diags := st'.diags)
            && st.diags <= st'.diags
            && (st'.diags == st.diags <==> |args| == 1 && args[0].StrLit? && env.regOffset(args[0].s) != -1)
            && (|args| != 1 ==> st'.diags == st.diags + [WrongArgCount("reg", 1, |args|)])
            && (|args| == 1 && !args[0].StrLit? ==> st'.diags == st.diags + [ExpectsLiteral("reg", String, TypeOf(args[0]).ty)])
            && (|args| == 1 && args[0].StrLit? && env.regOffset(args[0].s) == -1 ==>
                  st'.diags == st.diags + [InvalidRegister(args[0].s)])
  {
    if |args| == 1 {
      assert LiteralTyped(args[0]);
      assert st.diags + [] == st.diags;
    }
  }

  /** `reg("name")` with a name the architecture does not know is one diagnostic. */
  lemma UnknownRegister(env: Env, name: string, t: SizedType, toMap: bool, toVar: bool, ty: SizedType, st: State)
    requires Utf8Length(name) <= 63 && env.regOffset(name) == -1
    ensures !UsesFunc(Call("reg", [StrLit(name, t)], toMap, toVar, ty))
    ensures VisitExpr(env, Call("reg", [StrLit(name, t)], toMap, toVar, ty), st).1 ==
              st.(diags := st.diags + [InvalidRegister(name)])
  {
    assert [StrLit(name, t)][1..] == [];
    StringLiteralTyping(env, name, t, st);
    var a := VisitExpr(env, StrLit(name, t), st);
    assert VisitExprs(env, [], a.1) == ([], a.1);
    var es := [StrLit(name, t)];
    assert es[0] == StrLit(name, t) && es[1..] == [];
    assert [a.0] + [] == [a.0];
    assert VisitExprs(env, es, st) == ([a.0], a.1);
  }
}
