/**
 Properties of the statement, attach-point and probe rules: how assigned
 value types are stored, that variables are probe-local, and which attach
 point rules depend on the pass.
 */
module StmtProperties {
  import opened Types
  import opened Ast
  import opened Analyser

  // ---------------------------------------------------------------------
  // Stored value types

  /**
   Once a `cast` value has fixed a struct name for a slot, assigning a cast
   to a different struct is one mismatch diagnostic and changes nothing.
   */
  lemma CastNameFixedByFirstAssignment(slot: Slot, store: map<string, SizedType>, ident: string, t: SizedType, finalPass: bool)
    requires ident in store && store[ident].ty == Cast && t.ty == Cast
    requires store[ident].castType != "" && t.castType != store[ident].castType
    ensures RecordValue(slot, store, ident, t, finalPass) ==
              (store, [CastTypeMismatch(slot, ident, t.castType, store[ident].castType)])
  {
    var d := CastTypeMismatch(slot, ident, t.castType, store[ident].castType);
    assert [] + [d] == [d];
    assert RecordValue(slot, store, ident, t, finalPass) == (store, [] + [d]);
  }

  /**
   A `cast` value stored under a slot that holds a cast with no struct name
   yet (or the same one) records the new name and is accepted.
   */
  lemma CastNameRecorded(slot: Slot, store: map<string, SizedType>, ident: string, t: SizedType, finalPass: bool)
    requires ident in store && store[ident].ty == Cast && t.ty == Cast
    requires store[ident].castType == "" || store[ident].castType == t.castType
    ensures RecordValue(slot, store, ident, t, finalPass) ==
              (store[ident := store[ident].(castType := t.castType)], [])
  {
    assert RecordValue(slot, store, ident, t, finalPass).1 == [];
  }

  // ---------------------------------------------------------------------
  // Variable assignment

  /**
   The first assignment binds the variable to the value's type (struct name
   included) and annotates the variable node with it; nothing is reported.
   */
  lemma FirstAssignmentBindsVariable(env: Env, x: string, ty: SizedType, e: Expr, st: State)
    requires UsesFunc(e) ==> FuncSafe(st)
    requires x !in st.varVal
    ensures var (e1, st1) := VisitExpr(env, e, st);
            VisitStmt(env, AssignVar(VarNode(x, ty), e), st) ==
              (AssignVar(VarNode(x, TypeOf(e1)), e1), st1.(varVal := st.varVal[x := TypeOf(e1)]))
  {
    var v := VarNode(x, ty);
    var (e1, st1) := VisitExpr(env, e, st);
    var (vars, ds) := RecordValue(VarSlot, st1.varVal, x, TypeOf(e1), IsFinalPass(st1));
    assert vars == st.varVal[x := TypeOf(e1)] && ds == [];
    assert st1.diags + [] == st1.diags;
    assert VisitStmt(env, AssignVar(v, e), st) == VisitAssignVar(env, v, e, st);
  }

  /**
   A later assignment leaves the variable node's annotation alone and never
   touches other variables. A stored none is replaced before the final pass
   and undefined on it; otherwise the stored category and size are kept, a
   different category is a mismatch on every pass, and the size is never
   compared.
   */
  lemma ReassignVariable(env: Env, x: string, ty: SizedType, e: Expr, st: State)
    requires UsesFunc(e) ==> FuncSafe(st)
    requires x in st.varVal
    ensures var (e1, st1) := VisitExpr(env, e, st);
            var t := TypeOf(e1);
            var r := VisitStmt(env, AssignVar(VarNode(x, ty), e), st);
            var stored := st.varVal[x];
            && r.0 == AssignVar(VarNode(x, ty), e1)
            && r.1 == st1.(varVal := r.1.varVal, diags := r.1.diags)
            && r.1.varVal.Keys == st.varVal.Keys
            && (forall y :: y in st.varVal && y != x ==> r.1.varVal[y] == st.varVal[y])
            && (stored.ty == None && !IsFinalPass(st) ==> r.1.varVal[x] == t && r.1.diags == st1.diags)
            && (stored.ty == None && IsFinalPass(st) ==>
                  r.1.varVal[x].ty == None && |r.1.diags| > |st1.diags| && r.1.diags[|st1.diags|] == Undefined(VarSlot, x))
            && (stored.ty != None ==> r.1.varVal[x].ty == stored.ty && r.1.varVal[x].size == stored.size)
            && (stored.ty != None && stored.ty != t.ty ==>
                  |r.1.diags| > |st1.diags| && r.1.diags[|st1.diags|] == ValueTypeMismatch(VarSlot, x, t.ty, stored.ty))
            && (stored.ty != None && stored.ty == t.ty && t.ty != Cast ==> r.1 == st1)
  {
    var v := VarNode(x, ty);
    var (e1, st1) := VisitExpr(env, e, st);
    var t := TypeOf(e1);
    var (vars, ds) := RecordValue(VarSlot, st1.varVal, x, t, IsFinalPass(st1));
    var r1 := Emit(st1.(varVal := vars), ds);
    assert VisitStmt(env, AssignVar(v, e), st) == VisitAssignVar(env, v, e, st);
    assert VisitAssignVar(env, v, e, st) == (AssignVar(v, e1), r1);
    if st.varVal[x].ty != None && st.varVal[x].ty == t.ty && t.ty != Cast {
      assert vars == st1.varVal && ds == [];
      assert st1.diags + [] == st1.diags;
    } else if st.varVal[x].ty == None && !IsFinalPass(st) {
      assert st1.diags + [] == st1.diags;
    }
  }

  /** Variables are probe-local: the bindings left by earlier probes play no part. */
  lemma VisitProbeIgnoresIncomingVariables(env: Env, p: Probe, st: State, vars: map<string, SizedType>)
    requires ProbeAbortFree(p)
    ensures VisitProbe(env, p, st) == VisitProbe(env, p, st.(varVal := vars))
  {
    assert st.(varVal := vars).(varVal := map[], probeAps := p.aps) == st.(varVal := map[], probeAps := p.aps);
  }

  // ---------------------------------------------------------------------
  // Map assignment

  /**
   The map schema invariant: after `@m[...] = e` the map has both a key
   shape and a value type recorded, and a name seen for the first time
   stores the value's type.
   */
  lemma AssignMapRecordsKeyAndValue(env: Env, m: MapNode, e: Expr, st: State)
    requires MapUsesFunc(m) || UsesFunc(e) ==> FuncSafe(st)
    ensures var r := VisitStmt(env, AssignMap(m, e), st);
            && m.ident in r.1.mapKey && m.ident in r.1.mapVal
            && (m.ident !in st.mapVal ==>
                  r.1.mapVal[m.ident] == TypeOf(VisitExpr(env, e, VisitMap(env, m, st).1).0))
            && (forall k :: k in st.mapVal && k != m.ident ==> k in r.1.mapVal && r.1.mapVal[k] == st.mapVal[k])
  {
    var (m1, st1) := VisitMap(env, m, st);
    var (e1, st2) := VisitExpr(env, e, st1);
    var t := TypeOf(e1);
    var (vals, ds) := RecordValue(MapSlot, st2.mapVal, m.ident, t, IsFinalPass(st2));
    assert VisitStmt(env, AssignMap(m, e), st) == VisitAssignMap(env, m, e, st)
        == (AssignMap(m1, e1), st2.(mapVal := vals, diags := st2.diags + ds));
    if m.ident !in st.mapVal {
      assert vals[m.ident] == t;
    }
  }

  /**
   Storing into a map that already has a value type keeps that type's
   category and size, whatever is assigned, and a different category is a
   mismatch diagnostic.
   */
  lemma AssignMapKeepsStoredType(env: Env, m: MapNode, e: Expr, st: State)
    requires MapUsesFunc(m) || UsesFunc(e) ==> FuncSafe(st)
    requires m.ident in st.mapVal && st.mapVal[m.ident].ty != None
    ensures var r := VisitStmt(env, AssignMap(m, e), st);
            var t := TypeOf(VisitExpr(env, e, VisitMap(env, m, st).1).0);
            && SameSizedType(r.1.mapVal[m.ident], st.mapVal[m.ident])
            && (t.ty != st.mapVal[m.ident].ty ==> ValueTypeMismatch(MapSlot, m.ident, t.ty, st.mapVal[m.ident].ty) in r.1.diags)
  {
    var (m1, st1) := VisitMap(env, m, st);
    var (e1, st2) := VisitExpr(env, e, st1);
    var t := TypeOf(e1);
    var (vals, ds) := RecordValue(MapSlot, st2.mapVal, m.ident, t, IsFinalPass(st2));
    var r := st2.(mapVal := vals, diags := st2.diags + ds);
    assert VisitStmt(env, AssignMap(m, e), st) == VisitAssignMap(env, m, e, st) == (AssignMap(m1, e1), r);
    if t.ty != st.mapVal[m.ident].ty {
      assert r.diags[|st2.diags|] == ds[0];
    }
  }

  /**
   A value slot that holds none (a map first stored from a none/0 value) is
   overwritten before the final pass and reported undefined on it.
   */
  lemma AssignMapOverNone(env: Env, m: MapNode, e: Expr, st: State)
    requires MapUsesFunc(m) || UsesFunc(e) ==> FuncSafe(st)
    requires m.ident in st.mapVal && st.mapVal[m.ident].ty == None
    ensures var r := VisitStmt(env, AssignMap(m, e), st);
            var t := TypeOf(VisitExpr(env, e, VisitMap(env, m, st).1).0);
            && (!IsFinalPass(st) ==> r.1.mapVal[m.ident] == t)
            && (IsFinalPass(st) ==> Undefined(MapSlot, m.ident) in r.1.diags)
            && (IsFinalPass(st) ==> r.1.mapVal[m.ident].ty == None && r.1.mapVal[m.ident].size == st.mapVal[m.ident].size)
  {
    var (m1, st1) := VisitMap(env, m, st);
    var (e1, st2) := VisitExpr(env, e, st1);
    var t := TypeOf(e1);
    var (vals, ds) := RecordValue(MapSlot, st2.mapVal, m.ident, t, IsFinalPass(st2));
    var r := st2.(mapVal := vals, diags := st2.diags + ds);
    assert VisitStmt(env, AssignMap(m, e), st) == VisitAssignMap(env, m, e, st) == (AssignMap(m1, e1), r);
    if IsFinalPass(st) {
      assert r.diags[|st2.diags|] == ds[0];
    }
  }

  // ---------------------------------------------------------------------
  // Attach points

  /** The shape diagnostics of a list of attach points, in order. */
  function AllShapeDiags(aps: seq<AttachPoint>): seq<Diag>
  {
    if aps == [] then [] else ShapeDiags(aps[0]) + AllShapeDiags(aps[1..])
  }

  predicate NoBeginOrEnd(aps: seq<AttachPoint>)
  {
    forall i :: 0 <= i < |aps| ==> aps[i].provider != "BEGIN" && aps[i].provider != "END"
  }

  /** One step of `AttachPointsOnlyCheckShape`: the head only checks its shape and the tail keeps the requirement. */
  lemma NoBeginOrEndSplit(aps: seq<AttachPoint>, st: State)
    requires |aps| > 0 && (!IsFinalPass(st) || NoBeginOrEnd(aps))
    ensures VisitAttachPoint(aps[0], st) == Emit(st, ShapeDiags(aps[0]))
    ensures !IsFinalPass(VisitAttachPoint(aps[0], st)) || NoBeginOrEnd(aps[1..])
  {
    if IsFinalPass(st) {
      assert aps[0].provider != "BEGIN" && aps[0].provider != "END";
      assert forall i :: 1 <= i < |aps| ==> aps[i] == aps[1..][i - 1];
    }
  }

  /**
   The shape rules run on every pass: before the final pass, and on it for
   attach points other than BEGIN/END, visiting the list only appends each
   attach point's shape diagnostics in order.
   */
  lemma AttachPointsOnlyCheckShape(aps: seq<AttachPoint>, st: State)
    requires !IsFinalPass(st) || NoBeginOrEnd(aps)
    ensures VisitAttachPoints(aps, st) == Emit(st, AllShapeDiags(aps))
  {
    ShapeDiagsAccumulate(aps, st);
  }

  lemma {:induction false} ShapeDiagsAccumulate(aps: seq<AttachPoint>, st: State)
    requires !IsFinalPass(st) || NoBeginOrEnd(aps)
    ensures var st' := VisitAttachPoints(aps, st);
            && st'.diags == st.diags + AllShapeDiags(aps)
            && st'.hasBeginProbe == st.hasBeginProbe && st'.hasEndProbe == st.hasEndProbe
    decreases |aps|
  {
    if aps == [] {
      assert st.diags + [] == st.diags;
    } else {
      var d0 := ShapeDiags(aps[0]);
      var rest := AllShapeDiags(aps[1..]);
      var st1 := VisitAttachPoint(aps[0], st);
      NoBeginOrEndSplit(aps, st);
      ShapeDiagsAccumulate(aps[1..], st1);
      assert VisitAttachPoints(aps, st) == VisitAttachPoints(aps[1..], st1);
      assert AllShapeDiags(aps) == d0 + rest;
      ConcatAssoc(st.diags, d0, rest);
    }
  }

  lemma ConcatAssoc<T>(a: seq<T>, b: seq<T>, c: seq<T>)
    ensures a + b + c == a + (b + c)
  {
  }

  /**
   A second BEGIN attach point is reported only on the final pass, which is
   when BEGIN is first recorded; the END flag is untouched.
   */
  lemma DuplicateBeginOnlyOnFinalPass(st: State)
    requires !st.hasBeginProbe
    ensures var b := AttachPoint("BEGIN", "", "", 0);
            var st' := VisitAttachPoints([b, b], st);
            && st'.diags == st.diags + (if IsFinalPass(st) then [DuplicateBegin] else [])
            && st'.hasBeginProbe == IsFinalPass(st)
            && st'.hasEndProbe == st.hasEndProbe
  {
    var b := AttachPoint("BEGIN", "", "", 0);
    assert ShapeDiags(b) == [];
    var st1 := VisitAttachPoint(b, st);
    var st2 := VisitAttachPoint(b, st1);
    assert [b, b][1..] == [b];
    assert VisitAttachPoints([b, b], st) == VisitAttachPoints([b], st1);
    assert VisitAttachPoints([b], st1) == VisitAttachPoints([], st2);
    assert st1.diags == st.diags && st1.hasBeginProbe == IsFinalPass(st);
  }

  /** The same for END. */
  lemma DuplicateEndOnlyOnFinalPass(st: State)
    requires !st.hasEndProbe
    ensures var e := AttachPoint("END", "", "", 0);
            var st' := VisitAttachPoints([e, e], st);
            && st'.diags == st.diags + (if IsFinalPass(st) then [DuplicateEnd] else [])
            && st'.hasEndProbe == IsFinalPass(st)
            && st'.hasBeginProbe == st.hasBeginProbe
  {
    var e := AttachPoint("END", "", "", 0);
    assert ShapeDiags(e) == [];
    var st1 := VisitAttachPoint(e, st);
    var st2 := VisitAttachPoint(e, st1);
    assert [e, e][1..] == [e];
    assert VisitAttachPoints([e, e], st) == VisitAttachPoints([e], st1);
    assert VisitAttachPoints([e], st1) == VisitAttachPoints([], st2);
    assert st1.diags == st.diags && st1.hasEndProbe == IsFinalPass(st);
  }

  /** The probe `BEGIN {}`. */
  function EmptyBeginProbe(): Probe
  {
    Probe([AttachPoint("BEGIN", "", "", 0)], NoPredicate, [])
  }

  /**
   Two `BEGIN {}` probes in one program: the second is reported once, and
   only on the final pass; the first sets the BEGIN flag on that pass.
   */
  lemma TwoBeginProbesReportOnce(env: Env, st: State)
    requires !st.hasBeginProbe
    ensures ProbesAbortFree([EmptyBeginProbe(), EmptyBeginProbe()])
    ensures var r := VisitProbes(env, [EmptyBeginProbe(), EmptyBeginProbe()], st);
            && r.1.diags == st.diags + (if IsFinalPass(st) then [DuplicateBegin] else [])
            && r.1.hasBeginProbe == IsFinalPass(st)
  {
    var p := EmptyBeginProbe();
    var b := p.aps[0];
    assert ShapeDiags(b) == [];
    assert !ProbeUsesFunc(p) && [p, p][1..] == [p] && [p][1..] == [];
    assert ProbesAbortFree([p, p]);
    assert HasProvider(p.aps, "BEGIN");
    var r1 := VisitProbe(env, p, st);
    var r2 := VisitProbe(env, p, r1.1);
    assert VisitStmts(env, [], VisitAttachPoints(p.aps, st.(varVal := map[], probeAps := p.aps))).1.diags == st.diags;
    assert r1.1.diags == st.diags;
    assert VisitProbes(env, [p, p], st).1 == VisitProbes(env, [p], r1.1).1 == VisitProbes(env, [], r2.1).1;
  }

  // ---------------------------------------------------------------------
  // Aborting programs

  /** A probe that uses `func` under an attach point whose provider is unknown aborts the analyser. */
  lemma FuncUnderUnknownProviderAborts(ident: string)
    requires !IsProvider(ident)
    ensures !AbortFree(Program([], [Probe([AttachPoint(ident, "", "f", 0)], NoPredicate, [ExprStmt(Builtin("func", Untyped))])]))
  {
    var p := Probe([AttachPoint(ident, "", "f", 0)], NoPredicate, [ExprStmt(Builtin("func", Untyped))]);
    assert p.aps[0].provider == ident;
    assert !ProvidersValid(p.aps);
    assert StmtUsesFunc(p.stmts[0]);
    assert ProbeUsesFunc(p);
  }

  /** The same probe under a kprobe is analysed to completion, whatever else the program holds. */
  lemma FuncUnderKprobeDoesNotAbort(rest: seq<Probe>)
    requires ProbesAbortFree(rest)
    ensures AbortFree(Program([], [Probe([AttachPoint("kprobe", "", "f", 0)], NoPredicate, [ExprStmt(Builtin("func", Untyped))])] + rest))
  {
    var p := Probe([AttachPoint("kprobe", "", "f", 0)], NoPredicate, [ExprStmt(Builtin("func", Untyped))]);
    assert IsProvider("kprobe");
    assert ProvidersValid(p.aps);
    assert ([p] + rest)[1..] == rest;
  }
}
