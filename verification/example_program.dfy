/**
 An end-to-end run of the analyser and `create_maps` on the program
 `kprobe:f { @x = count(); }`: all ten passes are clean, and the runtime is
 handed the probe once and one map `@x` of count/8 values with the empty key.
 */
module ExampleProgram {
  import opened Types
  import opened Ast
  import opened Analyser
  import opened Driver
  import ExprProperties

  /** The statement `@x = count();`, with the annotations a previous pass left on its nodes. */
  function CountStmt(mapTy: SizedType, callTy: SizedType): Stmt
  {
    AssignMap(MapNode("x", [], mapTy), Call("count", [], true, false, callTy))
  }

  function CountProbe(mapTy: SizedType, callTy: SizedType): Probe
  {
    Probe([AttachPoint("kprobe", "", "f", 0)], NoPredicate, [CountStmt(mapTy, callTy)])
  }

  /** `kprobe:f { @x = count(); }`. */
  function CountProgram(mapTy: SizedType, callTy: SizedType): Program
  {
    Program([], [CountProbe(mapTy, callTy)])
  }

  /** No map has been seen. */
  predicate NoMaps(st: State)
  {
    st.mapKey == map[] && st.mapVal == map[]
  }

  /** `@x` is recorded with the empty key and count/8 values, and nothing else is. */
  predicate XRecorded(st: State)
  {
    st.mapKey == map["x" := MapKey([])] && st.mapVal == map["x" := Sized(Count, 8)]
  }

  /**
   The statement is clean on the first pass, when no map is known yet, and
   on every later one; it records `@x` and annotates the map node with the
   value type recorded before it (none/0 on the first pass).
   */
  lemma CountStmtClean(env: Env, mapTy: SizedType, callTy: SizedType, st: State)
    requires st.diags == []
    requires (NoMaps(st) && !IsFinalPass(st)) || XRecorded(st)
    ensures !StmtUsesFunc(CountStmt(mapTy, callTy))
    ensures var r := VisitStmt(env, CountStmt(mapTy, callTy), st);
            && r.0 == CountStmt(if XRecorded(st) then Sized(Count, 8) else Untyped, Sized(Count, 8))
            && r.1.diags == [] && XRecorded(r.1)
  {
    var m := MapNode("x", [], mapTy);
    var e := Call("count", [], true, false, callTy);
    ExprProperties.ScalarVisitMap(env, "x", mapTy, st);
    ExprProperties.CountRules(env, true, false, callTy, st);
    assert !UsesFunc(e);
    var st1 := RecordKey("x", MapKey([]), st);
    assert st1.diags == [] && st1.mapKey == map["x" := MapKey([])] && st1.mapVal == st.mapVal;
    var r1 := VisitMap(env, m, st);
    assert r1.1 == st1;
    ExprProperties.CountRules(env, true, false, callTy, st1);
    var r2 := VisitExpr(env, e, st1);
    assert st1.diags + [] == st1.diags;
    assert r2 == (Call("count", [], true, false, Sized(Count, 8)), st1);
    var rv := RecordValue(MapSlot, st1.mapVal, "x", Sized(Count, 8), IsFinalPass(st1));
    assert rv == (map["x" := Sized(Count, 8)], []);
    assert VisitStmt(env, CountStmt(mapTy, callTy), st) == VisitAssignMap(env, m, e, st);
  }

  /** The attach point `kprobe:f` is well formed and changes nothing. */
  lemma KprobeAttachPointClean(st: State)
    ensures VisitAttachPoints([AttachPoint("kprobe", "", "f", 0)], st) == st
  {
    var ap := AttachPoint("kprobe", "", "f", 0);
    assert ShapeDiags(ap) == [];
    assert st.diags + [] == st.diags;
    assert VisitAttachPoint(ap, st) == st;
    assert [ap][1..] == [];
    assert VisitAttachPoints([ap], st) == VisitAttachPoints([], VisitAttachPoint(ap, st));
  }

  /** The probe body: its one statement, visited as a list. */
  lemma CountStmtsClean(env: Env, mapTy: SizedType, callTy: SizedType, st: State)
    requires st.diags == []
    requires (NoMaps(st) && !IsFinalPass(st)) || XRecorded(st)
    ensures !AnyStmtUsesFunc([CountStmt(mapTy, callTy)])
    ensures var r := VisitStmts(env, [CountStmt(mapTy, callTy)], st);
            && r.0 == [CountStmt(if XRecorded(st) then Sized(Count, 8) else Untyped, Sized(Count, 8))]
            && r.1 == VisitStmt(env, CountStmt(mapTy, callTy), st).1
  {
    var s := CountStmt(mapTy, callTy);
    CountStmtClean(env, mapTy, callTy, st);
    assert [s][1..] == [];
    assert !AnyStmtUsesFunc([s]);
    var r := VisitStmt(env, s, st);
    assert VisitStmts(env, [], r.1) == ([], r.1);
    assert VisitStmts(env, [s], st) == ([r.0] + [], r.1);
    assert [r.0] + [] == [r.0];
  }

  /** The probe: its attach point is well formed and its statement clean; the final pass hands it over. */
  lemma CountProbeClean(env: Env, mapTy: SizedType, callTy: SizedType, st: State)
    requires st.diags == []
    requires (NoMaps(st) && !IsFinalPass(st)) || XRecorded(st)
    ensures ProbeAbortFree(CountProbe(mapTy, callTy))
    ensures var r := VisitProbe(env, CountProbe(mapTy, callTy), st);
            var p1 := CountProbe(if XRecorded(st) then Sized(Count, 8) else Untyped, Sized(Count, 8));
            && r.0 == p1
            && r.1.diags == [] && XRecorded(r.1) && r.1.pass == st.pass
            && r.1.probes == st.probes + (if IsFinalPass(st) then [p1] else [])
  {
    var p := CountProbe(mapTy, callTy);
    var st0 := st.(varVal := map[], probeAps := p.aps);
    KprobeAttachPointClean(st0);
    CountStmtsClean(env, mapTy, callTy, st0);
    CountStmtClean(env, mapTy, callTy, st0);
    assert !ProbeUsesFunc(p);
  }

  /** One pass over the program, from the state the previous pass left. */
  lemma CountProgramPass(env: Env, mapTy: SizedType, callTy: SizedType, st: State)
    requires st.diags == []
    requires (NoMaps(st) && !IsFinalPass(st)) || XRecorded(st)
    ensures AbortFree(CountProgram(mapTy, callTy))
    ensures var r := VisitProgram(env, CountProgram(mapTy, callTy), st);
            var p1 := CountProbe(if XRecorded(st) then Sized(Count, 8) else Untyped, Sized(Count, 8));
            && r.0 == Program([], [p1])
            && r.1.diags == [] && XRecorded(r.1) && r.1.pass == st.pass
            && r.1.probes == st.probes + (if IsFinalPass(st) then [p1] else [])
  {
    var p := CountProbe(mapTy, callTy);
    CountProbeClean(env, mapTy, callTy, st);
    assert [p][1..] == [];
    var r := VisitProbe(env, p, st);
    assert VisitProbes(env, [], r.1) == ([], r.1);
    assert VisitProbes(env, [p], st) == ([r.0] + [], r.1);
    assert [r.0] + [] == [r.0];
  }

  /**
   After `k` passes the program is clean, `@x` is recorded (from the first
   pass on), the tree carries the annotations of the last pass, and the
   probe has been handed over exactly when the final pass has run.
   */
  lemma {:induction false} CountProgramIterate(env: Env, structs: map<string, StructInfo>, mapTy: SizedType, callTy: SizedType, k: nat)
    requires k <= NUM_PASSES
    ensures var it := Iterate(AnalyserPass(env), CountProgram(mapTy, callTy), InitialState(structs), k);
            && it.1.diags == []
            && (k == 0 ==> NoMaps(it.1) && it.1.probes == [] && it.0 == CountProgram(mapTy, callTy))
            && (k == 1 ==> it.0 == CountProgram(Untyped, Sized(Count, 8)))
            && (k >= 2 ==> it.0 == CountProgram(Sized(Count, 8), Sized(Count, 8)))
            && (k > 0 ==> XRecorded(it.1) && it.1.pass == k)
            && it.1.probes == (if k == NUM_PASSES then [CountProbe(Sized(Count, 8), Sized(Count, 8))] else [])
  {
    if k > 0 {
      CountProgramIterate(env, structs, mapTy, callTy, k - 1);
      var prev := Iterate(AnalyserPass(env), CountProgram(mapTy, callTy), InitialState(structs), k - 1);
      var t1 := if k == 1 then mapTy else if k == 2 then Untyped else Sized(Count, 8);
      var t2 := if k == 1 then callTy else Sized(Count, 8);
      assert prev.0 == CountProgram(t1, t2);
      var st := prev.1.(pass := k);
      CountProgramPass(env, t1, t2, st);
      assert AnalyserPass(env)(prev.0, prev.1, k) == VisitProgram(env, prev.0, st);
      assert Iterate(AnalyserPass(env), CountProgram(mapTy, callTy), InitialState(structs), k)
          == VisitProgram(env, prev.0, st);
      assert IsFinalPass(st) <==> k == NUM_PASSES;
    }
  }

  /** `analyse` returns 0 for the program and leaves `@x` recorded and the probe handed over once. */
  lemma CountProgramAnalysesClean(env: Env, structs: map<string, StructInfo>, mapTy: SizedType, callTy: SizedType)
    ensures AbortFree(CountProgram(mapTy, callTy))
    ensures var r := Analyse(env, CountProgram(mapTy, callTy), structs);
            && r.failedPass == 0
            && XRecorded(r.st)
            && r.st.probes == [CountProbe(Sized(Count, 8), Sized(Count, 8))]
  {
    CountProgramPass(env, mapTy, callTy, InitialState(structs).(pass := 1));
    var step := AnalyserPass(env);
    var st0 := InitialState(structs);
    forall k | 1 <= k <= NUM_PASSES
      ensures Iterate(step, CountProgram(mapTy, callTy), st0, k).1.diags == []
    {
      CountProgramIterate(env, structs, mapTy, callTy, k);
    }
    CountProgramIterate(env, structs, mapTy, callTy, NUM_PASSES);
    AnalyseReportsFirstDirtyPass(env, CountProgram(mapTy, callTy), structs);
  }

  /** `create_maps` then builds exactly one user map, `@x`. */
  lemma CountProgramMaps(env: Env, structs: map<string, StructInfo>, mapTy: SizedType, callTy: SizedType, debug: bool)
    ensures AbortFree(CountProgram(mapTy, callTy))
    ensures ValuesHaveKeys(Analyse(env, CountProgram(mapTy, callTy), structs).st)
    ensures CreateMaps(Analyse(env, CountProgram(mapTy, callTy), structs).st, debug).user ==
              map["x" := UserMap("x", Sized(Count, 8), MapKey([]))]
  {
    CountProgramAnalysesClean(env, structs, mapTy, callTy);
    XRecordedMaps(Analyse(env, CountProgram(mapTy, callTy), structs).st, debug);
  }

  lemma XRecordedMaps(st: State, debug: bool)
    requires XRecorded(st)
    ensures ValuesHaveKeys(st)
    ensures CreateMaps(st, debug).user == map["x" := UserMap("x", Sized(Count, 8), MapKey([]))]
  {
    assert CreateMaps(st, debug).user.Keys == {"x"};
  }
}
