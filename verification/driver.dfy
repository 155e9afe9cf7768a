/**
 The pass driver (`analyse`) and schema materialisation (`create_maps`).
 */
module Driver {
  import opened Types
  import opened Ast
  import opened Analyser

  /** `failedPass` is `analyse`'s return value: 0, or the 1-based number of the first failing pass. */
  datatype Outcome = Outcome(failedPass: nat, prog: Program, st: State)

  /**
   A pass over the tree: given the tree, the state the previous pass left and
   the pass number, the annotated tree and the new state.
   */
  type PassFn = (Program, State, nat) -> (Program, State)

  /**
   The analyser's pass: the visitor run with the pass number set. A program
   that would abort is left as it is; `analyse` is only ever given programs
   that do not, and the visitor keeps that property.
   */
  function AnalyserPass(env: Env): PassFn
  {
    (p: Program, s: State, k: nat) => if AbortFree(p) then VisitProgram(env, p, s.(pass := k)) else (p, s)
  }

  /** A pass never removes a diagnostic. */
  ghost predicate OnlyAppends(step: PassFn)
  {
    forall p: Program, s: State, k: nat :: s.diags <= step(p, s, k).1.diags
  }

  /** A pass keeps every value-typed map's key shape recorded. */
  ghost predicate KeepsValuesHaveKeys(step: PassFn)
  {
    forall p: Program, s: State, k: nat :: ValuesHaveKeys(s) ==> ValuesHaveKeys(step(p, s, k).1)
  }

  lemma AnalyserPassOnlyAppends(env: Env)
    ensures OnlyAppends(AnalyserPass(env))
    ensures KeepsValuesHaveKeys(AnalyserPass(env))
  {
  }

  /** Runs passes `pass`..NUM_PASSES, stopping after the first one that leaves a diagnostic. */
  function RunPasses(step: PassFn, prog: Program, st: State, pass: nat): (r: Outcome)
    requires 1 <= pass <= NUM_PASSES + 1
    requires st.diags == []
    ensures r.failedPass == 0 || pass <= r.failedPass <= NUM_PASSES
    ensures r.failedPass == 0 <==> r.st.diags == []
    decreases NUM_PASSES + 1 - pass
  {
    if pass > NUM_PASSES then Outcome(0, prog, st)
    else
      var next := step(prog, st, pass);
      if next.1.diags != [] then Outcome(pass, next.0, next.1)
      else RunPasses(step, next.0, next.1, pass + 1)
  }

  /** `analyse`: the result is 0 exactly when every pass ran without a diagnostic. */
  function Analyse(env: Env, prog: Program, structs: map<string, StructInfo>): (r: Outcome)
    requires AbortFree(prog)
    ensures r.failedPass <= NUM_PASSES
    ensures r.failedPass == 0 <==> r.st.diags == []
    ensures ValuesHaveKeys(r.st)
  {
    AnalyserPassOnlyAppends(env);
    RunPassesKeepsValuesHaveKeys(AnalyserPass(env), prog, InitialState(structs), 1);
    RunPasses(AnalyserPass(env), prog, InitialState(structs), 1)
  }

  lemma {:induction false} RunPassesKeepsValuesHaveKeys(step: PassFn, prog: Program, st: State, pass: nat)
    requires KeepsValuesHaveKeys(step)
    requires 1 <= pass <= NUM_PASSES + 1
    requires st.diags == []
    requires ValuesHaveKeys(st)
    ensures ValuesHaveKeys(RunPasses(step, prog, st, pass).st)
    decreases NUM_PASSES + 1 - pass
  {
    if pass <= NUM_PASSES {
      var next := step(prog, st, pass);
      if next.1.diags == [] {
        RunPassesKeepsValuesHaveKeys(step, next.0, next.1, pass + 1);
      }
    }
  }

  /**
   Reference semantics: the tree and state after `k` passes run
   unconditionally, whatever they report.
   */
  function Iterate(step: PassFn, prog: Program, st0: State, k: nat): (r: (Program, State))
  {
    if k == 0 then (prog, st0)
    else
      var prev := Iterate(step, prog, st0, k - 1);
      step(prev.0, prev.1, k)
  }

  /** Diagnostics are never removed, so a clean pass k means passes 1..k were all clean. */
  lemma {:induction false} IterateDiagsGrow(step: PassFn, prog: Program, st0: State, j: nat, k: nat)
    requires OnlyAppends(step)
    requires j <= k
    ensures Iterate(step, prog, st0, j).1.diags <= Iterate(step, prog, st0, k).1.diags
    decreases k - j
  {
    if j < k {
      IterateDiagsGrow(step, prog, st0, j, k - 1);
      var prev := Iterate(step, prog, st0, k - 1);
      assert prev.1.diags <= step(prev.0, prev.1, k).1.diags;
    }
  }

  /** Running from pass `pass` on agrees with the reference from that point. */
  lemma {:induction false} RunPassesMatchesIterate(step: PassFn, prog: Program, st0: State, pass: nat)
    requires 1 <= pass <= NUM_PASSES + 1
    requires Iterate(step, prog, st0, pass - 1).1.diags == []
    ensures var prev := Iterate(step, prog, st0, pass - 1);
            var r := RunPasses(step, prev.0, prev.1, pass);
            && (r.failedPass == 0 ==> Iterate(step, prog, st0, NUM_PASSES).1.diags == []
                                       && r.prog == Iterate(step, prog, st0, NUM_PASSES).0
                                       && r.st == Iterate(step, prog, st0, NUM_PASSES).1)
            && (r.failedPass != 0 ==> Iterate(step, prog, st0, r.failedPass).1.diags != []
                                       && Iterate(step, prog, st0, r.failedPass - 1).1.diags == []
                                       && r.prog == Iterate(step, prog, st0, r.failedPass).0
                                       && r.st == Iterate(step, prog, st0, r.failedPass).1)
    decreases NUM_PASSES + 1 - pass
  {
    if pass <= NUM_PASSES {
      var cur := Iterate(step, prog, st0, pass);
      if cur.1.diags == [] {
        RunPassesMatchesIterate(step, prog, st0, pass + 1);
      }
    }
  }

  /**
   For any pass that only appends diagnostics, the driver returns 0 iff all
   ten passes are clean, and otherwise the number of the first pass that
   produced a diagnostic; the tree and state it leaves are those of that pass.
   */
  lemma RunPassesReportsFirstDirtyPass(step: PassFn, prog: Program, st0: State)
    requires OnlyAppends(step)
    requires st0.diags == []
    ensures var r := RunPasses(step, prog, st0, 1);
            && (r.failedPass == 0 <==> forall k :: 1 <= k <= NUM_PASSES ==> Iterate(step, prog, st0, k).1.diags == [])
            && (r.failedPass != 0 ==>
                  && Iterate(step, prog, st0, r.failedPass).1.diags != []
                  && forall k :: 1 <= k < r.failedPass ==> Iterate(step, prog, st0, k).1.diags == [])
            && r.st == Iterate(step, prog, st0, if r.failedPass == 0 then NUM_PASSES else r.failedPass).1
  {
    var r := RunPasses(step, prog, st0, 1);
    RunPassesMatchesIterate(step, prog, st0, 1);
    if r.failedPass == 0 {
      forall k | 1 <= k <= NUM_PASSES
        ensures Iterate(step, prog, st0, k).1.diags == []
      {
        IterateDiagsGrow(step, prog, st0, k, NUM_PASSES);
      }
    } else {
      forall k | 1 <= k < r.failedPass
        ensures Iterate(step, prog, st0, k).1.diags == []
      {
        IterateDiagsGrow(step, prog, st0, k, r.failedPass - 1);
      }
    }
  }

  /** `analyse` reports the first of the ten analyser passes that leaves a diagnostic. */
  lemma AnalyseReportsFirstDirtyPass(env: Env, prog: Program, structs: map<string, StructInfo>)
    requires AbortFree(prog)
    ensures var r := Analyse(env, prog, structs);
            var step := AnalyserPass(env);
            var st0 := InitialState(structs);
            && (r.failedPass == 0 <==> forall k :: 1 <= k <= NUM_PASSES ==> Iterate(step, prog, st0, k).1.diags == [])
            && (r.failedPass != 0 ==>
                  && Iterate(step, prog, st0, r.failedPass).1.diags != []
                  && forall k :: 1 <= k < r.failedPass ==> Iterate(step, prog, st0, k).1.diags == [])
            && r.st == Iterate(step, prog, st0, if r.failedPass == 0 then NUM_PASSES else r.failedPass).1
  {
    AnalyserPassOnlyAppends(env);
    RunPassesReportsFirstDirtyPass(AnalyserPass(env), prog, InitialState(structs));
  }

  /** A map object handed to the runtime: name, value type and key shape. */
  datatype UserMap = UserMap(name: string, value: SizedType, key: MapKey)

  /** The implicit maps: stack traces (only when needed) and perf-event output (always). */
  datatype SystemMap = StackTraceMap | PerfEventArrayMap

  /** `fake`: every map is built in the simulated mode (`debug`). */
  datatype Maps = Maps(fake: bool, user: map<string, UserMap>, system: set<SystemMap>)

  /** `create_maps`: a value type without a key shape aborts, hence the requirement. */
  function CreateMaps(st: State, debug: bool): (r: Maps)
    requires ValuesHaveKeys(st)
    ensures r.fake == debug
    ensures r.user.Keys == st.mapVal.Keys
    ensures forall n :: n in r.user ==>
      r.user[n].name == n && r.user[n].value == st.mapVal[n] && r.user[n].key == st.mapKey[n]
    ensures PerfEventArrayMap in r.system
    ensures StackTraceMap in r.system <==> st.needsStackidMap
  {
    var user := map n | n in st.mapVal :: UserMap(n, st.mapVal[n], st.mapKey[n]);
    var system := if st.needsStackidMap then {StackTraceMap, PerfEventArrayMap} else {PerfEventArrayMap};
    Maps(debug, user, system)
  }

  /** The `abort()` in `create_maps` is unreachable after any analysis, successful or not. */
  lemma CreateMapsNeverAborts(env: Env, prog: Program, structs: map<string, StructInfo>, k: nat)
    requires AbortFree(prog)
    ensures ValuesHaveKeys(Analyse(env, prog, structs).st)
    ensures ValuesHaveKeys(Iterate(AnalyserPass(env), prog, InitialState(structs), k).1)
  {
    AnalyserPassOnlyAppends(env);
    IterateKeepsValuesHaveKeys(AnalyserPass(env), prog, InitialState(structs), k);
  }

  lemma {:induction false} IterateKeepsValuesHaveKeys(step: PassFn, prog: Program, st0: State, k: nat)
    requires KeepsValuesHaveKeys(step)
    requires ValuesHaveKeys(st0)
    ensures ValuesHaveKeys(Iterate(step, prog, st0, k).1)
  {
    if k > 0 {
      IterateKeepsValuesHaveKeys(step, prog, st0, k - 1);
    }
  }
}
