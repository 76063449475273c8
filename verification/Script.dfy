/**
 Complex values end to end: compile a template once, evaluate it in any session.
 */
module Script {
  import opened Bytes
  import opened Template
  import opened Variables
  import opened ScriptCode
  import opened ScriptRun
  import opened ScriptCompile
  import opened ScriptCompiler

  /** ngx_nsoc_complex_value_t; without streams the text stands for itself. */
  datatype ComplexValue = ComplexValue(value: seq<byte>, flushes: Option<seq<int>>, lengths: Option<Memory>, values: Memory)

  /** The scan that counts variables and captures before anything is compiled. */
  method Scan(t: seq<byte>, after: byte) returns (nv: nat, nc: nat)
    ensures nv == CountVariables(t, after)
    ensures nv + nc == CountDollars(t)
  {
    nv, nc := 0, 0;
    assert t[0..] == t;
    for i := 0 to |t|
      invariant nv + CountVariables(t[i..], after) == CountVariables(t, after)
      invariant nv + nc + CountDollars(t[i..]) == CountDollars(t)
    {
      assert t[i..][1..] == t[i + 1..];
      if t[i] == DOLLAR {
        var next := if i + 1 < |t| then t[i + 1] else after;
        if 49 <= next <= 57 {
          nc := nc + 1;
        } else {
          nv := nv + 1;
        }
      }
    }
  }

  // ----- The variables of a template

  /** Their indices, in the order of the template. */
  function VariablesOf(ps: seq<Piece>, names: seq<seq<byte>>): (list: seq<nat>) {
    if ps == [] then []
    else
      var p := ps[|ps| - 1];
      VariablesOf(ps[..|ps| - 1], names) + if p.Variable? then [IndexOf(names, Lower(p.name))] else []
  }

  lemma {:induction false} VariablesCount(ps: seq<Piece>, names: seq<seq<byte>>)
    ensures |VariablesOf(ps, names)| == VariablePieces(ps)
  {
    if ps != [] {
      VariablesCount(ps[..|ps| - 1], names);
      VariablePiecesPush(ps[..|ps| - 1], ps[|ps| - 1]);
      assert ps == ps[..|ps| - 1] + [ps[|ps| - 1]];
    }
  }

  lemma {:induction false} VariablePiecesPush(ps: seq<Piece>, p: Piece)
    ensures VariablePieces(ps + [p]) == VariablePieces(ps) + if p.Variable? then 1 else 0
  {
    if ps == [] {
      assert [p][1..] == [];
    } else {
      VariablePiecesPush(ps[1..], p);
      assert (ps + [p])[1..] == ps[1..] + [p];
    }
  }

  /** The program reads exactly those, in that order. */
  lemma {:induction false} OpsRead(ps: seq<Piece>, names: seq<seq<byte>>)
    ensures Flushes(Ops(ps, names)) == VariablesOf(ps, names)
  {
    var ops := Ops(ps, names);
    if ps != [] {
      var init, last := ps[..|ps| - 1], ps[|ps| - 1];
      OpsRead(init, names);
      assert ops[..|ps| - 1] == Ops(init, names) && ops[|ps| - 1] == Resolve(last, names);
    }
  }

  lemma FinalOpsRead(ps: seq<Piece>, names: seq<seq<byte>>, zero: bool)
    ensures Flushes(FinalOps(ps, names, zero)) == VariablesOf(ps, names)
  {
    OpsRead(ps, names);
    if zero {
      if ps != [] && ps[|ps| - 1].Literal? {
        var init, last := ps[..|ps| - 1], ps[|ps| - 1];
        OpsRead(init, names);
        FlushesPush(Ops(init, names), Copy(last.text + [0]));
        assert VariablesOf(ps, names) == VariablesOf(init, names) + [];
      } else {
        FlushesPush(Ops(ps, names), Copy([0]));
        assert VariablesOf(ps, names) + [] == VariablesOf(ps, names);
      }
    }
  }

  /** Exactly one index is pushed for each variable of the template. */
  lemma FinalFlushesCount(ps: seq<Piece>, names: seq<seq<byte>>, zero: bool)
    ensures |Flushes(FinalOps(ps, names, zero))| == VariablePieces(ps)
  {
    FinalOpsRead(ps, names, zero);
    VariablesCount(ps, names);
  }

  lemma {:induction false} FlushesBelow(ops: seq<Op>, bound: nat)
    requires forall i | 0 <= i < |ops| && ops[i].Var? :: ops[i].index < bound
    ensures forall k | 0 <= k < |Flushes(ops)| :: Flushes(ops)[k] < bound
  {
    if ops != [] {
      FlushesBelow(ops[..|ops| - 1], bound);
    }
  }

  lemma FinalFlushesBelow(ps: seq<Piece>, names: seq<seq<byte>>, zero: bool)
    requires Known(ps, names)
    ensures forall k | 0 <= k < |Flushes(FinalOps(ps, names, zero))| :: Flushes(FinalOps(ps, names, zero))[k] < |names|
  {
    var ops := FinalOps(ps, names, zero);
    forall i | 0 <= i < |ops| && ops[i].Var?
      ensures ops[i].index < |names|
    {
      assert ops[i] == Resolve(ps[i], names);
      IndexOfIsFirst(names, Lower(ps[i].name));
    }
    FlushesBelow(ops, |names|);
  }

  /** The list as it is stored: nothing, or the indices and the terminator. */
  function FlushList(ops: seq<Op>): Option<seq<int>> {
    var list: seq<int> := Flushes(ops);
    if list == [] then None else Some(list + [-1])
  }

  // ----- Compiling

  ghost predicate Compiled(cv: ComplexValue, t: seq<byte>, zero: bool, names: seq<seq<byte>>) {
    && cv.value == t
    && if CountDollars(t) == 0 then cv.lengths.None?
       else
         && Pieces(t).Some?
         && Known(Pieces(t).value, names)
         && var ops := FinalOps(Pieces(t).value, names, zero);
         && cv.lengths == Some(LenStream(ops))
         && cv.values == ValueStream(ops)
         && cv.flushes == FlushList(ops)
  }

  /**
   ngx_nsoc_compile_complex_value: succeeds exactly on well-formed templates, and the list of
   variables to flush with its terminator fills exactly the slots the scan reserved.
   */
  method CompileComplexValue(t: seq<byte>, zero: bool, names: seq<seq<byte>>, after: byte)
    returns (cv: Option<ComplexValue>, table: seq<seq<byte>>)
    ensures names <= table
    ensures cv.Some? <==> Pieces(t).Some?
    ensures cv.Some? ==> Compiled(cv.value, t, zero, table)
    ensures cv.Some? && cv.value.flushes.Some? ==> |cv.value.flushes.value| == CountVariables(t, after) + 1
  {
    var nv, nc := Scan(t, after);
    if nv == 0 && nc == 0 {
      PlainTextHasPieces(t);
      return Some(ComplexValue(t, None, None, [])), names;
    }
    var sc := new Compiler(t, zero, names);
    var ok := sc.Compile();
    table := sc.names;
    if !ok {
      return None, table;
    }
    ScanAgrees(t, after);
    FinalFlushesCount(Pieces(t).value, table, zero);
    var list: seq<int> := sc.flushes;
    cv := Some(ComplexValue(t, if list == [] then None else Some(list + [-1]), Some(sc.lengths), sc.values));
  }

  lemma PlainTextHasPieces(t: seq<byte>)
    requires CountDollars(t) == 0
    ensures Pieces(t).Some?
  {
    var env := Env(_ => [], _ => []);
    PlainText(t, env);
    PiecesMean(t, env);
  }

  // ----- Evaluating

  /** What was cached, and not marked for a fresh answer, has stayed. */
  ghost predicate CacheKept(before: seq<Entry>, after: seq<Entry>) {
    && |after| == |before|
    && forall i | 0 <= i < |before| :: Cached(before[i]) && !before[i].noCacheable ==> after[i] == before[i]
  }

  /** The variables a template mentions; none if it is malformed. */
  ghost function Mentioned(t: seq<byte>, names: seq<seq<byte>>): seq<nat> {
    if Pieces(t).Some? then VariablesOf(Pieces(t).value, names) else []
  }

  /**
   How an evaluation leaves the cache: the listed variables are flushed, then the handlers of those
   without a cached value are called, once each and in order, and every listed variable is settled.
   */
  ghost predicate Evaluated(before: Cache, after: Cache, rules: Rules, list: seq<nat>)
    requires |rules.flags| == |before.vars|
  {
    && Answering(Cache(FlushAll(before.vars, list, |list|), before.calls), after, rules.depth, rules.handler, rules.flags, list)
    && (forall i | i in list :: Settled(after.vars, rules.depth, i))
    && CacheKept(before.vars, after.vars)
  }

  /**
   ngx_nsoc_complex_value: the result is the template with its variables replaced by what the cache
   then holds, and the cache then holds what was cached before or, where nothing was or a fresh answer
   is due, what the handler of the variable has answered to this evaluation.
   */
  method Evaluate(s: Session, cv: ComplexValue, ghost t: seq<byte>, ghost zero: bool, ghost names: seq<seq<byte>>)
    returns (value: seq<byte>)
    requires s.Valid() && |names| <= |s.variables| && Compiled(cv, t, zero, names)
    modifies s`variables, s`calls, s`depth
    ensures s.Valid() && s.depth == old(s.depth)
    ensures Evaluated(old(CacheOf(s)), CacheOf(s), RulesOf(s), Mentioned(t, names))
    ensures var r := Substitute(t, EnvOf(ViewOf(s), names));
            r.Some? && value == r.value + if zero && CountDollars(t) > 0 then [0] else []
  {
    if cv.lengths.None? {
      PlainText(t, EnvOf(ViewOf(s), names));
      PlainTextMentionsNothing(t, names);
      NothingEvaluated(CacheOf(s), RulesOf(s));
      value := cv.value;
    } else {
      value := EvaluateStreams(s, cv, Pieces(t).value, zero, names);
      PiecesMean(t, EnvOf(ViewOf(s), names));
    }
  }

  lemma NothingEvaluated(before: Cache, rules: Rules)
    requires |rules.flags| == |before.vars|
    ensures Evaluated(before, before, rules, [])
  {
    EvaluatedFrom(before, before, before, rules, []);
  }

  lemma PlainTextMentionsNothing(t: seq<byte>, names: seq<seq<byte>>)
    requires CountDollars(t) == 0
    ensures Mentioned(t, names) == []
  {
    PlainTextHasPieces(t);
    ScanAgrees(t, 0);
    VariablesCount(Pieces(t).value, names);
    ExpansionsCoverVariables(Pieces(t).value);
  }

  lemma {:induction false} ExpansionsCoverVariables(ps: seq<Piece>)
    ensures VariablePieces(ps) <= ExpansionPieces(ps)
  {
    if ps != [] {
      ExpansionsCoverVariables(ps[1..]);
    }
  }

  method EvaluateStreams(s: Session, cv: ComplexValue, ghost ps: seq<Piece>, ghost zero: bool, ghost names: seq<seq<byte>>)
    returns (value: seq<byte>)
    requires s.Valid() && |names| <= |s.variables| && Known(ps, names)
    requires var ops := FinalOps(ps, names, zero);
             && cv.lengths == Some(LenStream(ops))
             && cv.values == ValueStream(ops)
             && cv.flushes == FlushList(ops)
    modifies s`variables, s`calls, s`depth
    ensures s.Valid() && s.depth == old(s.depth)
    ensures Evaluated(old(CacheOf(s)), CacheOf(s), RulesOf(s), VariablesOf(ps, names))
    ensures value == Render(ps, EnvOf(ViewOf(s), names)) + Ending(zero)
  {
    ghost var ops, list, before := FinalOps(ps, names, zero), VariablesOf(ps, names), CacheOf(s);
    FinalOpsRead(ps, names, zero);
    FlushFirst(s, cv.flushes, ps, zero, names);
    ghost var flushed := CacheOf(s);
    value := RunBoth(s, cv.lengths.value, cv.values, ops);
    EvaluatedFrom(before, flushed, CacheOf(s), RulesOf(s), list);
    FinalOpsRender(ps, names, zero, ViewOf(s), EnvOf(ViewOf(s), names));
  }

  /** Flushing comes first, if there is anything to flush. */
  method FlushFirst(s: Session, flushes: Option<seq<int>>, ghost ps: seq<Piece>, ghost zero: bool, ghost names: seq<seq<byte>>)
    requires s.Valid() && |names| <= |s.variables| && Known(ps, names)
    requires flushes == FlushList(FinalOps(ps, names, zero))
    modifies s`variables
    ensures s.Valid()
    ensures var list := VariablesOf(ps, names);
            s.variables == FlushAll(old(s.variables), list, |list|)
  {
    FinalOpsRead(ps, names, zero);
    if flushes.Some? {
      FinalFlushesBelow(ps, names, zero);
      s.Flush(flushes.value, Flushes(FinalOps(ps, names, zero)));
    }
  }

  lemma EvaluatedFrom(before: Cache, flushed: Cache, after: Cache, rules: Rules, list: seq<nat>)
    requires |rules.flags| == |before.vars|
    requires flushed == Cache(FlushAll(before.vars, list, |list|), before.calls)
    requires Answering(flushed, after, rules.depth, rules.handler, rules.flags, list)
    ensures Evaluated(before, after, rules, list)
  {
    forall i | i in list
      ensures Settled(after.vars, rules.depth, i)
    {
      AnsweringSettles(flushed, after, rules.depth, rules.handler, rules.flags, list, i);
    }
    AskersAre(flushed.vars, rules.depth, list);
    forall i | 0 <= i < |before.vars| && Cached(before.vars[i]) && !before.vars[i].noCacheable
      ensures after.vars[i] == before.vars[i]
    {
      FlushEffect(before.vars, list, |list|, i);
      assert i !in Askers(flushed.vars, rules.depth, list);
    }
  }

  /** Both passes over one session: the buffer is as long as the first pass says, and the second fills it. */
  method RunBoth(s: Session, lengths: Memory, values: Memory, ghost ops: seq<Op>) returns (value: seq<byte>)
    requires s.Valid() && lengths == LenStream(ops) && values == ValueStream(ops)
    modifies s`variables, s`calls, s`depth
    ensures s.Valid() && s.depth == old(s.depth)
    ensures Answering(old(CacheOf(s)), CacheOf(s), s.depth, s.handler, s.flags, Flushes(ops))
    ensures value == Output(ops, ViewOf(s), |ops|)
  {
    StreamIsProgram(LenCodes(ops));
    StreamIsProgram(ValueCodes(ops));
    assert ops[..|ops|] == ops;
    var len := RunLengths(s, lengths, ops, Offsets(LenCodes(ops)));
    var buf := new byte[len];
    RunValues(s, values, buf, ops, Offsets(ValueCodes(ops)));
    value := buf[..];
  }

  // ----- A failed variable, evaluated twice

  /** "$a" */
  const DOLLAR_A: seq<byte> := [DOLLAR, 97]

  lemma DollarA(names: seq<seq<byte>>, env: Env)
    ensures Pieces(DOLLAR_A) == Some([Variable([97])]) && CountDollars(DOLLAR_A) == 1
    ensures Mentioned(DOLLAR_A, names) == [IndexOf(names, Lower([97]))]
    ensures Substitute(DOLLAR_A, env) == Some(env.variable([97]))
  {
    var t := DOLLAR_A;
    var rest := t[1..];
    assert rest == [97] && rest[1..] == [] && t[2..] == [];
    assert NameLen(rest) == 1 + NameLen(rest[1..]);
    assert t[1..2] == [97];
    assert Expansion(t) == Some(Head(Variable([97]), 2));
    assert Pieces(t[2..]) == Some([]);
    var p := Variable([97]);
    assert Pieces(t) == Some([p] + []);
    assert [p] + [] == [p] && [p][..0] == [];
    assert VariablesOf([p], names) == VariablesOf([p][..0], names) + [IndexOf(names, Lower([97]))];
    assert CountDollars(rest[1..]) == 0 && CountDollars(rest) == 0;
    assert Substitute(t[2..], env) == Some([]);
    assert env.variable([97]) + [] == env.variable([97]);
  }

  /** An evaluation that mentions one variable. */
  lemma OneMentioned(before: Cache, after: Cache, rules: Rules, i: nat)
    requires |rules.flags| == |before.vars| && i < |before.vars| && rules.depth > 0
    requires Evaluated(before, after, rules, [i])
    ensures |after.vars| == |before.vars|
    ensures var e := Flushed(before.vars[i]);
            if Cached(e) then after.vars[i] == e && after.calls == before.calls
            else after.vars[i] == Answered(e, rules.handler(i, before.calls), rules.flags[i]) && after.calls == before.calls + 1
  {
    var list := [i];
    var flushed := Cache(FlushAll(before.vars, list, |list|), before.calls);
    FlushEffect(before.vars, list, |list|, i);
    assert list[..1] == list && list[..0] == [];
    var asked := Askers(flushed.vars, rules.depth, list);
    assert Askers(flushed.vars, rules.depth, list[..0]) == [];
    if !Cached(flushed.vars[i]) {
      assert asked == [i];
      assert HoldsAnswer(flushed, after, rules.handler, rules.flags, asked[0], before.calls + 0);
    }
  }

  /** Evaluating "$a" in any session. */
  method EvaluateDollarA(s: Session, cv: ComplexValue, ghost names: seq<seq<byte>>, ghost i: nat) returns (value: seq<byte>)
    requires s.Valid() && s.depth > 0 && |names| <= |s.variables| && Compiled(cv, DOLLAR_A, false, names)
    requires i == IndexOf(names, Lower([97])) < |names|
    modifies s`variables, s`calls, s`depth
    ensures s.Valid() && s.depth == old(s.depth) && value == Text(s.variables, i)
    ensures var e := Flushed(old(s.variables)[i]);
            if Cached(e) then s.variables[i] == e && s.calls == old(s.calls)
            else s.variables[i] == Answered(e, s.handler(i, old(s.calls)), s.flags[i]) && s.calls == old(s.calls) + 1
  {
    ghost var before := CacheOf(s);
    value := Evaluate(s, cv, DOLLAR_A, false, names);
    DollarA(names, EnvOf(ViewOf(s), names));
    OneMentioned(before, CacheOf(s), RulesOf(s), i);
  }

  /** The variables whose handlers an evaluation of a template with these variables asks. */
  ghost function AskedBy(before: Cache, rules: Rules, list: seq<nat>): seq<nat> {
    Askers(FlushAll(before.vars, list, |list|), rules.depth, list)
  }

  /** The cache over any sequence of evaluations, of templates with the variables `lists`. */
  ghost predicate Evaluations(run: seq<Cache>, rules: Rules, lists: seq<seq<nat>>) {
    && |run| == |lists| + 1
    && (forall k | 0 <= k < |run| :: |run[k].vars| == |rules.flags|)
    && forall k | 0 <= k < |lists| :: Evaluated(run[k], run[k + 1], rules, lists[k])
  }

  /** A listed variable is asked exactly when it has no cached value or one that is marked. */
  lemma AskedIfMarked(before: Cache, rules: Rules, list: seq<nat>, i: nat)
    requires i < |before.vars|
    ensures i in AskedBy(before, rules, list) <==>
            i in list && rules.depth > 0 && (!Cached(before.vars[i]) || before.vars[i].noCacheable)
  {
    FlushEffect(before.vars, list, |list|, i);
    AskersAre(FlushAll(before.vars, list, |list|), rules.depth, list);
    assert list[..|list|] == list;
  }

  lemma {:induction false} KeptThroughout(run: seq<Cache>, rules: Rules, lists: seq<seq<nat>>, i: nat, k: nat)
    requires Evaluations(run, rules, lists) && i < |rules.flags| && k <= |lists|
    requires Cached(run[0].vars[i]) && !run[0].vars[i].noCacheable
    ensures run[k].vars[i] == run[0].vars[i]
    decreases k
  {
    if k > 0 {
      KeptThroughout(run, rules, lists, i, k - 1);
      assert Evaluated(run[k - 1], run[k], rules, lists[k - 1]);
    }
  }

  /**
   A variable whose handler has failed, over any sequence of evaluations the first of which mentions it:
   its handler is never asked again exactly when the entry was not marked before or the handler took the
   mark off.
   */
  lemma NeverAskedAgain(run: seq<Cache>, rules: Rules, lists: seq<seq<nat>>, i: nat, e: Entry, cleared: bool)
    requires Evaluations(run, rules, lists) && i < |rules.flags| && !Cached(e)
    requires run[0].vars[i] == Answered(e, Failure(cleared), rules.flags[i])
    requires |lists| > 0 && i in lists[0] && rules.depth > 0
    ensures (forall k | 0 <= k < |lists| :: i !in AskedBy(run[k], rules, lists[k])) <==> !e.noCacheable || cleared
  {
    if !e.noCacheable || cleared {
      forall k | 0 <= k < |lists| ensures i !in AskedBy(run[k], rules, lists[k]) {
        KeptThroughout(run, rules, lists, i, k);
        AskedIfMarked(run[k], rules, lists[k], i);
      }
    } else {
      AskedIfMarked(run[0], rules, lists[0], i);
    }
  }

  /**
   A no-cacheable variable whose handler fails on the first call and would answer from then on: the
   second evaluation does not ask, and the value stays empty.
   */
  method FailOnce() returns (first: seq<byte>, second: seq<byte>, asked: nat)
    ensures first == second == [] && asked == 1
  {
    var cv, table := CompileComplexValue(DOLLAR_A, false, [], 0);
    DollarA(table, Env(_ => [], _ => []));
    ghost var i := IndexOf(table, Lower([97]));
    IndexOfIsFirst(table, Lower([97]));
    var s := new Session(seq(|table|, _ => true), 1, (_, k) => if k == 0 then Failure(false) else Found([65]), [], 0, []);
    first := EvaluateDollarA(s, cv.value, table, i);
    second := EvaluateDollarA(s, cv.value, table, i);
    asked := s.calls;
  }
}
