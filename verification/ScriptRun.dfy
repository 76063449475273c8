/**
 Evaluation in two passes over a session: the lengths stream sizes the buffer,
 the values stream fills it.
 */
module ScriptRun {
  import opened Bytes
  import opened Variables
  import opened ScriptCode

  ghost function ViewOf(s: Session): View
    reads s
  {
    View(s.variables, s.captures, s.ncaptures, s.capturesData)
  }

  ghost function CacheOf(s: Session): Cache
    reads s
  {
    Cache(s.variables, s.calls)
  }

  /** The code functions of the lengths stream. */
  method LenStep(s: Session, mem: Memory, ip: nat, ghost op: Op) returns (n: nat, next: nat)
    requires s.Valid() && InstructionAt(mem, LenCode(op), ip, ip + 16)
    modifies s`variables, s`calls, s`depth
    ensures s.Valid() && s.depth == old(s.depth)
    ensures next == ip + 16
    ensures n == |Worth(op, ViewOf(s))|
    ensures if op.Var? then Looked(old(CacheOf(s)), CacheOf(s), s.depth, s.handler, s.flags, op.index)
            else CacheOf(s) == old(CacheOf(s))
  {
    assert mem[ip] == LenCode(op)[0] && mem[ip + 8] == LenCode(op)[8];
    var code, operand := WordAt(mem, ip), WordAt(mem, ip + 8);
    next := ip + 16;
    if code == COPY_LEN_CODE {
      n := operand;
    } else if code == VAR_LEN_CODE {
      var value := s.GetIndexedVariable(operand);
      n := if value.Some? && !value.value.notFound then |value.value.data| else 0;
    } else {
      if operand < s.ncaptures {
        assert s.CaptureOk(operand);
        n := s.captures[operand + 1] - s.captures[operand];
      } else {
        n := 0;
      }
    }
  }

  method CopyInto(buf: array<byte>, pos: nat, data: seq<byte>) returns (next: nat)
    requires pos + |data| <= buf.Length
    modifies buf
    ensures next == pos + |data|
    ensures buf[..next] == old(buf[..pos]) + data
  {
    next := pos;
    ghost var head := buf[..pos];
    for k := 0 to |data|
      invariant next == pos + k
      invariant buf[..next] == head + data[..k]
    {
      buf[next] := data[k];
      next := next + 1;
    }
    assert data[..|data|] == data;
  }

  /** Read back the literal behind a copy code. */
  method ReadRaws(mem: Memory, at: nat, n: nat, ghost text: seq<byte>) returns (data: seq<byte>)
    requires |text| == n && at + n <= |mem| && mem[at..at + n] == Raws(text)
    ensures data == text
  {
    data := [];
    for k := 0 to n
      invariant data == text[..k]
    {
      assert mem[at + k] == mem[at..at + n][k] == Raw(text[k]);
      data := data + [mem[at + k].value];
    }
  }

  /** What a code function of the values stream copies, and where the next one starts. */
  method Fetch(s: Session, mem: Memory, ip: nat, ghost op: Op) returns (next: nat, data: seq<byte>)
    requires s.Valid() && InstructionAt(mem, ValueCode(op), ip, ip + |ValueCode(op)|)
    requires op.Var? ==> Settled(s.variables, s.depth, op.index)
    modifies s`variables, s`calls, s`depth
    ensures s.Valid() && s.depth == old(s.depth) && s.calls == old(s.calls) && ViewOf(s) == old(ViewOf(s))
    ensures next == ip + |ValueCode(op)|
    ensures data == Worth(op, ViewOf(s))
  {
    assert mem[ip] == ValueCode(op)[0] && mem[ip + 8] == ValueCode(op)[8];
    var code, operand := WordAt(mem, ip), WordAt(mem, ip + 8);
    if code == COPY_CODE {
      next, data := FetchCopy(mem, ip, operand, op);
    } else if code == VAR_CODE {
      next := ip + 16;
      var value := s.GetIndexedVariable(operand);
      data := if value.Some? && !value.value.notFound then value.value.data else [];
    } else {
      next := ip + 16;
      if operand < s.ncaptures && s.captures[operand] != s.captures[operand + 1] {
        assert s.CaptureOk(operand);
        data := s.capturesData[s.captures[operand]..s.captures[operand + 1]];
      } else {
        data := [];
      }
    }
  }

  lemma SubSlice(m: Memory, at: nat, n: nat, i: nat, j: nat)
    requires i <= j <= n && at + n <= |m|
    ensures m[at..at + n][i..j] == m[at + i..at + j]
  {
    var a, b := m[at..at + n][i..j], m[at + i..at + j];
    assert forall k | 0 <= k < |a| :: a[k] == b[k];
  }

  /** ngx_nsoc_script_copy_code: the literal, and the step over it and its padding. */
  method FetchCopy(mem: Memory, ip: nat, len: nat, ghost op: Op) returns (next: nat, data: seq<byte>)
    requires op.Copy? && len == |op.text|
    requires InstructionAt(mem, ValueCode(op), ip, ip + |ValueCode(op)|)
    ensures next == ip + |ValueCode(op)|
    ensures data == op.text
  {
    SubSlice(mem, ip, |ValueCode(op)|, 16, 16 + len);
    data := ReadRaws(mem, ip + 16, len, op.text);
    next := ip + 16 + (len + 7) / 8 * 8;
  }

  /** One instruction of the second pass. */
  method ValueStep(s: Session, mem: Memory, ip: nat, buf: array<byte>, pos: nat, ghost op: Op, ghost done: seq<byte>)
    returns (next: nat, end: nat)
    requires s.Valid() && InstructionAt(mem, ValueCode(op), ip, ip + |ValueCode(op)|)
    requires op.Var? ==> Settled(s.variables, s.depth, op.index)
    requires pos == |done| <= buf.Length && buf[..pos] == done
    requires |done + Worth(op, ViewOf(s))| <= buf.Length
    modifies s`variables, s`calls, s`depth, buf
    ensures s.Valid() && s.depth == old(s.depth) && s.calls == old(s.calls) && ViewOf(s) == old(ViewOf(s))
    ensures next == ip + |ValueCode(op)|
    ensures end == |done + Worth(op, ViewOf(s))| && buf[..end] == done + Worth(op, ViewOf(s))
  {
    var data;
    next, data := Fetch(s, mem, ip, op);
    end := CopyInto(buf, pos, data);
  }

  /** After one variable was looked up, instructions that were settled still are, and still give the same output. */
  lemma LookedKeepsOutput(ops: seq<Op>, k: nat, before: View, calls: nat, after: View, calls': nat,
                          depth: nat, handler: (nat, nat) -> Outcome, flags: seq<bool>, index: nat)
    requires k <= |ops| && AllSettled(ops, k, before.vars, depth) && |flags| == |before.vars|
    requires Looked(Cache(before.vars, calls), Cache(after.vars, calls'), depth, handler, flags, index)
    requires after == before.(vars := after.vars)
    ensures AllSettled(ops, k, after.vars, depth) && Settled(after.vars, depth, index)
    ensures Output(ops, after, k) == Output(ops, before, k)
  {
    if !Settled(before.vars, depth, index) {
      OutputUnaffected(ops, k, before, index, after.vars[index]);
    }
  }

  /** What the lookups of one pass depend on. */
  datatype Rules = Rules(depth: nat, handler: (nat, nat) -> Outcome, flags: seq<bool>)

  ghost function RulesOf(s: Session): Rules
    reads s
  {
    Rules(s.depth, s.handler, s.flags)
  }

  /** After `k` instructions who had to be asked has been, and `len` is the length of their output. */
  ghost predicate Sized(start: Cache, rules: Rules, view: View, calls: nat, ops: seq<Op>, k: nat, len: nat) {
    && k <= |ops| && |start.vars| == |view.vars| == |rules.flags|
    && Answering(start, Cache(view.vars, calls), rules.depth, rules.handler, rules.flags, Flushes(ops[..k]))
    && AllSettled(ops, k, view.vars, rules.depth)
    && len == |Output(ops, view, k)|
  }

  lemma SizedText(start: Cache, rules: Rules, view: View, calls: nat, ops: seq<Op>, k: nat, len: nat)
    requires Sized(start, rules, view, calls, ops, k, len) && k < |ops| && !ops[k].Var?
    ensures Sized(start, rules, view, calls, ops, k + 1, len + |Worth(ops[k], view)|)
  {
    assert ops[..k + 1] == ops[..k] + [ops[k]];
    FlushesPush(ops[..k], ops[k]);
    assert Flushes(ops[..k]) + [] == Flushes(ops[..k]);
  }

  lemma SizedVariable(start: Cache, rules: Rules, view: View, calls: nat, view': View, calls': nat,
                      ops: seq<Op>, k: nat, len: nat)
    requires Sized(start, rules, view, calls, ops, k, len) && k < |ops| && ops[k].Var?
    requires Looked(Cache(view.vars, calls), Cache(view'.vars, calls'), rules.depth, rules.handler, rules.flags, ops[k].index)
    requires view' == view.(vars := view'.vars)
    ensures Sized(start, rules, view', calls', ops, k + 1, len + |Worth(ops[k], view')|)
  {
    assert ops[..k + 1] == ops[..k] + [ops[k]];
    FlushesPush(ops[..k], ops[k]);
    LookedKeepsOutput(ops, k, view, calls, view', calls', rules.depth, rules.handler, rules.flags, ops[k].index);
    AnsweringMore(start, Cache(view.vars, calls), Cache(view'.vars, calls'), rules.depth, rules.handler, rules.flags,
                  Flushes(ops[..k]), ops[k].index);
  }

  /** One instruction of the first pass. */
  method LenTurn(s: Session, mem: Memory, ip: nat, len: nat, ghost start: Cache, ghost ops: seq<Op>, ghost k: nat)
    returns (next: nat, total: nat)
    requires s.Valid() && Sized(start, RulesOf(s), ViewOf(s), s.calls, ops, k, len)
    requires k < |ops| && InstructionAt(mem, LenCode(ops[k]), ip, ip + 16)
    modifies s`variables, s`calls, s`depth
    ensures s.Valid() && s.depth == old(s.depth) && next == ip + 16
    ensures Sized(start, RulesOf(s), ViewOf(s), s.calls, ops, k + 1, total)
  {
    ghost var view, calls := ViewOf(s), s.calls;
    var n;
    n, next := LenStep(s, mem, ip, ops[k]);
    if ops[k].Var? {
      SizedVariable(start, RulesOf(s), view, calls, ViewOf(s), s.calls, ops, k, len);
    } else {
      SizedText(start, RulesOf(s), view, calls, ops, k, len);
    }
    total := len + n;
  }

  /** At `ip` there is an instruction if `k < n`, and the null word otherwise. */
  ghost predicate GoesOn(mem: Memory, ip: nat, k: nat, n: nat) {
    ip + 8 <= |mem| && (WordAt(mem, ip) != EXIT_CODE <==> k < n)
  }

  lemma ProgramGoesOn(m: Memory, codes: seq<Memory>, offs: seq<nat>, k: nat)
    requires Program(m, codes, offs) && k <= |codes|
    requires k < |codes| ==> |codes[k]| >= 16 && WordAt(codes[k], 0) != EXIT_CODE
    ensures GoesOn(m, offs[k], k, |codes|)
  {
    if k < |codes| {
      assert InstructionOf(m, codes, offs, k);
      assert m[offs[k]] == m[offs[k]..offs[k + 1]][0] == codes[k][0];
    }
  }

  /** A program of `n` instructions of which the next to run is number `k`, at `ip`. */
  ghost predicate Running(mem: Memory, codes: seq<Memory>, offs: seq<nat>, ip: nat, k: nat) {
    && Program(mem, codes, offs) && k <= |codes| && ip == offs[k]
    && GoesOn(mem, ip, k, |codes|)
  }

  method LenAdvance(s: Session, mem: Memory, ip: nat, len: nat,
                    ghost start: Cache, ghost ops: seq<Op>, ghost offs: seq<nat>, ghost k: nat)
    returns (next: nat, total: nat)
    requires s.Valid() && Sized(start, RulesOf(s), ViewOf(s), s.calls, ops, k, len)
    requires Running(mem, LenCodes(ops), offs, ip, k) && k < |ops|
    modifies s`variables, s`calls, s`depth
    ensures s.Valid() && s.depth == old(s.depth) && Running(mem, LenCodes(ops), offs, next, k + 1)
    ensures Sized(start, RulesOf(s), ViewOf(s), s.calls, ops, k + 1, total)
  {
    assert InstructionOf(mem, LenCodes(ops), offs, k);
    next, total := LenTurn(s, mem, ip, len, start, ops, k);
    ProgramGoesOn(mem, LenCodes(ops), offs, k + 1);
  }

  /**
   The first pass: the handlers of the variables without a cached value are called, once each, every
   variable is settled, and the total is the length of what they now add up to.
   */
  method RunLengths(s: Session, mem: Memory, ghost ops: seq<Op>, ghost offs: seq<nat>) returns (len: nat)
    requires s.Valid() && Program(mem, LenCodes(ops), offs)
    modifies s`variables, s`calls, s`depth
    ensures s.Valid() && s.depth == old(s.depth)
    ensures Sized(old(CacheOf(s)), RulesOf(s), ViewOf(s), s.calls, ops, |ops|, len)
  {
    var ip := 0;
    len := 0;
    ghost var k, start := 0, CacheOf(s);
    ProgramGoesOn(mem, LenCodes(ops), offs, 0);
    while WordAt(mem, ip) != EXIT_CODE
      invariant s.Valid() && s.depth == old(s.depth)
      invariant 0 <= ip && Running(mem, LenCodes(ops), offs, ip, k)
      invariant Sized(start, RulesOf(s), ViewOf(s), s.calls, ops, k, len)
      decreases |ops| - k
    {
      ip, len := LenAdvance(s, mem, ip, len, start, ops, offs, k);
      k := k + 1;
    }
  }

  /** The second pass has done `k` instructions. */
  ghost predicate Filling(s: Session, buf: array<byte>, pos: nat, ops: seq<Op>, k: nat, view: View)
    reads s, buf
  {
    && s.Valid() && ViewOf(s) == view
    && k <= |ops|
    && pos == |Output(ops, view, k)| <= buf.Length
    && buf[..pos] == Output(ops, view, k)
  }

  ghost predicate Coded(codes: seq<Memory>, ops: seq<Op>) {
    |codes| == |ops| && forall k: nat | k < |ops| :: codes[k] == ValueCode(ops[k])
  }

  /** The instruction to run, and the place behind it. */
  lemma InstructionHere(mem: Memory, codes: seq<Memory>, offs: seq<nat>, ip: nat, k: nat)
    requires Running(mem, codes, offs, ip, k) && k < |codes|
    requires k + 1 < |codes| ==> |codes[k + 1]| >= 16 && WordAt(codes[k + 1], 0) != EXIT_CODE
    ensures InstructionAt(mem, codes[k], ip, offs[k + 1]) && Running(mem, codes, offs, offs[k + 1], k + 1)
  {
    assert InstructionOf(mem, codes, offs, k);
    ProgramGoesOn(mem, codes, offs, k + 1);
  }

  /** What the next turn of the second pass can rely on. */
  ghost predicate Due(mem: Memory, ip: nat, next: nat, ops: seq<Op>, k: nat, view: View, depth: nat, room: nat) {
    && k < |ops|
    && InstructionAt(mem, ValueCode(ops[k]), ip, next)
    && (ops[k].Var? ==> Settled(view.vars, depth, ops[k].index))
    && |Output(ops, view, k + 1)| <= room
  }

  lemma TurnIsDue(mem: Memory, codes: seq<Memory>, offs: seq<nat>, ip: nat, ops: seq<Op>, k: nat, view: View, depth: nat, room: nat)
    requires Running(mem, codes, offs, ip, k) && Coded(codes, ops) && k < |ops|
    requires AllSettled(ops, |ops|, view.vars, depth) && room == |Output(ops, view, |ops|)|
    ensures Due(mem, ip, offs[k + 1], ops, k, view, depth, room) && Running(mem, codes, offs, offs[k + 1], k + 1)
  {
    CodedHere(mem, codes, offs, ip, ops, k);
    OutputGrows(ops, view, |ops|, k + 1);
  }

  lemma CodedHere(mem: Memory, codes: seq<Memory>, offs: seq<nat>, ip: nat, ops: seq<Op>, k: nat)
    requires Running(mem, codes, offs, ip, k) && Coded(codes, ops) && k < |ops|
    ensures InstructionAt(mem, ValueCode(ops[k]), ip, offs[k + 1]) && Running(mem, codes, offs, offs[k + 1], k + 1)
  {
    NeverExit(codes, ops, k + 1);
    InstructionHere(mem, codes, offs, ip, k);
  }

  lemma NeverExit(codes: seq<Memory>, ops: seq<Op>, k: nat)
    requires Coded(codes, ops)
    ensures k < |codes| ==> |codes[k]| >= 16 && WordAt(codes[k], 0) != EXIT_CODE
  {
  }

  method ValueTurn(s: Session, mem: Memory, ip: nat, buf: array<byte>, pos: nat,
                   ghost after: nat, ghost ops: seq<Op>, ghost k: nat, ghost view: View)
    returns (next: nat, end: nat)
    requires Due(mem, ip, after, ops, k, view, s.depth, buf.Length)
    requires Filling(s, buf, pos, ops, k, view)
    modifies s`variables, s`calls, s`depth, buf
    ensures s.depth == old(s.depth) && s.calls == old(s.calls)
    ensures next == after
    ensures Filling(s, buf, end, ops, k + 1, view)
  {
    next, end := ValueStep(s, mem, ip, buf, pos, ops[k], Output(ops, view, k));
  }

  method ValueLoop(s: Session, mem: Memory, buf: array<byte>,
                   ghost ops: seq<Op>, ghost codes: seq<Memory>, ghost offs: seq<nat>, ghost view: View)
    returns (pos: nat)
    requires Running(mem, codes, offs, 0, 0) && Coded(codes, ops) && Filling(s, buf, 0, ops, 0, view)
    requires AllSettled(ops, |ops|, view.vars, s.depth) && buf.Length == |Output(ops, view, |ops|)|
    modifies s`variables, s`calls, s`depth, buf
    ensures s.depth == old(s.depth) && s.calls == old(s.calls)
    ensures Filling(s, buf, pos, ops, |ops|, view)
  {
    var ip: nat := 0;
    pos := 0;
    ghost var k := 0;
    while WordAt(mem, ip) != EXIT_CODE
      invariant s.depth == old(s.depth) && s.calls == old(s.calls)
      invariant Running(mem, codes, offs, ip, k)
      invariant Filling(s, buf, pos, ops, k, view)
      decreases |ops| - k
    {
      TurnIsDue(mem, codes, offs, ip, ops, k, view, s.depth, buf.Length);
      ip, pos := ValueTurn(s, mem, ip, buf, pos, offs[k + 1], ops, k, view);
      k := k + 1;
    }
  }

  /** The second pass writes exactly the output, byte for byte, without asking any handler again. */
  method RunValues(s: Session, mem: Memory, buf: array<byte>, ghost ops: seq<Op>, ghost offs: seq<nat>)
    requires s.Valid() && Program(mem, ValueCodes(ops), offs)
    requires AllSettled(ops, |ops|, s.variables, s.depth)
    requires buf.Length == |Output(ops, ViewOf(s), |ops|)|
    modifies s`variables, s`calls, s`depth, buf
    ensures s.Valid() && s.depth == old(s.depth) && s.calls == old(s.calls) && ViewOf(s) == old(ViewOf(s))
    ensures buf[..] == Output(ops, ViewOf(s), |ops|)
  {
    ProgramGoesOn(mem, ValueCodes(ops), offs, 0);
    var pos := ValueLoop(s, mem, buf, ops, ValueCodes(ops), offs, ViewOf(s));
    assert buf[..] == buf[..pos];
  }
}
