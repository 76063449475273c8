/**
 The two instruction streams a template is compiled to, byte by byte, and what
 they are worth in a given session.
 */
module ScriptCode {
  import opened Bytes
  import opened Variables

  /** One byte of code memory: a byte of a machine word, or a byte of text. */
  datatype Cell = Part(word: nat, k: nat) | Raw(value: byte)

  type Memory = seq<Cell>

  function Word(n: nat): (m: Memory)
    ensures |m| == 8 && m[0] == Part(n, 0)
  {
    seq(8, k requires 0 <= k < 8 => Part(n, k))
  }

  /** The machine word at an address. */
  function WordAt(m: Memory, at: nat): nat
    requires at + 8 <= |m|
  {
    if m[at].Part? then m[at].word else 0
  }

  /** (n + sizeof(uintptr_t) - 1) & ~(sizeof(uintptr_t) - 1) */
  function Align(n: nat): nat {
    (n + 7) / 8 * 8
  }

  datatype Op = Copy(text: seq<byte>) | Var(index: nat) | Cap(n: nat)

  // Addresses of the code functions; the null address ends a stream.
  const COPY_LEN_CODE: nat := 1
  const COPY_CODE: nat := 2
  const VAR_LEN_CODE: nat := 3
  const VAR_CODE: nat := 4
  const CAPTURE_LEN_CODE: nat := 5
  const CAPTURE_CODE: nat := 6
  const EXIT_CODE: nat := 0

  function LenTag(op: Op): nat {
    match op
    case Copy(_) => COPY_LEN_CODE
    case Var(_) => VAR_LEN_CODE
    case Cap(_) => CAPTURE_LEN_CODE
  }

  function ValueTag(op: Op): nat {
    match op
    case Copy(_) => COPY_CODE
    case Var(_) => VAR_CODE
    case Cap(_) => CAPTURE_CODE
  }

  function Operand(op: Op): nat {
    match op
    case Copy(text) => |text|
    case Var(index) => index
    case Cap(n) => 2 * n
  }

  function Raws(text: seq<byte>): (m: Memory)
    ensures |m| == |text| && forall k | 0 <= k < |text| :: m[k] == Raw(text[k])
  {
    seq(|text|, k requires 0 <= k < |text| => Raw(text[k]))
  }

  /** A code address and its operand. */
  function Instruction(tag: nat, operand: nat): (m: Memory)
    ensures |m| == 16 && WordAt(m, 0) == tag && WordAt(m, 8) == operand
  {
    Word(tag) + Word(operand)
  }

  function LenCode(op: Op): (m: Memory)
    ensures |m| == 16 && WordAt(m, 0) == LenTag(op) && WordAt(m, 8) == Operand(op)
  {
    Instruction(LenTag(op), Operand(op))
  }

  /** The literal of a copy code follows its operand and is padded to whole words. */
  function Payload(text: seq<byte>): (m: Memory)
    ensures |m| == Align(|text|) && m[..|text|] == Raws(text)
  {
    Raws(text) + seq(Align(|text|) - |text|, _ => Raw(0))
  }

  function ValueCode(op: Op): (m: Memory)
    ensures |m| >= 16 && WordAt(m, 0) == ValueTag(op) && WordAt(m, 8) == Operand(op)
    ensures op.Copy? ==> |m| == 16 + Align(|op.text|) && m[16..16 + |op.text|] == Raws(op.text)
    ensures !op.Copy? ==> |m| == 16
  {
    if op.Copy? then Instruction(ValueTag(op), Operand(op)) + Payload(op.text)
    else Instruction(ValueTag(op), Operand(op))
  }

  /** The size the compiler asks for is the step the evaluator takes. */
  lemma PaddingAgrees(n: nat)
    ensures Align(16 + n) == 16 + Align(n)
  {
  }

  // ----- Streams

  function Join<T>(blocks: seq<seq<T>>): (r: seq<T>) {
    if blocks == [] then [] else Join(blocks[..|blocks| - 1]) + blocks[|blocks| - 1]
  }

  lemma JoinPush<T>(blocks: seq<seq<T>>, last: seq<T>)
    ensures Join(blocks + [last]) == Join(blocks) + last
  {
    assert (blocks + [last])[..|blocks|] == blocks;
  }

  lemma {:induction false} JoinPrefix<T>(blocks: seq<seq<T>>, k: nat)
    requires k <= |blocks|
    ensures Join(blocks[..k]) <= Join(blocks)
  {
    if k == |blocks| {
      assert blocks[..k] == blocks;
    } else {
      JoinPrefix(blocks[..|blocks| - 1], k);
      assert blocks[..|blocks| - 1][..k] == blocks[..k];
    }
  }

  /** Block `k` lies right behind the blocks before it. */
  lemma JoinAt<T>(blocks: seq<seq<T>>, k: nat)
    requires k < |blocks|
    ensures var at := |Join(blocks[..k])|;
            && at + |blocks[k]| <= |Join(blocks)|
            && Join(blocks)[at..at + |blocks[k]|] == blocks[k]
            && Join(blocks[..k + 1]) == Join(blocks[..k]) + blocks[k]
  {
    assert blocks[..k + 1] == blocks[..k] + [blocks[k]];
    JoinPush(blocks[..k], blocks[k]);
    JoinPrefix(blocks, k + 1);
  }

  lemma JoinAtBefore<T>(blocks: seq<seq<T>>, k: nat, tail: seq<T>)
    requires k < |blocks|
    ensures var at := |Join(blocks[..k])|;
            && at + |blocks[k]| <= |Join(blocks) + tail|
            && (Join(blocks) + tail)[at..at + |blocks[k]|] == blocks[k]
            && |Join(blocks[..k + 1])| == at + |blocks[k]|
  {
    JoinAt(blocks, k);
  }

  function LenCodes(ops: seq<Op>): (bs: seq<Memory>) {
    seq(|ops|, i requires 0 <= i < |ops| => LenCode(ops[i]))
  }

  function ValueCodes(ops: seq<Op>): (bs: seq<Memory>) {
    seq(|ops|, i requires 0 <= i < |ops| => ValueCode(ops[i]))
  }

  /** A complete stream: the instructions and the null word behind them. */
  function LenStream(ops: seq<Op>): Memory {
    Join(LenCodes(ops)) + Word(EXIT_CODE)
  }

  function ValueStream(ops: seq<Op>): Memory {
    Join(ValueCodes(ops)) + Word(EXIT_CODE)
  }

  /** The memory `m` holds the instructions `codes` one behind the other, at `offs`, and then the null word. */
  ghost predicate Program(m: Memory, codes: seq<Memory>, offs: seq<nat>) {
    && |offs| == |codes| + 1
    && offs[0] == 0
    && (forall k: nat | k < |codes| :: InstructionOf(m, codes, offs, k))
    && offs[|codes|] + 8 <= |m|
    && WordAt(m, offs[|codes|]) == EXIT_CODE
  }

  ghost predicate InstructionOf(m: Memory, codes: seq<Memory>, offs: seq<nat>, k: nat)
    requires k < |codes| < |offs|
  {
    InstructionAt(m, codes[k], offs[k], offs[k + 1])
  }

  ghost predicate InstructionAt(m: Memory, code: Memory, at: nat, next: nat) {
    at + |code| == next && next + 8 <= |m| && m[at..next] == code
  }

  function Offsets(codes: seq<Memory>): (offs: seq<nat>) {
    seq(|codes| + 1, k requires 0 <= k <= |codes| => |Join(codes[..k])|)
  }

  /** Every stream is a program: each instruction sits at its offset, and the null word behind the last. */
  lemma StreamIsProgram(codes: seq<Memory>)
    ensures Program(Join(codes) + Word(EXIT_CODE), codes, Offsets(codes))
  {
    var m, offs := Join(codes) + Word(EXIT_CODE), Offsets(codes);
    assert codes[..|codes|] == codes;
    forall k: nat | k < |codes|
      ensures InstructionOf(m, codes, offs, k)
    {
      JoinAtBefore(codes, k, Word(EXIT_CODE));
      JoinPrefix(codes, k + 1);
    }
  }

  lemma CodesPush(ops: seq<Op>, op: Op)
    ensures Join(LenCodes(ops + [op])) == Join(LenCodes(ops)) + LenCode(op)
    ensures Join(ValueCodes(ops + [op])) == Join(ValueCodes(ops)) + ValueCode(op)
  {
    assert LenCodes(ops + [op]) == LenCodes(ops) + [LenCode(op)];
    JoinPush(LenCodes(ops), LenCode(op));
    assert ValueCodes(ops + [op]) == ValueCodes(ops) + [ValueCode(op)];
    JoinPush(ValueCodes(ops), ValueCode(op));
  }

  // ----- What the instructions are worth

  /** Everything in a session that a script can see. */
  datatype View = View(vars: seq<Entry>, captures: seq<int>, ncaptures: nat, data: seq<byte>)

  function CaptureText(v: View, n: nat): seq<byte> {
    if n < v.ncaptures && n + 1 < |v.captures| && 0 <= v.captures[n] <= v.captures[n + 1] <= |v.data|
    then v.data[v.captures[n]..v.captures[n + 1]] else []
  }

  function Worth(op: Op, v: View): seq<byte> {
    match op
    case Copy(text) => text
    case Var(index) => Text(v.vars, index)
    case Cap(n) => CaptureText(v, 2 * n)
  }

  function Output(ops: seq<Op>, v: View, n: nat): seq<byte>
    requires n <= |ops|
  {
    if n == 0 then [] else Output(ops, v, n - 1) + Worth(ops[n - 1], v)
  }

  /** The indices the emitted instructions will read, in order. */
  function Flushes(ops: seq<Op>): seq<nat> {
    if ops == [] then []
    else Flushes(ops[..|ops| - 1]) + (if ops[|ops| - 1].Var? then [ops[|ops| - 1].index] else [])
  }

  lemma FlushesPush(ops: seq<Op>, op: Op)
    ensures Flushes(ops + [op]) == Flushes(ops) + (if op.Var? then [op.index] else [])
  {
    assert (ops + [op])[..|ops|] == ops;
  }

  /** Every variable of the first `n` instructions would be served from the cache. */
  ghost predicate AllSettled(ops: seq<Op>, n: nat, vars: seq<Entry>, depth: nat)
    requires n <= |ops|
  {
    forall k | 0 <= k < n && ops[k].Var? :: Settled(vars, depth, ops[k].index)
  }

  /** Filling in an entry that none of the first `n` instructions reads does not change their output. */
  lemma {:induction false} OutputUnaffected(ops: seq<Op>, n: nat, v: View, i: nat, e: Entry)
    requires n <= |ops| && i < |v.vars|
    requires forall k | 0 <= k < n && ops[k].Var? :: ops[k].index != i
    ensures Output(ops, v.(vars := v.vars[i := e]), n) == Output(ops, v, n)
  {
    if n > 0 {
      OutputUnaffected(ops, n - 1, v, i, e);
    }
  }

  lemma {:induction false} OutputGrows(ops: seq<Op>, v: View, n: nat, k: nat)
    requires k <= n <= |ops|
    ensures Output(ops, v, k) <= Output(ops, v, n)
  {
    if k < n {
      OutputGrows(ops, v, n - 1, k);
    }
  }
}
