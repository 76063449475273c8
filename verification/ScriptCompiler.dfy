/**
 The compiler as the source runs it: loops over the text that push codes onto
 the lengths and values arrays and indices onto the flush list.
 */
module ScriptCompiler {
  import opened Bytes
  import opened Template
  import opened ScriptCode
  import opened ScriptCompile

  // ----- Reading the text

  lemma {:induction false} NameLenIs(t: seq<byte>, n: nat)
    requires n <= |t| && (forall k | 0 <= k < n :: IsNameChar(t[k])) && (n < |t| ==> !IsNameChar(t[n]))
    ensures NameLen(t) == n
  {
    if n > 0 {
      assert forall k | 0 <= k < n - 1 :: t[1..][k] == t[k + 1];
      NameLenIs(t[1..], n - 1);
    }
  }

  lemma {:induction false} LiteralLenIs(t: seq<byte>, n: nat)
    requires n <= |t| && (forall k | 0 <= k < n :: t[k] != DOLLAR) && (n < |t| ==> t[n] == DOLLAR)
    ensures LiteralLen(t) == n
  {
    if n > 0 {
      assert forall k | 0 <= k < n - 1 :: t[1..][k] == t[k + 1];
      LiteralLenIs(t[1..], n - 1);
    }
  }

  /** The name loop: stops at the end, at the closing bracket, or at any other character. */
  method ReadName(t: seq<byte>, start: nat, braced: bool) returns (len: nat, i: nat, bracket: bool)
    requires start <= |t|
    ensures len == NameLen(t[start..])
    ensures start + len <= |t|
    ensures if braced && start + len < |t| && t[start + len] == CLOSE
            then !bracket && i == start + len + 1
            else bracket == braced && i == start + len
  {
    len, i, bracket := 0, start, braced;
    while i < |t|
      invariant i == start + len <= |t| && bracket == braced
      invariant forall k | start <= k < i :: IsNameChar(t[k])
    {
      var ch := t[i];
      if ch == CLOSE && bracket {
        NameLenIs(t[start..], len);
        i := i + 1;
        bracket := false;
        return;
      }
      if 65 <= ch <= 90 || 97 <= ch <= 122 || 48 <= ch <= 57 || ch == 95 {
        i := i + 1;
        len := len + 1;
        continue;
      }
      break;
    }
    NameLenIs(t[start..], len);
  }

  /** Everything the compiler does between a dollar and the next piece. */
  method ReadExpansion(t: seq<byte>, at: nat) returns (h: Option<Head>)
    requires at < |t| && t[at] == DOLLAR
    ensures h == Expansion(t[at..])
  {
    ghost var rest := t[at..];
    var i := at + 1;
    if i == |t| {
      return None;
    }
    assert rest[1] == t[i];
    if 49 <= t[i] <= 57 {
      return Some(Head(Capture(t[i] - 48), 2));
    }
    var bracket := false;
    if t[i] == OPEN {
      bracket := true;
      i := i + 1;
      if i == |t| {
        return None;
      }
    }
    var start := i;
    assert t[start..] == rest[start - at..];
    var len;
    len, i, bracket := ReadName(t, start, bracket);
    if bracket {
      return None;
    }
    if len == 0 {
      return None;
    }
    SliceOfSuffix(t, at, start - at, start - at + len);
    return Some(Head(Variable(t[start..start + len]), i - at));
  }

  /** The literal loop. */
  method ReadLiteral(t: seq<byte>, at: nat) returns (len: nat)
    requires at < |t| && t[at] != DOLLAR
    ensures len == LiteralLen(t[at..]) > 0
  {
    var i := at;
    len := 0;
    while i < |t|
      invariant i == at + len <= |t|
      invariant forall k | at <= k < i :: t[k] != DOLLAR
    {
      if t[i] == DOLLAR {
        break;
      }
      i := i + 1;
      len := len + 1;
    }
    LiteralLenIs(t[at..], len);
  }

  // ----- Emitting code

  /** A copy code with its literal behind it, in a block rounded up to whole words. */
  method CopyCode(data: seq<byte>) returns (code: Memory)
    ensures code == ValueCode(Copy(data))
  {
    var len := |data|;
    var size := (16 + len + 7) / 8 * 8;
    PaddingAgrees(len);
    code := Instruction(COPY_CODE, len) + (Raws(data) + seq(size - 16 - len, _ => Raw(0)));
  }

  /** Read the expansion at a dollar: it is the next piece of the cut, unless the cut is stuck here. */
  method NextExpansion(t: seq<byte>, i: nat, ghost cut: Cut, ghost k: nat) returns (h: Option<Head>)
    requires IsCut(t, cut) && k <= |cut.pieces| && i == cut.offs[k] < |t| && t[i] == DOLLAR
    ensures h.None? ==> k == |cut.pieces|
    ensures h.Some? ==> k < |cut.pieces| && h.value.piece == cut.pieces[k] && i + h.value.size == cut.offs[k + 1]
                        && !cut.pieces[k].Literal?
  {
    h := ReadExpansion(t, i);
    assert h == HeadAt(t, i);
    CutHere(t, cut, k);
    if h.Some? {
      ExpansionHasOneDollar(t[i..]);
    }
  }

  /** Read the literal at any other character: it is the next piece of the cut. */
  method NextLiteral(t: seq<byte>, i: nat, ghost cut: Cut, ghost k: nat) returns (len: nat)
    requires IsCut(t, cut) && k <= |cut.pieces| && i == cut.offs[k] < |t| && t[i] != DOLLAR
    ensures k < |cut.pieces| && i + len == cut.offs[k + 1] <= |t| && cut.pieces[k] == Literal(t[i..i + len])
  {
    len := ReadLiteral(t, i);
    SliceOfSuffix(t, i, 0, len);
    assert HeadAt(t, i) == Some(Head(Literal(t[i..i + len]), len));
    CutHere(t, cut, k);
  }

  class Compiler {
    const source: seq<byte>
    var flushes: seq<nat>
    var lengths: Memory
    var values: Memory
    var zero: bool
    /** cmcf->variables, by name. */
    var names: seq<seq<byte>>
    ghost var ops: seq<Op>

    constructor (source: seq<byte>, zero: bool, names: seq<seq<byte>>)
      ensures Valid() && ops == []
      ensures this.source == source && this.zero == zero && this.names == names
    {
      this.source, this.zero, this.names := source, zero, names;
      flushes, lengths, values, ops := [], [], [], [];
    }

    ghost predicate Valid()
      reads this
    {
      && lengths == Join(LenCodes(ops))
      && values == Join(ValueCodes(ops))
      && flushes == Flushes(ops)
    }

    /** ngx_nsoc_get_variable_index: find the name or append it in lower case. */
    method GetVariableIndex(name: seq<byte>) returns (index: nat)
      modifies this`names
      ensures index == IndexOf(names, Lower(name)) < |names|
      ensures names == old(names) || names == old(names) + [Lower(name)]
    {
      var low := Lower(name);
      for i := 0 to |names|
        invariant forall k | 0 <= k < i :: names[k] != low
      {
        if names[i] == low {
          IndexOfUnique(names, low, i);
          return i;
        }
      }
      names := names + [low];
      index := |names| - 1;
      IndexOfUnique(names, low, index);
    }

    /** ngx_nsoc_script_add_code on both streams, and on the flush list when the code reads a variable. */
    method Push(len: Memory, value: Memory, flush: seq<nat>, ghost op: Op)
      requires Valid()
      requires len == LenCode(op) && value == ValueCode(op) && flush == if op.Var? then [op.index] else []
      modifies this`lengths, this`values, this`ops, this`flushes
      ensures Valid() && ops == old(ops) + [op]
    {
      CodesPush(ops, op);
      FlushesPush(ops, op);
      flushes := flushes + flush;
      lengths := lengths + len;
      values := values + value;
      ops := ops + [op];
    }

    /** ngx_nsoc_script_add_copy_code */
    method AddCopyCode(text: seq<byte>, last: bool)
      requires Valid()
      modifies this`lengths, this`values, this`zero, this`ops, this`flushes
      ensures Valid()
      ensures ops == old(ops) + [Copy(text + Ending(old(zero) && last))]
      ensures zero == (old(zero) && !last)
    {
      var nul := zero && last;
      var data := text;
      if nul {
        data := data + [0];
        zero := false;
      }
      assert data == text + Ending(nul);
      var code := CopyCode(data);
      Push(Instruction(COPY_LEN_CODE, |data|), code, [], Copy(data));
    }

    /** ngx_nsoc_script_add_var_code */
    method AddVarCode(name: seq<byte>)
      requires Valid()
      modifies this`lengths, this`values, this`ops, this`flushes, this`names
      ensures Valid()
      ensures ops == old(ops) + [Resolve(Variable(name), names)]
      ensures Lower(name) in names
      ensures names == old(names) || names == old(names) + [Lower(name)]
    {
      var index := GetVariableIndex(name);
      IndexOfIsFirst(names, Lower(name));
      Push(Instruction(VAR_LEN_CODE, index), Instruction(VAR_CODE, index), [index], Var(index));
    }

    /** ngx_nsoc_script_add_capture_code */
    method AddCaptureCode(n: nat)
      requires Valid()
      modifies this`lengths, this`values, this`ops, this`flushes
      ensures Valid()
      ensures ops == old(ops) + [Cap(n)]
    {
      Push(Instruction(CAPTURE_LEN_CODE, 2 * n), Instruction(CAPTURE_CODE, 2 * n), [], Cap(n));
    }

    /** Emit a variable or a capture; what was emitted before keeps its meaning though the table may grow. */
    method AddExpansion(p: Piece, ghost done: seq<Piece>)
      requires Valid() && !p.Literal?
      requires Known(done, names) && ops == Ops(done, names)
      modifies this`lengths, this`values, this`ops, this`flushes, this`names
      ensures Valid() && old(names) <= names
      ensures Known(done + [p], names) && ops == Ops(done + [p], names)
    {
      if p.Variable? {
        AddVarCode(p.name);
      } else {
        AddCaptureCode(p.n);
      }
      OpsPush(done, p, old(names), names);
    }

    /** What the main loop has emitted for the pieces `done`; `more` text is still to come. */
    ghost predicate Halfway(done: seq<Piece>, asked: bool, more: bool)
      reads this
    {
      && Valid()
      && Known(done, names)
      && Emitted(ops, done, names, asked, zero)
      && (more ==> zero == asked)
      && (!more && zero ==> NoLiteralLast(done))
    }

    /** The main loop at a dollar, once the expansion has been read. */
    method EmitExpansion(p: Piece, ghost done: seq<Piece>, ghost after: seq<Piece>, ghost asked: bool, ghost more: bool)
      requires Halfway(done, asked, true) && !p.Literal? && after == done + [p]
      modifies this`lengths, this`values, this`ops, this`flushes, this`names
      ensures old(names) <= names && Halfway(after, asked, more)
    {
      AddExpansion(p, done);
    }

    /** The main loop at any other character, once the literal has been read. */
    method EmitLiteral(text: seq<byte>, last: bool, ghost done: seq<Piece>, ghost after: seq<Piece>, ghost asked: bool)
      requires Halfway(done, asked, true) && after == done + [Literal(text)]
      modifies this`lengths, this`values, this`ops, this`flushes, this`zero
      ensures Halfway(after, asked, !last)
    {
      EmittedLiteral(done, text, names, asked, last);
      AddCopyCode(text, last);
    }

    /** The main loop at a dollar. */
    method TurnExpansion(i: nat, ghost cut: Cut, ghost k: nat, ghost asked: bool) returns (next: Option<nat>)
      requires IsCut(source, cut) && k <= |cut.pieces| && i == cut.offs[k] < |source| && source[i] == DOLLAR
      requires Halfway(cut.pieces[..k], asked, true)
      modifies this`lengths, this`values, this`ops, this`flushes, this`names
      ensures old(names) <= names
      ensures next.None? ==> k == |cut.pieces|
      ensures next.Some? ==> k < |cut.pieces| && next.value == cut.offs[k + 1]
                             && Halfway(cut.pieces[..k + 1], asked, next.value < |source|)
    {
      var h := NextExpansion(source, i, cut, k);
      if h.None? {
        return None;
      }
      var size := h.value.size;
      OneMorePiece(cut.pieces, k);
      EmitExpansion(h.value.piece, cut.pieces[..k], cut.pieces[..k + 1], asked, i + size < |source|);
      return Some(i + size);
    }

    /** The main loop at any other character. */
    method TurnLiteral(i: nat, ghost cut: Cut, ghost k: nat, ghost asked: bool) returns (next: nat)
      requires IsCut(source, cut) && k <= |cut.pieces| && i == cut.offs[k] < |source| && source[i] != DOLLAR
      requires Halfway(cut.pieces[..k], asked, true)
      modifies this`lengths, this`values, this`ops, this`flushes, this`zero
      ensures k < |cut.pieces| && next == cut.offs[k + 1] <= |source|
      ensures Halfway(cut.pieces[..k + 1], asked, next < |source|)
    {
      var len := NextLiteral(source, i, cut, k);
      next := i + len;
      assert cut.pieces[..k] + [cut.pieces[k]] == cut.pieces[..k + 1];
      EmitLiteral(source[i..next], next == |source|, cut.pieces[..k], cut.pieces[..k + 1], asked);
    }

    /** The main loop stands at piece `k`, at `i`. */
    ghost predicate AtPiece(cut: Cut, k: nat, i: nat, asked: bool)
      reads this
    {
      && IsCut(source, cut) && k <= |cut.pieces| && i == cut.offs[k] <= |source|
      && Halfway(cut.pieces[..k], asked, i < |source|)
    }

    /** One turn of the main loop; nothing if the text is malformed here. */
    method CompileTurn(i: nat, ghost cut: Cut, ghost k: nat, ghost asked: bool) returns (next: Option<nat>)
      requires AtPiece(cut, k, i, asked) && i < |source|
      modifies this`lengths, this`values, this`ops, this`flushes, this`names, this`zero
      ensures old(names) <= names
      ensures next.None? ==> k == |cut.pieces|
      ensures next.Some? ==> k < |cut.pieces| && AtPiece(cut, k + 1, next.value, asked)
    {
      if source[i] == DOLLAR {
        next := TurnExpansion(i, cut, k, asked);
        if next.Some? {
          CutHere(source, cut, k);
        }
      } else {
        var to := TurnLiteral(i, cut, k, asked);
        next := Some(to);
      }
    }

    /** The main loop of ngx_nsoc_script_compile. */
    method CompileLoop(ghost cut: Cut, ghost asked: bool) returns (ok: bool, ghost k: nat)
      requires AtPiece(cut, 0, 0, asked)
      modifies this`lengths, this`values, this`ops, this`flushes, this`names, this`zero
      ensures old(names) <= names
      ensures !ok ==> k == |cut.pieces| && cut.offs[k] < |source|
      ensures ok ==> AtPiece(cut, k, |source|, asked)
    {
      var i: nat := 0;
      k := 0;
      while i < |source|
        invariant old(names) <= names && AtPiece(cut, k, i, asked)
        decreases |cut.pieces| - k
      {
        var next := CompileTurn(i, cut, k, asked);
        if next.None? {
          return false, k;
        }
        i, k := next.value, k + 1;
      }
      return true, k;
    }

    /** All pieces, up to the end of the text or to where it is malformed. */
    method CompilePieces(ghost cut: Cut) returns (ok: bool)
      requires Valid() && ops == [] && IsCut(source, cut)
      modifies this`lengths, this`values, this`ops, this`flushes, this`names, this`zero
      ensures old(names) <= names
      ensures ok <==> cut.offs[|cut.pieces|] == |source|
      ensures ok ==> Halfway(cut.pieces, old(zero), false)
    {
      assert cut.pieces[..0] == [];
      ghost var k;
      ok, k := CompileLoop(cut, zero);
      if ok {
        CutEnds(source, cut, k);
        assert cut.pieces[..k] == cut.pieces;
      }
    }

    /** ngx_nsoc_script_done */
    method Done(ghost ps: seq<Piece>, ghost asked: bool)
      requires Valid() && Emitted(ops, ps, names, asked, zero) && (zero ==> NoLiteralLast(ps))
      modifies this`lengths, this`values, this`ops, this`flushes, this`zero
      ensures ops == FinalOps(ps, names, asked)
      ensures lengths == LenStream(ops) && values == ValueStream(ops) && flushes == Flushes(ops)
    {
      if zero {
        assert [0] + Ending(false) == [0];
        AddCopyCode([0], false);
      }
      lengths := lengths + Word(EXIT_CODE);
      values := values + Word(EXIT_CODE);
    }

    /** ngx_nsoc_script_compile */
    method Compile() returns (ok: bool)
      requires Valid() && ops == []
      modifies this
      ensures old(names) <= names
      ensures ok <==> Pieces(source).Some?
      ensures ok ==> Known(Pieces(source).value, names)
      ensures ok ==> && ops == FinalOps(Pieces(source).value, names, old(zero))
                     && lengths == LenStream(ops)
                     && values == ValueStream(ops)
                     && flushes == Flushes(ops)
    {
      ghost var cut := CutOf(source);
      ok := CompilePieces(cut);
      if ok {
        Done(Pieces(source).value, old(zero));
      }
    }
  }

  // ----- Progress through the text

  ghost function HeadAt(t: seq<byte>, i: nat): Option<Head>
    requires i < |t|
  {
    var rest := t[i..];
    if rest[0] == DOLLAR then Expansion(rest) else Some(Head(Literal(rest[..LiteralLen(rest)]), LiteralLen(rest)))
  }

  /** As many pieces as can be cut off a text, and where they begin and end. */
  datatype Cut = Cut(pieces: seq<Piece>, offs: seq<nat>)

  /** Piece `k` is the head of the text at its offset; behind the last piece there is nothing, or no head. */
  ghost predicate StepOfCut(t: seq<byte>, cut: Cut, k: nat)
    requires k <= |cut.pieces| < |cut.offs|
  {
    if k < |cut.pieces| then
      cut.offs[k] < cut.offs[k + 1] <= |t|
      && HeadAt(t, cut.offs[k]) == Some(Head(cut.pieces[k], cut.offs[k + 1] - cut.offs[k]))
    else cut.offs[k] < |t| ==> HeadAt(t, cut.offs[k]) == None
  }

  ghost predicate CutFrom(t: seq<byte>, from: nat, cut: Cut) {
    && |cut.offs| == |cut.pieces| + 1
    && cut.offs[0] == from
    && cut.offs[|cut.pieces|] <= |t|
    && forall k: nat | k <= |cut.pieces| :: StepOfCut(t, cut, k)
  }

  ghost predicate IsCut(t: seq<byte>, cut: Cut) {
    CutFrom(t, 0, cut)
  }

  lemma CutHere(t: seq<byte>, cut: Cut, k: nat)
    requires IsCut(t, cut) && k <= |cut.pieces| && cut.offs[k] < |t|
    ensures HeadAt(t, cut.offs[k]) == None ==> k == |cut.pieces|
    ensures HeadAt(t, cut.offs[k]).Some? ==>
              && k < |cut.pieces|
              && cut.offs[k] < cut.offs[k + 1] <= |t|
              && HeadAt(t, cut.offs[k]) == Some(Head(cut.pieces[k], cut.offs[k + 1] - cut.offs[k]))
  {
    assert StepOfCut(t, cut, k);
  }

  lemma CutEnds(t: seq<byte>, cut: Cut, k: nat)
    requires IsCut(t, cut) && k <= |cut.pieces| && cut.offs[k] == |t|
    ensures k == |cut.pieces|
  {
    assert StepOfCut(t, cut, k);
  }

  lemma HeadIsShort(t: seq<byte>, from: nat)
    requires from < |t|
    ensures HeadAt(t, from).Some? ==> 0 < HeadAt(t, from).value.size <= |t| - from
  {
    LiteralLenIsLongest(t[from..]);
  }

  lemma CutGrows(t: seq<byte>, from: nat, h: Head, rest: Cut)
    requires from < |t| && HeadAt(t, from) == Some(h) && 0 < h.size <= |t| - from
    requires CutFrom(t, from + h.size, rest)
    ensures CutFrom(t, from, Cut([h.piece] + rest.pieces, [from] + rest.offs))
  {
    var cut := Cut([h.piece] + rest.pieces, [from] + rest.offs);
    forall k: nat | k <= |cut.pieces|
      ensures StepOfCut(t, cut, k)
    {
      if k > 0 {
        assert StepOfCut(t, rest, k - 1);
        StepShifts(t, cut, rest, k);
      }
    }
  }

  lemma StepShifts(t: seq<byte>, cut: Cut, rest: Cut, k: nat)
    requires 0 < k <= |cut.pieces| == |rest.pieces| + 1 && |cut.offs| == |rest.offs| + 1 && |rest.pieces| < |rest.offs|
    requires cut.pieces[1..] == rest.pieces && cut.offs[1..] == rest.offs && StepOfCut(t, rest, k - 1)
    ensures StepOfCut(t, cut, k)
  {
    assert cut.offs[k] == rest.offs[k - 1];
    if k < |cut.pieces| {
      assert cut.offs[k + 1] == rest.offs[k] && cut.pieces[k] == rest.pieces[k - 1];
    }
  }

  lemma CutSuffix(t: seq<byte>, from: nat) returns (cut: Cut)
    requires from <= |t|
    ensures CutFrom(t, from, cut)
    decreases |t| - from
  {
    if from == |t| || HeadAt(t, from).None? {
      return Cut([], [from]);
    }
    var h := HeadAt(t, from).value;
    HeadIsShort(t, from);
    var rest := CutSuffix(t, from + h.size);
    CutGrows(t, from, h, rest);
    cut := Cut([h.piece] + rest.pieces, [from] + rest.offs);
  }

  lemma PiecesGrow(t: seq<byte>, from: nat, to: nat, piece: Piece)
    requires from < to <= |t| && HeadAt(t, from) == Some(Head(piece, to - from))
    ensures Pieces(t[from..]) == match Pieces(t[to..])
                                 case None => None
                                 case Some(rest) => Some([piece] + rest)
  {
    assert t[from..][to - from..] == t[to..];
  }

  lemma OneMorePiece(pieces: seq<Piece>, k: nat)
    requires k < |pieces|
    ensures pieces[..k] + [pieces[k]] == pieces[..k + 1]
  {
  }

  lemma StepAt(t: seq<byte>, cut: Cut, k: nat)
    requires IsCut(t, cut) && k < |cut.pieces|
    ensures cut.offs[k] < cut.offs[k + 1] <= |t|
    ensures HeadAt(t, cut.offs[k]) == Some(Head(cut.pieces[k], cut.offs[k + 1] - cut.offs[k]))
  {
    assert StepOfCut(t, cut, k);
  }

  lemma PiecesAtEnd(t: seq<byte>, cut: Cut)
    requires IsCut(t, cut)
    ensures Pieces(t[cut.offs[|cut.pieces|]..]) == if cut.offs[|cut.pieces|] == |t| then Some([]) else None
  {
    assert StepOfCut(t, cut, |cut.pieces|);
  }

  function InFront(p: Piece, rest: Option<seq<Piece>>): Option<seq<Piece>> {
    if rest.None? then None else Some([p] + rest.value)
  }

  lemma CutStep(t: seq<byte>, cut: Cut, k: nat)
    requires IsCut(t, cut) && k < |cut.pieces|
    ensures cut.offs[k] <= cut.offs[k + 1] <= |t|
    ensures Pieces(t[cut.offs[k]..]) == InFront(cut.pieces[k], Pieces(t[cut.offs[k + 1]..]))
  {
    StepAt(t, cut, k);
    PiecesGrow(t, cut.offs[k], cut.offs[k + 1], cut.pieces[k]);
  }

  lemma FrontOfSlice(pieces: seq<Piece>, k: nat)
    requires k < |pieces|
    ensures InFront(pieces[k], Some(pieces[k + 1..])) == Some(pieces[k..])
  {
    assert [pieces[k]] + pieces[k + 1..] == pieces[k..];
  }

  lemma {:induction false} CutGivesPieces(t: seq<byte>, cut: Cut, k: nat)
    requires IsCut(t, cut) && k <= |cut.pieces|
    ensures cut.offs[k] <= |t|
    ensures Pieces(t[cut.offs[k]..]) == if cut.offs[|cut.pieces|] == |t| then Some(cut.pieces[k..]) else None
    decreases |cut.pieces| - k
  {
    if k < |cut.pieces| {
      CutGivesPieces(t, cut, k + 1);
      CutStep(t, cut, k);
      FrontOfSlice(cut.pieces, k);
    } else {
      PiecesAtEnd(t, cut);
      assert cut.pieces[k..] == [];
    }
  }

  /** The cut of a whole text reaches its end exactly when the text is well formed. */
  lemma CutOf(t: seq<byte>) returns (cut: Cut)
    ensures IsCut(t, cut)
    ensures Pieces(t) == if cut.offs[|cut.pieces|] == |t| then Some(cut.pieces) else None
  {
    cut := CutSuffix(t, 0);
    CutGivesPieces(t, cut, 0);
    assert t[0..] == t;
  }

  /** What has been emitted for the pieces `done`; the NUL may already be behind the last literal. */
  ghost predicate Emitted(ops: seq<Op>, done: seq<Piece>, names: seq<seq<byte>>, asked: bool, zero: bool) {
    if asked && !zero then done != [] && done[|done| - 1].Literal? && ops == FinalOps(done, names, true)
    else asked == zero && ops == Ops(done, names)
  }

  ghost predicate NoLiteralLast(ps: seq<Piece>) {
    ps == [] || !ps[|ps| - 1].Literal?
  }

  lemma EmittedLiteral(done: seq<Piece>, text: seq<byte>, names: seq<seq<byte>>, asked: bool, last: bool)
    ensures Emitted(Ops(done, names) + [Copy(text + Ending(asked && last))], done + [Literal(text)], names,
                    asked, asked && !last)
    ensures Known(done, names) ==> Known(done + [Literal(text)], names)
  {
    var ps := done + [Literal(text)];
    assert ps[..|ps| - 1] == done;
    assert text + [] == text;
    assert Ops(ps, names) == Ops(done, names) + [Copy(text)];
  }

  lemma OpsPush(ps: seq<Piece>, p: Piece, names: seq<seq<byte>>, more: seq<seq<byte>>)
    requires Known(ps, names) && names <= more && (p.Variable? ==> Lower(p.name) in more)
    ensures Known(ps + [p], more) && Ops(ps + [p], more) == Ops(ps, names) + [Resolve(p, more)]
  {
    OpsExtend(ps, names, more);
    assert Ops(ps + [p], more) == Ops(ps, more) + [Resolve(p, more)];
  }

  lemma OpsExtend(ps: seq<Piece>, names: seq<seq<byte>>, more: seq<seq<byte>>)
    requires Known(ps, names) && names <= more
    ensures Known(ps, more) && Ops(ps, more) == Ops(ps, names)
  {
    assert names + more[|names|..] == more;
    forall i | 0 <= i < |ps|
      ensures Resolve(ps[i], more) == Resolve(ps[i], names)
      ensures ps[i].Variable? ==> Lower(ps[i].name) in more
    {
      if ps[i].Variable? {
        IndexOfExtends(names, more[|names|..], Lower(ps[i].name));
      }
    }
  }
}
