/**
 The template compiler: one pass over the text that emits both streams and the
 list of variables to flush.
 */
module ScriptCompile {
  import opened Bytes
  import opened Template
  import opened ScriptCode
  import V = Variables

  // ----- Variable names

  function LowerByte(c: byte): byte {
    if 65 <= c <= 90 then c + 32 else c
  }

  /** ngx_strlow; names are compared without regard to case. */
  function Lower(name: seq<byte>): (low: seq<byte>)
    ensures |low| == |name|
  {
    seq(|name|, i requires 0 <= i < |name| => LowerByte(name[i]))
  }

  /** The first place of `low` in the table, or its size. */
  function IndexOf(names: seq<seq<byte>>, low: seq<byte>): (i: nat) {
    if names == [] || names[0] == low then 0 else 1 + IndexOf(names[1..], low)
  }

  lemma {:induction false} IndexOfIsFirst(names: seq<seq<byte>>, low: seq<byte>)
    ensures var i := IndexOf(names, low);
            && i <= |names|
            && (i < |names| ==> names[i] == low)
            && (forall k | 0 <= k < i :: names[k] != low)
  {
    if names != [] && names[0] != low {
      IndexOfIsFirst(names[1..], low);
      assert forall k | 1 <= k < |names| :: names[k] == names[1..][k - 1];
    }
  }

  lemma IndexOfUnique(names: seq<seq<byte>>, low: seq<byte>, i: nat)
    requires i < |names| && names[i] == low && forall k | 0 <= k < i :: names[k] != low
    ensures IndexOf(names, low) == i
  {
    IndexOfIsFirst(names, low);
  }

  lemma IndexOfExtends(names: seq<seq<byte>>, more: seq<seq<byte>>, low: seq<byte>)
    requires low in names
    ensures IndexOf(names + more, low) == IndexOf(names, low) < |names|
  {
    var i := IndexOf(names, low);
    IndexOfIsFirst(names, low);
    assert forall k | 0 <= k < |names| :: (names + more)[k] == names[k];
    IndexOfUnique(names + more, low, i);
  }

  // ----- Pieces as instructions

  function Resolve(p: Piece, names: seq<seq<byte>>): Op {
    match p
    case Literal(text) => Copy(text)
    case Variable(name) => Var(IndexOf(names, Lower(name)))
    case Capture(n) => Cap(n)
  }

  function Ops(ps: seq<Piece>, names: seq<seq<byte>>): (ops: seq<Op>) {
    seq(|ps|, i requires 0 <= i < |ps| => Resolve(ps[i], names))
  }

  ghost predicate Known(ps: seq<Piece>, names: seq<seq<byte>>) {
    forall i | 0 <= i < |ps| && ps[i].Variable? :: Lower(ps[i].name) in names
  }

  /** With the zero flag a NUL goes behind the last literal, or into a literal of its own. */
  function FinalOps(ps: seq<Piece>, names: seq<seq<byte>>, zero: bool): seq<Op> {
    if !zero then Ops(ps, names)
    else if ps != [] && ps[|ps| - 1].Literal? then
      Ops(ps[..|ps| - 1], names) + [Copy(ps[|ps| - 1].text + [0])]
    else Ops(ps, names) + [Copy([0])]
  }

  /** The variables and captures of a view, by name. */
  function EnvOf(v: View, names: seq<seq<byte>>): Env {
    Env(name => V.Text(v.vars, IndexOf(names, Lower(name))), n => CaptureText(v, 2 * n))
  }

  /** The NUL that ends the value when one was asked for. */
  ghost function Ending(zero: bool): seq<byte> {
    if zero then [0] else []
  }

  lemma WorthIsMeaning(p: Piece, names: seq<seq<byte>>, v: View)
    ensures Worth(Resolve(p, names), v) == Meaning(p, EnvOf(v, names))
  {
  }

  lemma {:induction false} OutputRender(ops: seq<Op>, v: View, ps: seq<Piece>, env: Env, n: nat)
    requires n <= |ps| && n <= |ops|
    requires forall i | 0 <= i < n :: Worth(ops[i], v) == Meaning(ps[i], env)
    ensures Output(ops, v, n) == Render(ps[..n], env)
  {
    if n > 0 {
      OutputRender(ops, v, ps, env, n - 1);
      RenderLast(ps[..n - 1], ps[n - 1], env);
      assert ps[..n - 1] + [ps[n - 1]] == ps[..n];
    }
  }

  lemma OpsRender(ps: seq<Piece>, names: seq<seq<byte>>, v: View, env: Env)
    requires env == EnvOf(v, names)
    ensures Output(Ops(ps, names), v, |ps|) == Render(ps, env)
  {
    forall i | 0 <= i < |ps|
      ensures Worth(Ops(ps, names)[i], v) == Meaning(ps[i], env)
    {
      WorthIsMeaning(ps[i], names, v);
    }
    OutputRender(Ops(ps, names), v, ps, env, |ps|);
    assert ps[..|ps|] == ps;
  }

  lemma {:induction false} RenderLast(ps: seq<Piece>, p: Piece, env: Env)
    ensures Render(ps + [p], env) == Render(ps, env) + Meaning(p, env)
  {
    if ps == [] {
      assert [p][1..] == [];
    } else {
      RenderLast(ps[1..], p, env);
      assert (ps + [p])[1..] == ps[1..] + [p];
    }
  }

  lemma {:induction false} OutputPrefix(ops: seq<Op>, op: Op, v: View, n: nat)
    requires n <= |ops|
    ensures Output(ops + [op], v, n) == Output(ops, v, n)
  {
    if n > 0 {
      OutputPrefix(ops, op, v, n - 1);
    }
  }

  lemma OutputLast(ops: seq<Op>, op: Op, v: View)
    ensures Output(ops + [op], v, |ops| + 1) == Output(ops, v, |ops|) + Worth(op, v)
  {
    OutputPrefix(ops, op, v, |ops|);
  }

  lemma NulBehindLiteral(init: seq<Piece>, text: seq<byte>, ops: seq<Op>, v: View, env: Env)
    requires Output(ops, v, |ops|) == Render(init, env)
    ensures Output(ops + [Copy(text + [0])], v, |ops| + 1) == Render(init + [Literal(text)], env) + [0]
  {
    RenderLast(init, Literal(text), env);
    OutputLast(ops, Copy(text + [0]), v);
    assert Render(init, env) + (text + [0]) == Render(init, env) + text + [0];
  }

  lemma NulOfItsOwn(ps: seq<Piece>, names: seq<seq<byte>>, v: View, env: Env)
    requires env == EnvOf(v, names)
    ensures var ops := Ops(ps, names) + [Copy([0])];
            Output(ops, v, |ops|) == Render(ps, env) + [0]
  {
    OpsRender(ps, names, v, env);
    OutputLast(Ops(ps, names), Copy([0]), v);
  }

  /** The instructions are worth what the pieces mean, and the NUL if one was asked for. */
  lemma FinalOpsRender(ps: seq<Piece>, names: seq<seq<byte>>, zero: bool, v: View, env: Env)
    requires env == EnvOf(v, names)
    ensures var ops := FinalOps(ps, names, zero);
            Output(ops, v, |ops|) == Render(ps, env) + Ending(zero)
  {
    if !zero {
      OpsRender(ps, names, v, env);
    } else if ps != [] && ps[|ps| - 1].Literal? {
      assert ps[..|ps| - 1] + [Literal(ps[|ps| - 1].text)] == ps;
      OpsRender(ps[..|ps| - 1], names, v, env);
      NulBehindLiteral(ps[..|ps| - 1], ps[|ps| - 1].text, Ops(ps[..|ps| - 1], names), v, env);
    } else {
      NulOfItsOwn(ps, names, v, env);
    }
  }
}
