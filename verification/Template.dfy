/**
 String templates with `$name`, `${name}` and `$1` .. `$9`: what they mean by
 direct substitution, and the pieces the compiler cuts them into.
 */
module Template {

  import opened Bytes

  const DOLLAR: byte := 36
  const OPEN: byte := 123
  const CLOSE: byte := 125

  predicate IsCaptureDigit(c: byte) {
    49 <= c <= 57
  }

  predicate IsNameChar(c: byte) {
    65 <= c <= 90 || 97 <= c <= 122 || 48 <= c <= 57 || c == 95
  }

  /** The length of the longest prefix of `t` made of name characters. */
  function NameLen(t: seq<byte>): (n: nat)
    ensures n <= |t|
  {
    if t == [] || !IsNameChar(t[0]) then 0 else 1 + NameLen(t[1..])
  }

  lemma {:induction false} NameLenIsLongest(t: seq<byte>)
    ensures forall k | 0 <= k < NameLen(t) :: IsNameChar(t[k])
    ensures NameLen(t) < |t| ==> !IsNameChar(t[NameLen(t)])
  {
    if t != [] && IsNameChar(t[0]) {
      NameLenIsLongest(t[1..]);
      assert forall k | 1 <= k < |t| :: t[k] == t[1..][k - 1];
    }
  }

  /** The length of the longest prefix of `t` without a dollar. */
  function LiteralLen(t: seq<byte>): (n: nat)
    ensures n <= |t|
  {
    if t == [] || t[0] == DOLLAR then 0 else 1 + LiteralLen(t[1..])
  }

  lemma {:induction false} LiteralLenIsLongest(t: seq<byte>)
    ensures forall k | 0 <= k < LiteralLen(t) :: t[k] != DOLLAR
    ensures LiteralLen(t) < |t| ==> t[LiteralLen(t)] == DOLLAR
  {
    if t != [] && t[0] != DOLLAR {
      LiteralLenIsLongest(t[1..]);
      assert forall k | 1 <= k < |t| :: t[k] == t[1..][k - 1];
    }
  }

  lemma SliceOfSuffix<T>(t: seq<T>, at: nat, i: nat, j: nat)
    requires at <= |t| && i <= j <= |t| - at
    ensures t[at..][i..j] == t[at + i..at + j]
  {
    var a, b := t[at..][i..j], t[at + i..at + j];
    assert forall k | 0 <= k < |a| :: a[k] == b[k];
  }

  datatype Piece = Literal(text: seq<byte>) | Variable(name: seq<byte>) | Capture(n: nat)

  /** One expansion at the start of `t`, and how much of `t` it takes. */
  datatype Head = Head(piece: Piece, size: nat)

  /** Read the expansion that begins with the dollar at the start of `t`. */
  function Expansion(t: seq<byte>): (h: Option<Head>)
    requires t != [] && t[0] == DOLLAR
    ensures h.Some? ==> 2 <= h.value.size <= |t|
  {
    if |t| == 1 then None
    else if IsCaptureDigit(t[1]) then Some(Head(Capture(t[1] - 48), 2))
    else if t[1] == OPEN then
      var n := NameLen(t[2..]);
      if n > 0 && 2 + n < |t| && t[2 + n] == CLOSE then Some(Head(Variable(t[2..2 + n]), 3 + n)) else None
    else
      var n := NameLen(t[1..]);
      if n > 0 then Some(Head(Variable(t[1..1 + n]), 1 + n)) else None
  }

  /** What variables and captures stand for. */
  datatype Env = Env(variable: seq<byte> -> seq<byte>, capture: nat -> seq<byte>)

  function Meaning(p: Piece, env: Env): seq<byte> {
    match p
    case Literal(text) => text
    case Variable(name) => env.variable(name)
    case Capture(n) => env.capture(n)
  }

  /** Direct substitution, one character or one expansion at a time; None when the template is malformed. */
  function Substitute(t: seq<byte>, env: Env): Option<seq<byte>> {
    if t == [] then Some([])
    else if t[0] != DOLLAR then
      match Substitute(t[1..], env)
      case None => None
      case Some(rest) => Some([t[0]] + rest)
    else
      match Expansion(t)
      case None => None
      case Some(h) =>
        match Substitute(t[h.size..], env)
        case None => None
        case Some(rest) => Some(Meaning(h.piece, env) + rest)
  }

  /** The pieces of a template: expansions, and maximal literals between them. */
  function Pieces(t: seq<byte>): Option<seq<Piece>> {
    if t == [] then Some([])
    else
      var h := if t[0] == DOLLAR then Expansion(t) else Some(Head(Literal(t[..LiteralLen(t)]), LiteralLen(t)));
      match h
      case None => None
      case Some(h) =>
        match Pieces(t[h.size..])
        case None => None
        case Some(rest) => Some([h.piece] + rest)
  }

  function Render(ps: seq<Piece>, env: Env): seq<byte> {
    if ps == [] then [] else Meaning(ps[0], env) + Render(ps[1..], env)
  }

  lemma Regroup<T>(x: T, a: seq<T>, b: seq<T>)
    ensures [x] + (a + b) == [x] + a + b
  {
  }

  lemma {:induction false} SubstituteLiteral(t: seq<byte>, n: nat, env: Env)
    requires n <= |t| && forall k | 0 <= k < n :: t[k] != DOLLAR
    ensures Substitute(t, env)
            == match Substitute(t[n..], env)
               case None => None
               case Some(rest) => Some(t[..n] + rest)
  {
    if n == 0 {
      assert t[0..] == t;
      match Substitute(t, env)
      case None =>
      case Some(rest) => assert t[..0] + rest == rest;
    } else {
      SubstituteLiteral(t[1..], n - 1, env);
      assert t[1..][n - 1..] == t[n..];
      assert t[..n] == [t[0]] + t[1..][..n - 1];
      match Substitute(t[n..], env)
      case None =>
      case Some(rest) => Regroup(t[0], t[1..][..n - 1], rest);
    }
  }

  /** Cutting a template into pieces neither loses nor changes meaning, and rejects the same templates. */
  lemma {:induction false} PiecesMean(t: seq<byte>, env: Env)
    ensures Substitute(t, env)
            == match Pieces(t)
               case None => None
               case Some(ps) => Some(Render(ps, env))
    decreases |t|
  {
    if t == [] {
    } else if t[0] == DOLLAR {
      match Expansion(t)
      case None =>
      case Some(h) => PiecesMean(t[h.size..], env);
    } else {
      var n := LiteralLen(t);
      LiteralLenIsLongest(t);
      SubstituteLiteral(t, n, env);
      PiecesMean(t[n..], env);
    }
  }

  // ----- The scan before compilation

  function IsVariableAt(t: seq<byte>, after: byte, i: nat): bool
    requires i < |t|
  {
    t[i] == DOLLAR && !IsCaptureDigit(if i + 1 < |t| then t[i + 1] else after)
  }

  /** Dollars not followed by a capture digit. The scan looks one byte past the text, where it finds `after`. */
  function CountVariables(t: seq<byte>, after: byte): nat {
    if t == [] then 0 else (if IsVariableAt(t, after, 0) then 1 else 0) + CountVariables(t[1..], after)
  }

  function CountDollars(t: seq<byte>): nat {
    if t == [] then 0 else (if t[0] == DOLLAR then 1 else 0) + CountDollars(t[1..])
  }

  function VariablePieces(ps: seq<Piece>): nat {
    if ps == [] then 0 else (if ps[0].Variable? then 1 else 0) + VariablePieces(ps[1..])
  }

  function ExpansionPieces(ps: seq<Piece>): nat {
    if ps == [] then 0 else (if ps[0].Literal? then 0 else 1) + ExpansionPieces(ps[1..])
  }

  lemma {:induction false} CountSkip(t: seq<byte>, after: byte, n: nat)
    requires n <= |t| && forall k | 0 <= k < n :: t[k] != DOLLAR
    ensures CountVariables(t, after) == CountVariables(t[n..], after)
    ensures CountDollars(t) == CountDollars(t[n..])
  {
    if n == 0 {
      assert t[0..] == t;
    } else {
      CountSkip(t[1..], after, n - 1);
      assert t[1..][n - 1..] == t[n..];
    }
  }

  /** For every template that compiles, the scan counts exactly the variables that are emitted. */
  lemma {:induction false} ScanAgrees(t: seq<byte>, after: byte)
    requires Pieces(t).Some?
    ensures CountVariables(t, after) == VariablePieces(Pieces(t).value)
    ensures CountDollars(t) == ExpansionPieces(Pieces(t).value)
    decreases |t|
  {
    if t == [] {
    } else if t[0] == DOLLAR {
      var h := Expansion(t).value;
      ScanAgrees(t[h.size..], after);
      assert forall k | 1 <= k < h.size :: t[k] != DOLLAR by {
        ExpansionHasOneDollar(t);
      }
      CountSkip(t[1..], after, h.size - 1);
      assert t[1..][h.size - 1..] == t[h.size..];
    } else {
      var n := LiteralLen(t);
      LiteralLenIsLongest(t);
      ScanAgrees(t[n..], after);
      CountSkip(t, after, n);
    }
  }

  lemma ExpansionHasOneDollar(t: seq<byte>)
    requires t != [] && t[0] == DOLLAR && Expansion(t).Some?
    ensures forall k | 1 <= k < Expansion(t).value.size :: t[k] != DOLLAR
    ensures Expansion(t).value.piece.Capture? <==> IsCaptureDigit(t[1])
    ensures !Expansion(t).value.piece.Literal?
  {
    if !IsCaptureDigit(t[1]) {
      if t[1] == OPEN {
        var n := NameLen(t[2..]);
        NameLenIsLongest(t[2..]);
        forall k | 1 <= k < 3 + n
          ensures t[k] != DOLLAR
        {
          if 2 <= k < 2 + n {
            assert t[k] == t[2..][k - 2];
          }
        }
      } else {
        var n := NameLen(t[1..]);
        NameLenIsLongest(t[1..]);
        forall k | 1 <= k < 1 + n
          ensures t[k] != DOLLAR
        {
          assert t[k] == t[1..][k - 1];
        }
      }
    }
  }

  /** A template without a dollar stands for itself. */
  lemma PlainText(t: seq<byte>, env: Env)
    requires CountDollars(t) == 0
    ensures Substitute(t, env) == Some(t)
  {
    NoDollars(t);
    SubstituteLiteral(t, |t|, env);
    assert t[..|t|] + [] == t;
  }

  lemma {:induction false} NoDollars(t: seq<byte>)
    requires CountDollars(t) == 0
    ensures forall k | 0 <= k < |t| :: t[k] != DOLLAR
  {
    if t != [] {
      NoDollars(t[1..]);
      assert forall k | 1 <= k < |t| :: t[k] == t[1..][k - 1];
    }
  }
}
