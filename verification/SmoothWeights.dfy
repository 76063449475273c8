/**
 The arithmetic of smooth weighted round robin: fixed weights, a vector of
 current weights that always cancel, and a first greatest element that pays
 for everybody.
 */
module SmoothWeights {

  function Sum(xs: seq<int>, n: nat): int
    requires n <= |xs|
  {
    if n == 0 then 0 else Sum(xs, n - 1) + xs[n - 1]
  }

  /** W, the total weight. */
  function Whole(ws: seq<int>): int {
    Sum(ws, |ws|)
  }

  ghost predicate Positive(ws: seq<int>) {
    |ws| > 0 && forall i | 0 <= i < |ws| :: ws[i] > 0
  }

  ghost predicate AllZero(c: seq<int>) {
    forall i | 0 <= i < |c| :: c[i] == 0
  }

  /** Everybody is paid their weight; the first of the richest, `p`, pays W. */
  ghost predicate Turn(ws: seq<int>, c: seq<int>, p: nat, d: seq<int>) {
    && |c| == |d| == |ws|
    && p < |ws|
    && (forall i: nat | i < |ws| ::
          c[i] + ws[i] <= c[p] + ws[p] && (i < p ==> c[i] + ws[i] < c[p] + ws[p]))
    && (forall i: nat | i < |ws| :: d[i] == c[i] + ws[i] - (if i == p then Whole(ws) else 0))
  }

  ghost predicate Run(ws: seq<int>, cs: seq<seq<int>>, ps: seq<nat>) {
    && Positive(ws)
    && |cs| == |ps| + 1
    && |cs[0]| == |ws|
    && forall k: nat | k < |ps| :: TurnOf(ws, cs, ps, k)
  }

  ghost predicate TurnOf(ws: seq<int>, cs: seq<seq<int>>, ps: seq<nat>, k: nat)
    requires k < |ps| < |cs|
  {
    Turn(ws, cs[k], ps[k], cs[k + 1])
  }

  /** How often `i` was picked in the first `t` turns. */
  function Count(ps: seq<nat>, i: nat, t: nat): nat
    requires t <= |ps|
  {
    if t == 0 then 0 else Count(ps, i, t - 1) + (if ps[t - 1] == i then 1 else 0)
  }

  // ----- Arithmetic

  lemma Distribute(a: int, b: int, c: int)
    ensures (a + b) * c == a * c + b * c
  {
  }

  lemma Dominates(a: int, b: int, c: int)
    requires a <= b && c >= 0
    ensures a * c <= b * c
  {
    assert (b - a) * c >= 0;
    Distribute(a, b - a, c);
  }

  // ----- Sums

  lemma {:induction false} SumAtLeast(xs: seq<int>, bound: int, n: nat)
    requires n <= |xs| && forall i | 0 <= i < n :: xs[i] >= bound
    ensures Sum(xs, n) >= n * bound
  {
    if n > 0 {
      SumAtLeast(xs, bound, n - 1);
      assert n * bound == (n - 1) * bound + bound;
    }
  }

  lemma {:induction false} SumAtMost(xs: seq<int>, bound: int, n: nat)
    requires n <= |xs| && forall i | 0 <= i < n :: xs[i] <= bound
    ensures Sum(xs, n) <= n * bound
  {
    if n > 0 {
      SumAtMost(xs, bound, n - 1);
      assert n * bound == (n - 1) * bound + bound;
    }
  }

  lemma {:induction false} NonNegativeSumZero(xs: seq<int>, n: nat)
    requires n <= |xs| && Sum(xs, n) <= 0
    requires forall i | 0 <= i < n :: xs[i] >= 0
    ensures forall i | 0 <= i < n :: xs[i] == 0
  {
    if n > 0 {
      SumAtLeast(xs, 0, n - 1);
      NonNegativeSumZero(xs, n - 1);
    }
  }

  lemma WholePositive(ws: seq<int>)
    requires Positive(ws)
    ensures Whole(ws) > 0
  {
    SumAtLeast(ws, 1, |ws|);
  }

  lemma {:induction false} TurnSums(ws: seq<int>, c: seq<int>, p: nat, d: seq<int>, n: nat)
    requires Turn(ws, c, p, d) && n <= |ws|
    ensures Sum(d, n) == Sum(c, n) + Sum(ws, n) - (if p < n then Whole(ws) else 0)
  {
    if n > 0 {
      TurnSums(ws, c, p, d, n - 1);
    }
  }

  // ----- One turn

  /** When the vector cancels, whoever pays has a positive amount to pay with. */
  lemma PayerIsPositive(ws: seq<int>, c: seq<int>, p: nat, d: seq<int>)
    requires Positive(ws) && Turn(ws, c, p, d) && Sum(c, |c|) == 0
    ensures d[p] > -Whole(ws)
  {
    var paid := seq(|ws|, i requires 0 <= i < |ws| => c[i] + ws[i]);
    SumPaid(ws, c, paid, |ws|);
    WholePositive(ws);
    if d[p] <= -Whole(ws) {
      SumAtMost(paid, 0, |paid|);
    }
  }

  lemma {:induction false} SumPaid(ws: seq<int>, c: seq<int>, paid: seq<int>, n: nat)
    requires |ws| == |c| == |paid| && n <= |ws|
    requires forall i | 0 <= i < |ws| :: paid[i] == c[i] + ws[i]
    ensures Sum(paid, n) == Sum(c, n) + Sum(ws, n)
  {
    if n > 0 {
      SumPaid(ws, c, paid, n - 1);
    }
  }

  /** A turn is decided by the vector it starts from. */
  lemma TurnIsDetermined(ws: seq<int>, c: seq<int>, p: nat, d: seq<int>, q: nat, e: seq<int>)
    requires Turn(ws, c, p, d) && Turn(ws, c, q, e)
    ensures p == q && d == e
  {
  }

  // ----- Whole runs

  ghost predicate Solvent(ws: seq<int>, c: seq<int>) {
    && |c| == |ws|
    && Sum(c, |c|) == 0
    && forall i: nat | i < |c| :: c[i] > -Whole(ws)
  }

  /** From rest, the vector always cancels and nobody ever owes as much as W. */
  lemma {:induction false} AlwaysSolvent(ws: seq<int>, cs: seq<seq<int>>, ps: seq<nat>, t: nat)
    requires Run(ws, cs, ps) && t <= |ps| && AllZero(cs[0])
    ensures Solvent(ws, cs[t])
  {
    if t == 0 {
      WholePositive(ws);
      SumAtLeast(cs[0], 0, |ws|);
      SumAtMost(cs[0], 0, |ws|);
    } else {
      AlwaysSolvent(ws, cs, ps, t - 1);
      assert TurnOf(ws, cs, ps, t - 1);
      TurnSums(ws, cs[t - 1], ps[t - 1], cs[t], |ws|);
      PayerIsPositive(ws, cs[t - 1], ps[t - 1], cs[t]);
    }
  }

  /** Where `i` stands is told by its weight and the number of times it was picked. */
  lemma {:induction false} Ledger(ws: seq<int>, cs: seq<seq<int>>, ps: seq<nat>, t: nat, i: nat)
    requires Run(ws, cs, ps) && t <= |ps| && i < |ws|
    ensures |cs[t]| == |ws|
    ensures cs[t][i] == cs[0][i] + t * ws[i] - Count(ps, i, t) * Whole(ws)
  {
    if t > 0 {
      Ledger(ws, cs, ps, t - 1, i);
      Distribute(t - 1, 1, ws[i]);
      Distribute(Count(ps, i, t - 1), 1, Whole(ws));
      assert TurnOf(ws, cs, ps, t - 1);
    }
  }

  lemma MultipleAboveMinusOne(x: int, W: int)
    requires W > 0 && x * W > -W
    ensures x >= 0
  {
    if x <= -1 {
      Dominates(x, -1, W);
    }
  }

  lemma NoDebtAfterWhole(c: int, w: int, k: int, W: int)
    requires W > 0 && c == W * w - k * W && c > -W
    ensures c >= 0
  {
    assert c == (w - k) * W by {
      Distribute(w - k, k, W);
    }
    MultipleAboveMinusOne(w - k, W);
    Dominates(0, w - k, W);
  }

  /** W turns from rest end at rest. */
  lemma BackToRest(ws: seq<int>, cs: seq<seq<int>>, ps: seq<nat>)
    requires Run(ws, cs, ps) && Whole(ws) <= |ps| && AllZero(cs[0])
    ensures Whole(ws) > 0
    ensures cs[Whole(ws)] == cs[0]
  {
    WholePositive(ws);
    var W := Whole(ws);
    AlwaysSolvent(ws, cs, ps, W);
    forall i: nat | i < |ws|
      ensures cs[W][i] >= 0
    {
      Ledger(ws, cs, ps, W, i);
      NoDebtAfterWhole(cs[W][i], ws[i], Count(ps, i, W), W);
    }
    NonNegativeSumZero(cs[W], |ws|);
  }

  /** A run from rest repeats itself every W turns. */
  lemma {:induction false} Periodic(ws: seq<int>, cs: seq<seq<int>>, ps: seq<nat>, t: nat)
    requires Run(ws, cs, ps) && t + Whole(ws) <= |ps| && AllZero(cs[0])
    ensures 0 < Whole(ws)
    ensures cs[t + Whole(ws)] == cs[t]
  {
    WholePositive(ws);
    var W := Whole(ws);
    if t == 0 {
      BackToRest(ws, cs, ps);
    } else {
      Periodic(ws, cs, ps, t - 1);
      var u := t - 1 + W;
      assert TurnOf(ws, cs, ps, t - 1) && TurnOf(ws, cs, ps, u);
      TurnIsDetermined(ws, cs[t - 1], ps[t - 1], cs[t], ps[u], cs[u + 1]);
    }
  }

  lemma CancelWindow(t: int, w: int, W: int, k: int, m: int)
    requires W > 0 && t * w - k * W == (t + W) * w - m * W
    ensures m - k == w
  {
    Distribute(t, W, w);
    Distribute(k, m - k, W);
    Distribute(w, k - m, W);
    assert (w + (k - m)) * W == 0;
  }

  /** In a run from rest every window of W consecutive turns picks `i` exactly `ws[i]` times. */
  lemma EveryWindowIsFair(ws: seq<int>, cs: seq<seq<int>>, ps: seq<nat>, t: nat, i: nat)
    requires Run(ws, cs, ps) && t + Whole(ws) <= |ps| && AllZero(cs[0])
    requires i < |ws|
    ensures 0 < Whole(ws)
    ensures Count(ps, i, t + Whole(ws)) - Count(ps, i, t) == ws[i]
  {
    Periodic(ws, cs, ps, t);
    var W := Whole(ws);
    Ledger(ws, cs, ps, t, i);
    Ledger(ws, cs, ps, t + W, i);
    CancelWindow(t, ws[i], W, Count(ps, i, t), Count(ps, i, t + W));
  }

  /** At no time is anybody a whole turn ahead of their share. */
  lemma NeverAhead(ws: seq<int>, cs: seq<seq<int>>, ps: seq<nat>, t: nat, i: nat)
    requires Run(ws, cs, ps) && t <= |ps| && AllZero(cs[0]) && i < |ws|
    ensures Count(ps, i, t) * Whole(ws) < t * ws[i] + Whole(ws)
  {
    Ledger(ws, cs, ps, t, i);
    AlwaysSolvent(ws, cs, ps, t);
  }

  /** Nor does anybody fall further behind than the others together can run ahead. */
  lemma NeverFarBehind(ws: seq<int>, cs: seq<seq<int>>, ps: seq<nat>, t: nat, i: nat)
    requires Run(ws, cs, ps) && t <= |ps| && AllZero(cs[0]) && i < |ws|
    ensures t * ws[i] <= Count(ps, i, t) * Whole(ws) + (|ws| - 1) * (Whole(ws) - 1)
  {
    Ledger(ws, cs, ps, t, i);
    AlwaysSolvent(ws, cs, ps, t);
    SumWithout(cs[t], 1 - Whole(ws), i, |ws|);
    assert (|ws| - 1) * (1 - Whole(ws)) == -((|ws| - 1) * (Whole(ws) - 1));
  }

  lemma {:induction false} SumWithout(xs: seq<int>, bound: int, i: nat, n: nat)
    requires i < n <= |xs| && forall j | 0 <= j < n :: xs[j] >= bound
    ensures Sum(xs, n) >= xs[i] + (n - 1) * bound
  {
    if i == n - 1 {
      SumAtLeast(xs, bound, n - 1);
    } else {
      SumWithout(xs, bound, i, n - 1);
      assert (n - 1) * bound == (n - 2) * bound + bound;
    }
  }
}
