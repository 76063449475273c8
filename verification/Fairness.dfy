/**
 Exact fairness of the balancer.

 A run is a sequence of tier states with a pick between each and the next.
 Between two picks anything may happen to the peers (connections close, check
 times move, other sessions come and go) as long as no weight changes and every
 peer is eligible again for the next pick.
 */
module Fairness {
  import opened Bytes
  import opened RoundRobin
  import W = SmoothWeights

  /** What a pick brings along: the peers its session has tried, and the time. */
  datatype Round = Round(tried: set<nat>, now: int)

  /** Every peer may be picked and none is under a failure penalty. */
  ghost predicate Fair(ps: seq<Peer>, r: Round) {
    && |ps| > 0
    && forall i: nat | i < |ps| ::
         && Eligible(ps[i], i in r.tried, r.now)
         && ps[i].effectiveWeight == ps[i].weight > 0
  }

  ghost function Weights(ps: seq<Peer>): (ws: seq<int>) {
    seq(|ps|, i requires 0 <= i < |ps| => ps[i].weight)
  }

  /** The total weight of a tier. */
  ghost function TierWeight(ps: seq<Peer>): int {
    W.Whole(Weights(ps))
  }

  ghost function Currents(ps: seq<Peer>): (cs: seq<int>) {
    seq(|ps|, i requires 0 <= i < |ps| => ps[i].currentWeight)
  }

  /** The pick chooses `b`, and nothing touches a weight between it and the state `next`. */
  ghost predicate LeadsTo(ps: seq<Peer>, r: Round, b: nat, next: seq<Peer>) {
    var pick := GetPeer(ps, r.tried, r.now);
    && pick.best == Some(b)
    && Weights(pick.peers) == Weights(next)
    && Currents(pick.peers) == Currents(next)
  }

  /** A run through the states `ss` by the picks `rs`, which choose the peers `picks`. */
  ghost predicate FairRun(ss: seq<seq<Peer>>, rs: seq<Round>, picks: seq<nat>) {
    && |ss| == |rs| + 1 == |picks| + 1
    && |rs| > 0
    && forall k: nat | k < |rs| :: FairStep(ss, rs, picks, k)
  }

  ghost predicate FairStep(ss: seq<seq<Peer>>, rs: seq<Round>, picks: seq<nat>, k: nat)
    requires k < |rs| == |picks| < |ss|
  {
    Fair(ss[k], rs[k]) && LeadsTo(ss[k], rs[k], picks[k], ss[k + 1])
  }

  ghost function History(ss: seq<seq<Peer>>): (cs: seq<seq<int>>) {
    seq(|ss|, k requires 0 <= k < |ss| => Currents(ss[k]))
  }

  lemma {:induction false} TotalIsWeight(ps: seq<Peer>, r: Round, n: nat)
    requires Fair(ps, r) && n <= |ps|
    ensures Total(ps, r.tried, r.now, n) == W.Sum(Weights(ps), n)
  {
    if n > 0 {
      TotalIsWeight(ps, r, n - 1);
    }
  }

  /** Everybody was paid their weight and `b`, the first of the richest, paid W. */
  ghost predicate Moved(ps: seq<Peer>, qs: seq<Peer>, b: nat) {
    && |qs| == |ps|
    && b < |ps|
    && forall i: nat | i < |ps| ::
         && ps[i].currentWeight + ps[i].weight <= ps[b].currentWeight + ps[b].weight
         && (i < b ==> ps[i].currentWeight + ps[i].weight < ps[b].currentWeight + ps[b].weight)
         && qs[i].weight == ps[i].weight
         && qs[i].currentWeight == ps[i].currentWeight + ps[i].weight - if i == b then TierWeight(ps) else 0
  }

  lemma MovedIsTurn(ps: seq<Peer>, qs: seq<Peer>, b: nat)
    requires Moved(ps, qs, b)
    ensures W.Turn(Weights(ps), Currents(ps), b, Currents(qs))
    ensures Weights(qs) == Weights(ps)
  {
  }

  /** A pick of the balancer among eligible peers at full weight is a turn. */
  lemma PickMoves(ps: seq<Peer>, r: Round, b: nat)
    requires Fair(ps, r) && GetPeer(ps, r.tried, r.now).best == Some(b)
    ensures Moved(ps, GetPeer(ps, r.tried, r.now).peers, b)
  {
    TotalIsWeight(ps, r, |ps|);
    var qs := GetPeer(ps, r.tried, r.now).peers;
    forall i: nat | i < |ps|
      ensures ps[i].currentWeight + ps[i].weight <= ps[b].currentWeight + ps[b].weight
      ensures i < b ==> ps[i].currentWeight + ps[i].weight < ps[b].currentWeight + ps[b].weight
      ensures qs[i].weight == ps[i].weight
      ensures qs[i].currentWeight == ps[i].currentWeight + ps[i].weight - if i == b then TierWeight(ps) else 0
    {
      assert Eligible(ps[i], i in r.tried, r.now) && Eligible(ps[b], b in r.tried, r.now);
    }
  }

  lemma PickIsTurn(ps: seq<Peer>, r: Round, b: nat, next: seq<Peer>)
    requires Fair(ps, r) && LeadsTo(ps, r, b, next)
    ensures W.Turn(Weights(ps), Currents(ps), b, Currents(next))
    ensures Weights(next) == Weights(ps)
  {
    PickMoves(ps, r, b);
    MovedIsTurn(ps, GetPeer(ps, r.tried, r.now).peers, b);
  }

  lemma {:induction false} WeightsStay(ss: seq<seq<Peer>>, rs: seq<Round>, picks: seq<nat>, k: nat)
    requires FairRun(ss, rs, picks) && k <= |rs|
    ensures Weights(ss[k]) == Weights(ss[0])
  {
    if k > 0 {
      WeightsStay(ss, rs, picks, k - 1);
      assert FairStep(ss, rs, picks, k - 1);
      PickIsTurn(ss[k - 1], rs[k - 1], picks[k - 1], ss[k]);
    }
  }

  lemma TurnAt(ss: seq<seq<Peer>>, rs: seq<Round>, picks: seq<nat>, k: nat)
    requires FairRun(ss, rs, picks) && k < |rs|
    ensures W.Turn(Weights(ss[0]), Currents(ss[k]), picks[k], Currents(ss[k + 1]))
  {
    WeightsStay(ss, rs, picks, k);
    assert FairStep(ss, rs, picks, k);
    PickIsTurn(ss[k], rs[k], picks[k], ss[k + 1]);
  }

  /** Every fair run of the balancer is a run of the weight arithmetic. */
  lemma FairRunIsRun(ss: seq<seq<Peer>>, rs: seq<Round>, picks: seq<nat>)
    requires FairRun(ss, rs, picks)
    ensures W.Run(Weights(ss[0]), History(ss), picks)
  {
    var ws, cs := Weights(ss[0]), History(ss);
    assert W.Positive(ws) by {
      assert FairStep(ss, rs, picks, 0);
    }
    forall k: nat | k < |picks|
      ensures W.TurnOf(ws, cs, picks, k)
    {
      TurnAt(ss, rs, picks, k);
    }
  }

  ghost predicate AtRest(ps: seq<Peer>) {
    forall i | 0 <= i < |ps| :: ps[i].currentWeight == 0
  }

  /**
   Exact fairness: in a run from rest every window of W consecutive picks chooses
   each peer exactly `weight` times.
   */
  lemma ExactFairness(ss: seq<seq<Peer>>, rs: seq<Round>, picks: seq<nat>, t: nat, i: nat)
    requires FairRun(ss, rs, picks) && AtRest(ss[0])
    requires t + TierWeight(ss[0]) <= |rs|
    requires i < |ss[0]|
    ensures 0 < TierWeight(ss[0])
    ensures W.Count(picks, i, t + TierWeight(ss[0])) - W.Count(picks, i, t) == ss[0][i].weight
  {
    FairRunIsRun(ss, rs, picks);
    assert W.AllZero(History(ss)[0]);
    W.EveryWindowIsFair(Weights(ss[0]), History(ss), picks, t, i);
  }

  /** W picks from rest end at rest. */
  lemma RestIsPeriodic(ss: seq<seq<Peer>>, rs: seq<Round>, picks: seq<nat>)
    requires FairRun(ss, rs, picks) && AtRest(ss[0])
    requires TierWeight(ss[0]) <= |rs|
    ensures 0 < TierWeight(ss[0]) && AtRest(ss[TierWeight(ss[0])])
  {
    FairRunIsRun(ss, rs, picks);
    assert W.AllZero(History(ss)[0]);
    W.BackToRest(Weights(ss[0]), History(ss), picks);
    var last := ss[TierWeight(ss[0])];
    assert Currents(last) == History(ss)[TierWeight(ss[0])] == Currents(ss[0]);
    forall j | 0 <= j < |last|
      ensures last[j].currentWeight == 0
    {
      assert Currents(last)[j] == last[j].currentWeight;
    }
  }

  /**
   After any number of picks `t` from rest a peer chosen `k` times satisfies
   k * W < t * weight + W.
   */
  lemma NeverAhead(ss: seq<seq<Peer>>, rs: seq<Round>, picks: seq<nat>, t: nat, i: nat)
    requires FairRun(ss, rs, picks) && AtRest(ss[0])
    requires t <= |rs| && i < |ss[0]|
    ensures W.Count(picks, i, t) * TierWeight(ss[0]) < t * ss[0][i].weight + TierWeight(ss[0])
  {
    FairRunIsRun(ss, rs, picks);
    assert W.AllZero(History(ss)[0]);
    W.NeverAhead(Weights(ss[0]), History(ss), picks, t, i);
  }

  /** Nor does a peer lag by more than the other peers together can lead. */
  lemma NeverFarBehind(ss: seq<seq<Peer>>, rs: seq<Round>, picks: seq<nat>, t: nat, i: nat)
    requires FairRun(ss, rs, picks) && AtRest(ss[0])
    requires t <= |rs| && i < |ss[0]|
    ensures t * ss[0][i].weight
            <= W.Count(picks, i, t) * TierWeight(ss[0]) + (|ss[0]| - 1) * (TierWeight(ss[0]) - 1)
  {
    FairRunIsRun(ss, rs, picks);
    assert W.AllZero(History(ss)[0]);
    W.NeverFarBehind(Weights(ss[0]), History(ss), picks, t, i);
  }
}
