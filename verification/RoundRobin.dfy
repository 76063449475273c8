/**
 Smooth weighted round robin on values: the specification that the imperative
 balancer in RoundRobinPeers.dfy is proved against, and what every pick and
 every release keeps.
 */
module RoundRobin {

  import opened Bytes

  /** One upstream server as the balancer sees it. */
  datatype Peer = Peer(
    currentWeight: int,
    effectiveWeight: int,
    weight: int,
    conns: int,
    maxConns: nat,
    fails: nat,
    accessed: int,
    checked: int,
    maxFails: nat,
    failTimeout: int,
    down: bool)

  /** The peer is at its connection limit. A limit of zero is no limit. */
  predicate Saturated(p: Peer) {
    p.maxConns != 0 && p.conns >= p.maxConns
  }

  /** The peer has failed often enough to be left alone until `failTimeout` has passed. */
  predicate Resting(p: Peer, now: int) {
    p.maxFails != 0 && p.fails >= p.maxFails && now - p.checked <= p.failTimeout
  }

  predicate Eligible(p: Peer, tried: bool, now: int) {
    !tried && !p.down && !Resting(p, now) && !Saturated(p)
  }

  /** What the walk does to an eligible peer: pay in the effective weight, then let it recover by one. */
  function Bump(p: Peer): Peer {
    p.(currentWeight := p.currentWeight + p.effectiveWeight,
       effectiveWeight := if p.effectiveWeight < p.weight then p.effectiveWeight + 1 else p.effectiveWeight)
  }

  function WalkOne(p: Peer, tried: bool, now: int): Peer {
    if Eligible(p, tried, now) then Bump(p) else p
  }

  function Walk(ps: seq<Peer>, tried: set<nat>, now: int): (qs: seq<Peer>)
  {
    seq(|ps|, i requires 0 <= i < |ps| => WalkOne(ps[i], i in tried, now))
  }

  /** The effective weights paid in by the eligible peers among the first `n`. */
  function Total(ps: seq<Peer>, tried: set<nat>, now: int, n: nat): int
    requires n <= |ps|
  {
    if n == 0 then 0
    else Total(ps, tried, now, n - 1)
         + (if Eligible(ps[n - 1], (n - 1) in tried, now) then ps[n - 1].effectiveWeight else 0)
  }

  /** `b` is an eligible peer with the greatest current weight after the walk, the first of its equals. */
  ghost predicate IsBest(ps: seq<Peer>, tried: set<nat>, now: int, n: nat, b: nat)
    requires n <= |ps|
  {
    && b < n
    && Eligible(ps[b], b in tried, now)
    && (forall j: nat | j < n && Eligible(ps[j], j in tried, now) ::
          && Bump(ps[j]).currentWeight <= Bump(ps[b]).currentWeight
          && (j < b ==> Bump(ps[j]).currentWeight < Bump(ps[b]).currentWeight))
  }

  /** The peer the walk over the first `n` peers settles on. */
  function Best(ps: seq<Peer>, tried: set<nat>, now: int, n: nat): (best: Option<nat>)
    requires n <= |ps|
    ensures best.Some? ==> best.value < n
  {
    if n == 0 then None
    else
      var b := Best(ps, tried, now, n - 1);
      if !Eligible(ps[n - 1], (n - 1) in tried, now) then b
      else if b.None? || Bump(ps[n - 1]).currentWeight > Bump(ps[b.value]).currentWeight then Some(n - 1)
      else b
  }

  lemma {:induction false} BestIsBest(ps: seq<Peer>, tried: set<nat>, now: int, n: nat)
    requires n <= |ps|
    ensures Best(ps, tried, now, n).Some? ==> IsBest(ps, tried, now, n, Best(ps, tried, now, n).value)
    ensures Best(ps, tried, now, n).None? <==> forall j: nat | j < n :: !Eligible(ps[j], j in tried, now)
  {
    if n > 0 {
      BestIsBest(ps, tried, now, n - 1);
    }
  }

  /** The chosen peer pays for the whole round and starts a new check period when the last one is over. */
  function Charge(p: Peer, total: int, now: int): Peer {
    p.(currentWeight := p.currentWeight - total,
       checked := if now - p.checked > p.failTimeout then now else p.checked)
  }

  datatype Pick = Pick(peers: seq<Peer>, best: Option<nat>)

  /** One pick over a tier with several peers. */
  function GetPeer(ps: seq<Peer>, tried: set<nat>, now: int): (r: Pick)
    ensures |r.peers| == |ps|
    ensures r.best.Some? ==> IsBest(ps, tried, now, |ps|, r.best.value)
    ensures r.best.None? ==> r.peers == ps
    ensures r.best.None? <==> forall j: nat | j < |ps| :: !Eligible(ps[j], j in tried, now)
  {
    BestIsBest(ps, tried, now, |ps|);
    var qs := Walk(ps, tried, now);
    match Best(ps, tried, now, |ps|)
    case None => Pick(qs, None)
    case Some(b) => Pick(qs[b := Charge(qs[b], Total(ps, tried, now, |ps|), now)], Some(b))
  }

  /** What releasing a peer of a tier with several peers does to it. */
  function Release(p: Peer, failed: bool, now: int): Peer {
    var q :=
      if failed then
        var penalised := if p.maxFails != 0 then p.effectiveWeight - p.weight / p.maxFails else p.effectiveWeight;
        p.(fails := p.fails + 1,
           accessed := now,
           checked := now,
           effectiveWeight := if penalised < 0 then 0 else penalised)
      else if p.accessed < p.checked then p.(fails := 0)
      else p;
    q.(conns := q.conns - 1)
  }

  /** A successful connect marks the peer live if its check passed. */
  function Notify(p: Peer): Peer {
    if p.accessed < p.checked then p.(fails := 0) else p
  }

  // ----- Conservation of weight

  function SumCurrent(ps: seq<Peer>, n: nat): int
    requires n <= |ps|
  {
    if n == 0 then 0 else SumCurrent(ps, n - 1) + ps[n - 1].currentWeight
  }

  /** A tier in balance: its current weights cancel, and no effective weight has left its range. */
  ghost predicate Balanced(ps: seq<Peer>) {
    && SumCurrent(ps, |ps|) == 0
    && forall i | 0 <= i < |ps| :: 0 <= ps[i].effectiveWeight <= ps[i].weight
  }

  lemma {:induction false} SumCurrentWalk(ps: seq<Peer>, tried: set<nat>, now: int, n: nat)
    requires n <= |ps|
    ensures SumCurrent(Walk(ps, tried, now), n) == SumCurrent(ps, n) + Total(ps, tried, now, n)
  {
    if n > 0 {
      SumCurrentWalk(ps, tried, now, n - 1);
    }
  }

  lemma {:induction false} SumCurrentUpdate(ps: seq<Peer>, i: nat, q: Peer, n: nat)
    requires n <= |ps| && i < |ps|
    ensures SumCurrent(ps[i := q], n)
            == SumCurrent(ps, n) + (if i < n then q.currentWeight - ps[i].currentWeight else 0)
  {
    if n > 0 {
      SumCurrentUpdate(ps, i, q, n - 1);
    }
  }

  lemma GetPeerKeepsSum(ps: seq<Peer>, tried: set<nat>, now: int)
    ensures var qs := GetPeer(ps, tried, now).peers;
            SumCurrent(qs, |qs|) == SumCurrent(ps, |ps|)
  {
    var r := GetPeer(ps, tried, now);
    if r.best.Some? {
      var qs := Walk(ps, tried, now);
      var b := r.best.value;
      SumCurrentWalk(ps, tried, now, |ps|);
      SumCurrentUpdate(qs, b, Charge(qs[b], Total(ps, tried, now, |ps|), now), |ps|);
    }
  }

  lemma GetPeerKeepsRange(ps: seq<Peer>, tried: set<nat>, now: int, i: nat)
    requires i < |ps| && 0 <= ps[i].effectiveWeight <= ps[i].weight
    ensures var q := GetPeer(ps, tried, now).peers[i];
            0 <= q.effectiveWeight <= q.weight
  {
    var qs := Walk(ps, tried, now);
    assert qs[i] == WalkOne(ps[i], i in tried, now);
  }

  /** Every pick keeps a tier balanced, whichever of its peers are eligible. */
  lemma GetPeerKeepsBalance(ps: seq<Peer>, tried: set<nat>, now: int)
    requires Balanced(ps)
    ensures Balanced(GetPeer(ps, tried, now).peers)
  {
    GetPeerKeepsSum(ps, tried, now);
    forall i | 0 <= i < |ps|
      ensures 0 <= GetPeer(ps, tried, now).peers[i].effectiveWeight <= GetPeer(ps, tried, now).peers[i].weight
    {
      GetPeerKeepsRange(ps, tried, now, i);
    }
  }

  /** Every change of one peer that leaves its current weight alone and its effective weight in range keeps balance. */
  lemma UpdateKeepsBalance(ps: seq<Peer>, i: nat, q: Peer)
    requires Balanced(ps) && i < |ps|
    requires q.currentWeight == ps[i].currentWeight && q.weight == ps[i].weight
    requires 0 <= q.effectiveWeight <= q.weight
    ensures Balanced(ps[i := q])
  {
    SumCurrentUpdate(ps, i, q, |ps|);
  }

  /** A failure penalty never takes an effective weight out of its range, however often it strikes. */
  lemma ReleaseKeepsBalance(ps: seq<Peer>, i: nat, failed: bool, now: int)
    requires Balanced(ps) && i < |ps|
    ensures Balanced(ps[i := Release(ps[i], failed, now)])
  {
    var p := ps[i];
    if p.maxFails != 0 {
      assert p.weight / p.maxFails >= 0;
    }
    UpdateKeepsBalance(ps, i, Release(p, failed, now));
  }
}
