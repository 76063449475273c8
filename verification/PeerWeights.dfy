/**
 What failures and picks do to the weights of a peer: every failure takes off the same part of its effective
 weight, every pick it is eligible for gives one back, and a pick moves the current weights by the effective ones.
 */
module PeerWeights {
  import opened Bytes
  import opened RoundRobin
  import opened Balancer
  import W = SmoothWeights

  function Max(a: int, b: int): int {
    if a >= b then a else b
  }

  function Min(a: int, b: int): int {
    if a <= b then a else b
  }

  /** The peer after failures at the given times, with no pick in between. */
  function AfterFailures(p: Peer, times: seq<int>): Peer {
    if times == [] then p else Release(AfterFailures(p, times[..|times| - 1]), true, times[|times| - 1])
  }

  lemma OneMoreTimes(n: nat, d: int)
    requires n > 0
    ensures n * d == (n - 1) * d + d
  {
  }

  /** Each failure counts, is noted with its time, and takes weight / max_fails off the effective weight, down to zero. */
  lemma {:induction false} FailuresTell(p: Peer, times: seq<int>)
    requires p.effectiveWeight >= 0 && p.weight >= 0
    ensures var q, n := AfterFailures(p, times), |times|;
            && q.fails == p.fails + n && q.conns == p.conns - n
            && (n > 0 ==> q.accessed == times[n - 1] && q.checked == times[n - 1])
            && q.effectiveWeight ==
               (if p.maxFails == 0 then p.effectiveWeight else Max(0, p.effectiveWeight - n * (p.weight / p.maxFails)))
            && q.weight == p.weight && q.maxFails == p.maxFails && q.failTimeout == p.failTimeout
            && q.currentWeight == p.currentWeight && q.maxConns == p.maxConns && q.down == p.down
  {
    if times != [] {
      FailuresTell(p, times[..|times| - 1]);
      if p.maxFails != 0 {
        var part := p.weight / p.maxFails;
        PartIsNotNegative(p.weight, p.maxFails);
        OneMoreTimes(|times|, part);
        OneMoreFailure(p.effectiveWeight, |times| - 1, part);
      }
    }
  }

  lemma PartIsNotNegative(w: int, n: int)
    requires w >= 0 && n > 0
    ensures w / n >= 0
  {
  }

  /** Taking off once more, from what was already cut off at zero. */
  lemma OneMoreFailure(eff: int, n: nat, part: int)
    requires eff >= 0 && part >= 0
    ensures Max(0, Max(0, eff - n * part) - part) == Max(0, eff - (n + 1) * part)
  {
    OneMoreTimes(n + 1, part);
  }

  /** The peer may be picked: it is not tried, up, below its limits, or its rest is over. */
  ghost predicate MayBePicked(ps: seq<Peer>, tried: set<nat>, now: int, i: nat)
    requires i < |ps|
  {
    i !in tried && CanGive(Tier(ps, false), i, now)
  }

  lemma MayBePickedIs(ps: seq<Peer>, tried: set<nat>, now: int, i: nat)
    requires i < |ps|
    ensures MayBePicked(ps, tried, now, i) <==> Eligible(ps[i], i in tried, now)
  {
  }

  /** What each peer pays in: its effective weight, if it may be picked. */
  ghost function Paid(ps: seq<Peer>, tried: set<nat>, now: int): seq<int> {
    seq(|ps|, i requires 0 <= i < |ps| => if MayBePicked(ps, tried, now, i) then ps[i].effectiveWeight else 0)
  }

  lemma {:induction false} TotalIsPaid(ps: seq<Peer>, tried: set<nat>, now: int, n: nat)
    requires n <= |ps|
    ensures Total(ps, tried, now, n) == W.Sum(Paid(ps, tried, now), n)
  {
    if n > 0 {
      TotalIsPaid(ps, tried, now, n - 1);
      MayBePickedIs(ps, tried, now, n - 1);
    }
  }

  /** `b` is the first of those who may be picked with the most after paying in. */
  ghost predicate Richest(ps: seq<Peer>, tried: set<nat>, now: int, b: nat) {
    && b < |ps| && MayBePicked(ps, tried, now, b)
    && forall j: nat | j < |ps| && MayBePicked(ps, tried, now, j) ::
         && ps[j].currentWeight + ps[j].effectiveWeight <= ps[b].currentWeight + ps[b].effectiveWeight
         && (j < b ==> ps[j].currentWeight + ps[j].effectiveWeight < ps[b].currentWeight + ps[b].effectiveWeight)
  }

  /**
   A pick, at any effective weights: everybody who may be picked pays in, the richest takes it all out again
   and is chosen, and effective weights recover by one up to `weight`. Nobody is chosen exactly when nobody may be.
   */
  lemma PickTells(ps: seq<Peer>, tried: set<nat>, now: int)
    ensures var pick, paid := GetPeer(ps, tried, now), Paid(ps, tried, now);
            && (pick.best.None? <==> forall i: nat | i < |ps| :: !MayBePicked(ps, tried, now, i))
            && (pick.best.Some? ==> Richest(ps, tried, now, pick.best.value))
            && forall i: nat | i < |ps| :: PickMoves(ps, pick, paid, i)
  {
    forall i: nat | i < |ps| ensures MayBePicked(ps, tried, now, i) <==> Eligible(ps[i], i in tried, now) {
      MayBePickedIs(ps, tried, now, i);
    }
    TotalIsPaid(ps, tried, now, |ps|);
    forall i: nat | i < |ps| ensures PickMoves(ps, GetPeer(ps, tried, now), Paid(ps, tried, now), i) {
      PickMovesOne(ps, tried, now, i);
    }
  }

  ghost predicate PickMoves(ps: seq<Peer>, pick: Pick, paid: seq<int>, i: nat)
    requires i < |ps| == |pick.peers| == |paid|
  {
    pick.peers[i].currentWeight == ps[i].currentWeight + paid[i] - if pick.best == Some(i) then W.Whole(paid) else 0
  }

  lemma PickMovesOne(ps: seq<Peer>, tried: set<nat>, now: int, i: nat)
    requires i < |ps|
    ensures PickMoves(ps, GetPeer(ps, tried, now), Paid(ps, tried, now), i)
  {
    TotalIsPaid(ps, tried, now, |ps|);
    MayBePickedIs(ps, tried, now, i);
    assert Walk(ps, tried, now)[i] == WalkOne(ps[i], i in tried, now);
  }

  /** A pick gives back one of what failures took off, to those it may pick. */
  lemma PickRecovers(ps: seq<Peer>, tried: set<nat>, now: int, i: nat)
    requires i < |ps| && ps[i].effectiveWeight <= ps[i].weight
    ensures var q := GetPeer(ps, tried, now).peers[i];
            && q.effectiveWeight ==
               (if MayBePicked(ps, tried, now, i) then Min(ps[i].weight, ps[i].effectiveWeight + 1) else ps[i].effectiveWeight)
            && q.weight == ps[i].weight && q.fails == ps[i].fails && q.accessed == ps[i].accessed
            && q.checked == (if GetPeer(ps, tried, now).best == Some(i) && now - ps[i].checked > ps[i].failTimeout
                             then now else ps[i].checked)
  {
    MayBePickedIs(ps, tried, now, i);
    assert Walk(ps, tried, now)[i] == WalkOne(ps[i], i in tried, now);
  }

  /** What a pick brings along. */
  datatype Round = Round(tried: set<nat>, now: int)

  /** Picks one after the other. */
  ghost predicate Picks(ss: seq<seq<Peer>>, rs: seq<Round>) {
    |ss| == |rs| + 1 && forall k: nat | k < |rs| :: PickAt(ss, rs, k)
  }

  ghost predicate PickAt(ss: seq<seq<Peer>>, rs: seq<Round>, k: nat)
    requires k < |rs| < |ss|
  {
    ss[k + 1] == GetPeer(ss[k], rs[k].tried, rs[k].now).peers
  }

  /** After `n` picks that it was eligible for, a peer has recovered by `n`, up to its weight. */
  lemma {:induction false} PicksRecover(ss: seq<seq<Peer>>, rs: seq<Round>, i: nat, n: nat)
    requires Picks(ss, rs) && n <= |rs| && i < |ss[0]| && ss[0][i].effectiveWeight <= ss[0][i].weight
    requires forall k: nat | k < n :: i < |ss[k]| && MayBePicked(ss[k], rs[k].tried, rs[k].now, i)
    ensures |ss[n]| == |ss[0]| && ss[n][i].weight == ss[0][i].weight
    ensures ss[n][i].effectiveWeight == Min(ss[0][i].weight, ss[0][i].effectiveWeight + n)
  {
    if n > 0 {
      PicksRecover(ss, rs, i, n - 1);
      assert PickAt(ss, rs, n - 1);
      PickRecovers(ss[n - 1], rs[n - 1].tried, rs[n - 1].now, i);
    }
  }

  /** A release without failure, and a notification, clear the failures exactly when the last check is newer than the last failure. */
  lemma SuccessTells(p: Peer, now: int)
    ensures Release(p, false, now) == p.(conns := p.conns - 1, fails := if p.accessed < p.checked then 0 else p.fails)
    ensures Notify(p) == p.(fails := if p.accessed < p.checked then 0 else p.fails)
  {
  }

  /** A single peer is given and given back by its count alone. */
  lemma SingleTells(tiers: seq<Tier>, c: Cursor, now: int, tries: nat, failed: bool)
    requires c.tier < |tiers| && tiers[c.tier].single && |tiers[c.tier].peers| == 1
    ensures var p, g := tiers[c.tier].peers[0], GetHere(tiers, c, now);
            g.Some? ==> g.value.tiers == tiers[c.tier := Tier([p.(conns := p.conns + 1)], true)]
    ensures c.current == Some(0) ==>
              var p, f := tiers[c.tier].peers[0], FreeRoundRobinPeer(tiers, c, tries, failed, now);
              f.tries == 0 && f.tiers == tiers[c.tier := Tier([p.(conns := p.conns - 1)], true)]
  {
    var p := tiers[c.tier].peers[0];
    assert tiers[c.tier].peers == [p];
    assert [p][0 := p.(conns := p.conns + 1)] == [p.(conns := p.conns + 1)];
    assert [p][0 := p.(conns := p.conns - 1)] == [p.(conns := p.conns - 1)];
  }
}
