/**
 Getting and releasing a peer across a primary and a backup tier, on values:
 the specification of the imperative balancer in RoundRobinPeers.dfy.
 */
module Balancer {
  import opened Bytes
  import opened RoundRobin

  /** The servers of one tier. A single peer without backup is served without weights. */
  datatype Tier = Tier(peers: seq<Peer>, single: bool)

  /** A session's place in the balancer: its tier, the peer it was given, and those it has tried there. */
  datatype Cursor = Cursor(tier: nat, current: Option<nat>, tried: set<nat>)

  datatype Got = Got(tiers: seq<Tier>, cursor: Cursor, ok: bool)

  /** What configuration produces: one or two tiers, none of them empty, and no backup behind a single peer. */
  ghost predicate WellFormed(tiers: seq<Tier>) {
    && 1 <= |tiers| <= 2
    && (forall t | 0 <= t < |tiers| :: |tiers[t].peers| > 0)
    && (forall t | 0 <= t < |tiers| :: tiers[t].single ==> |tiers[t].peers| == 1 && |tiers| == 1)
  }

  function Acquire(p: Peer): Peer {
    p.(conns := p.conns + 1)
  }

  /** The peers of the tier `t` change; everything else stays. */
  function SetPeers(tiers: seq<Tier>, t: nat, peers: seq<Peer>): seq<Tier>
    requires t < |tiers|
  {
    tiers[t := tiers[t].(peers := peers)]
  }

  /** Take a peer from the cursor's own tier, if it has one to give. */
  function GetHere(tiers: seq<Tier>, c: Cursor, now: int): (g: Option<Got>)
    requires c.tier < |tiers| && |tiers[c.tier].peers| > 0
  {
    var t := tiers[c.tier];
    if t.single then
      var p := t.peers[0];
      if p.down || Saturated(p) then None
      else Some(Got(SetPeers(tiers, c.tier, t.peers[0 := Acquire(p)]), c.(current := Some(0)), true))
    else
      var pick := GetPeer(t.peers, c.tried, now);
      match pick.best
      case None => None
      case Some(b) =>
        Some(Got(SetPeers(tiers, c.tier, pick.peers[b := Acquire(pick.peers[b])]),
                 Cursor(c.tier, Some(b), c.tried + {b}), true))
  }

  lemma SingleIsGranted(tiers: seq<Tier>, c: Cursor, now: int)
    requires c.tier < |tiers| && |tiers[c.tier].peers| > 0 && tiers[c.tier].single && GetHere(tiers, c, now).Some?
    ensures Granted(tiers, c, GetHere(tiers, c, now).value)
  {
    AcquireKeepsBalance(tiers[c.tier].peers, 0);
  }

  /** What a pick leaves alone in every peer. */
  lemma PickCounts(ps: seq<Peer>, tried: set<nat>, now: int, i: nat)
    requires i < |ps|
    ensures var q := GetPeer(ps, tried, now).peers[i];
            q.conns == ps[i].conns && q.maxConns == ps[i].maxConns
  {
    assert Walk(ps, tried, now)[i] == WalkOne(ps[i], i in tried, now);
  }

  lemma PickIsGranted(tiers: seq<Tier>, c: Cursor, now: int)
    requires c.tier < |tiers| && |tiers[c.tier].peers| > 0 && !tiers[c.tier].single && GetHere(tiers, c, now).Some?
    ensures Granted(tiers, c, GetHere(tiers, c, now).value)
  {
    var ps := tiers[c.tier].peers;
    PickKeepsBalance(ps, c.tried, now);
    forall i: nat | i < |ps|
      ensures GetPeer(ps, c.tried, now).peers[i].conns == ps[i].conns
      ensures GetPeer(ps, c.tried, now).peers[i].maxConns == ps[i].maxConns
    {
      PickCounts(ps, c.tried, now, i);
    }
  }

  /** What a tier gives is a proper grant, and stays in that tier. */
  lemma HereIsGranted(tiers: seq<Tier>, c: Cursor, now: int)
    requires c.tier < |tiers| && |tiers[c.tier].peers| > 0
    ensures var g := GetHere(tiers, c, now);
            g.Some? ==> g.value.ok && g.value.cursor.tier == c.tier && Granted(tiers, c, g.value)
  {
    if GetHere(tiers, c, now).Some? {
      if tiers[c.tier].single {
        SingleIsGranted(tiers, c, now);
      } else {
        PickIsGranted(tiers, c, now);
      }
    }
  }

  /** Take a peer from the cursor's tier, or start afresh in the next tier; not `ok` is NGX_BUSY. */
  function GetRoundRobinPeer(tiers: seq<Tier>, c: Cursor, now: int): (g: Got)
    requires c.tier < |tiers| && forall t | 0 <= t < |tiers| :: |tiers[t].peers| > 0
    ensures g.ok ==> Granted(tiers, c, g)
    ensures !g.ok ==> Busy(tiers, c, g)
    decreases |tiers| - c.tier
  {
    HereIsGranted(tiers, c, now);
    match GetHere(tiers, c, now)
    case Some(g) => g
    case None =>
      if c.tier + 1 < |tiers| then GetRoundRobinPeer(tiers, Cursor(c.tier + 1, c.current, {}), now)
      else Got(tiers, c, false)
  }

  // ----- When there is a peer to give

  /**
   Peer `i` of a tier can be given at `now`: it is up, below its connection limit, and has not used up its
   failures in the current period; the failures of a single peer do not count.
   */
  ghost predicate CanGive(t: Tier, i: nat, now: int)
    requires i < |t.peers|
  {
    var p := t.peers[i];
    && !p.down
    && (p.maxConns == 0 || p.conns < p.maxConns)
    && (t.single || p.maxFails == 0 || p.fails < p.maxFails || now - p.checked > p.failTimeout)
  }

  /** Tier `t` has a peer to give to a session at `c` that has not tried it there. */
  ghost predicate Spare(tiers: seq<Tier>, c: Cursor, t: nat, now: int)
    requires t < |tiers|
  {
    exists i: nat | i < |tiers[t].peers| :: Untried(tiers, c, t, i) && CanGive(tiers[t], i, now)
  }

  /** A single peer is not marked as tried. */
  ghost predicate Untried(tiers: seq<Tier>, c: Cursor, t: nat, i: nat)
    requires t < |tiers|
  {
    tiers[t].single || i !in TriedIn(c, t)
  }

  /** One tier gives a peer exactly when it has one to give, and gives such a peer. */
  lemma HereIsSpare(tiers: seq<Tier>, c: Cursor, now: int)
    requires c.tier < |tiers| && |tiers[c.tier].peers| > 0 && (tiers[c.tier].single ==> |tiers[c.tier].peers| == 1)
    ensures GetHere(tiers, c, now).Some? <==> Spare(tiers, c, c.tier, now)
    ensures var g := GetHere(tiers, c, now);
            g.Some? ==>
              && g.value.cursor.current.Some? && g.value.cursor.current.value < |tiers[c.tier].peers|
              && CanGive(tiers[c.tier], g.value.cursor.current.value, now)
  {
    var t := tiers[c.tier];
    if t.single {
      assert CanGive(t, 0, now) <==> !t.peers[0].down && !Saturated(t.peers[0]);
      assert Untried(tiers, c, c.tier, 0);
    } else {
      forall i: nat | i < |t.peers|
        ensures Eligible(t.peers[i], i in c.tried, now) <==> Untried(tiers, c, c.tier, i) && CanGive(t, i, now)
      {
      }
    }
  }

  /** Nothing changes for a later tier when a session moves on to the next one. */
  lemma SpareAhead(tiers: seq<Tier>, c: Cursor, d: Cursor, t: nat, now: int)
    requires c.tier < d.tier <= t < |tiers| && d.tried == {}
    ensures Spare(tiers, d, t, now) <==> Spare(tiers, c, t, now)
  {
    assert TriedIn(c, t) == {} == TriedIn(d, t);
    assert forall i: nat :: Untried(tiers, c, t, i) <==> Untried(tiers, d, t, i);
  }

  /** What a get answers: whether a tier from the session's own on has a peer to give, and the first that has. */
  ghost predicate Answers(tiers: seq<Tier>, c: Cursor, now: int, g: Got) {
    if !g.ok then forall t: nat | c.tier <= t < |tiers| :: !Spare(tiers, c, t, now)
    else
      var t := g.cursor.tier;
      && c.tier <= t < |tiers| && g.cursor.current.Some? && g.cursor.current.value < |tiers[t].peers|
      && Spare(tiers, c, t, now) && CanGive(tiers[t], g.cursor.current.value, now)
      && forall u: nat | c.tier <= u < t :: !Spare(tiers, c, u, now)
  }

  lemma AnswersAhead(tiers: seq<Tier>, c: Cursor, d: Cursor, now: int, g: Got)
    requires c.tier + 1 == d.tier < |tiers| && d.tried == {} && !Spare(tiers, c, c.tier, now) && Answers(tiers, d, now, g)
    ensures Answers(tiers, c, now, g)
  {
    forall t: nat | d.tier <= t < |tiers| ensures Spare(tiers, d, t, now) <==> Spare(tiers, c, t, now) {
      SpareAhead(tiers, c, d, t, now);
    }
  }

  /** Tiers as configuration produces them, of any number. */
  ghost predicate Shaped(tiers: seq<Tier>) {
    forall t | 0 <= t < |tiers| :: |tiers[t].peers| > 0 && (tiers[t].single ==> |tiers[t].peers| == 1)
  }

  /** A get by whether the session's own tier has something to give. */
  lemma GetByTier(tiers: seq<Tier>, c: Cursor, now: int, g: Got)
    requires c.tier < |tiers| && Shaped(tiers) && g == GetRoundRobinPeer(tiers, c, now)
    ensures Spare(tiers, c, c.tier, now) ==> g.ok && Answers(tiers, c, now, g)
    ensures !Spare(tiers, c, c.tier, now) ==>
              if c.tier + 1 < |tiers| then g == GetRoundRobinPeer(tiers, Cursor(c.tier + 1, c.current, {}), now) else !g.ok
  {
    HereIsSpare(tiers, c, now);
    HereIsGranted(tiers, c, now);
  }

  lemma {:induction false} GetAnswers(tiers: seq<Tier>, c: Cursor, now: int, g: Got)
    requires c.tier < |tiers| && Shaped(tiers) && g == GetRoundRobinPeer(tiers, c, now)
    ensures Answers(tiers, c, now, g)
    decreases |tiers| - c.tier
  {
    GetByTier(tiers, c, now, g);
    if !Spare(tiers, c, c.tier, now) && c.tier + 1 < |tiers| {
      var d := Cursor(c.tier + 1, c.current, {});
      GetAnswers(tiers, d, now, g);
      AnswersAhead(tiers, c, d, now, g);
    }
  }

  /**
   A get is refused exactly when no peer of the session's tier that it has not tried, and no peer of a later
   tier, can be given; a grant is of such a peer, and from the first tier that has one.
   */
  lemma RefusedIffNoneLeft(tiers: seq<Tier>, c: Cursor, now: int)
    requires c.tier < |tiers| && Shaped(tiers)
    ensures var g := GetRoundRobinPeer(tiers, c, now);
            && (!g.ok <==> forall t: nat | c.tier <= t < |tiers| :: !Spare(tiers, c, t, now))
            && (g.ok ==> Spare(tiers, c, g.cursor.tier, now) && forall t: nat | c.tier <= t < g.cursor.tier :: !Spare(tiers, c, t, now))
            && (g.ok ==> CanGive(tiers[g.cursor.tier], g.cursor.current.value, now))
  {
    GetAnswers(tiers, c, now, GetRoundRobinPeer(tiers, c, now));
  }

  lemma AcquireKeepsBalance(ps: seq<Peer>, i: nat)
    requires i < |ps|
    ensures Balanced(ps) ==> Balanced(ps[i := Acquire(ps[i])])
  {
    if Balanced(ps) {
      UpdateKeepsBalance(ps, i, Acquire(ps[i]));
    }
  }

  lemma PickKeepsBalance(ps: seq<Peer>, tried: set<nat>, now: int)
    requires GetPeer(ps, tried, now).best.Some?
    ensures var pick := GetPeer(ps, tried, now);
            Balanced(ps) ==> Balanced(pick.peers[pick.best.value := Acquire(pick.peers[pick.best.value])])
  {
    if Balanced(ps) {
      GetPeerKeepsBalance(ps, tried, now);
      AcquireKeepsBalance(GetPeer(ps, tried, now).peers, GetPeer(ps, tried, now).best.value);
    }
  }

  /** The peers a session that is now in tier `t` had tried there before. */
  ghost function TriedIn(c: Cursor, t: nat): set<nat> {
    if t == c.tier then c.tried else {}
  }

  /** A grant gives one peer that was not tried and not saturated one more connection, and counts nothing else. */
  ghost predicate Granted(tiers: seq<Tier>, c: Cursor, g: Got) {
    var t := g.cursor.tier;
    && c.tier <= t < |tiers| == |g.tiers|
    && g.cursor.current.Some?
    && var b := g.cursor.current.value;
    && g.tiers == tiers[t := g.tiers[t]]
    && g.tiers[t].single == tiers[t].single
    && |g.tiers[t].peers| == |tiers[t].peers|
    && b < |tiers[t].peers|
    && !Saturated(tiers[t].peers[b]) && !tiers[t].peers[b].down
    && (if tiers[t].single then b == 0 && g.cursor.tried == TriedIn(c, t)
        else b !in TriedIn(c, t) && g.cursor.tried == TriedIn(c, t) + {b})
    && (forall i: nat | i < |tiers[t].peers| ::
          && g.tiers[t].peers[i].conns == tiers[t].peers[i].conns + (if i == b then 1 else 0)
          && g.tiers[t].peers[i].maxConns == tiers[t].peers[i].maxConns)
    && (Balanced(tiers[t].peers) ==> Balanced(g.tiers[t].peers))
  }

  /** A refusal changes nobody, and leaves the session in the last tier. */
  ghost predicate Busy(tiers: seq<Tier>, c: Cursor, g: Got) {
    && g.tiers == tiers
    && g.cursor.tier == |tiers| - 1
    && g.cursor.current == c.current
    && g.cursor.tried == TriedIn(c, |tiers| - 1)
  }

  datatype Freed = Freed(tiers: seq<Tier>, tries: nat)

  /** Give the current peer back, after a failure or not. */
  function FreeRoundRobinPeer(tiers: seq<Tier>, c: Cursor, tries: nat, failed: bool, now: int): (f: Freed)
    requires c.tier < |tiers| && c.current.Some? && c.current.value < |tiers[c.tier].peers|
  {
    var t, b := tiers[c.tier], c.current.value;
    var p := t.peers[b];
    if t.single then Freed(SetPeers(tiers, c.tier, t.peers[b := p.(conns := p.conns - 1)]), 0)
    else Freed(SetPeers(tiers, c.tier, t.peers[b := Release(p, failed, now)]), if tries > 0 then tries - 1 else 0)
  }

  /** Nobody but the peer given back is touched; it has one connection less and the session one try less, or none. */
  ghost predicate GivenBack(tiers: seq<Tier>, c: Cursor, tries: nat, f: Freed)
    requires c.tier < |tiers| && c.current.Some? && c.current.value < |tiers[c.tier].peers|
  {
    var t, b := c.tier, c.current.value;
    && |f.tiers| == |tiers|
    && f.tiers == tiers[t := f.tiers[t]]
    && f.tiers[t].single == tiers[t].single
    && |f.tiers[t].peers| == |tiers[t].peers|
    && f.tiers[t].peers == tiers[t].peers[b := f.tiers[t].peers[b]]
    && f.tiers[t].peers[b].conns == tiers[t].peers[b].conns - 1
    && f.tiers[t].peers[b].maxConns == tiers[t].peers[b].maxConns
    && (Balanced(tiers[t].peers) ==> Balanced(f.tiers[t].peers))
    && f.tries == (if tiers[t].single || tries == 0 then 0 else tries - 1)
  }

  lemma FreeEffect(tiers: seq<Tier>, c: Cursor, tries: nat, failed: bool, now: int)
    requires c.tier < |tiers| && c.current.Some? && c.current.value < |tiers[c.tier].peers|
    ensures GivenBack(tiers, c, tries, FreeRoundRobinPeer(tiers, c, tries, failed, now))
  {
    var ps, b := tiers[c.tier].peers, c.current.value;
    if Balanced(ps) {
      if tiers[c.tier].single {
        UpdateKeepsBalance(ps, b, ps[b].(conns := ps[b].conns - 1));
      } else {
        ReleaseKeepsBalance(ps, b, failed, now);
      }
    }
  }

  /** How often a session may try: once per peer of either tier, or as often as it is told when that is less. */
  function Tries(tiers: seq<Tier>, limit: nat): (n: nat)
    requires 1 <= |tiers| <= 2
  {
    var all := |tiers[0].peers| + (if |tiers| > 1 then |tiers[1].peers| else 0);
    if limit != 0 && all > limit then limit else all
  }

  /** The peers of all tiers. */
  function Everybody(tiers: seq<Tier>): nat {
    if tiers == [] then 0 else |tiers[0].peers| + Everybody(tiers[1..])
  }

  /** A session has a try for every peer unless the limit is below that, and then as many as the limit. */
  lemma TriesAre(tiers: seq<Tier>, limit: nat)
    requires WellFormed(tiers)
    ensures Tries(tiers, limit) > 0
    ensures limit == 0 || limit >= Everybody(tiers) <==> Tries(tiers, limit) == Everybody(tiers)
    ensures 0 < limit < Everybody(tiers) ==> Tries(tiers, limit) == limit
  {
    assert |tiers| > 1 ==> tiers[1..][0] == tiers[1] && tiers[1..][1..] == [];
  }
}
