/**
 What a failing peer is spared: over any interleaving of sessions, with a clock that does not go back,
 a peer that has failed `max_fails` times is given to nobody until `fail_timeout` has passed.
 */
module PeerRest {
  import opened Bytes
  import opened RoundRobin
  import opened Balancer
  import opened Sessions

  /** Out since a failure at `since`, and checked at that time or later. */
  ghost predicate Out(p: Peer, since: int) {
    p.maxFails != 0 && p.fails >= p.maxFails && p.accessed == p.checked && since <= p.checked
  }

  /** The rest still lasts at `now`. */
  ghost predicate Lasts(p: Peer, since: int, now: int) {
    now - since <= p.failTimeout
  }

  lemma OutIsResting(p: Peer, since: int, now: int)
    requires Out(p, since) && Lasts(p, since, now)
    ensures Resting(p, now)
  {
  }

  /** A pick neither changes nor chooses a resting peer. */
  lemma PickSpares(ps: seq<Peer>, tried: set<nat>, now: int, i: nat)
    requires i < |ps| && Resting(ps[i], now)
    ensures GetPeer(ps, tried, now).peers[i] == ps[i]
    ensures GetPeer(ps, tried, now).best != Some(i)
  {
    var qs := Walk(ps, tried, now);
    assert !Eligible(ps[i], i in tried, now);
    assert qs[i] == ps[i];
  }

  lemma HereSpares(tiers: seq<Tier>, c: Cursor, now: int, t: nat, i: nat)
    requires c.tier < |tiers| && |tiers[c.tier].peers| > 0
    requires t < |tiers| && !tiers[t].single && i < |tiers[t].peers| && Resting(tiers[t].peers[i], now)
    ensures var g := GetHere(tiers, c, now);
            g.Some? ==> Spared(tiers, g.value, t, i)
  {
    if t == c.tier {
      PickSpares(tiers[t].peers, c.tried, now, i);
    }
  }

  /** The peer is as it was and has not been given out. */
  ghost predicate Spared(tiers: seq<Tier>, g: Got, t: nat, i: nat)
    requires t < |tiers| && i < |tiers[t].peers|
  {
    && |g.tiers| == |tiers| && |g.tiers[t].peers| == |tiers[t].peers|
    && g.tiers[t].single == tiers[t].single
    && g.tiers[t].peers[i] == tiers[t].peers[i]
    && (g.ok ==> !(g.cursor.tier == t && g.cursor.current == Some(i)))
  }

  lemma {:induction false} GetSpares(tiers: seq<Tier>, c: Cursor, now: int, t: nat, i: nat)
    requires c.tier < |tiers| && forall k | 0 <= k < |tiers| :: |tiers[k].peers| > 0
    requires t < |tiers| && !tiers[t].single && i < |tiers[t].peers| && Resting(tiers[t].peers[i], now)
    ensures Spared(tiers, GetRoundRobinPeer(tiers, c, now), t, i)
    decreases |tiers| - c.tier
  {
    HereSpares(tiers, c, now, t, i);
    if GetHere(tiers, c, now).None? && c.tier + 1 < |tiers| {
      GetSpares(tiers, Cursor(c.tier + 1, c.current, {}), now, t, i);
    }
  }

  /** Releases and notifications by those who still hold it leave it out. */
  lemma ReleaseStaysOut(p: Peer, failed: bool, since: int, now: int)
    requires Out(p, since) && since <= now
    ensures Out(Release(p, failed, now), since)
    ensures Release(p, failed, now).failTimeout == p.failTimeout
  {
  }

  lemma NotifyStaysOut(p: Peer, since: int)
    requires Out(p, since)
    ensures Notify(p) == p
  {
  }

  predicate Timed(e: Event) {
    e.Connect? || e.Next? || e.Finalize?
  }

  function Time(e: Event): int {
    match e
    case Connect(_, now) => now
    case Next(_, now, _) => now
    case Finalize(_, now) => now
    case _ => 0
  }

  /** The clock does not go back. */
  ghost predicate Forward(es: seq<Event>) {
    forall j, k :: 0 <= j < k < |es| && Timed(es[j]) && Timed(es[k]) ==> Time(es[j]) <= Time(es[k])
  }

  /** The peer `i` of tier `t` is out since `since`. */
  ghost predicate PeerOut(sys: System, t: nat, i: nat, since: int, timeout: int) {
    && t < |sys.tiers| && i < |sys.tiers[t].peers| && !sys.tiers[t].single
    && Out(sys.tiers[t].peers[i], since) && sys.tiers[t].peers[i].failTimeout == timeout
  }

  /** While the rest lasts no step ends it, and no step gives the peer to a session that did not have it. */
  lemma StepSpares(sys: System, e: Event, t: nat, i: nat, since: int, timeout: int)
    requires Enabled(sys, e) && PeerOut(sys, t, i, since, timeout)
    requires Timed(e) ==> since <= Time(e) <= since + timeout
    ensures PeerOut(Step(sys, e), t, i, since, timeout)
    ensures e.Connect? ==> !Holds(Step(sys, e).sessions[e.sid], t, i)
  {
    var p := sys.tiers[t].peers[i];
    match e
    case Open(_, _) =>
    case Connect(sid, now) =>
      OutIsResting(p, since, now);
      GetSpares(sys.tiers, sys.sessions[sid].cursor, now, t, i);
    case Connected(_) => NotifyStaysOut(p, since);
    case Next(_, now, _) => ReleaseStaysOut(p, true, since, now);
    case Finalize(_, now) => ReleaseStaysOut(p, false, since, now);
  }

  /** A failure that reaches `max_fails` puts the peer out. */
  lemma FailurePutsOut(sys: System, e: Event, t: nat, i: nat)
    requires Enabled(sys, e) && e.Next? && Holds(sys.sessions[e.sid], t, i) && !sys.tiers[t].single
    requires var p := sys.tiers[t].peers[i];
             p.maxFails != 0 && p.fails + 1 >= p.maxFails
    ensures PeerOut(Step(sys, e), t, i, e.now, sys.tiers[t].peers[i].failTimeout)
  {
  }

  lemma RunSpares(ss: seq<System>, es: seq<Event>, n: nat, t: nat, i: nat, since: int, timeout: int)
    requires Run(ss, es) && n < |es| && PeerOut(ss[n], t, i, since, timeout)
    requires Timed(es[n]) ==> since <= Time(es[n]) <= since + timeout
    ensures PeerOut(ss[n + 1], t, i, since, timeout)
  {
    assert Enabled(ss[n], es[n]);
    StepSpares(ss[n], es[n], t, i, since, timeout);
  }

  lemma {:induction false} StaysOut(ss: seq<System>, es: seq<Event>, k: nat, m: nat, j: nat, t: nat, i: nat, timeout: int)
    requires Run(ss, es) && Forward(es) && k < m <= j < |es| && Timed(es[k]) && Timed(es[j])
    requires Time(es[j]) - Time(es[k]) <= timeout && PeerOut(ss[k + 1], t, i, Time(es[k]), timeout)
    ensures PeerOut(ss[m], t, i, Time(es[k]), timeout)
    decreases m - k
  {
    if m > k + 1 {
      StaysOut(ss, es, k, m - 1, j, t, i, timeout);
      RunSpares(ss, es, m - 1, t, i, Time(es[k]), timeout);
    }
  }

  /**
   From a failure that reaches `max_fails` on, no session of any interleaving is given the peer until
   more than `fail_timeout` has passed.
   */
  lemma FailedPeerRests(ss: seq<System>, es: seq<Event>, k: nat, j: nat, t: nat, i: nat)
    requires Run(ss, es) && Forward(es) && k < j < |es|
    requires es[k].Next? && es[k].sid in ss[k].sessions && Holds(ss[k].sessions[es[k].sid], t, i)
    requires t < |ss[k].tiers| && i < |ss[k].tiers[t].peers| && !ss[k].tiers[t].single
    requires var p := ss[k].tiers[t].peers[i];
             && p.maxFails != 0 && p.fails + 1 >= p.maxFails
             && es[j].Connect? && es[j].now - es[k].now <= p.failTimeout
    ensures es[j].sid in ss[j + 1].sessions && !Holds(ss[j + 1].sessions[es[j].sid], t, i)
  {
    var timeout := ss[k].tiers[t].peers[i].failTimeout;
    assert Enabled(ss[k], es[k]);
    FailurePutsOut(ss[k], es[k], t, i);
    StaysOut(ss, es, k, j, j, t, i, timeout);
    assert Enabled(ss[j], es[j]);
    StepSpares(ss[j], es[j], t, i, es[k].now, timeout);
  }

  // ----- The trial after a rest

  /** The peer has failed too often, and was last given out, or failed, at `since` or later. */
  ghost predicate OnTrial(sys: System, t: nat, i: nat, since: int, timeout: int, maxFails: nat) {
    && t < |sys.tiers| && i < |sys.tiers[t].peers| && !sys.tiers[t].single
    && var p := sys.tiers[t].peers[i];
    && since <= p.checked && p.failTimeout == timeout && p.maxFails == maxFails
  }

  lemma StepKeepsTrial(sys: System, e: Event, t: nat, i: nat, since: int, timeout: int, maxFails: nat)
    requires Enabled(sys, e) && OnTrial(sys, t, i, since, timeout, maxFails)
    requires 0 < maxFails <= sys.tiers[t].peers[i].fails
    requires Timed(e) ==> since <= Time(e) <= since + timeout
    ensures OnTrial(Step(sys, e), t, i, since, timeout, maxFails)
    ensures e.Connect? ==> !Holds(Step(sys, e).sessions[e.sid], t, i)
  {
    if e.Connect? {
      GetSpares(sys.tiers, sys.sessions[e.sid].cursor, e.now, t, i);
    }
  }

  /** The peer as given out: a new period has started. */
  ghost predicate NewPeriod(p: Peer, q: Peer, now: int) {
    q.checked == now && q.fails == p.fails && q.maxFails == p.maxFails && q.failTimeout == p.failTimeout
  }

  lemma PickStartsTrial(ps: seq<Peer>, tried: set<nat>, now: int, i: nat)
    requires i < |ps| && 0 < ps[i].maxFails <= ps[i].fails && GetPeer(ps, tried, now).best == Some(i)
    ensures NewPeriod(ps[i], GetPeer(ps, tried, now).peers[i], now)
  {
    assert Eligible(ps[i], i in tried, now);
  }

  /** If the grant is of peer `i` of tier `t`, that peer has started a new period. */
  ghost predicate Restarted(tiers: seq<Tier>, g: Got, now: int, t: nat, i: nat)
    requires t < |tiers| && i < |tiers[t].peers|
  {
    g.ok && g.cursor.tier == t && g.cursor.current == Some(i) ==>
      && |g.tiers| == |tiers| && |g.tiers[t].peers| == |tiers[t].peers| && !g.tiers[t].single
      && NewPeriod(tiers[t].peers[i], g.tiers[t].peers[i], now)
  }

  lemma HereStartsTrial(tiers: seq<Tier>, c: Cursor, now: int, t: nat, i: nat, g: Got)
    requires c.tier < |tiers| && |tiers[c.tier].peers| > 0 && GetHere(tiers, c, now) == Some(g)
    requires t < |tiers| && !tiers[t].single && i < |tiers[t].peers|
    requires 0 < tiers[t].peers[i].maxFails <= tiers[t].peers[i].fails
    ensures Restarted(tiers, g, now, t, i)
  {
    if t == c.tier && g.cursor.current == Some(i) {
      PickStartsTrial(tiers[t].peers, c.tried, now, i);
    }
  }

  /** Given out after a rest, the peer starts a new period. */
  lemma {:induction false} TrialStarts(tiers: seq<Tier>, c: Cursor, now: int, t: nat, i: nat)
    requires c.tier < |tiers| && forall k | 0 <= k < |tiers| :: |tiers[k].peers| > 0
    requires t < |tiers| && !tiers[t].single && i < |tiers[t].peers|
    requires 0 < tiers[t].peers[i].maxFails <= tiers[t].peers[i].fails
    ensures Restarted(tiers, GetRoundRobinPeer(tiers, c, now), now, t, i)
    decreases |tiers| - c.tier
  {
    var here := GetHere(tiers, c, now);
    if here.Some? {
      HereStartsTrial(tiers, c, now, t, i, here.value);
    } else if c.tier + 1 < |tiers| {
      TrialStarts(tiers, Cursor(c.tier + 1, c.current, {}), now, t, i);
    }
  }

  lemma RunKeepsTrial(ss: seq<System>, es: seq<Event>, n: nat, t: nat, i: nat, since: int, timeout: int, maxFails: nat)
    requires Run(ss, es) && n < |es| && OnTrial(ss[n], t, i, since, timeout, maxFails)
    requires 0 < maxFails && StillFailed(ss[n], t, i, maxFails)
    requires Timed(es[n]) ==> since <= Time(es[n]) <= since + timeout
    ensures OnTrial(ss[n + 1], t, i, since, timeout, maxFails)
  {
    assert Enabled(ss[n], es[n]);
    StepKeepsTrial(ss[n], es[n], t, i, since, timeout, maxFails);
  }

  lemma {:induction false} StaysOnTrial(ss: seq<System>, es: seq<Event>, k: nat, m: nat, j: nat, t: nat, i: nat,
                                        timeout: int, maxFails: nat)
    requires Run(ss, es) && Forward(es) && k < m <= j < |es| && Timed(es[k]) && Timed(es[j]) && maxFails > 0
    requires Time(es[j]) - Time(es[k]) <= timeout && OnTrial(ss[k + 1], t, i, Time(es[k]), timeout, maxFails)
    requires forall n | k < n <= j :: StillFailed(ss[n], t, i, maxFails)
    ensures OnTrial(ss[m], t, i, Time(es[k]), timeout, maxFails)
    decreases m - k
  {
    if m > k + 1 {
      StaysOnTrial(ss, es, k, m - 1, j, t, i, timeout, maxFails);
      assert StillFailed(ss[m - 1], t, i, maxFails);
      RunKeepsTrial(ss, es, m - 1, t, i, Time(es[k]), timeout, maxFails);
    }
  }

  /** Nobody has cleared the failures of the peer. */
  ghost predicate StillFailed(sys: System, t: nat, i: nat, maxFails: nat) {
    t < |sys.tiers| && i < |sys.tiers[t].peers| && sys.tiers[t].peers[i].fails >= maxFails
  }

  /**
   After the rest one session tries the peer: unless its failures are cleared meanwhile, nobody else is
   given it for another `fail_timeout`.
   */
  lemma OneTriesAlone(ss: seq<System>, es: seq<Event>, k: nat, j: nat, t: nat, i: nat)
    requires Run(ss, es) && Forward(es) && k < j < |es| && es[k].Connect? && es[j].Connect?
    requires t < |ss[k].tiers| && i < |ss[k].tiers[t].peers| && !ss[k].tiers[t].single
    requires es[k].sid in ss[k + 1].sessions && Holds(ss[k + 1].sessions[es[k].sid], t, i)
    requires var p := ss[k].tiers[t].peers[i];
             && 0 < p.maxFails <= p.fails && es[j].now - es[k].now <= p.failTimeout
             && forall n | k < n <= j :: StillFailed(ss[n], t, i, p.maxFails)
    ensures es[j].sid in ss[j + 1].sessions && !Holds(ss[j + 1].sessions[es[j].sid], t, i)
  {
    var p := ss[k].tiers[t].peers[i];
    assert Enabled(ss[k], es[k]);
    TrialStarts(ss[k].tiers, ss[k].sessions[es[k].sid].cursor, es[k].now, t, i);
    StaysOnTrial(ss, es, k, j, j, t, i, p.failTimeout, p.maxFails);
    assert Enabled(ss[j], es[j]);
    assert StillFailed(ss[j], t, i, p.maxFails);
    StepKeepsTrial(ss[j], es[j], t, i, es[k].now, p.failTimeout, p.maxFails);
  }
}
