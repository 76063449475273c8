/**
 How a failing peer is forgiven: over any interleaving of sessions, a peer that was given out after its
 `fail_timeout` and does not fail since has its failures cleared by the next session that reports success.
 */
module PeerRecovery {
  import opened Bytes
  import opened RoundRobin
  import opened Balancer
  import opened Sessions

  /** What every step but a failure keeps of a peer: failures do not grow and checks do not go back. */
  ghost predicate NoWorse(p: Peer, q: Peer) {
    && q.failTimeout == p.failTimeout && q.accessed == p.accessed
    && q.checked >= p.checked && q.fails <= p.fails
  }

  ghost predicate Timely(p: Peer) {
    p.failTimeout >= 0 && p.accessed <= p.checked
  }

  lemma PickNoWorse(ps: seq<Peer>, tried: set<nat>, now: int, i: nat)
    requires i < |ps| && Timely(ps[i])
    ensures NoWorse(ps[i], GetPeer(ps, tried, now).peers[i])
    ensures GetPeer(ps, tried, now).best == Some(i) && now - ps[i].checked > ps[i].failTimeout ==>
              GetPeer(ps, tried, now).peers[i].checked == now
  {
    var qs := Walk(ps, tried, now);
    assert qs[i] == WalkOne(ps[i], i in tried, now);
  }

  /** What a get does to peer `i` of tier `t`. */
  ghost predicate Gets(tiers: seq<Tier>, g: Got, now: int, t: nat, i: nat)
    requires t < |tiers| && i < |tiers[t].peers|
  {
    && |g.tiers| == |tiers| && |g.tiers[t].peers| == |tiers[t].peers| && g.tiers[t].single == tiers[t].single
    && var p, q := tiers[t].peers[i], g.tiers[t].peers[i];
    && NoWorse(p, q)
    && (g.ok && g.cursor.tier == t && g.cursor.current == Some(i) && !tiers[t].single && now - p.checked > p.failTimeout ==>
          q.checked == now)
  }

  lemma HereGets(tiers: seq<Tier>, c: Cursor, now: int, t: nat, i: nat, g: Got)
    requires c.tier < |tiers| && |tiers[c.tier].peers| > 0 && GetHere(tiers, c, now) == Some(g)
    requires t < |tiers| && i < |tiers[t].peers| && Timely(tiers[t].peers[i])
    ensures Gets(tiers, g, now, t, i)
  {
    if t == c.tier {
      PickNoWorse(tiers[t].peers, c.tried, now, i);
    }
  }

  lemma {:induction false} GetGets(tiers: seq<Tier>, c: Cursor, now: int, t: nat, i: nat)
    requires c.tier < |tiers| && forall k | 0 <= k < |tiers| :: |tiers[k].peers| > 0
    requires t < |tiers| && i < |tiers[t].peers| && Timely(tiers[t].peers[i])
    ensures Gets(tiers, GetRoundRobinPeer(tiers, c, now), now, t, i)
    decreases |tiers| - c.tier
  {
    var here := GetHere(tiers, c, now);
    if here.Some? {
      HereGets(tiers, c, now, t, i, here.value);
    } else if c.tier + 1 < |tiers| {
      GetGets(tiers, Cursor(c.tier + 1, c.current, {}), now, t, i);
    }
  }

  /** A session reports that the peer has failed. */
  ghost predicate Fails(sys: System, e: Event, t: nat, i: nat) {
    e.Next? && e.sid in sys.sessions && Holds(sys.sessions[e.sid], t, i)
  }

  /** A session reports success: it is connected, or ends without failure. */
  ghost predicate Succeeds(sys: System, e: Event, t: nat, i: nat) {
    (e.Connected? || e.Finalize?) && e.sid in sys.sessions && Holds(sys.sessions[e.sid], t, i)
  }

  /** There is such a peer, in a tier of several. */
  ghost predicate Has(sys: System, t: nat, i: nat) {
    t < |sys.tiers| && i < |sys.tiers[t].peers| && !sys.tiers[t].single
  }

  lemma StepNoWorse(sys: System, e: Event, t: nat, i: nat)
    requires Enabled(sys, e) && Has(sys, t, i) && Timely(sys.tiers[t].peers[i])
    ensures Has(Step(sys, e), t, i) && Timely(Step(sys, e).tiers[t].peers[i])
    ensures !Fails(sys, e, t, i) ==> NoWorse(sys.tiers[t].peers[i], Step(sys, e).tiers[t].peers[i])
  {
    if e.Connect? {
      GetGets(sys.tiers, sys.sessions[e.sid].cursor, e.now, t, i);
    }
  }

  /** A report of success clears the failures of a peer whose check is newer than its last failure. */
  lemma SuccessForgives(sys: System, e: Event, t: nat, i: nat)
    requires Enabled(sys, e) && Has(sys, t, i) && Succeeds(sys, e, t, i)
    requires sys.tiers[t].peers[i].accessed < sys.tiers[t].peers[i].checked
    ensures Step(sys, e).tiers[t].peers[i].fails == 0
  {
  }

  lemma {:induction false} AlwaysTimely(ss: seq<System>, es: seq<Event>, k: nat, t: nat, i: nat)
    requires Run(ss, es) && k <= |es| && Has(ss[0], t, i) && Timely(ss[0].tiers[t].peers[i])
    ensures Has(ss[k], t, i) && Timely(ss[k].tiers[t].peers[i])
    decreases k
  {
    if k > 0 {
      AlwaysTimely(ss, es, k - 1, t, i);
      assert Enabled(ss[k - 1], es[k - 1]);
      StepNoWorse(ss[k - 1], es[k - 1], t, i);
    }
  }

  /** Without a failure between `k` and `m` the peer is no worse. */
  lemma {:induction false} RunNoWorse(ss: seq<System>, es: seq<Event>, k: nat, m: nat, t: nat, i: nat)
    requires Run(ss, es) && k <= m <= |es| && Has(ss[k], t, i) && Timely(ss[k].tiers[t].peers[i])
    requires forall n: nat | k <= n < m :: !Fails(ss[n], es[n], t, i)
    ensures Has(ss[m], t, i) && Timely(ss[m].tiers[t].peers[i])
    ensures NoWorse(ss[k].tiers[t].peers[i], ss[m].tiers[t].peers[i])
    decreases m - k
  {
    if k < m {
      RunNoWorse(ss, es, k, m - 1, t, i);
      assert Enabled(ss[m - 1], es[m - 1]) && !Fails(ss[m - 1], es[m - 1], t, i);
      StepNoWorse(ss[m - 1], es[m - 1], t, i);
    }
  }

  /** A grant of a peer whose `fail_timeout` is over makes its check newer than its last failure. */
  lemma GrantChecks(sys: System, e: Event, t: nat, i: nat)
    requires Enabled(sys, e) && e.Connect? && Has(sys, t, i) && Timely(sys.tiers[t].peers[i])
    requires e.now - sys.tiers[t].peers[i].checked > sys.tiers[t].peers[i].failTimeout
    requires Holds(Step(sys, e).sessions[e.sid], t, i)
    ensures Has(Step(sys, e), t, i) && Timely(Step(sys, e).tiers[t].peers[i])
    ensures Step(sys, e).tiers[t].peers[i].accessed < Step(sys, e).tiers[t].peers[i].checked
  {
    GetGets(sys.tiers, sys.sessions[e.sid].cursor, e.now, t, i);
  }

  lemma CheckedAfter(ss: seq<System>, es: seq<Event>, k: nat, t: nat, i: nat)
    requires Run(ss, es) && k < |es| && Has(ss[k], t, i) && Timely(ss[k].tiers[t].peers[i])
    requires es[k].Connect? && es[k].sid in ss[k + 1].sessions && Holds(ss[k + 1].sessions[es[k].sid], t, i)
    requires es[k].now - ss[k].tiers[t].peers[i].checked > ss[k].tiers[t].peers[i].failTimeout
    ensures Has(ss[k + 1], t, i) && Timely(ss[k + 1].tiers[t].peers[i])
    ensures ss[k + 1].tiers[t].peers[i].accessed < ss[k + 1].tiers[t].peers[i].checked
  {
    assert Enabled(ss[k], es[k]);
    GrantChecks(ss[k], es[k], t, i);
  }

  lemma ForgivenAfter(ss: seq<System>, es: seq<Event>, j: nat, t: nat, i: nat)
    requires Run(ss, es) && j < |es| && Has(ss[j], t, i) && Timely(ss[j].tiers[t].peers[i])
    requires Succeeds(ss[j], es[j], t, i) && ss[j].tiers[t].peers[i].accessed < ss[j].tiers[t].peers[i].checked
    ensures Has(ss[j + 1], t, i) && Timely(ss[j + 1].tiers[t].peers[i]) && ss[j + 1].tiers[t].peers[i].fails == 0
  {
    assert Enabled(ss[j], es[j]);
    SuccessForgives(ss[j], es[j], t, i);
    StepNoWorse(ss[j], es[j], t, i);
  }

  /**
   A peer given out at event `k` after its `fail_timeout`, and with no failure until after event `m`: from the
   first report of success at `j`, by whatever session, all its failures are cleared and stay cleared.
   */
  lemma SuccessIsForgiveness(ss: seq<System>, es: seq<Event>, k: nat, j: nat, m: nat, t: nat, i: nat)
    requires Run(ss, es) && k < j < m <= |es| && Has(ss[0], t, i) && Timely(ss[0].tiers[t].peers[i])
    requires es[k].Connect? && es[k].sid in ss[k + 1].sessions && Holds(ss[k + 1].sessions[es[k].sid], t, i)
    requires Has(ss[k], t, i) && es[k].now - ss[k].tiers[t].peers[i].checked > ss[k].tiers[t].peers[i].failTimeout
    requires forall n: nat | k < n < m :: !Fails(ss[n], es[n], t, i)
    requires Succeeds(ss[j], es[j], t, i)
    ensures Has(ss[m], t, i) && ss[m].tiers[t].peers[i].fails == 0
  {
    AlwaysTimely(ss, es, k, t, i);
    CheckedAfter(ss, es, k, t, i);
    RunNoWorse(ss, es, k + 1, j, t, i);
    ForgivenAfter(ss, es, j, t, i);
    RunNoWorse(ss, es, j + 1, m, t, i);
  }
}
