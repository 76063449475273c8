/**
 Exact fairness of whole runs: sessions open, connect, are notified and end in any order, and as long as
 no connect fails over to another peer and every peer is eligible whenever a session connects, the grants
 of the primary tier are exactly fair.
 */
module FairSessions {
  import opened Bytes
  import opened RoundRobin
  import opened Balancer
  import opened Sessions
  import F = Fairness
  import W = SmoothWeights

  ghost function Primary(sys: System): seq<Peer> {
    if sys.tiers == [] then [] else sys.tiers[0].peers
  }

  /** All peers may be given to a session that connects now. */
  ghost predicate AllEligible(ps: seq<Peer>, now: int) {
    forall i: nat | i < |ps| :: Eligible(ps[i], false, now)
  }

  /** A run without retries in which every connect finds all peers of the primary tier eligible. */
  ghost predicate Undisturbed(ss: seq<System>, es: seq<Event>) {
    && Run(ss, es) && !ss[0].tiers[0].single
    && forall k: nat | k < |es| :: Calm(ss[k], es[k])
  }

  ghost predicate Calm(sys: System, e: Event) {
    !e.Next? && (e.Connect? ==> AllEligible(Primary(sys), e.now))
  }

  /** Sessions that have not connected yet are where they started, and all peers are at full weight. */
  ghost predicate Fresh(sys: System) {
    && WellFormed(sys.tiers) && !sys.tiers[0].single
    && (forall sid | sid in sys.sessions :: NotBegun(sys.sessions[sid]))
    && FullWeight(Primary(sys))
  }

  ghost predicate NotBegun(s: Session) {
    s.stage.Connecting? ==> s.cursor == Cursor(0, None, {})
  }

  ghost predicate FullWeight(ps: seq<Peer>) {
    forall i: nat | i < |ps| :: ps[i].effectiveWeight == ps[i].weight > 0
  }

  /** No weight differs. */
  ghost predicate SameWeights(ps: seq<Peer>, qs: seq<Peer>) {
    && |ps| == |qs|
    && forall i: nat | i < |ps| ::
         && qs[i].weight == ps[i].weight && qs[i].currentWeight == ps[i].currentWeight
         && qs[i].effectiveWeight == ps[i].effectiveWeight
  }

  lemma SameWeightsSame(ps: seq<Peer>, qs: seq<Peer>)
    requires SameWeights(ps, qs)
    ensures F.Weights(qs) == F.Weights(ps) && F.Currents(qs) == F.Currents(ps) && (FullWeight(ps) ==> FullWeight(qs))
  {
  }

  /** Everything but a connect leaves the weights alone. */
  lemma OtherSteps(sys: System, e: Event)
    requires Fresh(sys) && Enabled(sys, e) && !e.Connect? && !e.Next?
    ensures Fresh(Step(sys, e)) && SameWeights(Primary(sys), Primary(Step(sys, e)))
  {
    SameWeightsSame(Primary(sys), Primary(Step(sys, e)));
  }

  /** What one step does to the tier: a connect is a fair pick, anything else leaves the weights alone. */
  ghost predicate Moves(sys: System, e: Event, out: System) {
    && Fresh(out)
    && if e.Connect?
       then F.Fair(Primary(sys), F.Round({}, e.now))
            && F.LeadsTo(Primary(sys), F.Round({}, e.now), Given(out, e.sid), Primary(out))
       else SameWeights(Primary(sys), Primary(out))
  }

  /** The peer the session was given last. */
  ghost function Given(sys: System, sid: nat): nat {
    if sid in sys.sessions && sys.sessions[sid].cursor.current.Some? then sys.sessions[sid].cursor.current.value else 0
  }

  /** The first get of a session is one pick of the primary tier, which has a peer to give. */
  lemma FirstGet(tiers: seq<Tier>, now: int, b: nat, qs: seq<Peer>)
    requires WellFormed(tiers) && !tiers[0].single && AllEligible(tiers[0].peers, now)
    requires var pick := GetPeer(tiers[0].peers, {}, now);
             pick.best == Some(b) && b < |pick.peers| && qs == pick.peers[b := Acquire(pick.peers[b])]
    ensures GetRoundRobinPeer(tiers, Cursor(0, None, {}), now) == Got(SetPeers(tiers, 0, qs), Cursor(0, Some(b), {} + {b}), true)
  {
  }

  lemma SomeIsBest(ps: seq<Peer>, now: int)
    requires |ps| > 0 && AllEligible(ps, now)
    ensures GetPeer(ps, {}, now).best.Some?
  {
    assert Eligible(ps[0], 0 in {}, now);
  }

  lemma AcquireSameWeights(ps: seq<Peer>, b: nat)
    requires b < |ps|
    ensures SameWeights(ps, ps[b := Acquire(ps[b])])
  {
  }

  /** The pick is fair and leads to the peers after the grant. */
  lemma PickLeads(ps: seq<Peer>, now: int, b: nat, qs: seq<Peer>)
    requires |ps| > 0 && AllEligible(ps, now) && FullWeight(ps)
    requires var pick := GetPeer(ps, {}, now);
             pick.best == Some(b) && b < |pick.peers| && qs == pick.peers[b := Acquire(pick.peers[b])]
    ensures FullWeight(qs) && F.Fair(ps, F.Round({}, now)) && F.LeadsTo(ps, F.Round({}, now), b, qs)
  {
    var picked := GetPeer(ps, {}, now).peers;
    PickKeepsFull(ps, now);
    AcquireSameWeights(picked, b);
    SameWeightsSame(picked, qs);
  }

  /** A connect is one pick of the primary tier. */
  lemma ConnectPicks(sys: System, e: Event)
    requires Fresh(sys) && Enabled(sys, e) && e.Connect? && AllEligible(Primary(sys), e.now)
    ensures Moves(sys, e, Step(sys, e))
  {
    var ps := Primary(sys);
    assert NotBegun(sys.sessions[e.sid]);
    SomeIsBest(ps, e.now);
    var pick := GetPeer(ps, {}, e.now);
    var b := pick.best.value;
    var qs := pick.peers[b := Acquire(pick.peers[b])];
    FirstGet(sys.tiers, e.now, b, qs);
    PickLeads(ps, e.now, b, qs);
    StaysFresh(sys, qs, e.sid, Step(sys, e).sessions[e.sid]);
  }

  lemma StaysFresh(sys: System, qs: seq<Peer>, sid: nat, u: Session)
    requires Fresh(sys) && |qs| == |Primary(sys)| && FullWeight(qs) && NotBegun(u)
    ensures Fresh(System(SetPeers(sys.tiers, 0, qs), sys.sessions[sid := u]))
  {
  }

  lemma PickKeepsFull(ps: seq<Peer>, now: int)
    requires FullWeight(ps)
    ensures FullWeight(GetPeer(ps, {}, now).peers)
  {
    var walked := Walk(ps, {}, now);
    forall i: nat | i < |ps| ensures walked[i].effectiveWeight == walked[i].weight > 0 {
      assert walked[i] == WalkOne(ps[i], i in {}, now);
    }
  }

  lemma StepMoves(sys: System, e: Event)
    requires Fresh(sys) && Enabled(sys, e) && Calm(sys, e)
    ensures Moves(sys, e, Step(sys, e))
  {
    if e.Connect? {
      ConnectPicks(sys, e);
    } else {
      OtherSteps(sys, e);
    }
  }

  lemma StartsFresh(sys: System)
    requires Initial(sys) && !sys.tiers[0].single
    ensures Fresh(sys)
  {
    forall i: nat | i < |Primary(sys)| ensures FreshPeer(Primary(sys)[i]) {
      assert FreshPeer(sys.tiers[0].peers[i]);
    }
  }

  lemma {:induction false} AlwaysMoves(ss: seq<System>, es: seq<Event>, k: nat)
    requires Undisturbed(ss, es) && k <= |es|
    ensures Fresh(ss[k]) && (k < |es| ==> Moves(ss[k], es[k], ss[k + 1]))
    decreases k
  {
    if k == 0 {
      StartsFresh(ss[0]);
    } else {
      AlwaysMoves(ss, es, k - 1);
    }
    if k < |es| {
      assert Enabled(ss[k], es[k]) && Calm(ss[k], es[k]);
      StepMoves(ss[k], es[k]);
    }
  }

  // The grants among the first `n` events: the peers they gave, their rounds, and the tier before each of them and now.

  ghost function Grants(ss: seq<System>, es: seq<Event>, n: nat): seq<nat>
    requires n <= |es| == |ss| - 1
  {
    if n == 0 then []
    else if es[n - 1].Connect? then Grants(ss, es, n - 1) + [Given(ss[n], es[n - 1].sid)]
    else Grants(ss, es, n - 1)
  }

  ghost function Rounds(es: seq<Event>, n: nat): seq<F.Round>
    requires n <= |es|
  {
    if n == 0 then []
    else if es[n - 1].Connect? then Rounds(es, n - 1) + [F.Round({}, es[n - 1].now)]
    else Rounds(es, n - 1)
  }

  ghost function Before(ss: seq<System>, es: seq<Event>, n: nat): seq<seq<Peer>>
    requires n <= |es| == |ss| - 1
  {
    if n == 0 then []
    else if es[n - 1].Connect? then Before(ss, es, n - 1) + [Primary(ss[n - 1])]
    else Before(ss, es, n - 1)
  }

  /** The grants form a fair run from the states `before` to the state `now`. */
  ghost predicate Traced(before: seq<seq<Peer>>, rounds: seq<F.Round>, grants: seq<nat>, now: seq<Peer>) {
    && |before| == |rounds| == |grants|
    && forall k: nat | k < |rounds| :: F.FairStep(before + [now], rounds, grants, k)
  }

  /** Changes that touch no weight go unnoticed. */
  lemma TracedOn(before: seq<seq<Peer>>, rounds: seq<F.Round>, grants: seq<nat>, now: seq<Peer>, next: seq<Peer>)
    requires Traced(before, rounds, grants, now) && SameWeights(now, next)
    ensures Traced(before, rounds, grants, next)
  {
    SameWeightsSame(now, next);
    forall k: nat | k < |rounds| ensures F.FairStep(before + [next], rounds, grants, k) {
      assert F.FairStep(before + [now], rounds, grants, k);
    }
  }

  lemma TracedMore(before: seq<seq<Peer>>, rounds: seq<F.Round>, grants: seq<nat>, now: seq<Peer>,
                   r: F.Round, b: nat, next: seq<Peer>)
    requires Traced(before, rounds, grants, now) && F.Fair(now, r) && F.LeadsTo(now, r, b, next)
    ensures Traced(before + [now], rounds + [r], grants + [b], next)
  {
    forall k: nat | k < |rounds| + 1 ensures F.FairStep(before + [now] + [next], rounds + [r], grants + [b], k) {
      if k < |rounds| {
        assert F.FairStep(before + [now], rounds, grants, k);
        assert (before + [now] + [next])[k + 1] == (before + [now])[k + 1];
      }
    }
  }

  lemma {:induction false} AlwaysTraced(ss: seq<System>, es: seq<Event>, n: nat)
    requires Undisturbed(ss, es) && n <= |es|
    ensures Traced(Before(ss, es, n), Rounds(es, n), Grants(ss, es, n), Primary(ss[n]))
    decreases n
  {
    if n > 0 {
      var k := n - 1;
      AlwaysTraced(ss, es, k);
      AlwaysMoves(ss, es, k);
      StepTraced(Before(ss, es, k), Rounds(es, k), Grants(ss, es, k), ss[k], es[k], ss[n]);
    }
  }

  lemma StepTraced(before: seq<seq<Peer>>, rounds: seq<F.Round>, grants: seq<nat>, sys: System, e: Event, out: System)
    requires Traced(before, rounds, grants, Primary(sys)) && Moves(sys, e, out)
    ensures e.Connect? ==>
              Traced(before + [Primary(sys)], rounds + [F.Round({}, e.now)], grants + [Given(out, e.sid)], Primary(out))
    ensures !e.Connect? ==> Traced(before, rounds, grants, Primary(out))
  {
    if e.Connect? {
      TracedMore(before, rounds, grants, Primary(sys), F.Round({}, e.now), Given(out, e.sid), Primary(out));
    } else {
      TracedOn(before, rounds, grants, Primary(sys), Primary(out));
    }
  }

  /** The state before the first grant differs from the initial one in no weight. */
  lemma {:induction false} StartsAtRest(ss: seq<System>, es: seq<Event>, n: nat)
    requires Undisturbed(ss, es) && n <= |es|
    ensures var states := Before(ss, es, n) + [Primary(ss[n])]; SameWeights(Primary(ss[0]), states[0])
    decreases n
  {
    if n > 0 {
      var k := n - 1;
      StartsAtRest(ss, es, k);
      AlwaysMoves(ss, es, k);
    }
  }

  /** In every undisturbed run any W consecutive grants of the primary tier give each peer `weight` times. */
  lemma InterleavedFairness(ss: seq<System>, es: seq<Event>, t: nat, i: nat)
    requires Undisturbed(ss, es) && i < |Primary(ss[0])|
    requires t + F.TierWeight(Primary(ss[0])) <= |Grants(ss, es, |es|)|
    ensures var w, grants := F.TierWeight(Primary(ss[0])), Grants(ss, es, |es|);
            0 < w && W.Count(grants, i, t + w) - W.Count(grants, i, t) == Primary(ss[0])[i].weight
  {
    var n := |es|;
    var states, rounds, grants := Before(ss, es, n) + [Primary(ss[n])], Rounds(es, n), Grants(ss, es, n);
    AlwaysTraced(ss, es, n);
    StartsAtRest(ss, es, n);
    SameWeightsSame(Primary(ss[0]), states[0]);
    FullWeightIsPositive(ss[0]);
    assert F.FairRun(states, rounds, grants);
    assert F.AtRest(states[0]);
    F.ExactFairness(states, rounds, grants, t, i);
  }

  lemma FullWeightIsPositive(sys: System)
    requires Initial(sys)
    ensures F.TierWeight(Primary(sys)) > 0 && F.AtRest(Primary(sys))
  {
    var ps := Primary(sys);
    assert forall i | 0 <= i < |ps| :: FreshPeer(sys.tiers[0].peers[i]);
    W.WholePositive(F.Weights(ps));
  }
}
