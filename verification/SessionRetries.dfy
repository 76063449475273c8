/**
 How long a session goes on: in every interleaving it uses each of its tries, gives up for want of a peer
 only when there is none left that can be given, and so asks every peer that is there to be asked.
 */
module SessionRetries {
  import opened Bytes
  import opened RoundRobin
  import opened Balancer
  import opened Sessions

  /** The tries that are left and the peers that were given add up, and only peers that were given count as tried. */
  ghost predicate Exact(tiers: seq<Tier>, s: Session) {
    && s.cursor.tier < |tiers|
    && (tiers[s.cursor.tier].single ==> s.budget == 1)
    && (forall i | i in s.cursor.tried :: (s.cursor.tier, i) in s.attempts)
    && (forall k | 0 <= k < |s.attempts| :: s.attempts[k] in Places(tiers))
    && match s.stage
       case Connecting => |s.attempts| + s.tries == s.budget
       case Holding => |s.attempts| + s.tries == s.budget + 1 && s.attempts != []
       case Closed => true
  }

  /** All peers, by tier and place. */
  ghost function Places(tiers: seq<Tier>): set<(nat, nat)> {
    set t: nat, i: nat | t < |tiers| && i < |tiers[t].peers| :: (t, i)
  }

  lemma SamePlaces(ts: seq<Tier>, us: seq<Tier>)
    requires SameShape(ts, us)
    ensures Places(ts) == Places(us)
  {
  }

  lemma OtherExact(ts: seq<Tier>, us: seq<Tier>, s: Session)
    requires SameShape(ts, us) && Exact(ts, s)
    ensures Exact(us, s)
  {
    SamePlaces(ts, us);
  }

  lemma OpenExact(sys: System, e: Event)
    requires Enabled(sys, e) && e.Open?
    ensures Exact(sys.tiers, Step(sys, e).sessions[e.sid])
  {
    TriesAre(sys.tiers, e.limit);
  }

  lemma GrantExact(tiers: seq<Tier>, s: Session, g: Got)
    requires Exact(tiers, s) && s.stage.Connecting? && Granted(tiers, s.cursor, g) && WellFormed(tiers)
    ensures Exact(g.tiers, GrantedSession(s, g))
  {
    var u := GrantedSession(s, g);
    SamePlaces(tiers, g.tiers);
    assert u.attempts[|s.attempts|] == (g.cursor.tier, g.cursor.current.value);
    forall i | i in u.cursor.tried ensures (u.cursor.tier, i) in u.attempts {
      if i != g.cursor.current.value {
        assert i in s.cursor.tried && u.cursor.tier == s.cursor.tier;
        assert (s.cursor.tier, i) in s.attempts;
      }
    }
  }

  lemma BusyExact(tiers: seq<Tier>, s: Session, g: Got)
    requires Exact(tiers, s) && Busy(tiers, s.cursor, g) && WellFormed(tiers)
    ensures Exact(g.tiers, s.(cursor := g.cursor, stage := Closed))
  {
  }

  /** A release uses up exactly one try. */
  lemma ReleaseExact(tiers: seq<Tier>, s: Session, f: Freed, u: Session)
    requires Exact(tiers, s) && s.stage.Holding? && s.tries > 0 && WellFormed(tiers) && Attached(tiers, s)
    requires GivenBack(tiers, s.cursor, s.tries, f) && u == s.(tries := f.tries, stage := u.stage) && !u.stage.Holding?
    ensures f.tries == s.tries - 1 && SameShape(tiers, f.tiers) && Exact(f.tiers, u)
  {
    GivenBackCounts(tiers, s.cursor, s.tries, f);
    OtherExact(tiers, f.tiers, s);
  }

  /** The session whose event it is. */
  lemma OwnStepExact(sys: System, e: Event)
    requires Enabled(sys, e) && (e.Open? || (SessionOk(sys.tiers, sys.sessions[e.sid]) && Exact(sys.tiers, sys.sessions[e.sid])))
    ensures e.sid in Step(sys, e).sessions && Exact(Step(sys, e).tiers, Step(sys, e).sessions[e.sid])
  {
    match e
    case Open(_, _) => OpenExact(sys, e);
    case Connect(sid, now) =>
      var s := sys.sessions[sid];
      var g := GetRoundRobinPeer(sys.tiers, s.cursor, now);
      if g.ok {
        GrantExact(sys.tiers, s, g);
      } else {
        BusyExact(sys.tiers, s, g);
      }
    case Connected(sid) => OtherExact(sys.tiers, Step(sys, e).tiers, sys.sessions[sid]);
    case Next(sid, now, _) =>
      var s := sys.sessions[sid];
      FreeEffect(sys.tiers, s.cursor, s.tries, true, now);
      ReleaseExact(sys.tiers, s, FreeRoundRobinPeer(sys.tiers, s.cursor, s.tries, true, now), Step(sys, e).sessions[sid]);
    case Finalize(sid, now) =>
      var s := sys.sessions[sid];
      if s.stage.Holding? {
        FreeEffect(sys.tiers, s.cursor, s.tries, false, now);
        ReleaseExact(sys.tiers, s, FreeRoundRobinPeer(sys.tiers, s.cursor, s.tries, false, now), Step(sys, e).sessions[sid]);
      }
  }

  /** No step changes how many peers there are. */
  lemma StepKeepsShape(sys: System, e: Event)
    requires Enabled(sys, e)
    ensures SameShape(sys.tiers, Step(sys, e).tiers)
  {
    match e
    case Open(_, _) =>
    case Connect(sid, now) => var g := GetRoundRobinPeer(sys.tiers, sys.sessions[sid].cursor, now);
    case Connected(_) =>
    case Next(sid, now, _) => FreeEffect(sys.tiers, sys.sessions[sid].cursor, sys.sessions[sid].tries, true, now);
    case Finalize(sid, now) =>
      if sys.sessions[sid].stage.Holding? {
        FreeEffect(sys.tiers, sys.sessions[sid].cursor, sys.sessions[sid].tries, false, now);
      }
  }

  lemma StepExact(sys: System, e: Event, sid: nat)
    requires Enabled(sys, e) && AllOk(sys.tiers, sys.sessions)
    requires sid in sys.sessions ==> Exact(sys.tiers, sys.sessions[sid])
    ensures sid in Step(sys, e).sessions ==> Exact(Step(sys, e).tiers, Step(sys, e).sessions[sid])
  {
    if e.sid == sid {
      OwnStepExact(sys, e);
    } else if sid in sys.sessions {
      StepKeepsShape(sys, e);
      OtherExact(sys.tiers, Step(sys, e).tiers, sys.sessions[sid]);
      assert Step(sys, e).sessions[sid] == sys.sessions[sid];
    }
  }

  lemma {:induction false} AlwaysExact(ss: seq<System>, es: seq<Event>, k: nat, sid: nat)
    requires Run(ss, es) && k <= |es|
    ensures sid in ss[k].sessions ==> Exact(ss[k].tiers, ss[k].sessions[sid])
    decreases k
  {
    if k > 0 {
      AlwaysExact(ss, es, k - 1, sid);
      AlwaysInv(ss, es, k - 1);
      assert Enabled(ss[k - 1], es[k - 1]);
      StepExact(ss[k - 1], es[k - 1], sid);
    }
  }

  // ----- When a session closes

  /** A failed session goes on exactly when it may and has not been given as many peers as it had tries. */
  lemma RetriesWhileItMay(ss: seq<System>, es: seq<Event>, k: nat)
    requires Run(ss, es) && k < |es| && es[k].Next? && es[k].sid in ss[k].sessions
    ensures var s := ss[k].sessions[es[k].sid];
            && es[k].sid in ss[k + 1].sessions && ss[k + 1].sessions[es[k].sid].attempts == s.attempts
            && ss[k + 1].sessions[es[k].sid].stage == if es[k].again && |s.attempts| < s.budget then Connecting else Closed
  {
    AlwaysExact(ss, es, k, es[k].sid);
    AlwaysInv(ss, es, k);
    assert Enabled(ss[k], es[k]);
    NextStage(ss[k], es[k]);
  }

  lemma NextStage(sys: System, e: Event)
    requires Enabled(sys, e) && e.Next? && SessionOk(sys.tiers, sys.sessions[e.sid]) && Exact(sys.tiers, sys.sessions[e.sid])
    ensures var s, u := sys.sessions[e.sid], Step(sys, e).sessions[e.sid];
            u.attempts == s.attempts && u.stage == if e.again && |s.attempts| < s.budget then Connecting else Closed
  {
    var s := sys.sessions[e.sid];
    FreeEffect(sys.tiers, s.cursor, s.tries, true, e.now);
    ReleaseExact(sys.tiers, s, FreeRoundRobinPeer(sys.tiers, s.cursor, s.tries, true, e.now), Step(sys, e).sessions[e.sid]);
  }

  /** What a connect needs to be refused. */
  ghost predicate NobodyLeft(tiers: seq<Tier>, s: Session, now: int) {
    forall t: nat, i: nat | s.cursor.tier <= t < |tiers| && i < |tiers[t].peers| && CanGive(tiers[t], i, now) ::
      (t, i) in s.attempts
  }

  /** A connecting session is given a peer exactly when one that can be given has not been given to it. */
  lemma GivenWhileThereAre(ss: seq<System>, es: seq<Event>, k: nat)
    requires Run(ss, es) && k < |es| && es[k].Connect? && es[k].sid in ss[k].sessions
    ensures es[k].sid in ss[k + 1].sessions
    ensures ss[k + 1].sessions[es[k].sid].stage ==
            if NobodyLeft(ss[k].tiers, ss[k].sessions[es[k].sid], es[k].now) then Closed else Holding
  {
    AlwaysExact(ss, es, k, es[k].sid);
    AlwaysInv(ss, es, k);
    assert Enabled(ss[k], es[k]);
    var s := ss[k].sessions[es[k].sid];
    assert SessionOk(ss[k].tiers, s);
    RefusedIffNoneLeft(ss[k].tiers, s.cursor, es[k].now);
    SpareIsLeft(ss[k].tiers, s, es[k].now);
  }

  /** To a session that connects, the peers it has not tried are those it was not given. */
  lemma UntriedIsNotGiven(tiers: seq<Tier>, s: Session, t: nat, i: nat)
    requires SessionOk(tiers, s) && Exact(tiers, s) && s.stage.Connecting? && WellFormed(tiers)
    requires s.cursor.tier <= t < |tiers| && i < |tiers[t].peers|
    ensures Untried(tiers, s.cursor, t, i) <==> (t, i) !in s.attempts
  {
    if (t, i) in s.attempts {
      var k :| 0 <= k < |s.attempts| && s.attempts[k] == (t, i);
      assert s.attempts[k].0 <= s.cursor.tier;
    }
  }

  lemma SpareIsLeft(tiers: seq<Tier>, s: Session, now: int)
    requires SessionOk(tiers, s) && Exact(tiers, s) && s.stage.Connecting? && WellFormed(tiers)
    ensures NobodyLeft(tiers, s, now) <==> forall t: nat | s.cursor.tier <= t < |tiers| :: !Spare(tiers, s.cursor, t, now)
  {
    forall t: nat, i: nat | s.cursor.tier <= t < |tiers| && i < |tiers[t].peers|
      ensures Untried(tiers, s.cursor, t, i) <==> (t, i) !in s.attempts
    {
      UntriedIsNotGiven(tiers, s, t, i);
    }
    if NobodyLeft(tiers, s, now) {
      forall t: nat | s.cursor.tier <= t < |tiers| ensures !Spare(tiers, s.cursor, t, now) {
      }
    } else {
      var t: nat, i: nat :| s.cursor.tier <= t < |tiers| && i < |tiers[t].peers| && CanGive(tiers[t], i, now) && (t, i) !in s.attempts;
      assert Untried(tiers, s.cursor, t, i);
      assert Spare(tiers, s.cursor, t, now);
    }
  }

  // ----- Nobody is skipped

  /** Whenever the session connects before event `k`, the peer can be given. */
  ghost predicate Standing(ss: seq<System>, es: seq<Event>, k: nat, sid: nat, t: nat, i: nat)
    requires k <= |es| < |ss|
  {
    forall n: nat | n < k && es[n].Connect? && es[n].sid == sid ::
      t < |ss[n].tiers| && i < |ss[n].tiers[t].peers| && CanGive(ss[n].tiers[t], i, es[n].now)
  }

  /** A session leaves no such peer behind in a tier it has left. */
  ghost predicate NotLeftBehind(s: Session, t: nat, i: nat) {
    t < s.cursor.tier ==> (t, i) in s.attempts
  }

  lemma ConnectLeavesNobody(sys: System, e: Event, t: nat, i: nat)
    requires Enabled(sys, e) && e.Connect? && t < |sys.tiers| && i < |sys.tiers[t].peers| && CanGive(sys.tiers[t], i, e.now)
    requires SessionOk(sys.tiers, sys.sessions[e.sid]) && Exact(sys.tiers, sys.sessions[e.sid])
    requires NotLeftBehind(sys.sessions[e.sid], t, i)
    ensures NotLeftBehind(Step(sys, e).sessions[e.sid], t, i)
    ensures Step(sys, e).sessions[e.sid].stage.Closed? ==> (t, i) in sys.sessions[e.sid].attempts
  {
    var s := sys.sessions[e.sid];
    RefusedIffNoneLeft(sys.tiers, s.cursor, e.now);
    if s.cursor.tier <= t {
      UntriedIsNotGiven(sys.tiers, s, t, i);
      assert (t, i) !in s.attempts ==> Spare(sys.tiers, s.cursor, t, e.now);
    }
  }

  lemma StepLeavesNobody(sys: System, e: Event, sid: nat, t: nat, i: nat)
    requires Enabled(sys, e) && sid in sys.sessions && (e.Connect? ==> e.sid != sid) && NotLeftBehind(sys.sessions[sid], t, i)
    ensures sid in Step(sys, e).sessions && NotLeftBehind(Step(sys, e).sessions[sid], t, i)
  {
  }

  lemma {:induction false} LeavesNobody(ss: seq<System>, es: seq<Event>, k: nat, sid: nat, t: nat, i: nat)
    requires Run(ss, es) && k <= |es| && Standing(ss, es, k, sid, t, i)
    ensures sid in ss[k].sessions ==> NotLeftBehind(ss[k].sessions[sid], t, i)
    decreases k
  {
    if k > 0 {
      LeavesNobody(ss, es, k - 1, sid, t, i);
      AlwaysExact(ss, es, k - 1, sid);
      AlwaysInv(ss, es, k - 1);
      assert Enabled(ss[k - 1], es[k - 1]);
      LeavesNobodyStep(ss[k - 1], es[k - 1], sid, t, i);
    }
  }

  lemma LeavesNobodyStep(sys: System, e: Event, sid: nat, t: nat, i: nat)
    requires Enabled(sys, e) && AllOk(sys.tiers, sys.sessions)
    requires sid in sys.sessions ==> Exact(sys.tiers, sys.sessions[sid]) && NotLeftBehind(sys.sessions[sid], t, i)
    requires e.Connect? && e.sid == sid ==> t < |sys.tiers| && i < |sys.tiers[t].peers| && CanGive(sys.tiers[t], i, e.now)
    ensures sid in Step(sys, e).sessions ==> NotLeftBehind(Step(sys, e).sessions[sid], t, i)
  {
    if sid in sys.sessions {
      if e.Connect? && e.sid == sid {
        ConnectLeavesNobody(sys, e, t, i);
      } else {
        StepLeavesNobody(sys, e, sid, t, i);
      }
    }
  }

  // ----- Counting

  lemma {:induction false} DistinctSet(xs: seq<(nat, nat)>)
    requires Distinct(xs)
    ensures |set x | x in xs| == |xs|
  {
    var all := set x | x in xs;
    if xs != [] {
      var front, last := xs[..|xs| - 1], xs[|xs| - 1];
      DistinctSet(front);
      assert all == (set x | x in front) + {last};
    }
  }

  /** The places of tier `t`. */
  ghost function PlacesOf(t: nat, n: nat): set<(nat, nat)> {
    set i: nat | i < n :: (t, i)
  }

  lemma {:induction false} TierPlaces(t: nat, n: nat)
    ensures |PlacesOf(t, n)| == n
    decreases n
  {
    if n > 0 {
      TierPlaces(t, n - 1);
      assert PlacesOf(t, n) == PlacesOf(t, n - 1) + {(t, n - 1)};
    } else {
      assert PlacesOf(t, n) == {};
    }
  }

  lemma PlacesCount(tiers: seq<Tier>)
    requires WellFormed(tiers)
    ensures |Places(tiers)| == Everybody(tiers)
  {
    var a := PlacesOf(0, |tiers[0].peers|);
    TierPlaces(0, |tiers[0].peers|);
    if |tiers| == 1 {
      assert Places(tiers) == a;
      assert Everybody(tiers) == |tiers[0].peers| + Everybody([]);
    } else {
      var b := PlacesOf(1, |tiers[1].peers|);
      TierPlaces(1, |tiers[1].peers|);
      assert Places(tiers) == a + b && a !! b;
      assert tiers[1..][0] == tiers[1] && tiers[1..][1..] == [];
    }
  }

  lemma EqualByCount<T>(a: set<T>, b: set<T>)
    requires a <= b && |a| == |b|
    ensures a == b
  {
    assert b == a + (b - a);
  }

  /** As many distinct peers as there are: all of them. */
  lemma AllGiven(tiers: seq<Tier>, s: Session, t: nat, i: nat)
    requires WellFormed(tiers) && Exact(tiers, s) && Distinct(s.attempts) && |s.attempts| == Everybody(tiers)
    requires t < |tiers| && i < |tiers[t].peers|
    ensures (t, i) in s.attempts
  {
    var given := set x | x in s.attempts;
    DistinctSet(s.attempts);
    PlacesCount(tiers);
    EqualByCount(given, Places(tiers));
    assert (t, i) in Places(tiers);
  }

  /** The session gives up at event `k` of its own accord: nobody to be given, or no leave or no try for another. */
  ghost predicate GivesUp(ss: seq<System>, es: seq<Event>, k: nat, sid: nat)
    requires k < |es| < |ss|
  {
    && (es[k].Connect? || (es[k].Next? && es[k].again)) && es[k].sid == sid && sid in ss[k].sessions
    && sid in ss[k + 1].sessions && ss[k + 1].sessions[sid].stage.Closed?
  }

  /**
   In any interleaving: a session that gives up has been given every peer that could be given whenever it
   connected, or as many peers as it had tries; all of them if it had a try for each.
   */
  lemma NobodyIsSkipped(ss: seq<System>, es: seq<Event>, k: nat, sid: nat, t: nat, i: nat)
    requires Run(ss, es) && k < |es| && GivesUp(ss, es, k, sid) && Standing(ss, es, k + 1, sid, t, i)
    requires t < |ss[k].tiers| && i < |ss[k].tiers[t].peers|
    ensures var s := ss[k].sessions[sid];
            (t, i) in s.attempts || (|s.attempts| == s.budget < Everybody(ss[k].tiers))
  {
    var s := ss[k].sessions[sid];
    AlwaysExact(ss, es, k, sid);
    AlwaysInv(ss, es, k);
    assert Enabled(ss[k], es[k]);
    assert SessionOk(ss[k].tiers, s);
    if es[k].Connect? {
      LeavesNobody(ss, es, k, sid, t, i);
      ConnectLeavesNobody(ss[k], es[k], t, i);
    } else {
      RetriesWhileItMay(ss, es, k);
      GivenByBudget(ss[k].tiers, s, t, i);
    }
  }

  lemma GivenByBudget(tiers: seq<Tier>, s: Session, t: nat, i: nat)
    requires WellFormed(tiers) && Exact(tiers, s) && SessionOk(tiers, s) && |s.attempts| >= s.budget && !s.stage.Connecting?
    requires t < |tiers| && i < |tiers[t].peers|
    ensures (t, i) in s.attempts || (|s.attempts| == s.budget < Everybody(tiers))
  {
    var given := set x | x in s.attempts;
    DistinctSet(s.attempts);
    PlacesCount(tiers);
    SubsetCount(given, Places(tiers));
    if |s.attempts| == Everybody(tiers) {
      AllGiven(tiers, s, t, i);
    }
  }

  lemma SubsetCount<T>(a: set<T>, b: set<T>)
    requires a <= b
    ensures |a| <= |b|
  {
    assert b == a + (b - a);
  }
}
