/**
 Any number of proxy sessions sharing one upstream. Every get, release and
 notification is one atomic step, as under the lock in the source, and the
 sessions take their steps in any order.
 */
module Sessions {
  import opened Bytes
  import opened RoundRobin
  import opened Balancer

  /** A session is about to ask for a peer, holds one (its `sockaddr` is set), or is finished. */
  datatype Stage = Connecting | Holding | Closed

  /** `attempts` is the log of the peers given to the session, `budget` the tries it started with. */
  datatype Session = Session(cursor: Cursor, stage: Stage, tries: nat, budget: nat, attempts: seq<(nat, nat)>)

  datatype System = System(tiers: seq<Tier>, sessions: map<nat, Session>)

  datatype Event =
    | Open(sid: nat, limit: nat)
    | Connect(sid: nat, now: int)
    | Connected(sid: nat)
    | Next(sid: nat, now: int, again: bool)
    | Finalize(sid: nat, now: int)

  /** What the control flow of the proxy lets happen next. */
  ghost predicate Allowed(sys: System, e: Event) {
    if e.Open? then e.sid !in sys.sessions
    else
      && e.sid in sys.sessions
      && match e
         case Connect(_, _) => sys.sessions[e.sid].stage.Connecting?
         case Connected(_) => sys.sessions[e.sid].stage.Holding?
         case Next(_, _, _) => sys.sessions[e.sid].stage.Holding?
         case Finalize(_, _) => !sys.sessions[e.sid].stage.Closed?
  }

  /** The session's references into the tiers are not dangling. */
  ghost predicate Attached(tiers: seq<Tier>, s: Session) {
    && s.cursor.tier < |tiers|
    && (s.stage.Holding? ==> s.cursor.current.Some? && s.cursor.current.value < |tiers[s.cursor.tier].peers|)
  }

  ghost predicate Enabled(sys: System, e: Event) {
    && WellFormed(sys.tiers)
    && Allowed(sys, e)
    && (e.Open? || Attached(sys.tiers, sys.sessions[e.sid]))
  }

  /** `Next` and `Finalize` give the peer back first; `Next` goes on only while tries are left and it may. */
  ghost function Step(sys: System, e: Event): System
    requires Enabled(sys, e)
  {
    if e.Open? then
      var n := Tries(sys.tiers, e.limit);
      sys.(sessions := sys.sessions[e.sid := Session(Cursor(0, None, {}), Connecting, n, n, [])])
    else
      var s := sys.sessions[e.sid];
      match e
      case Connect(sid, now) =>
        var g := GetRoundRobinPeer(sys.tiers, s.cursor, now);
        var u := if g.ok
                 then s.(cursor := g.cursor, stage := Holding,
                         attempts := s.attempts + [(g.cursor.tier, g.cursor.current.value)])
                 else s.(cursor := g.cursor, stage := Closed);
        System(g.tiers, sys.sessions[sid := u])
      case Connected(sid) =>
        var ps, b := sys.tiers[s.cursor.tier].peers, s.cursor.current.value;
        System(SetPeers(sys.tiers, s.cursor.tier, ps[b := Notify(ps[b])]), sys.sessions)
      case Next(sid, now, again) =>
        var f := FreeRoundRobinPeer(sys.tiers, s.cursor, s.tries, true, now);
        var stage := if f.tries == 0 || !again then Closed else Connecting;
        System(f.tiers, sys.sessions[sid := s.(tries := f.tries, stage := stage)])
      case Finalize(sid, now) =>
        if s.stage.Connecting? then sys.(sessions := sys.sessions[sid := s.(stage := Closed)])
        else
          var f := FreeRoundRobinPeer(sys.tiers, s.cursor, s.tries, false, now);
          System(f.tiers, sys.sessions[sid := s.(tries := f.tries, stage := Closed)])
  }

  /** The session holds peer `i` of tier `t`. */
  ghost predicate Holds(s: Session, t: nat, i: nat) {
    s.stage.Holding? && s.cursor.tier == t && s.cursor.current == Some(i)
  }

  ghost function Holders(ss: map<nat, Session>, t: nat, i: nat): set<nat> {
    set sid | sid in ss && Holds(ss[sid], t, i)
  }

  /** Every peer counts exactly its holders and stays within its limit. */
  ghost predicate Accounted(sys: System) {
    forall t: nat, i: nat | t < |sys.tiers| && i < |sys.tiers[t].peers| ::
      PeerAccounted(sys.tiers[t].peers[i], |Holders(sys.sessions, t, i)|)
  }

  ghost predicate PeerAccounted(p: Peer, holders: nat) {
    p.conns == holders && (p.maxConns != 0 ==> p.conns <= p.maxConns)
  }

  ghost predicate Distinct(xs: seq<(nat, nat)>) {
    forall i, j | 0 <= i < j < |xs| :: xs[i] != xs[j]
  }

  /** A session never repeats a peer, never looks back to a tier it has left, and never exceeds its budget. */
  ghost predicate SessionOk(tiers: seq<Tier>, s: Session) {
    && Attached(tiers, s)
    && Distinct(s.attempts)
    && (forall k | 0 <= k < |s.attempts| :: s.attempts[k].0 <= s.cursor.tier)
    && (forall k | 0 <= k < |s.attempts| ::
          s.attempts[k].0 == s.cursor.tier && !tiers[s.cursor.tier].single ==> s.attempts[k].1 in s.cursor.tried)
    && (tiers[s.cursor.tier].single && s.stage.Connecting? ==> s.attempts == [])
    && match s.stage
       case Connecting => s.tries > 0 && |s.attempts| + s.tries <= s.budget
       case Holding => s.tries > 0 && |s.attempts| + s.tries <= s.budget + 1
       case Closed => |s.attempts| <= s.budget
  }

  ghost predicate Inv(sys: System) {
    && WellFormed(sys.tiers)
    && AllBalanced(sys.tiers)
    && Accounted(sys)
    && AllOk(sys.tiers, sys.sessions)
  }

  ghost predicate AllBalanced(tiers: seq<Tier>) {
    forall t | 0 <= t < |tiers| :: Balanced(tiers[t].peers)
  }

  ghost predicate AllOk(tiers: seq<Tier>, ss: map<nat, Session>) {
    forall sid | sid in ss :: SessionOk(tiers, ss[sid])
  }

  // ----- Counting holders

  lemma HoldersUpdate(ss: map<nat, Session>, sid: nat, u: Session, t: nat, i: nat)
    ensures Holders(ss[sid := u], t, i)
            == if Holds(u, t, i) then Holders(ss, t, i) + {sid} else Holders(ss, t, i) - {sid}
  {
  }

  /** The tiers agree on their shape. */
  ghost predicate SameShape(ts: seq<Tier>, us: seq<Tier>) {
    && |ts| == |us|
    && forall t | 0 <= t < |ts| :: |ts[t].peers| == |us[t].peers| && ts[t].single == us[t].single
  }

  lemma ShapeKeepsForm(ts: seq<Tier>, us: seq<Tier>)
    requires SameShape(ts, us) && WellFormed(ts)
    ensures WellFormed(us)
  {
  }

  /** Only the tier `t` has changed, and it is balanced. */
  lemma OneTierBalanced(ts: seq<Tier>, us: seq<Tier>, t: nat)
    requires AllBalanced(ts) && t < |ts| == |us| && us == ts[t := us[t]] && Balanced(us[t].peers)
    ensures AllBalanced(us)
  {
  }

  lemma OtherSessionsOk(ts: seq<Tier>, us: seq<Tier>, s: Session)
    requires SameShape(ts, us) && SessionOk(ts, s)
    ensures SessionOk(us, s)
  {
  }

  // ----- Every step keeps the invariant

  /** A session that neither held a peer nor holds one now changes no count. */
  lemma NobodyHolds(sys: System, sid: nat, u: Session)
    requires Accounted(sys) && !u.stage.Holding?
    requires sid in sys.sessions ==> !sys.sessions[sid].stage.Holding?
    ensures Accounted(System(sys.tiers, sys.sessions[sid := u]))
  {
    forall t: nat, i: nat | t < |sys.tiers| && i < |sys.tiers[t].peers|
      ensures PeerAccounted(sys.tiers[t].peers[i], |Holders(sys.sessions[sid := u], t, i)|)
    {
      HoldersUpdate(sys.sessions, sid, u, t, i);
      assert Holders(sys.sessions, t, i) - {sid} == Holders(sys.sessions, t, i);
    }
  }

  lemma StepOpen(sys: System, e: Event)
    requires Inv(sys) && Enabled(sys, e) && e.Open?
    ensures Inv(Step(sys, e))
  {
    var out := Step(sys, e);
    var u := out.sessions[e.sid];
    assert SessionOk(out.tiers, u);
    NobodyHolds(sys, e.sid, u);
    SessionsUpdateOk(sys.tiers, sys.tiers, sys.sessions, e.sid, u);
  }

  /** The session after its `get` was granted. */
  ghost function GrantedSession(s: Session, g: Got): Session
    requires g.cursor.current.Some?
  {
    s.(cursor := g.cursor, stage := Holding, attempts := s.attempts + [(g.cursor.tier, g.cursor.current.value)])
  }

  lemma GrantedSessionOk(tiers: seq<Tier>, s: Session, g: Got)
    requires WellFormed(tiers) && SessionOk(tiers, s) && s.stage.Connecting?
    requires Granted(tiers, s.cursor, g)
    ensures SameShape(tiers, g.tiers)
    ensures SessionOk(g.tiers, GrantedSession(s, g))
  {
    assert (g.cursor.tier, g.cursor.current.value) !in s.attempts;
  }

  lemma GrantAccounted(sys: System, sid: nat, g: Got, t: nat, i: nat)
    requires Accounted(sys) && sid in sys.sessions && sys.sessions[sid].stage.Connecting?
    requires Granted(sys.tiers, sys.sessions[sid].cursor, g)
    requires t < |sys.tiers| && i < |sys.tiers[t].peers|
    ensures PeerAccounted(g.tiers[t].peers[i],
                          |Holders(sys.sessions[sid := GrantedSession(sys.sessions[sid], g)], t, i)|)
  {
    assert PeerAccounted(sys.tiers[t].peers[i], |Holders(sys.sessions, t, i)|);
    HoldersUpdate(sys.sessions, sid, GrantedSession(sys.sessions[sid], g), t, i);
    assert Holders(sys.sessions, t, i) - {sid} == Holders(sys.sessions, t, i);
  }

  lemma SessionsUpdateOk(ts: seq<Tier>, us: seq<Tier>, ss: map<nat, Session>, sid: nat, u: Session)
    requires SameShape(ts, us) && SessionOk(us, u)
    requires AllOk(ts, ss)
    ensures AllOk(us, ss[sid := u])
  {
    forall r | r in ss && r != sid
      ensures SessionOk(us, ss[r])
    {
      OtherSessionsOk(ts, us, ss[r]);
    }
  }

  lemma GrantAllAccounted(sys: System, sid: nat, g: Got)
    requires Accounted(sys) && sid in sys.sessions && sys.sessions[sid].stage.Connecting?
    requires Granted(sys.tiers, sys.sessions[sid].cursor, g) && SameShape(sys.tiers, g.tiers)
    ensures Accounted(System(g.tiers, sys.sessions[sid := GrantedSession(sys.sessions[sid], g)]))
  {
    var u := GrantedSession(sys.sessions[sid], g);
    forall t: nat, i: nat | t < |g.tiers| && i < |g.tiers[t].peers|
      ensures PeerAccounted(g.tiers[t].peers[i], |Holders(sys.sessions[sid := u], t, i)|)
    {
      GrantAccounted(sys, sid, g, t, i);
    }
  }

  lemma GrantBalanced(tiers: seq<Tier>, c: Cursor, g: Got)
    requires AllBalanced(tiers) && Granted(tiers, c, g)
    ensures AllBalanced(g.tiers)
  {
    OneTierBalanced(tiers, g.tiers, g.cursor.tier);
  }

  lemma GrantKeepsInv(sys: System, sid: nat, g: Got)
    requires Inv(sys) && sid in sys.sessions && sys.sessions[sid].stage.Connecting?
    requires Granted(sys.tiers, sys.sessions[sid].cursor, g)
    ensures Inv(System(g.tiers, sys.sessions[sid := GrantedSession(sys.sessions[sid], g)]))
  {
    var s := sys.sessions[sid];
    assert SessionOk(sys.tiers, s);
    GrantedSessionOk(sys.tiers, s, g);
    ShapeKeepsForm(sys.tiers, g.tiers);
    GrantBalanced(sys.tiers, s.cursor, g);
    GrantAllAccounted(sys, sid, g);
    SessionsUpdateOk(sys.tiers, g.tiers, sys.sessions, sid, GrantedSession(s, g));
  }

  lemma StepConnectBusy(sys: System, e: Event)
    requires Inv(sys) && Enabled(sys, e) && e.Connect?
    requires !GetRoundRobinPeer(sys.tiers, sys.sessions[e.sid].cursor, e.now).ok
    ensures Inv(Step(sys, e))
  {
    var out := Step(sys, e);
    var u := out.sessions[e.sid];
    assert SessionOk(out.tiers, u);
    NobodyHolds(sys, e.sid, u);
    SessionsUpdateOk(sys.tiers, sys.tiers, sys.sessions, e.sid, u);
  }

  /** A notification counts no connection and moves no limit. */
  lemma NotifyCountsNothing(tiers: seq<Tier>, us: seq<Tier>, t: nat, b: nat)
    requires t < |tiers| && b < |tiers[t].peers|
    requires us == SetPeers(tiers, t, tiers[t].peers[b := Notify(tiers[t].peers[b])])
    ensures SameShape(tiers, us)
    ensures forall k: nat, i: nat | k < |tiers| && i < |tiers[k].peers| ::
              us[k].peers[i].conns == tiers[k].peers[i].conns && us[k].peers[i].maxConns == tiers[k].peers[i].maxConns
  {
  }

  lemma StepConnected(sys: System, e: Event)
    requires Inv(sys) && Enabled(sys, e) && e.Connected?
    ensures Inv(Step(sys, e))
  {
    var s, out := sys.sessions[e.sid], Step(sys, e);
    var t0, b := s.cursor.tier, s.cursor.current.value;
    var ps := sys.tiers[t0].peers;
    UpdateKeepsBalance(ps, b, Notify(ps[b]));
    NotifyCountsNothing(sys.tiers, out.tiers, t0, b);
    ShapeKeepsForm(sys.tiers, out.tiers);
    OneTierBalanced(sys.tiers, out.tiers, t0);
    assert SessionOk(sys.tiers, s);
    OtherSessionsOk(sys.tiers, out.tiers, s);
    SessionsUpdateOk(sys.tiers, out.tiers, sys.sessions, e.sid, s);
    assert sys.sessions[e.sid := s] == sys.sessions;
    SameCounts(sys, out.tiers);
  }

  lemma SameCounts(sys: System, us: seq<Tier>)
    requires Accounted(sys) && SameShape(sys.tiers, us)
    requires forall k: nat, i: nat | k < |sys.tiers| && i < |sys.tiers[k].peers| ::
              && us[k].peers[i].conns == sys.tiers[k].peers[i].conns
              && us[k].peers[i].maxConns == sys.tiers[k].peers[i].maxConns
    ensures Accounted(System(us, sys.sessions))
  {
    forall t: nat, i: nat | t < |us| && i < |us[t].peers|
      ensures PeerAccounted(us[t].peers[i], |Holders(sys.sessions, t, i)|)
    {
      assert PeerAccounted(sys.tiers[t].peers[i], |Holders(sys.sessions, t, i)|);
    }
  }

  /** Whenever a session gives a peer back, the peer is counting at least that session. */
  lemma NoUnderflow(sys: System, sid: nat)
    requires Inv(sys) && sid in sys.sessions && sys.sessions[sid].stage.Holding?
    ensures var c := sys.sessions[sid].cursor;
            sys.tiers[c.tier].peers[c.current.value].conns >= 1
  {
    var c := sys.sessions[sid].cursor;
    assert SessionOk(sys.tiers, sys.sessions[sid]);
    assert PeerAccounted(sys.tiers[c.tier].peers[c.current.value], |Holders(sys.sessions, c.tier, c.current.value)|);
    assert sid in Holders(sys.sessions, c.tier, c.current.value);
  }

  /** `u` is the session `s` after giving its peer back. */
  ghost predicate Released(s: Session, tries: nat, u: Session) {
    && u == s.(stage := u.stage, tries := tries)
    && (u.stage.Closed? || (u.stage.Connecting? && tries > 0))
  }

  lemma ReleasedSessionOk(tiers: seq<Tier>, s: Session, f: Freed, u: Session)
    requires WellFormed(tiers) && SessionOk(tiers, s) && s.stage.Holding?
    requires SameShape(tiers, f.tiers) && Released(s, f.tries, u) && f.tries < s.tries
    requires tiers[s.cursor.tier].single ==> f.tries == 0
    ensures SessionOk(f.tiers, u)
  {
  }

  lemma ReleaseAccounted(sys: System, sid: nat, us: seq<Tier>, u: Session, t: nat, i: nat)
    requires Accounted(sys) && sid in sys.sessions && sys.sessions[sid].stage.Holding?
    requires Attached(sys.tiers, sys.sessions[sid]) && !u.stage.Holding?
    requires t < |sys.tiers| == |us| && i < |sys.tiers[t].peers| == |us[t].peers|
    requires us[t].peers[i].maxConns == sys.tiers[t].peers[i].maxConns
    requires us[t].peers[i].conns == sys.tiers[t].peers[i].conns - if Holds(sys.sessions[sid], t, i) then 1 else 0
    ensures PeerAccounted(us[t].peers[i], |Holders(sys.sessions[sid := u], t, i)|)
  {
    assert PeerAccounted(sys.tiers[t].peers[i], |Holders(sys.sessions, t, i)|);
    HoldersUpdate(sys.sessions, sid, u, t, i);
    if Holds(sys.sessions[sid], t, i) {
      assert sid in Holders(sys.sessions, t, i);
    } else {
      assert Holders(sys.sessions, t, i) - {sid} == Holders(sys.sessions, t, i);
    }
  }

  /** Giving a peer back takes one connection off that peer, and no limit moves. */
  lemma GivenBackCounts(tiers: seq<Tier>, c: Cursor, tries: nat, f: Freed)
    requires c.tier < |tiers| && c.current.Some? && c.current.value < |tiers[c.tier].peers|
    requires GivenBack(tiers, c, tries, f)
    ensures SameShape(tiers, f.tiers)
    ensures forall t: nat, i: nat | t < |tiers| && i < |tiers[t].peers| ::
              && f.tiers[t].peers[i].maxConns == tiers[t].peers[i].maxConns
              && f.tiers[t].peers[i].conns
                 == tiers[t].peers[i].conns - if t == c.tier && i == c.current.value then 1 else 0
  {
  }

  lemma ReleaseAllAccounted(sys: System, sid: nat, f: Freed, u: Session)
    requires Accounted(sys) && sid in sys.sessions && sys.sessions[sid].stage.Holding?
    requires Attached(sys.tiers, sys.sessions[sid]) && !u.stage.Holding?
    requires GivenBack(sys.tiers, sys.sessions[sid].cursor, sys.sessions[sid].tries, f)
    ensures Accounted(System(f.tiers, sys.sessions[sid := u]))
  {
    var s := sys.sessions[sid];
    GivenBackCounts(sys.tiers, s.cursor, s.tries, f);
    forall t: nat, i: nat | t < |f.tiers| && i < |f.tiers[t].peers|
      ensures PeerAccounted(f.tiers[t].peers[i], |Holders(sys.sessions[sid := u], t, i)|)
    {
      ReleaseAccounted(sys, sid, f.tiers, u, t, i);
    }
  }

  lemma ReleaseBalanced(tiers: seq<Tier>, c: Cursor, tries: nat, f: Freed)
    requires c.tier < |tiers| && c.current.Some? && c.current.value < |tiers[c.tier].peers|
    requires AllBalanced(tiers) && GivenBack(tiers, c, tries, f)
    ensures AllBalanced(f.tiers)
  {
    OneTierBalanced(tiers, f.tiers, c.tier);
  }

  lemma ReleaseKeepsInv(sys: System, sid: nat, f: Freed, u: Session)
    requires Inv(sys) && sid in sys.sessions && sys.sessions[sid].stage.Holding?
    requires Attached(sys.tiers, sys.sessions[sid])
    requires GivenBack(sys.tiers, sys.sessions[sid].cursor, sys.sessions[sid].tries, f)
    requires Released(sys.sessions[sid], f.tries, u)
    ensures Inv(System(f.tiers, sys.sessions[sid := u]))
  {
    var s := sys.sessions[sid];
    assert SessionOk(sys.tiers, s);
    GivenBackCounts(sys.tiers, s.cursor, s.tries, f);
    ShapeKeepsForm(sys.tiers, f.tiers);
    ReleaseBalanced(sys.tiers, s.cursor, s.tries, f);
    ReleaseAllAccounted(sys, sid, f, u);
    ReleasedSessionOk(sys.tiers, s, f, u);
    SessionsUpdateOk(sys.tiers, f.tiers, sys.sessions, sid, u);
  }

  lemma StepRelease(sys: System, e: Event)
    requires Inv(sys) && Enabled(sys, e) && (e.Next? || e.Finalize?) && sys.sessions[e.sid].stage.Holding?
    ensures Inv(Step(sys, e))
  {
    var s := sys.sessions[e.sid];
    FreeEffect(sys.tiers, s.cursor, s.tries, e.Next?, e.now);
    var f := FreeRoundRobinPeer(sys.tiers, s.cursor, s.tries, e.Next?, e.now);
    ReleaseKeepsInv(sys, e.sid, f, Step(sys, e).sessions[e.sid]);
  }

  lemma StepFinalizeEarly(sys: System, e: Event)
    requires Inv(sys) && Enabled(sys, e) && e.Finalize? && sys.sessions[e.sid].stage.Connecting?
    ensures Inv(Step(sys, e))
  {
    var out := Step(sys, e);
    var u := out.sessions[e.sid];
    assert SessionOk(out.tiers, u);
    NobodyHolds(sys, e.sid, u);
    SessionsUpdateOk(sys.tiers, sys.tiers, sys.sessions, e.sid, u);
  }

  lemma StepKeepsInv(sys: System, e: Event)
    requires Inv(sys) && Enabled(sys, e)
    ensures Inv(Step(sys, e))
  {
    match e
    case Open(_, _) => StepOpen(sys, e);
    case Connect(sid, now) =>
      var g := GetRoundRobinPeer(sys.tiers, sys.sessions[sid].cursor, now);
      if g.ok {
        GrantKeepsInv(sys, sid, g);
      } else {
        StepConnectBusy(sys, e);
      }
    case Connected(_) => StepConnected(sys, e);
    case Next(_, _, _) => StepRelease(sys, e);
    case Finalize(sid, now) =>
      if sys.sessions[sid].stage.Connecting? {
        StepFinalizeEarly(sys, e);
      } else {
        StepRelease(sys, e);
      }
  }

  // ----- Whole runs

  /** What configuration hands to the first session. */
  ghost predicate Initial(sys: System) {
    && WellFormed(sys.tiers)
    && sys.sessions == map[]
    && forall t, i | 0 <= t < |sys.tiers| && 0 <= i < |sys.tiers[t].peers| :: FreshPeer(sys.tiers[t].peers[i])
  }

  ghost predicate FreshPeer(p: Peer) {
    p.conns == 0 && p.currentWeight == 0 && p.effectiveWeight == p.weight && p.weight > 0
  }

  /** The system goes through `ss`, event by event. */
  ghost predicate Run(ss: seq<System>, es: seq<Event>) {
    && |ss| == |es| + 1
    && Initial(ss[0])
    && forall k: nat {:trigger Enabled(ss[k], es[k])} | k < |es| ::
         Enabled(ss[k], es[k]) && ss[k + 1] == Step(ss[k], es[k])
  }

  lemma {:induction false} SumOfFresh(ps: seq<Peer>, n: nat)
    requires n <= |ps| && forall i | 0 <= i < |ps| :: FreshPeer(ps[i])
    ensures SumCurrent(ps, n) == 0
  {
    if n > 0 {
      SumOfFresh(ps, n - 1);
    }
  }

  lemma InitialInv(sys: System)
    requires Initial(sys)
    ensures Inv(sys)
  {
    forall t | 0 <= t < |sys.tiers|
      ensures Balanced(sys.tiers[t].peers)
    {
      SumOfFresh(sys.tiers[t].peers, |sys.tiers[t].peers|);
    }
    forall t: nat, i: nat | t < |sys.tiers| && i < |sys.tiers[t].peers|
      ensures PeerAccounted(sys.tiers[t].peers[i], |Holders(sys.sessions, t, i)|)
    {
      assert FreshPeer(sys.tiers[t].peers[i]);
      assert Holders(sys.sessions, t, i) == {};
    }
  }

  lemma {:induction false} AlwaysInv(ss: seq<System>, es: seq<Event>, k: nat)
    requires Run(ss, es) && k < |ss|
    ensures Inv(ss[k])
  {
    if k == 0 {
      InitialInv(ss[0]);
    } else {
      AlwaysInv(ss, es, k - 1);
      assert Enabled(ss[k - 1], es[k - 1]);
      StepKeepsInv(ss[k - 1], es[k - 1]);
    }
  }

  /** In a reachable state the references are always good, so only the control flow decides what may happen. */
  lemma EnabledIsAllowed(ss: seq<System>, es: seq<Event>, k: nat, e: Event)
    requires Run(ss, es) && k < |ss|
    ensures Enabled(ss[k], e) <==> Allowed(ss[k], e)
  {
    AlwaysInv(ss, es, k);
    if Allowed(ss[k], e) && !e.Open? {
      assert SessionOk(ss[k].tiers, ss[k].sessions[e.sid]);
    }
  }

  /** Connection accounting in every reachable state of every interleaving. */
  lemma ConnectionAccounting(ss: seq<System>, es: seq<Event>, k: nat, t: nat, i: nat)
    requires Run(ss, es) && k < |ss| && t < |ss[k].tiers| && i < |ss[k].tiers[t].peers|
    ensures var p := ss[k].tiers[t].peers[i];
            && p.conns == |Holders(ss[k].sessions, t, i)|
            && (p.maxConns != 0 ==> p.conns <= p.maxConns)
  {
    AlwaysInv(ss, es, k);
    assert PeerAccounted(ss[k].tiers[t].peers[i], |Holders(ss[k].sessions, t, i)|);
  }

  /** Weight conservation in every reachable state of every interleaving. */
  lemma WeightConservation(ss: seq<System>, es: seq<Event>, k: nat, t: nat)
    requires Run(ss, es) && k < |ss| && t < |ss[k].tiers|
    ensures var ps := ss[k].tiers[t].peers;
            && SumCurrent(ps, |ps|) == 0
            && forall i | 0 <= i < |ps| :: 0 <= ps[i].effectiveWeight <= ps[i].weight
  {
    AlwaysInv(ss, es, k);
  }

  /** No session is given the same peer twice, across both tiers, or more peers than it had tries. */
  lemma RetrySafety(ss: seq<System>, es: seq<Event>, k: nat, sid: nat)
    requires Run(ss, es) && k < |ss| && sid in ss[k].sessions
    ensures Distinct(ss[k].sessions[sid].attempts)
    ensures |ss[k].sessions[sid].attempts| <= ss[k].sessions[sid].budget
  {
    AlwaysInv(ss, es, k);
    assert SessionOk(ss[k].tiers, ss[k].sessions[sid]);
  }

  /** Steps a session can still take: a get and a release per try, and the last one. */
  ghost function Remaining(s: Session): nat {
    match s.stage
    case Connecting => 2 * s.tries + 1
    case Holding => 2 * s.tries
    case Closed => 0
  }

  /** Every get, retry and finish brings the session nearer to its end and leaves the other sessions alone. */
  lemma StepApproachesEnd(sys: System, e: Event)
    requires Enabled(sys, e) && !e.Open? && !e.Connected? && SessionOk(sys.tiers, sys.sessions[e.sid])
    ensures var out := Step(sys, e).sessions;
            && out == sys.sessions[e.sid := out[e.sid]]
            && Remaining(out[e.sid]) < Remaining(sys.sessions[e.sid])
            && out[e.sid].budget == sys.sessions[e.sid].budget
  {
    var s := sys.sessions[e.sid];
    match e
    case Connect(_, now) =>
      var g := GetRoundRobinPeer(sys.tiers, s.cursor, now);
    case Next(_, now, _) =>
      FreeEffect(sys.tiers, s.cursor, s.tries, true, now);
    case Finalize(_, _) =>
  }

  /** How many of the first `k` events were steps of the session's connect and retry loop. */
  ghost function StepsOf(es: seq<Event>, sid: nat, k: nat): nat
    requires k <= |es|
  {
    if k == 0 then 0
    else
      var e := es[k - 1];
      StepsOf(es, sid, k - 1) + (if e.sid == sid && !e.Open? && !e.Connected? then 1 else 0)
  }

  /** After `n` steps of its loop the session has at most the rest of its allowance to go. */
  ghost predicate WithinBudget(ss: map<nat, Session>, sid: nat, n: nat) {
    if sid in ss then n + Remaining(ss[sid]) <= 2 * ss[sid].budget + 1 else n == 0
  }

  lemma StepWithinBudget(sys: System, e: Event, sid: nat, n: nat)
    requires Enabled(sys, e) && AllOk(sys.tiers, sys.sessions) && WithinBudget(sys.sessions, sid, n)
    ensures WithinBudget(Step(sys, e).sessions, sid, n + if e.sid == sid && !e.Open? && !e.Connected? then 1 else 0)
  {
    if !e.Open? && !e.Connected? {
      assert SessionOk(sys.tiers, sys.sessions[e.sid]);
      StepApproachesEnd(sys, e);
    }
  }

  lemma NextWithinBudget(ss: seq<System>, es: seq<Event>, k: nat, sid: nat)
    requires Run(ss, es) && k < |es| && WithinBudget(ss[k].sessions, sid, StepsOf(es, sid, k))
    ensures WithinBudget(ss[k + 1].sessions, sid, StepsOf(es, sid, k + 1))
  {
    assert Enabled(ss[k], es[k]);
    AlwaysInv(ss, es, k);
    StepWithinBudget(ss[k], es[k], sid, StepsOf(es, sid, k));
  }

  lemma {:induction false} AlwaysWithinBudget(ss: seq<System>, es: seq<Event>, k: nat, sid: nat)
    requires Run(ss, es) && k <= |es|
    ensures WithinBudget(ss[k].sessions, sid, StepsOf(es, sid, k))
  {
    if k > 0 {
      AlwaysWithinBudget(ss, es, k - 1, sid);
      NextWithinBudget(ss, es, k - 1, sid);
    }
  }

  /** In every run the connect and retry loop of a session ends: it takes at most 2 * budget + 1 steps. */
  lemma RetryTerminates(ss: seq<System>, es: seq<Event>, sid: nat)
    requires Run(ss, es) && sid in ss[|es|].sessions
    ensures StepsOf(es, sid, |es|) <= 2 * ss[|es|].sessions[sid].budget + 1
  {
    AlwaysWithinBudget(ss, es, |es|, sid);
  }
}
