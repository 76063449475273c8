/**
 The proxy's connect and retry recursion for one session, run without
 interleaving: ngx_nsoc_proxy_connect, ngx_nsoc_proxy_next_upstream and
 ngx_nsoc_proxy_finalize calling one another over the balancer.
 */
module ProxyRetry {
  import opened Bytes
  import opened RoundRobinPeers
  import B = Balancer

  /** How ngx_event_connect_peer ends once it has a peer. */
  datatype Outcome = Failed | Declined | InProgress | Established

  /**
   What the outside world decides at each attempt: how it ends, whether output is still pending, whether
   another attempt may follow, and the time.
   */
  datatype World = World(outcome: nat -> Outcome, pending: nat -> bool, mayRetry: nat -> bool, clock: nat -> int)

  /** From `before` to `after` exactly the peer `holder` has gained a connection. */
  ghost predicate OneMore(before: seq<B.Tier>, after: seq<B.Tier>, holder: Option<(nat, nat)>) {
    && |before| == |after|
    && forall t: nat | t < |before| ::
         && |before[t].peers| == |after[t].peers|
         && forall i: nat | i < |before[t].peers| ::
              after[t].peers[i].conns == before[t].peers[i].conns + if holder == Some((t, i)) then 1 else 0
  }

  ghost function HolderOf(g: B.Got): Option<(nat, nat)> {
    if g.ok && g.cursor.current.Some? then Some((g.cursor.tier, g.cursor.current.value)) else None
  }

  lemma GetIsOneMore(tiers: seq<B.Tier>, c: B.Cursor, g: B.Got)
    requires if g.ok then B.Granted(tiers, c, g) else B.Busy(tiers, c, g)
    ensures OneMore(tiers, g.tiers, HolderOf(g))
  {
  }

  lemma GiveBackUndoes(start: seq<B.Tier>, tiers: seq<B.Tier>, c: B.Cursor, tries: nat, f: B.Freed)
    requires c.tier < |tiers| && c.current.Some? && c.current.value < |tiers[c.tier].peers|
    requires OneMore(start, tiers, Some((c.tier, c.current.value))) && B.GivenBack(tiers, c, tries, f)
    ensures OneMore(start, f.tiers, None)
  {
  }

  lemma OneMoreAfterNone(a: seq<B.Tier>, b: seq<B.Tier>, c: seq<B.Tier>, holder: Option<(nat, nat)>)
    requires OneMore(a, b, None) && OneMore(b, c, holder)
    ensures OneMore(a, c, holder)
  {
  }

  /** After `n` attempts another one may follow. */
  predicate MayFollow(w: World, n: nat) {
    !w.pending(n) && w.mayRetry(n)
  }

  /** Attempt number `n`, counted from one, was declined and another was allowed to follow. */
  predicate LedOn(w: World, n: nat) {
    n > 0 && w.outcome(n - 1).Declined? && MayFollow(w, n)
  }

  /** Ask the balancer, remembering of the answer only whether it granted a peer or was busy. */
  method Draw(u: PeerData, now: int) returns (ok: bool, ghost g: B.Got)
    requires u.Valid() && !u.sockaddr
    modifies u`peers, u`current, u`sockaddr, u.tried, u.head, u.head.next
    ensures u.Valid() && u.sockaddr == ok == g.ok
    ensures Tiers(u.head) == g.tiers && u.At() == g.cursor.tier && u.current == g.cursor.current
    ensures if ok then B.Granted(old(Tiers(u.head)), old(u.Cursor()), g)
            else B.Busy(old(Tiers(u.head)), old(u.Cursor()), g) && u.Cursor() == g.cursor
    ensures B.Answers(old(Tiers(u.head)), old(u.Cursor()), now, g)
  {
    g := B.GetRoundRobinPeer(Tiers(u.head), u.Cursor(), now);
    B.GetAnswers(Tiers(u.head), u.Cursor(), now, g);
    ok := u.Get(now);
  }

  /** Refused, a session stands in the last tier and no peer it has not tried there can be given. */
  lemma BusyIsLast(tiers: seq<B.Tier>, c: B.Cursor, now: int, g: B.Got)
    requires c.tier < |tiers| && !g.ok && B.Busy(tiers, c, g) && B.Answers(tiers, c, now, g)
    ensures g.cursor.tier == |g.tiers| - 1 && !B.Spare(g.tiers, g.cursor, g.cursor.tier, now)
  {
    var t := |tiers| - 1;
    assert B.TriedIn(g.cursor, t) == B.TriedIn(c, t);
    assert forall i: nat :: B.Untried(tiers, g.cursor, t, i) <==> B.Untried(tiers, c, t, i);
    assert !B.Spare(tiers, c, t, now);
  }

  class ProxySession {
    const u: PeerData
    var attempts: nat
    var closed: bool

    constructor (u: PeerData)
      ensures this.u == u && attempts == 0 && !closed
    {
      this.u, attempts, closed := u, 0, false;
    }

    /** The peer this session is counted on. */
    ghost function Holder(): Option<(nat, nat)>
      reads this, u
    {
      if u.sockaddr && u.current.Some? then Some((u.At(), u.current.value)) else None
    }

    /** No peer that the session has not tried in the last tier, where it stands, can be given. */
    ghost predicate NoneLeft(now: int)
      requires u.Valid()
      reads this, u, u.tried, u.head, u.head.next
    {
      u.At() == |Tiers(u.head)| - 1 && !B.Spare(Tiers(u.head), u.Cursor(), u.At(), now)
    }

    /**
     How the recursion ends that began after `from` attempts: each attempt but the last was declined and led on
     to the next; the last one stands, or it failed, or it was declined and none could follow; or there was
     nobody left to ask.
     */
    ghost predicate Ends(w: World, from: nat)
      requires u.Valid()
      reads this, u, u.tried, u.head, u.head.next
    {
      && from <= attempts
      && (forall n: nat | from < n < attempts :: LedOn(w, n))
      && if !closed then attempts > from && (w.outcome(attempts - 1).InProgress? || w.outcome(attempts - 1).Established?)
         else
           || (attempts > from && w.outcome(attempts - 1).Failed?)
           || (attempts > from && w.outcome(attempts - 1).Declined? && (!MayFollow(w, attempts) || u.tries == 0))
           || ((attempts > from ==> LedOn(w, attempts)) && NoneLeft(w.clock(attempts)))
    }

    /** Every peer given back since has used up a try. */
    ghost predicate Spent(tries: int, from: nat)
      reads this, u, u.head
    {
      !u.head.single ==> u.tries == tries - (attempts - from) + if u.sockaddr then 1 else 0
    }

    /** ngx_nsoc_proxy_connect: ask for a peer and act on how the connection attempt ends. */
    method Connect(w: World)
      requires u.Valid() && !u.sockaddr && !closed
      modifies this, u, u.tried, u.head, u.head.next
      ensures u.Valid()
      ensures closed <==> !u.sockaddr
      ensures OneMore(old(Tiers(u.head)), Tiers(u.head), Holder())
      ensures u.tries <= old(u.tries)
      ensures attempts <= old(attempts) + if old(u.tries) > 0 then old(u.tries) else 1
      ensures Ends(w, old(attempts))
      ensures old(u.tries) > 0 ==> Spent(old(u.tries), old(attempts))
      decreases u.tries, 2
    {
      ghost var start := Tiers(u.head);
      var ok := Ask(w.clock(attempts));
      if !ok {
        closed := true;
        return;
      }
      Attempt(w, start);
    }

    /** Act on how the connection attempt ends. */
    method Attempt(w: World, ghost start: seq<B.Tier>)
      requires u.Valid() && u.sockaddr && !closed && attempts > 0 && OneMore(start, Tiers(u.head), Holder())
      modifies this, u, u.tried, u.head, u.head.next
      ensures u.Valid()
      ensures closed <==> !u.sockaddr
      ensures OneMore(start, Tiers(u.head), Holder())
      ensures u.tries <= old(u.tries)
      ensures attempts <= old(attempts) + if old(u.tries) > 0 then old(u.tries) - 1 else 0
      ensures Ends(w, old(attempts) - 1)
      ensures old(u.tries) > 0 ==> Spent(old(u.tries), old(attempts) - 1)
      decreases u.tries, 1
    {
      match w.outcome(attempts - 1)
      case Failed => Finalize(w.clock(attempts), start);
      case Declined => NextUpstream(w, start);
      case InProgress =>
      case Established =>
    }

    /** Take a peer and log the attempt. */
    method Ask(now: int) returns (ok: bool)
      requires u.Valid() && !u.sockaddr
      modifies this`attempts, u, u.tried, u.head, u.head.next
      ensures u.Valid() && u.sockaddr == ok && u.tries == old(u.tries)
      ensures attempts == old(attempts) + if ok then 1 else 0
      ensures OneMore(old(Tiers(u.head)), Tiers(u.head), Holder())
      ensures ok <==> exists t: nat | old(u.At()) <= t < |old(Tiers(u.head))| :: B.Spare(old(Tiers(u.head)), old(u.Cursor()), t, now)
      ensures !ok ==> NoneLeft(now)
    {
      ghost var tiers, c := Tiers(u.head), u.Cursor();
      ghost var g;
      ok, g := Draw(u, now);
      if ok {
        attempts := attempts + 1;
      } else {
        BusyIsLast(tiers, c, now, g);
      }
      GetIsOneMore(tiers, c, g);
    }

    /** Give the held peer back. */
    method Release(failed: bool, now: int, ghost start: seq<B.Tier>)
      requires u.Valid() && u.sockaddr && OneMore(start, Tiers(u.head), Holder())
      modifies u`sockaddr, u`tries, u.head, u.head.next
      ensures u.Valid() && !u.sockaddr && OneMore(start, Tiers(u.head), None)
      ensures u.tries == if u.peers.single || old(u.tries) == 0 then 0 else old(u.tries) - 1
      ensures Tiers(u.head) == old(B.FreeRoundRobinPeer(Tiers(u.head), u.Cursor(), u.tries, failed, now)).tiers
    {
      ghost var tiers, c, tries := Tiers(u.head), u.Cursor(), u.tries;
      u.Free(failed, now);
      B.FreeEffect(tiers, c, tries, failed, now);
      GiveBackUndoes(start, tiers, c, tries, B.FreeRoundRobinPeer(tiers, c, tries, failed, now));
    }

    /** ngx_nsoc_proxy_next_upstream: the peer has failed; try another while that is allowed. */
    method NextUpstream(w: World, ghost start: seq<B.Tier>)
      requires u.Valid() && u.sockaddr && !closed && OneMore(start, Tiers(u.head), Holder())
      modifies this, u, u.tried, u.head, u.head.next
      ensures u.Valid()
      ensures closed <==> !u.sockaddr
      ensures OneMore(start, Tiers(u.head), Holder())
      ensures u.tries <= old(u.tries)
      ensures attempts <= old(attempts) + if old(u.tries) > 0 then old(u.tries) - 1 else 0
      ensures if MayFollow(w, old(attempts)) && (old(u.tries) > 1 && !old(u.peers.single)) then Ends(w, old(attempts))
              else
                && closed && attempts == old(attempts) && (MayFollow(w, attempts) ==> u.tries == 0)
                && Tiers(u.head) == old(B.FreeRoundRobinPeer(Tiers(u.head), u.Cursor(), u.tries, !w.pending(attempts), w.clock(attempts))).tiers
      ensures old(u.tries) > 0 ==> Spent(old(u.tries) - 1, old(attempts))
      decreases u.tries, 0
    {
      if w.pending(attempts) {
        Finalize(w.clock(attempts), start);
        return;
      }
      Release(true, w.clock(attempts), start);
      if u.tries == 0 || !w.mayRetry(attempts) {
        closed := true;
        return;
      }
      ghost var mid := Tiers(u.head);
      Connect(w);
      OneMoreAfterNone(start, mid, Tiers(u.head), Holder());
    }

    /** ngx_nsoc_proxy_finalize: give the peer back, if any, and end the session. */
    method Finalize(now: int, ghost start: seq<B.Tier>)
      requires u.Valid() && !closed && OneMore(start, Tiers(u.head), Holder())
      modifies this`closed, u`sockaddr, u`tries, u.head, u.head.next
      ensures u.Valid() && closed && !u.sockaddr
      ensures u.tries == if !old(u.sockaddr) then old(u.tries) else if u.peers.single || old(u.tries) == 0 then 0 else old(u.tries) - 1
      ensures Tiers(u.head) ==
              if !old(u.sockaddr) then old(Tiers(u.head))
              else old(B.FreeRoundRobinPeer(Tiers(u.head), u.Cursor(), u.tries, false, now)).tiers
      ensures OneMore(start, Tiers(u.head), None)
    {
      if u.sockaddr {
        Release(false, now, start);
      }
      closed := true;
    }
  }
}
