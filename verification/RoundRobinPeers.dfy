/**
 The balancer as the source runs it: tiers of peers and per-session data updated
 in place, with a bitmap of the peers a session has tried.
 */
module RoundRobinPeers {
  import opened Bytes
  import opened RoundRobin
  import B = Balancer

  // ----- The bitmap of tried peers

  /** A uintptr_t of 64 bits. */
  type Word = w: nat | w < Pow2(64)

  /** w & ((uintptr_t) 1 << k) */
  predicate Bit(w: nat, k: nat) {
    if k == 0 then w % 2 == 1 else Bit(w / 2, k - 1)
  }

  /** w | ((uintptr_t) 1 << k) */
  function WithBit(w: nat, k: nat): nat {
    if k == 0 then w / 2 * 2 + 1 else 2 * WithBit(w / 2, k - 1) + w % 2
  }

  /** Or-ing in one mask sets that bit and no other. */
  lemma {:induction false} SetBit(w: nat, i: nat, j: nat)
    ensures Bit(WithBit(w, i), j) <==> i == j || Bit(w, j)
  {
    if i > 0 && j > 0 {
      SetBit(w / 2, i - 1, j - 1);
    }
  }

  lemma {:induction false} SetBitFits(w: nat, k: nat, n: nat)
    requires k < n && w < Pow2(n)
    ensures WithBit(w, k) < Pow2(n)
    decreases k
  {
    var half := Pow2(n - 1);
    Halves(w, half);
    if k > 0 {
      SetBitFits(w / 2, k - 1, n - 1);
    }
  }

  /** Halving halves the bound. */
  lemma Halves(w: nat, half: nat)
    requires w < 2 * half
    ensures w / 2 < half && w / 2 * 2 + 1 < 2 * half
  {
  }

  lemma {:induction false} NoBits(k: nat)
    ensures !Bit(0, k)
  {
    if k > 0 {
      NoBits(k - 1);
    }
  }

  predicate BitAt(words: seq<Word>, i: nat)
    requires i < 64 * |words|
  {
    Bit(words[i / 64], i % 64)
  }

  /** The peers, out of `number`, whose bits are set. */
  ghost function BitSet(words: seq<Word>, number: nat): (s: set<nat>)
    requires number <= 64 * |words|
  {
    set i: nat | i < number && BitAt(words, i)
  }

  /** Setting the bit of peer `p` marks `p` and nobody else. */
  lemma BitSetOr(words: seq<Word>, number: nat, p: nat, out: seq<Word>)
    requires p < number <= 64 * |words| == 64 * |out|
    requires out[p / 64] == WithBit(words[p / 64], p % 64)
    requires forall n | 0 <= n < |words| && n != p / 64 :: out[n] == words[n]
    ensures BitSet(out, number) == BitSet(words, number) + {p}
  {
    forall i: nat | i < number
      ensures BitAt(out, i) <==> i == p || BitAt(words, i)
    {
      SetBit(words[p / 64], p % 64, i % 64);
    }
  }

  /** Words rounded up from the number of peers are enough, and clearing them forgets every peer. */
  lemma BitSetClear(words: seq<Word>, number: nat)
    requires (number + 63) / 64 <= |words|
    requires forall n | 0 <= n < (number + 63) / 64 :: words[n] == 0
    ensures number <= 64 * |words| && BitSet(words, number) == {}
  {
    forall i: nat | i < number
      ensures !BitAt(words, i)
    {
      assert words[i / 64] == 0;
      NoBits(i % 64);
    }
  }

  // ----- A tier of peers

  /** The loop of ngx_nsoc_upstream_get_peer has been over the first `i` peers. */
  ghost predicate Walked(ps: seq<Peer>, marks: set<nat>, now: int, i: nat,
                         qs: seq<Peer>, best: Option<nat>, total: int)
  {
    && i <= |ps| == |qs|
    && (forall k: nat | k < i :: qs[k] == WalkOne(ps[k], k in marks, now))
    && (forall k: nat | i <= k < |ps| :: qs[k] == ps[k])
    && total == Total(ps, marks, now, i)
    && best == Best(ps, marks, now, i)
    && (best.Some? ==> qs[best.value] == Bump(ps[best.value]))
  }

  lemma WalkStep(ps: seq<Peer>, marks: set<nat>, now: int, i: nat,
                 qs: seq<Peer>, best: Option<nat>, total: int)
    requires i < |ps| && Walked(ps, marks, now, i, qs, best, total)
    ensures var p := WalkOne(ps[i], i in marks, now);
            var paid := Eligible(ps[i], i in marks, now);
            var wins := paid && (best.None? || p.currentWeight > qs[best.value].currentWeight);
            Walked(ps, marks, now, i + 1, qs[i := p], if wins then Some(i) else best,
                   total + if paid then ps[i].effectiveWeight else 0)
  {
  }

  /** One tier and, behind the primary tier, its backup. */
  class RrPeers {
    var peer: seq<Peer>
    const single: bool
    const next: RrPeers?

    constructor (peer: seq<Peer>, single: bool, next: RrPeers?)
      ensures this.peer == peer && this.single == single && this.next == next
    {
      this.peer, this.single, this.next := peer, single, next;
    }

    ghost function Value(): B.Tier
      reads this
    {
      B.Tier(peer, single)
    }

    /** One turn of the loop in ngx_nsoc_upstream_get_peer: skip the peer, or let it pay in. */
    method Visit(i: nat, tried: bool, now: int) returns (paid: bool, share: int)
      requires i < |peer|
      modifies this`peer
      ensures peer == old(peer)[i := WalkOne(old(peer)[i], tried, now)]
      ensures paid == Eligible(old(peer)[i], tried, now)
      ensures share == if paid then old(peer)[i].effectiveWeight else 0
    {
      var p := peer[i];
      paid, share := false, 0;
      if tried {
        return;
      }
      if p.down {
        return;
      }
      if p.maxFails != 0 && p.fails >= p.maxFails && now - p.checked <= p.failTimeout {
        return;
      }
      if p.maxConns != 0 && p.conns >= p.maxConns {
        return;
      }
      paid, share := true, p.effectiveWeight;
      p := p.(currentWeight := p.currentWeight + p.effectiveWeight);
      if p.effectiveWeight < p.weight {
        p := p.(effectiveWeight := p.effectiveWeight + 1);
      }
      peer := peer[i := p];
    }

    /** The body of that loop. */
    method Turn(tried: array<Word>, i: nat, now: int, lead: Option<nat>, sum: int,
                ghost ps: seq<Peer>, ghost marks: set<nat>) returns (best: Option<nat>, total: int)
      requires i < |ps| <= 64 * tried.Length && marks == BitSet(tried[..], |ps|)
      requires Walked(ps, marks, now, i, peer, lead, sum)
      modifies this`peer
      ensures Walked(ps, marks, now, i + 1, peer, best, total)
    {
      WalkStep(ps, marks, now, i, peer, lead, sum);
      var bit := IsTried(tried, |ps|, i);
      var paid, share := Visit(i, bit, now);
      best, total := lead, sum + share;
      if paid && (best.None? || peer[i].currentWeight > peer[best.value].currentWeight) {
        best := Some(i);
      }
    }

    /** The loop of ngx_nsoc_upstream_get_peer. */
    method WalkPeers(tried: array<Word>, ghost marks: set<nat>, now: int) returns (best: Option<nat>, total: int)
      requires |peer| <= 64 * tried.Length && marks == BitSet(tried[..], |peer|)
      modifies this`peer
      ensures Walked(old(peer), marks, now, |old(peer)|, peer, best, total)
    {
      ghost var ps, words := peer, tried[..];
      best, total := None, 0;
      var i := 0;
      while i < |peer|
        invariant tried[..] == words
        invariant Walked(ps, marks, now, i, peer, best, total)
      {
        best, total := Turn(tried, i, now, best, total, ps, marks);
        i := i + 1;
      }
    }

    /** What the chosen peer pays at the end of the loop. */
    method Pay(i: nat, total: int, now: int)
      requires i < |peer|
      modifies this`peer
      ensures peer == old(peer)[i := Charge(old(peer)[i], total, now)]
    {
      var p := peer[i];
      p := p.(currentWeight := p.currentWeight - total);
      if now - p.checked > p.failTimeout {
        p := p.(checked := now);
      }
      peer := peer[i := p];
    }

    /** ngx_nsoc_upstream_get_peer. */
    method GetPeer(tried: array<Word>, ghost marks: set<nat>, now: int) returns (best: Option<nat>)
      requires |peer| <= 64 * tried.Length && marks == BitSet(tried[..], |peer|)
      modifies this`peer, tried
      ensures peer == RoundRobin.GetPeer(old(peer), marks, now).peers
      ensures best == RoundRobin.GetPeer(old(peer), marks, now).best
      ensures |peer| <= 64 * tried.Length
      ensures BitSet(tried[..], |peer|) == if best.Some? then marks + {best.value} else marks
    {
      var total;
      best, total := WalkPeers(tried, marks, now);
      assert peer == Walk(old(peer), marks, now);
      if best.None? {
        return;
      }
      MarkTried(tried, |peer|, best.value);
      Pay(best.value, total, now);
    }

    method Acquire(i: nat)
      requires i < |peer|
      modifies this`peer
      ensures peer == old(peer)[i := B.Acquire(old(peer)[i])]
    {
      peer := peer[i := peer[i].(conns := peer[i].conns + 1)];
    }

    /** The body of ngx_nsoc_upstream_free_round_robin_peer; the result is the tries left. */
    method Free(i: nat, failed: bool, now: int, tries: nat) returns (left: nat)
      requires i < |peer|
      modifies this`peer
      ensures single ==> left == 0 && peer == old(peer)[i := old(peer)[i].(conns := old(peer)[i].conns - 1)]
      ensures !single ==> && left == (if tries > 0 then tries - 1 else 0)
                          && peer == old(peer)[i := Release(old(peer)[i], failed, now)]
    {
      var p := peer[i];
      if single {
        peer := peer[i := p.(conns := p.conns - 1)];
        return 0;
      }
      if failed {
        p := p.(fails := p.fails + 1, accessed := now, checked := now);
        if p.maxFails != 0 {
          p := p.(effectiveWeight := p.effectiveWeight - p.weight / p.maxFails);
        }
        if p.effectiveWeight < 0 {
          p := p.(effectiveWeight := 0);
        }
      } else if p.accessed < p.checked {
        p := p.(fails := 0);
      }
      peer := peer[i := p.(conns := p.conns - 1)];
      left := if tries > 0 then tries - 1 else 0;
    }

    /** ngx_nsoc_upstream_notify_round_robin_peer. */
    method MarkLive(i: nat)
      requires i < |peer|
      modifies this`peer
      ensures peer == old(peer)[i := Notify(old(peer)[i])]
    {
      if peer[i].accessed < peer[i].checked {
        peer := peer[i := peer[i].(fails := 0)];
      }
    }
  }

  method IsTried(tried: array<Word>, ghost number: nat, i: nat) returns (bit: bool)
    requires i < number <= 64 * tried.Length
    ensures bit == (i in BitSet(tried[..], number))
  {
    var n, m := i / 64, i % 64;
    bit := Bit(tried[n], m);
    assert bit == BitAt(tried[..], i);
  }

  method MarkTried(tried: array<Word>, number: nat, p: nat)
    requires p < number <= 64 * tried.Length
    modifies tried
    ensures BitSet(tried[..], number) == old(BitSet(tried[..], number)) + {p}
  {
    var n, m := p / 64, p % 64;
    SetBitFits(tried[n], m, 64);
    tried[n] := WithBit(tried[n], m);
    BitSetOr(old(tried[..]), number, p, tried[..]);
  }

  /** Clear the words the tier of `number` peers will use. */
  method ForgetTried(tried: array<Word>, number: nat)
    requires number <= 64 * tried.Length
    modifies tried
    ensures BitSet(tried[..], number) == {}
  {
    var n := (number + 63) / 64;
    for i := 0 to n
      invariant forall k | 0 <= k < i :: tried[k] == 0
    {
      tried[i] := 0;
    }
    BitSetClear(tried[..], number);
  }

  // ----- A session's data

  /** What configuration builds: see Balancer.WellFormed. */
  ghost predicate ValidTiers(head: RrPeers)
    reads head, head.next
  {
    && |head.peer| > 0
    && (head.single ==> |head.peer| == 1 && head.next == null)
    && (head.next != null ==> head.next != head && head.next.next == null && |head.next.peer| > 0 && !head.next.single)
  }

  ghost function Tiers(head: RrPeers): (ts: seq<B.Tier>)
    reads head, head.next
  {
    if head.next == null then [head.Value()] else [head.Value(), head.next.Value()]
  }

  /** Two states of the tiers that differ in the peers of one of them. */
  lemma SetTier(ts: seq<B.Tier>, us: seq<B.Tier>, t: nat, ps: seq<Peer>)
    requires t < |ts| == |us| <= 2
    requires us[t] == ts[t].(peers := ps) && (|ts| == 2 ==> us[1 - t] == ts[1 - t])
    ensures us == B.SetPeers(ts, t, ps)
    ensures ps == ts[t].peers ==> us == ts
  {
  }

  /** A tier of several peers gives what a pick over them gives. */
  lemma HereIsPick(tiers: seq<B.Tier>, c: B.Cursor, now: int)
    requires c.tier < |tiers| && |tiers[c.tier].peers| > 0 && !tiers[c.tier].single
    ensures var pick := RoundRobin.GetPeer(tiers[c.tier].peers, c.tried, now);
            B.GetHere(tiers, c, now) ==
            match pick.best
            case None => None
            case Some(b) => Some(B.Got(B.SetPeers(tiers, c.tier, pick.peers[b := B.Acquire(pick.peers[b])]),
                                       B.Cursor(c.tier, Some(b), c.tried + {b}), true))
  {
  }

  /** ngx_nsoc_upstream_rr_peer_data_t with the part of ngx_peer_connection_t that goes with it. */
  class PeerData {
    ghost const head: RrPeers
    var peers: RrPeers
    var current: Option<nat>
    const tried: array<Word>
    /** u->peer.sockaddr is set: the session holds `current`. */
    var sockaddr: bool
    var tries: nat

    /** The session is in one of the tiers and its bitmap is long enough for both. */
    ghost predicate Valid()
      reads this, head, head.next
    {
      && ValidTiers(head)
      && (peers == head || peers == head.next)
      && |head.peer| <= 64 * tried.Length
      && (head.next != null ==> |head.next.peer| <= 64 * tried.Length)
      && (sockaddr ==> current.Some? && current.value < |peers.peer|)
    }

    /** Where `peers` stands in the chain of tiers. */
    ghost function At(): nat
      reads this
    {
      if peers == head then 0 else 1
    }

    ghost function Cursor(): B.Cursor
      requires Valid()
      reads this, tried, head, head.next
    {
      B.Cursor(At(), current, BitSet(tried[..], |peers.peer|))
    }

    /** ngx_nsoc_upstream_init_round_robin_peer: a bit for each peer of the larger tier, all clear, and the tries. */
    constructor (head: RrPeers, limit: nat)
      requires ValidTiers(head)
      ensures Valid() && fresh(tried) && this.head == head && !sockaddr
      ensures Cursor() == B.Cursor(0, None, {})
      ensures tries == B.Tries(Tiers(head), limit)
    {
      this.head := head;
      peers, current, sockaddr := head, None, false;
      var n := |head.peer|;
      if head.next != null && |head.next.peer| > n {
        n := |head.next.peer|;
      }
      var words := if n <= 64 then 1 else (n + 63) / 64;
      var t := new Word[words](_ => 0);
      tried := t;
      var all := |head.peer| + if head.next != null then |head.next.peer| else 0;
      tries := if limit != 0 && all > limit then limit else all;
      new;
      BitSetClear(tried[..], |peers.peer|);
    }

    /** The failed: path of get: start afresh in the next tier. */
    method SwitchTier()
      requires Valid() && peers.next != null && !sockaddr
      modifies this`peers, tried
      ensures Valid() && peers == old(peers.next)
      ensures Cursor() == old(B.Cursor(At() + 1, current, {}))
    {
      peers := peers.next;
      ForgetTried(tried, |peers.peer|);
    }

    /** What this tier grants, if anything, has been recorded. */
    twostate predicate Took(ok: bool, now: int)
      requires old(Valid())
      reads this, tried, head, head.next
    {
      && Valid() && sockaddr == ok
      && match old(B.GetHere(Tiers(head), Cursor(), now))
         case Some(g) => ok && Tiers(head) == g.tiers && Cursor() == g.cursor
         case None => !ok && Tiers(head) == old(Tiers(head)) && Cursor() == old(Cursor())
    }

    method TakeSingle(now: int) returns (ok: bool)
      requires Valid() && peers.single && !sockaddr
      modifies this`current, this`sockaddr, peers
      ensures Took(ok, now)
    {
      if peers.peer[0].down {
        return false;
      }
      if peers.peer[0].maxConns != 0 && peers.peer[0].conns >= peers.peer[0].maxConns {
        return false;
      }
      current, sockaddr := Some(0), true;
      peers.Acquire(0);
      return true;
    }

    method DrawBest(now: int) returns (best: Option<nat>)
      requires Valid() && !sockaddr
      modifies this`current, this`sockaddr, peers, tried
      ensures Valid() && sockaddr == best.Some?
      ensures best == old(RoundRobin.GetPeer(peers.peer, Cursor().tried, now)).best
      ensures var ps := old(RoundRobin.GetPeer(peers.peer, Cursor().tried, now)).peers;
              match best
              case None => peers.peer == old(peers.peer) && Cursor() == old(Cursor())
              case Some(b) => && peers.peer == ps[b := B.Acquire(ps[b])]
                              && Cursor() == old(B.Cursor(At(), best, Cursor().tried + {best.value}))
    {
      best := peers.GetPeer(tried, Cursor().tried, now);
      if best.Some? {
        current, sockaddr := best, true;
        peers.Acquire(best.value);
      }
    }

    method TakeBest(now: int) returns (ok: bool)
      requires Valid() && !peers.single && !sockaddr
      modifies this`current, this`sockaddr, peers, tried
      ensures Took(ok, now)
    {
      ghost var tiers, c := Tiers(head), Cursor();
      assert tiers[c.tier] == peers.Value();
      HereIsPick(tiers, c, now);
      var best := DrawBest(now);
      SetTier(tiers, Tiers(head), c.tier, peers.peer);
      return best.Some?;
    }

    /** The first half of ngx_nsoc_upstream_get_round_robin_peer: this tier. */
    method GetHere(now: int) returns (ok: bool)
      requires Valid() && !sockaddr
      modifies this`current, this`sockaddr, tried, peers
      ensures Took(ok, now)
    {
      if peers.single {
        ok := TakeSingle(now);
      } else {
        ok := TakeBest(now);
      }
    }

    /** ngx_nsoc_upstream_get_round_robin_peer; the result is false for NGX_BUSY. */
    method Get(now: int) returns (ok: bool)
      requires Valid() && !sockaddr
      modifies this`peers, this`current, this`sockaddr, tried, head, head.next
      ensures Valid() && sockaddr == ok
      ensures var g := old(B.GetRoundRobinPeer(Tiers(head), Cursor(), now));
              ok == g.ok && Tiers(head) == g.tiers && Cursor() == g.cursor
      decreases peers.next != null
    {
      ok := GetHere(now);
      if !ok && peers.next != null {
        SwitchTier();
        ok := Get(now);
      }
    }

    /** ngx_nsoc_upstream_free_round_robin_peer, and the callers' reset of `sockaddr`. */
    method Free(failed: bool, now: int)
      requires Valid() && sockaddr
      modifies this`sockaddr, this`tries, head, head.next
      ensures Valid() && !sockaddr && Cursor() == old(Cursor())
      ensures var f := old(B.FreeRoundRobinPeer(Tiers(head), Cursor(), tries, failed, now));
              Tiers(head) == f.tiers && tries == f.tries
    {
      tries := peers.Free(current.value, failed, now, tries);
      sockaddr := false;
    }
  }
}
