/**
 Listening sockets: `listen` directives are grouped by port, each group is sorted, and sockets are
 opened so that a linear search over a socket's addresses finds the server a connection is for.
 */
module Listeners {
  import opened Bytes

  /** The address a wildcard directive is bound to. */
  const ANY: nat := 0

  /** Address family, socket type and port. */
  datatype Key = Key(family: nat, kind: nat, port: nat)

  datatype Listen = Listen(key: Key, addr: nat, bind: bool, ctx: nat, noiseOn: bool)

  predicate Wildcard(l: Listen) {
    l.addr == ANY
  }

  predicate SamePlace(a: Listen, b: Listen) {
    a.key == b.key && a.addr == b.addr
  }

  /** What the duplicate check of the `listen` directive guarantees. */
  ghost predicate Distinct(ls: seq<Listen>) {
    forall i, j :: 0 <= i < j < |ls| ==> !SamePlace(ls[i], ls[j])
  }

  /** The check itself, on the directive about to be added: it keeps the directives distinct. */
  method CoreListen(ls: seq<Listen>, l: Listen) returns (r: Option<seq<Listen>>)
    requires Distinct(ls)
    ensures r.None? <==> exists i :: 0 <= i < |ls| && ls[i].key == l.key && ls[i].addr == l.addr
    ensures r.Some? ==> r.value == ls + [l] && Distinct(r.value)
  {
    var i := 0;
    while i < |ls|
      invariant 0 <= i <= |ls|
      invariant forall j :: 0 <= j < i ==> !SamePlace(ls[j], l)
    {
      if ls[i].key.kind == l.key.kind && ls[i].key == l.key && ls[i].addr == l.addr {
        assert SamePlace(ls[i], l);
        return None;
      }
      i := i + 1;
    }
    return Some(ls + [l]);
  }

  lemma DistinctIn(ls: seq<Listen>, a: Listen, b: Listen)
    requires Distinct(ls) && a in ls && b in ls && SamePlace(a, b)
    ensures a == b
  {
    var i :| 0 <= i < |ls| && ls[i] == a;
    var j :| 0 <= j < |ls| && ls[j] == b;
    assert i == j;
  }

  lemma {:induction false} DistinctOnce(ls: seq<Listen>, l: Listen)
    requires Distinct(ls)
    ensures multiset(ls)[l] <= 1
  {
    if ls != [] {
      assert ls == [ls[0]] + ls[1..];
      DistinctOnce(ls[1..], l);
      forall j | 0 <= j < |ls[1..]|
        ensures ls[1..][j] != ls[0]
      {
        assert !SamePlace(ls[0], ls[j + 1]);
      }
    }
  }

  // Sorting.

  function Compare(first: Listen, second: Listen): int {
    if Wildcard(first) then 1
    else if Wildcard(second) then -1
    else if first.bind && !second.bind then -1
    else if !first.bind && second.bind then 1
    else 0
  }

  /** ngx_sort is a stable insertion sort. */
  function Insert(s: seq<Listen>, x: Listen): (r: seq<Listen>) {
    if s != [] && Compare(s[|s| - 1], x) > 0 then Insert(s[..|s| - 1], x) + [s[|s| - 1]] else s + [x]
  }

  function Sort(s: seq<Listen>): (r: seq<Listen>) {
    if s == [] then [] else Insert(Sort(s[..|s| - 1]), s[|s| - 1])
  }

  /** Explicitly bound addresses first, the wildcard last. */
  function Rank(l: Listen): nat {
    if Wildcard(l) then 2 else if l.bind then 0 else 1
  }

  ghost predicate Below(s: seq<Listen>, rank: nat) {
    forall i :: 0 <= i < |s| ==> Rank(s[i]) <= rank
  }

  ghost predicate Ordered(s: seq<Listen>) {
    s != [] ==> Below(s[..|s| - 1], Rank(s[|s| - 1])) && Ordered(s[..|s| - 1])
  }

  lemma {:induction false} InsertBelow(s: seq<Listen>, x: Listen, rank: nat)
    requires Below(s, rank) && Rank(x) <= rank
    ensures Below(Insert(s, x), rank)
  {
    if s != [] && Compare(s[|s| - 1], x) > 0 {
      InsertBelow(s[..|s| - 1], x, rank);
    }
  }

  lemma {:induction false} InsertKeepsAll(s: seq<Listen>, x: Listen)
    ensures multiset(Insert(s, x)) == multiset(s) + multiset{x}
  {
    if s != [] && Compare(s[|s| - 1], x) > 0 {
      assert s == s[..|s| - 1] + [s[|s| - 1]];
      InsertKeepsAll(s[..|s| - 1], x);
    }
  }

  lemma AppendOrders(s: seq<Listen>, x: Listen)
    requires Ordered(s) && Below(s, Rank(x))
    ensures Ordered(s + [x])
  {
    assert (s + [x])[..|s|] == s;
  }

  lemma LastIsHighest(s: seq<Listen>, rank: nat)
    requires Ordered(s) && s != [] && Rank(s[|s| - 1]) <= rank
    ensures Below(s, rank)
  {
    forall i | 0 <= i < |s|
      ensures Rank(s[i]) <= rank
    {
      assert i < |s| - 1 ==> s[..|s| - 1][i] == s[i];
    }
  }

  lemma {:induction false} InsertOrders(s: seq<Listen>, x: Listen)
    requires Ordered(s)
    ensures Ordered(Insert(s, x))
  {
    if s != [] && Compare(s[|s| - 1], x) > 0 {
      var front, last := s[..|s| - 1], s[|s| - 1];
      InsertOrders(front, x);
      InsertBelow(front, x, Rank(last));
      AppendOrders(Insert(front, x), last);
    } else {
      if s != [] {
        LastIsHighest(s, Rank(x));
      }
      AppendOrders(s, x);
    }
  }

  lemma {:induction false} SortOrders(s: seq<Listen>)
    ensures multiset(Sort(s)) == multiset(s)
    ensures Ordered(Sort(s))
  {
    if s != [] {
      assert s == s[..|s| - 1] + [s[|s| - 1]];
      SortOrders(s[..|s| - 1]);
      InsertOrders(Sort(s[..|s| - 1]), s[|s| - 1]);
      InsertKeepsAll(Sort(s[..|s| - 1]), s[|s| - 1]);
    }
  }

  // Sockets.

  /** A listening socket: the address it is bound to, and the directives its connections can be for. */
  datatype Socket = Socket(bound: Listen, addrs: seq<Listen>)

  /** The sockets of one sorted group. */
  function SocketsOf(s: seq<Listen>): seq<Socket> {
    if s == [] then []
    else if Wildcard(s[|s| - 1]) && !s[0].bind then [Socket(s[|s| - 1], s)]
    else [Socket(s[0], [s[0]])] + SocketsOf(s[1..])
  }

  function Flatten(ks: seq<Socket>): (r: seq<Listen>) {
    if ks == [] then [] else ks[0].addrs + Flatten(ks[1..])
  }

  /** A socket's connections are for its own address, or for any of several if it is the wildcard. */
  ghost predicate SocketOk(k: Socket) {
    && k.addrs != [] && k.bound == k.addrs[|k.addrs| - 1]
    && (|k.addrs| > 1 ==> Wildcard(k.bound))
    && forall i :: 0 <= i < |k.addrs| ==> k.addrs[i].key == k.bound.key
  }

  ghost predicate SameKey(s: seq<Listen>, key: Key) {
    forall i :: 0 <= i < |s| ==> s[i].key == key
  }

  ghost predicate SocketsOk(ks: seq<Socket>) {
    forall i :: 0 <= i < |ks| ==> SocketOk(ks[i])
  }

  lemma FlattenCons(k: Socket, ks: seq<Socket>)
    ensures Flatten([k] + ks) == k.addrs + Flatten(ks)
    ensures ks == [] ==> Flatten([k]) == k.addrs
  {
    assert ([k] + ks)[1..] == ks;
    assert ks == [] ==> [k] + ks == [k];
  }

  /** Each directive of the group is in exactly one socket, and in the order of the group. */
  lemma {:induction false} SocketsCover(s: seq<Listen>)
    ensures Flatten(SocketsOf(s)) == s
  {
    if s == [] {
    } else if Wildcard(s[|s| - 1]) && !s[0].bind {
      FlattenCons(Socket(s[|s| - 1], s), []);
    } else {
      SocketsCover(s[1..]);
      FlattenCons(Socket(s[0], [s[0]]), SocketsOf(s[1..]));
      assert s == [s[0]] + s[1..];
    }
  }

  lemma {:induction false} SocketsFit(s: seq<Listen>, key: Key)
    requires SameKey(s, key)
    ensures SocketsOk(SocketsOf(s))
  {
    if s == [] {
    } else if Wildcard(s[|s| - 1]) && !s[0].bind {
      assert SocketOk(Socket(s[|s| - 1], s));
    } else {
      SocketsFit(s[1..], key);
      assert SocketOk(Socket(s[0], [s[0]]));
    }
  }

  lemma {:induction false} OrderedPair(s: seq<Listen>, i: nat, j: nat)
    requires Ordered(s) && i < j < |s|
    ensures Rank(s[i]) <= Rank(s[j])
  {
    if j == |s| - 1 {
      assert s[..|s| - 1][i] == s[i];
    } else {
      OrderedPair(s[..|s| - 1], i, j);
    }
  }

  /** The state of the loop over one group: `a` directives have their sockets, `i` are held back. */
  ghost predicate Opening(s: seq<Listen>, wild: bool, out: seq<Socket>, a: nat, i: nat) {
    && a + i <= |s|
    && out + SocketsOf(s[a..]) == SocketsOf(s)
    && (i > 0 ==> wild && a + i < |s|)
    && forall k :: a <= k < a + i ==> Rank(s[k]) == 1
  }

  /** Holding back an address that the wildcard's socket will take. */
  lemma HoldBack(s: seq<Listen>, key: Key, out: seq<Socket>, a: nat, i: nat)
    requires Opening(s, true, out, a, i) && a + i < |s| - 1
    requires Wildcard(s[|s| - 1]) && Distinct(s) && SameKey(s, key) && !s[a + i].bind
    ensures Opening(s, true, out, a, i + 1)
  {
    assert !SamePlace(s[a + i], s[|s| - 1]);
  }

  /** Opening a socket when none is held back. */
  lemma OpenOne(s: seq<Listen>, wild: bool, out: seq<Socket>, a: nat)
    requires Opening(s, wild, out, a, 0) && a < |s| && wild == Wildcard(s[|s| - 1])
    requires !wild || s[a].bind || a == |s| - 1
    ensures Opening(s, wild, out + [Socket(s[a], s[a..a + 1])], a + 1, 0)
  {
    assert s[a..a + 1] == [s[a]];
    var w := s[a..];
    assert w[|w| - 1] == s[|s| - 1];
    assert w[1..] == s[a + 1..];
    if wild && !w[0].bind {
      assert w == [s[a]];
    }
    assert SocketsOf(w) == [Socket(s[a], [s[a]])] + SocketsOf(s[a + 1..]);
    assert out + SocketsOf(w) == (out + [Socket(s[a], [s[a]])]) + SocketsOf(s[a + 1..]);
  }

  /** Opening the wildcard's socket, which also takes those held back. */
  lemma OpenWildcard(s: seq<Listen>, key: Key, out: seq<Socket>, a: nat, i: nat)
    requires Opening(s, true, out, a, i) && i > 0 && Wildcard(s[|s| - 1])
    requires Ordered(s) && Distinct(s) && SameKey(s, key)
    requires s[a + i].bind || a + i == |s| - 1
    ensures a + i == |s| - 1
    ensures out + [Socket(s[a + i], s[a..a + i + 1])] == SocketsOf(s)
  {
    OrderedPair(s, a, a + i);
    assert a + i < |s| - 1 ==> SamePlace(s[a + i], s[|s| - 1]);
    var w := s[a..];
    assert w[|w| - 1] == s[|s| - 1] && w[0] == s[a];
    assert s[a..a + i + 1] == w;
  }

  /** The body of ngx_nsoc_optimize_servers for one sorted group. */
  method OpenSockets(s: seq<Listen>, ghost key: Key) returns (out: seq<Socket>)
    requires s != [] && Ordered(s) && Distinct(s) && SameKey(s, key)
    ensures out == SocketsOf(s)
  {
    var a, last, i := 0, |s|, 0;
    var wild := Wildcard(s[last - 1]);
    out := [];
    assert s[0..] == s;
    ghost var complete := false;
    while i < last
      invariant a + last == |s|
      invariant if complete then out == SocketsOf(s) && i == last else Opening(s, wild, out, a, i)
      decreases last - i, last
    {
      // The wildcard itself is marked as bound before the loop.
      if wild && !s[a + i].bind && a + i < |s| - 1 {
        HoldBack(s, key, out, a, i);
        i := i + 1;
      } else {
        if i == 0 {
          OpenOne(s, wild, out, a);
        } else {
          OpenWildcard(s, key, out, a, i);
          complete := true;
        }
        out := out + [Socket(s[a + i], s[a..a + i + 1])];
        a, last := a + 1, last - 1;
      }
    }
    if !complete {
      assert s[a..] == [];
    }
  }

  // Grouping by port.

  datatype Port = Port(key: Key, addrs: seq<Listen>)

  ghost predicate PortsOk(ports: seq<Port>) {
    forall i :: 0 <= i < |ports| ==> ports[i].addrs != [] && SameKey(ports[i].addrs, ports[i].key)
  }

  ghost predicate KeysDiffer(ports: seq<Port>) {
    forall i, j :: 0 <= i < j < |ports| ==> ports[i].key != ports[j].key
  }

  function Directives(ports: seq<Port>): (r: multiset<Listen>) {
    if ports == [] then multiset{} else Directives(ports[..|ports| - 1]) + multiset(ports[|ports| - 1].addrs)
  }

  lemma {:induction false} DirectivesUpdate(ports: seq<Port>, i: nat, l: Listen)
    requires i < |ports|
    ensures Directives(ports[i := ports[i].(addrs := ports[i].addrs + [l])]) == Directives(ports) + multiset{l}
  {
    var r := ports[i := ports[i].(addrs := ports[i].addrs + [l])];
    var n := |ports| - 1;
    if i < n {
      DirectivesUpdate(ports[..n], i, l);
      assert r[..n] == ports[..n][i := ports[i].(addrs := ports[i].addrs + [l])];
    } else {
      assert r[..n] == ports[..n];
    }
  }

  lemma AddToPort(ports: seq<Port>, i: nat, l: Listen, r: seq<Port>)
    requires PortsOk(ports) && KeysDiffer(ports) && i < |ports| && ports[i].key == l.key
    requires r == ports[i := ports[i].(addrs := ports[i].addrs + [l])]
    ensures PortsOk(r) && KeysDiffer(r)
    ensures Directives(r) == Directives(ports) + multiset{l}
  {
    DirectivesUpdate(ports, i, l);
    assert SameKey(ports[i].addrs + [l], l.key);
    assert forall j :: 0 <= j < |r| ==> r[j].key == ports[j].key;
  }

  lemma AddNewPort(ports: seq<Port>, l: Listen, r: seq<Port>)
    requires PortsOk(ports) && KeysDiffer(ports) && r == ports + [Port(l.key, [l])]
    requires forall j :: 0 <= j < |ports| ==> ports[j].key != l.key
    ensures PortsOk(r) && KeysDiffer(r)
    ensures Directives(r) == Directives(ports) + multiset{l}
  {
    assert r[..|ports|] == ports;
    assert SameKey([l], l.key);
  }

  /** ngx_nsoc_add_ports. */
  method AddPorts(ports: seq<Port>, l: Listen) returns (r: seq<Port>)
    requires PortsOk(ports) && KeysDiffer(ports)
    ensures PortsOk(r) && KeysDiffer(r)
    ensures Directives(r) == Directives(ports) + multiset{l}
  {
    var i := 0;
    while i < |ports|
      invariant 0 <= i <= |ports|
      invariant forall j :: 0 <= j < i ==> ports[j].key != l.key
    {
      if ports[i].key == l.key {
        r := ports[i := ports[i].(addrs := ports[i].addrs + [l])];
        AddToPort(ports, i, l, r);
        return;
      }
      i := i + 1;
    }
    r := ports + [Port(l.key, [l])];
    AddNewPort(ports, l, r);
  }

  // All sockets of a configuration.

  /** Every directive belongs to exactly one socket. */
  ghost predicate Right(ks: seq<Socket>, ls: seq<Listen>) {
    SocketsOk(ks) && multiset(Flatten(ks)) == multiset(ls)
  }

  lemma {:induction false} FlattenConcat(a: seq<Socket>, b: seq<Socket>)
    ensures Flatten(a + b) == Flatten(a) + Flatten(b)
  {
    if a == [] {
      assert a + b == b;
    } else {
      assert (a + b)[1..] == a[1..] + b;
      FlattenConcat(a[1..], b);
    }
  }

  lemma {:induction false} SubDistinct(s: seq<Listen>, ls: seq<Listen>)
    requires Distinct(ls) && multiset(s) <= multiset(ls)
    ensures Distinct(s)
  {
    forall i, j | 0 <= i < j < |s|
      ensures !SamePlace(s[i], s[j])
    {
      assert s[i] in multiset(s) && s[j] in multiset(s);
      assert s[i] in multiset(ls) && s[j] in multiset(ls);
      assert s == s[..i] + [s[i]] + s[i + 1..j] + [s[j]] + s[j + 1..];
      DistinctOnce(ls, s[i]);
      if SamePlace(s[i], s[j]) {
        DistinctIn(ls, s[i], s[j]);
        assert false;
      }
    }
  }

  lemma {:induction false} DirectivesOf(ports: seq<Port>, p: nat)
    requires p < |ports|
    ensures multiset(ports[p].addrs) <= Directives(ports)
    ensures Directives(ports[..p + 1]) == Directives(ports[..p]) + multiset(ports[p].addrs)
  {
    assert ports[..p + 1][..p] == ports[..p];
    if p < |ports| - 1 {
      DirectivesOf(ports[..|ports| - 1], p);
    }
  }

  // Which directives have a socket of their own.

  ghost predicate NoWildcard(ls: seq<Listen>, key: Key) {
    forall l :: l in ls && l.key == key ==> l.addr != 0
  }

  /** In this socket a directive for an address is alone exactly when it says `bind`, or nothing is bound to all addresses of its port. */
  ghost predicate Apart(k: Socket, ls: seq<Listen>) {
    forall l :: l in k.addrs && l.addr != 0 ==> (k.addrs == [l] <==> l.bind || NoWildcard(ls, l.key))
  }

  ghost predicate AllApart(ks: seq<Socket>, ls: seq<Listen>) {
    forall i :: 0 <= i < |ks| ==> Apart(ks[i], ls)
  }

  /** Sorted pair by pair, with the wildcard, if there is one, at the end only. */
  ghost predicate InRank(s: seq<Listen>) {
    && (forall i, j :: 0 <= i < j < |s| ==> Rank(s[i]) <= Rank(s[j]))
    && (forall i :: 0 <= i < |s| - 1 ==> !Wildcard(s[i]))
  }

  lemma OrderedInRank(s: seq<Listen>, key: Key)
    requires Ordered(s) && Distinct(s) && SameKey(s, key)
    ensures InRank(s)
  {
    forall i, j | 0 <= i < j < |s| ensures Rank(s[i]) <= Rank(s[j]) {
      OrderedPair(s, i, j);
    }
    forall i | 0 <= i < |s| - 1 ensures !Wildcard(s[i]) {
      OrderedPair(s, i, |s| - 1);
      assert !SamePlace(s[i], s[|s| - 1]);
    }
  }

  lemma WildcardTakesAll(s: seq<Listen>, ls: seq<Listen>, key: Key)
    requires s != [] && InRank(s) && SameKey(s, key) && Wildcard(s[|s| - 1]) && !s[0].bind && !NoWildcard(ls, key)
    ensures Apart(Socket(s[|s| - 1], s), ls)
  {
    forall l | l in s && l.addr != 0 ensures s != [l] && !l.bind && l.key == key {
      var i :| 0 <= i < |s| && s[i] == l;
      assert Rank(s[0]) <= Rank(s[i]);
    }
  }

  lemma {:induction false} SocketsApart(s: seq<Listen>, ls: seq<Listen>, key: Key)
    requires InRank(s) && SameKey(s, key) && (s != [] ==> (NoWildcard(ls, key) <==> !Wildcard(s[|s| - 1])))
    ensures AllApart(SocketsOf(s), ls)
  {
    if s != [] {
      if Wildcard(s[|s| - 1]) && !s[0].bind {
        WildcardTakesAll(s, ls, key);
      } else {
        SocketsApart(s[1..], ls, key);
        assert Apart(Socket(s[0], [s[0]]), ls);
      }
    }
  }

  /** A group holds all directives of its port. */
  lemma {:induction false} InSomePort(ports: seq<Port>, l: Listen) returns (p: nat)
    requires l in Directives(ports)
    ensures p < |ports| && l in ports[p].addrs
  {
    var n := |ports| - 1;
    if l in multiset(ports[n].addrs) {
      p := n;
    } else {
      p := InSomePort(ports[..n], l);
    }
  }

  ghost predicate HoldsAll(port: Port, ls: seq<Listen>) {
    forall l :: l in ls && l.key == port.key ==> l in port.addrs
  }

  lemma PortHoldsAll(ports: seq<Port>, ls: seq<Listen>, p: nat)
    requires PortsOk(ports) && KeysDiffer(ports) && Directives(ports) == multiset(ls) && p < |ports|
    ensures HoldsAll(ports[p], ls)
  {
    forall l | l in ls && l.key == ports[p].key ensures l in ports[p].addrs {
      assert l in multiset(ls);
      var q := InSomePort(ports, l);
      assert ports[q].key == l.key;
    }
  }

  /** Whether a group has the wildcard shows at the end of the sorted group. */
  lemma WildcardShows(port: Port, ls: seq<Listen>, sorted: seq<Listen>)
    requires HoldsAll(port, ls) && multiset(sorted) == multiset(port.addrs) && multiset(port.addrs) <= multiset(ls)
    requires sorted != [] && InRank(sorted) && SameKey(sorted, port.key)
    ensures NoWildcard(ls, port.key) <==> !Wildcard(sorted[|sorted| - 1])
  {
    var last := sorted[|sorted| - 1];
    assert last in multiset(sorted) && last in multiset(ls);
    if !NoWildcard(ls, port.key) {
      var l :| l in ls && l.key == port.key && l.addr == 0;
      assert l in multiset(port.addrs);
      assert l in multiset(sorted);
      var i :| 0 <= i < |sorted| && sorted[i] == l;
    }
  }

  /** One group: sorted, opened, and appended to the sockets so far. */
  method AddGroup(port: Port, ls: seq<Listen>, before: multiset<Listen>, out: seq<Socket>) returns (r: seq<Socket>)
    requires port.addrs != [] && SameKey(port.addrs, port.key)
    requires Distinct(ls) && multiset(port.addrs) <= multiset(ls) && HoldsAll(port, ls)
    requires SocketsOk(out) && multiset(Flatten(out)) == before && AllApart(out, ls)
    ensures SocketsOk(r) && multiset(Flatten(r)) == before + multiset(port.addrs) && AllApart(r, ls)
  {
    var sorted := Sort(port.addrs);
    SortOrders(port.addrs);
    SubDistinct(sorted, ls);
    forall i | 0 <= i < |sorted|
      ensures sorted[i].key == port.key
    {
      assert sorted[i] in multiset(sorted);
    }
    assert sorted != [];
    var ks := OpenSockets(sorted, port.key);
    SocketsCover(sorted);
    SocketsFit(sorted, port.key);
    FlattenConcat(out, ks);
    GroupApart(port, ls, sorted);
    r := out + ks;
  }

  lemma GroupApart(port: Port, ls: seq<Listen>, sorted: seq<Listen>)
    requires HoldsAll(port, ls) && multiset(sorted) == multiset(port.addrs) && multiset(port.addrs) <= multiset(ls)
    requires sorted != [] && Ordered(sorted) && Distinct(sorted) && SameKey(sorted, port.key)
    ensures AllApart(SocketsOf(sorted), ls)
  {
    OrderedInRank(sorted, port.key);
    WildcardShows(port, ls, sorted);
    SocketsApart(sorted, ls, port.key);
  }

  /** ngx_nsoc_optimize_servers. */
  method OptimizeServers(ports: seq<Port>, ls: seq<Listen>) returns (out: seq<Socket>)
    requires PortsOk(ports) && KeysDiffer(ports) && Distinct(ls) && Directives(ports) == multiset(ls)
    ensures Right(out, ls) && AllApart(out, ls)
  {
    out := [];
    var p := 0;
    while p < |ports|
      invariant 0 <= p <= |ports|
      invariant SocketsOk(out) && multiset(Flatten(out)) == Directives(ports[..p]) && AllApart(out, ls)
    {
      DirectivesOf(ports, p);
      PortHoldsAll(ports, ls, p);
      out := AddGroup(ports[p], ls, Directives(ports[..p]), out);
      p := p + 1;
    }
    assert ports[..p] == ports;
  }

  /** The whole of it, for the directives of a configuration. */
  method Configure(ls: seq<Listen>) returns (out: seq<Socket>)
    requires Distinct(ls)
    ensures Right(out, ls) && AllApart(out, ls)
  {
    var ports := GroupByPort(ls);
    out := OptimizeServers(ports, ls);
  }

  method GroupByPort(ls: seq<Listen>) returns (ports: seq<Port>)
    ensures PortsOk(ports) && KeysDiffer(ports) && Directives(ports) == multiset(ls)
  {
    ports := [];
    var i := 0;
    while i < |ls|
      invariant 0 <= i <= |ls|
      invariant PortsOk(ports) && KeysDiffer(ports) && Directives(ports) == multiset(ls[..i])
    {
      assert ls[..i + 1] == ls[..i] + [ls[i]];
      ports := AddPorts(ports, ls[i]);
      i := i + 1;
    }
    assert ls[..i] == ls;
  }

  // Finding the server of a connection.

  /** The kernel: the socket bound to the address, else the one bound to the wildcard. */
  function Bound(ks: seq<Socket>, key: Key, addr: nat): Option<Socket> {
    if ks == [] then None
    else if ks[0].bound.key == key && ks[0].bound.addr == addr then Some(ks[0])
    else Bound(ks[1..], key, addr)
  }

  function Accepting(ks: seq<Socket>, key: Key, addr: nat): Option<Socket> {
    var k := Bound(ks, key, addr);
    if k.Some? then k else Bound(ks, key, ANY)
  }

  function Search(addrs: seq<Listen>, addr: nat): (l: Listen)
    requires addrs != []
  {
    if |addrs| == 1 || addrs[0].addr == addr then addrs[0] else Search(addrs[1..], addr)
  }

  /** The lookup in ngx_nsoc_init_connection. */
  method FindServer(addrs: seq<Listen>, addr: nat) returns (l: Listen)
    requires addrs != []
    ensures l == Search(addrs, addr)
  {
    if |addrs| > 1 {
      var i := 0;
      while i < |addrs| - 1
        invariant 0 <= i < |addrs|
        invariant Search(addrs[i..], addr) == Search(addrs, addr)
      {
        assert addrs[i..][1..] == addrs[i + 1..];
        if addrs[i].addr == addr {
          break;
        }
        i := i + 1;
      }
      return addrs[i];
    }
    return addrs[0];
  }

  /** The directive a connection to `addr` on `key` is served by. */
  function ServerFor(ks: seq<Socket>, key: Key, addr: nat): Option<Listen> {
    var k := Accepting(ks, key, addr);
    if k.None? || k.value.addrs == [] then None else Some(Search(k.value.addrs, addr))
  }

  lemma {:induction false} BoundFinds(ks: seq<Socket>, key: Key, addr: nat)
    ensures Bound(ks, key, addr).Some? ==>
              exists i :: 0 <= i < |ks| && ks[i] == Bound(ks, key, addr).value && ks[i].bound.key == key && ks[i].bound.addr == addr
    ensures Bound(ks, key, addr).None? ==>
              forall i :: 0 <= i < |ks| ==> !(ks[i].bound.key == key && ks[i].bound.addr == addr)
  {
    if ks != [] && !(ks[0].bound.key == key && ks[0].bound.addr == addr) {
      BoundFinds(ks[1..], key, addr);
      if Bound(ks[1..], key, addr).Some? {
        var i :| 0 <= i < |ks[1..]| && ks[1..][i] == Bound(ks[1..], key, addr).value;
        assert ks[i + 1] == Bound(ks, key, addr).value;
      }
    }
  }

  lemma {:induction false} SearchFinds(addrs: seq<Listen>, addr: nat, i: nat)
    requires i < |addrs| && Distinct(addrs) && SameKey(addrs, addrs[i].key)
    requires addrs[i].addr == addr || (i == |addrs| - 1 && forall j :: 0 <= j < |addrs| ==> addrs[j].addr != addr)
    ensures Search(addrs, addr) == addrs[i]
  {
    if i > 0 {
      assert !SamePlace(addrs[0], addrs[i]);
      SearchFinds(addrs[1..], addr, i - 1);
    }
  }

  // Most specific match.

  lemma {:induction false} SocketPart(ks: seq<Socket>, i: nat)
    requires i < |ks|
    ensures multiset(ks[i].addrs) <= multiset(Flatten(ks))
  {
    if i > 0 {
      SocketPart(ks[1..], i - 1);
    }
  }

  lemma {:induction false} TwoParts(ks: seq<Socket>, i: nat, j: nat, l: Listen)
    requires i < j < |ks| && l in ks[i].addrs && l in ks[j].addrs
    ensures multiset(Flatten(ks))[l] >= 2
  {
    if i > 0 {
      TwoParts(ks[1..], i - 1, j - 1, l);
    } else {
      SocketPart(ks[1..], j - 1);
      assert l in multiset(ks[j].addrs) && l in multiset(ks[0].addrs);
    }
  }

  lemma {:induction false} SocketWith(ks: seq<Socket>, l: Listen) returns (i: nat)
    requires l in Flatten(ks)
    ensures i < |ks| && l in ks[i].addrs
  {
    if l in ks[0].addrs {
      i := 0;
    } else {
      var j := SocketWith(ks[1..], l);
      i := j + 1;
    }
  }

  /** A directive is in one socket only. */
  lemma OneSocket(ks: seq<Socket>, ls: seq<Listen>, i: nat, j: nat, l: Listen)
    requires Right(ks, ls) && Distinct(ls)
    requires i < |ks| && j < |ks| && l in ks[i].addrs && l in ks[j].addrs
    ensures i == j
  {
    DistinctOnce(ls, l);
    if i < j {
      TwoParts(ks, i, j, l);
    } else if j < i {
      TwoParts(ks, j, i, l);
    }
  }

  /** Every directive has its socket. */
  lemma SocketFor(ks: seq<Socket>, ls: seq<Listen>, l: Listen) returns (i: nat)
    requires Right(ks, ls) && l in ls
    ensures i < |ks| && l in ks[i].addrs
  {
    assert l in multiset(ls);
    assert l in multiset(Flatten(ks));
    i := SocketWith(ks, l);
  }

  lemma AddrsAre(ks: seq<Socket>, ls: seq<Listen>, i: nat)
    requires Right(ks, ls) && Distinct(ls) && i < |ks|
    ensures Distinct(ks[i].addrs) && SameKey(ks[i].addrs, ks[i].bound.key)
    ensures forall l :: l in ks[i].addrs ==> l in ls
    ensures ks[i].bound in ks[i].addrs
  {
    assert SocketOk(ks[i]);
    SocketPart(ks, i);
    SubDistinct(ks[i].addrs, ls);
    forall l | l in ks[i].addrs
      ensures l in ls
    {
      assert l in multiset(ks[i].addrs);
      assert l in multiset(ls);
    }
  }

  /** The socket bound at a directive's place is the directive's own. */
  lemma BoundIs(ks: seq<Socket>, ls: seq<Listen>, i: nat, l: Listen)
    requires Right(ks, ls) && Distinct(ls) && i < |ks| && l in ks[i].addrs
    requires ks[i].bound == l
    ensures Bound(ks, l.key, l.addr) == Some(ks[i])
  {
    BoundFinds(ks, l.key, l.addr);
    var j :| 0 <= j < |ks| && ks[j] == Bound(ks, l.key, l.addr).value && ks[j].bound.key == l.key && ks[j].bound.addr == l.addr;
    AddrsAre(ks, ls, i);
    AddrsAre(ks, ls, j);
    DistinctIn(ls, ks[j].bound, l);
    OneSocket(ks, ls, i, j, l);
  }

  /** No socket is bound where there is no directive that it is bound for. */
  lemma BoundIsNot(ks: seq<Socket>, ls: seq<Listen>, key: Key, addr: nat)
    requires Right(ks, ls) && Distinct(ls)
    ensures Bound(ks, key, addr).Some? ==>
              exists i :: 0 <= i < |ks| && ks[i] == Bound(ks, key, addr).value
                       && ks[i].bound in ls && ks[i].bound.key == key && ks[i].bound.addr == addr
  {
    BoundFinds(ks, key, addr);
    if Bound(ks, key, addr).Some? {
      var i :| 0 <= i < |ks| && ks[i] == Bound(ks, key, addr).value && ks[i].bound.key == key && ks[i].bound.addr == addr;
      AddrsAre(ks, ls, i);
    }
  }

  /** A connection to an address with a directive of its own is accepted by the socket holding it. */
  lemma AcceptedBy(ks: seq<Socket>, ls: seq<Listen>, i: nat, l: Listen)
    requires Right(ks, ls) && Distinct(ls) && i < |ks| && l in ks[i].addrs
    ensures Accepting(ks, l.key, l.addr) == Some(ks[i])
  {
    AddrsAre(ks, ls, i);
    assert SocketOk(ks[i]);
    if ks[i].bound == l {
      BoundIs(ks, ls, i, l);
    } else {
      BoundIsNot(ks, ls, l.key, l.addr);
      if Bound(ks, l.key, l.addr).Some? {
        var j :| 0 <= j < |ks| && ks[j] == Bound(ks, l.key, l.addr).value && ks[j].bound in ls
          && ks[j].bound.key == l.key && ks[j].bound.addr == l.addr;
        DistinctIn(ls, ks[j].bound, l);
        AddrsAre(ks, ls, j);
        OneSocket(ks, ls, i, j, l);
      } else {
        BoundIs(ks, ls, i, ks[i].bound);
        assert ks[i].bound.key == l.key;
      }
    }
  }

  /** A connection to an address that has a directive is served by it. */
  lemma ExactMatch(ks: seq<Socket>, ls: seq<Listen>, l: Listen)
    requires Right(ks, ls) && Distinct(ls) && l in ls
    ensures ServerFor(ks, l.key, l.addr) == Some(l)
  {
    var i := SocketFor(ks, ls, l);
    AcceptedBy(ks, ls, i, l);
    AddrsAre(ks, ls, i);
    var n :| 0 <= n < |ks[i].addrs| && ks[i].addrs[n] == l;
    SearchFinds(ks[i].addrs, l.addr, n);
  }

  /** Otherwise by the wildcard of that port. */
  lemma WildcardMatch(ks: seq<Socket>, ls: seq<Listen>, w: Listen, addr: nat)
    requires Right(ks, ls) && Distinct(ls) && w in ls && Wildcard(w)
    requires forall l :: l in ls && l.key == w.key ==> l.addr != addr
    ensures ServerFor(ks, w.key, addr) == Some(w)
  {
    var i := SocketFor(ks, ls, w);
    AddrsAre(ks, ls, i);
    assert SocketOk(ks[i]);
    assert ks[i].bound == w by {
      if |ks[i].addrs| > 1 {
        DistinctIn(ls, ks[i].bound, w);
      }
    }
    BoundIsNot(ks, ls, w.key, addr);
    BoundIs(ks, ls, i, w);
    SearchFinds(ks[i].addrs, addr, |ks[i].addrs| - 1);
  }

  /** And refused where there is neither. */
  lemma NoMatch(ks: seq<Socket>, ls: seq<Listen>, key: Key, addr: nat)
    requires Right(ks, ls) && Distinct(ls)
    requires forall l :: l in ls && l.key == key ==> l.addr != addr && !Wildcard(l)
    ensures ServerFor(ks, key, addr) == None
  {
    BoundIsNot(ks, ls, key, addr);
    BoundIsNot(ks, ls, key, ANY);
  }
}
