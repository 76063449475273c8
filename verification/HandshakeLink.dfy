/**
 The handshake between two endpoints, in every interleaving of their wakeups. Messages arrive as a
 whole; a side may be woken any number of times with nothing to read, and sends transport data as
 soon as its own handshake is done, so the third message can have data right behind it.
 */
module HandshakeLink {
  import opened Bytes
  import opened HandshakeReads
  import opened Handshake

  /** Between two messages, `k` of them done. */
  function Resting(k: nat, input: seq<byte>): Reading {
    Reading(NumAt(k), NoLength, NoLength, None, k, input)
  }

  // What the loop does behind a message that has been read, whatever number the endpoint is at.

  lemma ClientStarts(p: Noise, input: seq<byte>)
    ensures GetProcess(p, Client, Resting(0, input)) == Woken(AGAIN, ProcessPhase, Resting(1, input), Some(Sent(0, MSG1)))
  {
  }

  lemma ClientEnds(p: Noise, r: Reading)
    requires Going(r) && r.step == 2 && Known(r.msgNum)
    ensures GetProcess(p, Client, r) ==
            Woken(0, EndPhase, r.(msgNum := NextNum(r.msgNum), step := 3, buf := None), Some(Sent(2, r.msgNum)))
  {
    var next := r.(msgNum := NextNum(r.msgNum), step := 3, buf := None);
    assert GetProcess(p, Client, next) == Woken(0, EndPhase, next, None);
  }

  lemma ServerReplies(p: Noise, r: Reading)
    requires Going(r) && r.step == 1 && Known(r.msgNum)
    ensures GetProcess(p, Server, r) ==
            Woken(AGAIN, ProcessPhase, r.(msgNum := NextNum(r.msgNum), step := 2, buf := None), Some(Sent(1, r.msgNum)))
  {
  }

  lemma ServerEnds(p: Noise, r: Reading)
    requires Going(r) && r.step == 3
    ensures GetProcess(p, Server, r) == Woken(0, EndPhase, r.(buf := None), None)
  {
  }

  lemma LoopReads(p: Noise, role: Role, r: Reading)
    requires Going(r) && ActionAt(role, r.step).ReadMessage?
    ensures var g := GetMessage(p, r);
            GetProcess(p, role, r) == if g.n != 0 then Woken(g.n, ProcessPhase, g.after, None) else GetProcess(p, role, g.after)
  {
  }

  // What the wakeups of one side amount to on the messages of the other.

  /** A wakeup with nothing to read changes nothing. */
  lemma NothingToRead(p: Noise, role: Role, k: nat)
    requires 0 < k < 3 && ActionAt(role, k).ReadMessage?
    ensures GetProcess(p, role, Resting(k, [])) == Woken(AGAIN, ProcessPhase, Resting(k, []), None)
  {
    NothingArrived(p, Resting(k, []));
  }

  lemma NothingOffered(p: Noise, header: seq<byte>)
    ensures GetWake(p, header, Server, NonePhase, Resting(0, [])) == Woken(AGAIN, NonePhase, Resting(0, []), None)
  {
    NoBlock(None, Some(NEG1));
  }

  /** A message of the other side is read as exactly that message. */
  lemma MessageArrives(m: seq<seq<byte>>, p: Noise, header: seq<byte>, step: nat, rest: seq<byte>)
    requires Spoken(m, p, header) && 0 < step < 3
    ensures MessageReady(p, step, m[step] + rest) && After(After(m[step] + rest)) == rest
  {
    assert At(step);
    PacketBlocks([], p.messages[step], rest);
  }

  lemma MessageRead(m: seq<seq<byte>>, p: Noise, header: seq<byte>, k: nat, rest: seq<byte>)
    requires Spoken(m, p, header) && 0 < k < 3
    ensures GetMessage(p, Resting(k, m[k] + rest)) == MessageGot(0, Resting(k + 1, rest))
  {
    MessageArrives(m, p, header, k, rest);
    MessageArrived(p, Resting(k, m[k] + rest));
  }

  lemma ClientAnswers(m: seq<seq<byte>>, p: Noise, header: seq<byte>)
    requires Spoken(m, p, header)
    ensures GetProcess(p, Client, Resting(1, m[1])) == Woken(0, EndPhase, Resting(3, []), Some(Sent(2, MSG3)))
  {
    assert m[1] + [] == m[1];
    MessageRead(m, p, header, 1, []);
    LoopReads(p, Client, Resting(1, m[1]));
    ClientEnds(p, Resting(2, []));
  }

  lemma ServerFinishes(m: seq<seq<byte>>, p: Noise, header: seq<byte>, rest: seq<byte>)
    requires Spoken(m, p, header)
    ensures GetProcess(p, Server, Resting(2, m[2] + rest)) == Woken(0, EndPhase, Resting(3, rest), None)
  {
    MessageRead(m, p, header, 2, rest);
    LoopReads(p, Server, Resting(2, m[2] + rest));
    ServerEnds(p, Resting(3, rest));
  }

  /** Any negotiation data in the second message, the refusal's too, is an error to the client. */
  lemma ClientIsRefused(p: Noise, input: seq<byte>)
    requires |input| >= 2 && Size(input) != 0
    ensures var w := GetProcess(p, Client, Resting(1, input));
            w.n == ERROR && w.phase.ProcessPhase? && w.said == None
  {
    OtherArrived(p, Resting(1, input));
    LoopReads(p, Client, Resting(1, input));
  }

  /** The first message: its header, then its Noise message. */
  lemma HeaderRead(m: seq<seq<byte>>, p: Noise, header: seq<byte>)
    requires Spoken(m, p, header)
    ensures Whole(m[0]) && NoiseReady(p, 0, After(m[0])) && After(After(m[0])) == []
    ensures var after := Resting(0, After(m[0])).(negLen := Length(NEG1, false), buf := Some(Buffer(NEG1, header)));
            GetHeader(Resting(0, m[0])) == HeaderGot(0, after, header)
  {
    assert At(0);
    assert m[0] + [] == m[0];
    PacketBlocks(header, p.messages[0], []);
    WholeBlock(Some(NEG1), m[0]);
  }

  lemma ServerAnswers(m: seq<seq<byte>>, p: Noise, header: seq<byte>, own: seq<byte>)
    requires Spoken(m, p, header) && VersionOk(header) && p.supports(header)
    ensures GetWake(p, own, Server, NonePhase, Resting(0, m[0])) ==
            Woken(AGAIN, ProcessPhase, Resting(2, []), Some(Sent(1, MSG2_OK)))
  {
    HeaderRead(m, p, header);
    var r := Resting(0, After(m[0])).(negLen := Length(NEG1, false));
    FirstArrived(p, r);
    LoopReads(p, Server, r);
    ServerReplies(p, Resting(1, []));
  }

  lemma ServerRefuses(m: seq<seq<byte>>, p: Noise, header: seq<byte>, own: seq<byte>)
    requires Spoken(m, p, header) && !VersionOk(header)
    ensures var w := GetWake(p, own, Server, NonePhase, Resting(0, m[0]));
            w.n == ERROR && w.phase.NonePhase? && w.said == Some(Sent(0, MSG2_ERR))
  {
    HeaderRead(m, p, header);
  }

  /** The bytes of the messages that are sent in order, and of the refusal. */
  lemma SentIs(m: seq<seq<byte>>, p: Noise, header: seq<byte>, k: nat)
    requires Spoken(m, p, header) && k < 3
    ensures SentBytes(p, header, Some(Sent(k, NumAt(k)))) == m[k]
  {
    assert At(k);
    ComposedAt(p, header, k);
  }

  /** Only the first message depends on a side's own header. */
  lemma HeaderOnlyFirst(p: Noise, h: seq<byte>, h': seq<byte>, k: nat)
    requires NoiseOk(p) && |h| == NEG1 && |h'| == NEG1 && 0 < k < 3
    ensures SentBytes(p, h, Some(Sent(k, NumAt(k)))) == SentBytes(p, h', Some(Sent(k, NumAt(k))))
  {
    assert NumAt(k) != MSG1;
  }

  lemma RefusalIs(p: Noise, header: seq<byte>)
    requires NoiseOk(p) && |header| == NEG1
    ensures SentBytes(p, header, Some(Sent(0, MSG2_ERR))) == REFUSAL
  {
  }

  // Each wakeup by the stage of the handshake, against a version that is spoken (`good`) or not.

  /** A wakeup ended with `n`, at rest between messages, having said `said`. */
  ghost predicate Ended(p: Noise, header: seq<byte>, w: Woken, n: int, phase: Phase, after: Reading, said: seq<byte>)
    requires NoiseOk(p) && |header| == NEG1 && (w.said.Some? ==> w.said.value.step < 3)
  {
    w.n == n && w.phase == phase && w.after == after && SentBytes(p, header, w.said) == said
  }

  lemma ClientWoken(m: seq<seq<byte>>, p: Noise, h: seq<byte>)
    requires Spoken(m, p, h) && p.supports(h)
    ensures Ended(p, h, GetWake(p, h, Client, NonePhase, Resting(0, [])), AGAIN, ProcessPhase, Resting(1, []), m[0])
  {
    ClientStarts(p, []);
    SentIs(m, p, h, 0);
  }

  lemma ClientWokenEarly(p: Noise, h: seq<byte>)
    requires NoiseOk(p) && |h| == NEG1
    ensures Ended(p, h, GetWake(p, h, Client, ProcessPhase, Resting(1, [])), AGAIN, ProcessPhase, Resting(1, []), [])
  {
    NothingToRead(p, Client, 1);
  }

  lemma ClientWokenLast(m: seq<seq<byte>>, p: Noise, h: seq<byte>)
    requires Spoken(m, p, h)
    ensures Ended(p, h, GetWake(p, h, Client, ProcessPhase, Resting(1, m[1])), 0, EndPhase, Resting(3, []), m[2])
  {
    ClientAnswers(m, p, h);
    SentIs(m, p, h, 2);
  }

  lemma RefusalSize()
    ensures |REFUSAL| >= 2 && Size(REFUSAL) == 3
  {
  }

  ghost function ServerFinds(m: seq<seq<byte>>, stage: nat, more: seq<byte>): seq<byte>
    requires |m| == 3
  {
    if stage == 1 then m[0] else if stage == 3 then m[2] + more else []
  }

  ghost function ServerSays(m: seq<seq<byte>>, stage: nat, good: bool): seq<byte>
    requires |m| == 3
  {
    if stage != 1 then [] else if good then m[1] else REFUSAL
  }

  lemma ServerWoken(m: seq<seq<byte>>, p: Noise, h: seq<byte>, own: seq<byte>, stage: nat, more: seq<byte>)
    requires Spoken(m, p, h) && p.supports(h) && |own| == NEG1 && stage <= 3
    ensures var input, says := ServerFinds(m, stage, more), ServerSays(m, stage, VersionOk(h));
            var w := GetWake(p, own, Server, if stage <= 1 then NonePhase else ProcessPhase, Resting(if stage <= 1 then 0 else 2, input));
            if stage == 0 then Ended(p, own, w, AGAIN, NonePhase, Resting(0, []), says)
            else if stage == 3 then Ended(p, own, w, 0, EndPhase, Resting(3, more), says)
            else if stage == 2 || VersionOk(h) then Ended(p, own, w, AGAIN, ProcessPhase, Resting(2, []), says)
            else w.n == ERROR && w.phase.NonePhase? && SentBytes(p, own, w.said) == says
  {
    if stage == 0 {
      NothingOffered(p, own);
    } else if stage == 1 {
      SentIs(m, p, h, 1);
      HeaderOnlyFirst(p, h, own, 1);
      RefusalIs(p, own);
      if VersionOk(h) {
        ServerAnswers(m, p, h, own);
      } else {
        ServerRefuses(m, p, h, own);
      }
    } else if stage == 2 {
      NothingToRead(p, Server, 2);
    } else {
      ServerFinishes(m, p, h, more);
    }
  }

  datatype Event = WakeClient | WakeServer | ClientSends(data: seq<byte>) | ServerSends(data: seq<byte>)

  /** The protocol both sides together follow: whose turn it is at each stage. */
  function Next(good: bool, stage: nat, e: Event): nat {
    if e.WakeClient? && (stage == 0 || stage == 2) then stage + 1
    else if e.WakeServer? && (stage == 1 || (stage == 3 && good)) then stage + 1
    else stage
  }

  function StageAfter(good: bool, stage: nat, es: seq<Event>): nat
    decreases |es|
  {
    if es == [] then stage else StageAfter(good, Next(good, stage, es[0]), es[1..])
  }

  class Link {
    const client: Endpoint
    const server: Endpoint
    ghost const packets: seq<seq<byte>>
    const up: Pipe
    const down: Pipe
    var clientOpen: bool
    var serverOpen: bool
    ghost var stage: nat
    ghost var fromClient: seq<byte>
    ghost var fromServer: seq<byte>

    ghost predicate Wired()
      reads this, client, server
    {
      && client != server && up != down
      && client.role.Client? && server.role.Server?
      && client.noise == server.noise && client.noise.supports(client.header)
      && client.inbox == down && client.outbox == up && server.inbox == up && server.outbox == down
      && client.Valid() && server.Valid()
      && Spoken(packets, client.noise, client.header)
    }

    /** Message `k` of this handshake. */
    ghost function M(k: nat): seq<byte>
      requires Wired() && k < 3
      reads this, client, server
    {
      packets[k]
    }

    ghost predicate Good()
      reads this, client
    {
      VersionOk(client.header)
    }

    ghost predicate ClientAt()
      reads this, client
    {
      if stage == 0 then client.Rests(NonePhase, 0) && clientOpen
      else if stage <= 2 then client.Rests(ProcessPhase, 1) && clientOpen
      else if Good() then client.Rests(EndPhase, 3)
      else !clientOpen && !client.handshaked
    }

    ghost predicate ServerAt()
      reads this, client, server
    {
      if stage <= 1 then server.Rests(NonePhase, 0) && serverOpen
      else if !Good() then !serverOpen && !server.handshaked
      else if stage <= 3 then server.Rests(ProcessPhase, 2) && serverOpen
      else server.Rests(EndPhase, 3)
    }

    ghost predicate UpAt()
      requires Wired()
      reads this, client, server, up
    {
      if stage == 0 then up.bytes == [] && up.sent == []
      else if stage == 1 then up.bytes == M(0) && up.sent == M(0)
      else if !Good() then up.sent == M(0)
      else if stage == 2 then up.bytes == [] && up.sent == M(0)
      else if stage == 3 then up.bytes == M(2) + fromClient && up.sent == M(0) + M(2) + fromClient
      else up.bytes == fromClient && up.sent == M(0) + M(2) + fromClient
    }

    ghost predicate DownAt()
      requires Wired()
      reads this, client, server, down
    {
      if stage <= 1 then down.bytes == [] && down.sent == []
      else if !Good() then down.sent == REFUSAL && (stage == 2 ==> down.bytes == REFUSAL)
      else if stage == 2 then down.bytes == M(1) && down.sent == M(1)
      else if stage == 3 then down.bytes == [] && down.sent == M(1)
      else down.bytes == fromServer && down.sent == M(1) + fromServer
    }

    ghost predicate Inv()
      reads this, client, server, up, down
    {
      && Wired() && stage <= (if Good() then 4 else 3)
      && ClientAt() && ServerAt() && UpAt() && DownAt()
      && (stage < 3 ==> fromClient == [])
      && (stage < 4 ==> fromServer == [])
    }

    constructor (noise: Noise, clientHeader: seq<byte>, serverHeader: seq<byte>)
      requires NoiseOk(noise) && |clientHeader| == NEG1 && |serverHeader| == NEG1 && noise.supports(clientHeader)
      ensures Inv() && stage == 0 && fresh(client) && fresh(server) && fresh(up) && fresh(down)
      ensures client.noise == noise && client.header == clientHeader
    {
      var u := new Pipe();
      var d := new Pipe();
      var c := new Endpoint(Client, noise, clientHeader, d, u);
      var s := new Endpoint(Server, noise, serverHeader, u, d);
      PacketsAreSpoken(noise, clientHeader);
      packets := Packets(noise, clientHeader);
      up, down, client, server := u, d, c, s;
      clientOpen, serverOpen, stage, fromClient, fromServer := true, true, 0, [], [];
    }

    /** What a wakeup of the client comes to at each stage. */
    method ClientWakes() returns (n: int)
      requires Inv() && clientOpen && !client.handshaked
      modifies client, up, down
      ensures client.Valid() && down.sent == old(down.sent)
      ensures stage == 0 ==>
                && n == AGAIN && client.Rests(ProcessPhase, 1) && down.bytes == old(down.bytes)
                && up.bytes == old(up.bytes) + packets[0] && up.sent == old(up.sent) + packets[0]
      ensures stage == 1 ==>
                && n == AGAIN && client.Rests(ProcessPhase, 1) && down.bytes == old(down.bytes)
                && up.bytes == old(up.bytes) && up.sent == old(up.sent)
      ensures stage == 2 && Good() ==>
                && n == 0 && client.Rests(EndPhase, 3) && down.bytes == []
                && up.bytes == old(up.bytes) + packets[2] && up.sent == old(up.sent) + packets[2]
      ensures stage == 2 && !Good() ==>
                n == ERROR && !client.handshaked && up.bytes == old(up.bytes) && up.sent == old(up.sent)
    {
      if stage == 0 {
        ClientWoken(packets, client.noise, client.header);
      } else if stage == 1 {
        ClientWokenEarly(client.noise, client.header);
      } else if Good() {
        ClientWokenLast(packets, client.noise, client.header);
      } else {
        RefusalSize();
        ClientIsRefused(client.noise, REFUSAL);
      }
      ghost var said;
      n, said := client.Wake();
    }

    /** An event on the client's connection; after an error it is closed, after the handshake not ours. */
    method WakeClient()
      requires Inv()
      modifies this`stage, this`clientOpen, client, up, down
      ensures Inv()
      ensures stage == Next(Good(), old(stage), Event.WakeClient)
    {
      if clientOpen && !client.handshaked {
        var n := ClientWakes();
        clientOpen := n != ERROR;
        stage := Next(Good(), stage, Event.WakeClient);
      }
    }

    /** What a wakeup of the server comes to at each stage. */
    method ServerWakes() returns (n: int)
      requires Inv() && serverOpen && !server.handshaked
      modifies server, up, down
      ensures server.Valid() && up.sent == old(up.sent)
      ensures stage == 0 || stage == 2 ==>
                && n == AGAIN && up.bytes == [] && down.bytes == old(down.bytes) && down.sent == old(down.sent)
                && if stage == 0 then server.Rests(NonePhase, 0) else server.Rests(ProcessPhase, 2)
      ensures stage == 1 && Good() ==>
                && n == AGAIN && server.Rests(ProcessPhase, 2) && up.bytes == []
                && down.bytes == old(down.bytes) + packets[1] && down.sent == old(down.sent) + packets[1]
      ensures stage == 1 && !Good() ==>
                && n == ERROR && !server.handshaked
                && down.bytes == old(down.bytes) + REFUSAL && down.sent == old(down.sent) + REFUSAL
      ensures stage == 3 ==>
                && n == 0 && server.Rests(EndPhase, 3) && up.bytes == fromClient
                && down.bytes == old(down.bytes) && down.sent == old(down.sent)
    {
      ServerWoken(packets, client.noise, client.header, server.header, stage, fromClient);
      ghost var said;
      n, said := server.Wake();
    }

    method WakeServer()
      requires Inv()
      modifies this`stage, this`serverOpen, server, up, down
      ensures Inv()
      ensures stage == Next(Good(), old(stage), Event.WakeServer)
    {
      if serverOpen && !server.handshaked {
        var n := ServerWakes();
        serverOpen := n != ERROR;
        stage := Next(Good(), stage, Event.WakeServer);
      }
    }

    /** Transport data, sent once the side's own handshake is done. */
    method ClientSends(data: seq<byte>)
      requires Inv()
      modifies this`fromClient, up
      ensures Inv()
    {
      if client.handshaked {
        assert M(2) + fromClient + data == M(2) + (fromClient + data);
        assert M(0) + M(2) + fromClient + data == M(0) + M(2) + (fromClient + data);
        up.Send(data);
        fromClient := fromClient + data;
      }
    }

    method ServerSends(data: seq<byte>)
      requires Inv()
      modifies this`fromServer, down
      ensures Inv()
    {
      if server.handshaked {
        assert M(1) + fromServer + data == M(1) + (fromServer + data);
        down.Send(data);
        fromServer := fromServer + data;
      }
    }

    method Step(e: Event)
      requires Inv()
      modifies this, client, server, up, down
      ensures Inv()
      ensures stage == Next(Good(), old(stage), e)
    {
      match e
      case WakeClient => WakeClient();
      case WakeServer => WakeServer();
      case ClientSends(data) => ClientSends(data);
      case ServerSends(data) => ServerSends(data);
    }

    /**
     Every schedule: the two sides stay in step, each is done only after the messages it needs, and
     has then read exactly the messages meant for it and nothing behind them.
     */
    method Run(es: seq<Event>)
      requires Inv() && stage == 0
      modifies this, client, server, up, down
      ensures Inv() && stage == StageAfter(Good(), 0, es)
      ensures client.handshaked <==> Good() && stage >= 3
      ensures server.handshaked <==> Good() && stage == 4
      ensures client.handshaked ==> down.sent == M(1) + down.bytes
      ensures server.handshaked ==> client.handshaked && up.sent == M(0) + M(2) + up.bytes
      ensures client.handshaked && !server.handshaked ==> up.bytes == M(2) + fromClient
    {
      var i := 0;
      while i < |es|
        invariant 0 <= i <= |es|
        invariant Inv()
        invariant StageAfter(Good(), stage, es[i..]) == StageAfter(Good(), 0, es)
      {
        assert es[i..][1..] == es[i + 1..];
        Step(es[i]);
        i := i + 1;
      }
      assert M(1) + [] == M(1);
    }
  }

  lemma {:induction false} StageSplits(good: bool, stage: nat, a: seq<Event>, b: seq<Event>)
    ensures StageAfter(good, stage, a + b) == StageAfter(good, StageAfter(good, stage, a), b)
    decreases |a|
  {
    if a == [] {
      assert a + b == b;
    } else {
      assert (a + b)[1..] == a[1..] + b;
      StageSplits(good, Next(good, stage, a[0]), a[1..], b);
    }
  }

  lemma {:induction false} StageGrows(good: bool, stage: nat, es: seq<Event>)
    requires stage <= (if good then 4 else 3)
    ensures stage <= StageAfter(good, stage, es) <= (if good then 4 else 3)
    decreases |es|
  {
    if es != [] {
      StageGrows(good, Next(good, stage, es[0]), es[1..]);
    }
  }

  /** A stretch of events that ends with the wakeup of the side whose turn stage `k` is. */
  lemma TurnTaken(good: bool, stage: nat, k: nat, es: seq<Event>, e: Event)
    requires k <= stage <= (if good then 4 else 3) && k < (if good then 4 else 3)
    requires if k % 2 == 0 then e.WakeClient? else e.WakeServer?
    ensures k < StageAfter(good, stage, es + [e]) <= (if good then 4 else 3)
  {
    StageGrows(good, stage, es);
    StageSplits(good, stage, es, [e]);
    var s := StageAfter(good, stage, es);
    assert StageAfter(good, s, [e]) == StageAfter(good, Next(good, s, e), []);
  }

  /**
   Any schedule in which the sides are woken in turn, whatever happens in between and afterwards,
   completes the handshake; with a version the server does not speak it ends refused instead.
   */
  lemma InTurnFinishes(good: bool, a: seq<Event>, b: seq<Event>, c: seq<Event>, d: seq<Event>, rest: seq<Event>)
    ensures StageAfter(good, 0,
              (a + [WakeClient]) + ((b + [WakeServer]) + ((c + [WakeClient]) + ((d + [WakeServer]) + rest)))) ==
            if good then 4 else 3
  {
    var u, v, w, x := a + [WakeClient], b + [WakeServer], c + [WakeClient], d + [WakeServer];
    TurnTaken(good, 0, 0, a, WakeClient);
    var s1 := StageAfter(good, 0, u);
    StageSplits(good, 0, u, v + (w + (x + rest)));
    TurnTaken(good, s1, 1, b, WakeServer);
    var s2 := StageAfter(good, s1, v);
    StageSplits(good, s1, v, w + (x + rest));
    TurnTaken(good, s2, 2, c, WakeClient);
    var s3 := StageAfter(good, s2, w);
    StageSplits(good, s2, w, x + rest);
    StageSplits(good, s3, x, rest);
    if good {
      TurnTaken(good, s3, 3, d, WakeServer);
      StageGrows(good, StageAfter(good, s3, x), rest);
    } else {
      StageGrows(good, s3, x);
      StageGrows(good, StageAfter(good, s3, x), rest);
    }
  }
}
