/**
 The Noise XX handshake (section 7.5 of the Noise Protocol Framework) with NoiseSocket
 negotiation data: one endpoint, as the event handler drives it from one wakeup to the next.
 */
module Handshake {
  import opened Bytes
  import opened HandshakeReads

  datatype Role = Client | Server

  datatype Phase = NonePhase | ProcessPhase | EndPhase

  datatype Action = WriteMessage | ReadMessage | Split

  /** noise_handshakestate_get_action after `step` messages. */
  function ActionAt(role: Role, step: nat): Action {
    if step >= 3 then Split
    else if (step % 2 == 0) == role.Client? then WriteMessage
    else ReadMessage
  }

  /** A handshake message on the wire: negotiation data and a Noise message, each behind its length. */
  function Packet(neg: seq<byte>, msg: seq<byte>): (p: seq<byte>)
    requires |neg| < 0x1_0000 && |msg| < 0x1_0000
  {
    Be16(|neg|) + neg + (Be16(|msg|) + msg)
  }

  predicate Known(num: nat) {
    num == MSG1 || num == MSG2_OK || num == MSG2_ERR || num == MSG3
  }

  /** msg_num after `step` messages, the same on both sides. */
  function NumAt(step: nat): nat {
    if step == 1 then MSG2_OK else if step == 2 then MSG3 else MSG1
  }

  /** How the writer moves msg_num. */
  function NextNum(num: nat): nat {
    if num == MSG1 then MSG2_OK else if num == MSG2_OK then MSG3 else MSG1
  }

  /** The negotiation data of message `step`. */
  function NegotiationAt(header: seq<byte>, step: nat): seq<byte> {
    if step == 0 then header else []
  }

  /** The message number `step` of the handshake. */
  ghost function PacketAt(p: Noise, header: seq<byte>, step: nat): seq<byte>
    requires NoiseOk(p) && step < 3 && |header| == NEG1
  {
    Packet(NegotiationAt(header, step), p.messages[step])
  }

  predicate At(step: nat) {
    step < 3
  }

  /** `packets` are the three messages of a side with this header, on the wire. */
  ghost predicate Spoken(packets: seq<seq<byte>>, p: Noise, header: seq<byte>) {
    && NoiseOk(p) && |header| == NEG1 && |packets| == 3
    && forall k: nat {:trigger At(k)} | At(k) :: packets[k] == PacketAt(p, header, k)
  }

  ghost function Packets(p: Noise, header: seq<byte>): seq<seq<byte>>
    requires NoiseOk(p) && |header| == NEG1
  {
    seq(3, k requires 0 <= k < 3 => PacketAt(p, header, k))
  }

  lemma PacketsAreSpoken(p: Noise, header: seq<byte>)
    requires NoiseOk(p) && |header| == NEG1
    ensures Spoken(Packets(p, header), p, header)
  {
  }

  /** The version field of the first negotiation header. */
  predicate VersionOk(neg: seq<byte>) {
    |neg| == NEG1 && neg[0] == 0 && neg[1] == 1
  }

  /** The refusal: version 1 and status 0xFF, and an empty Noise message. */
  const REFUSAL: seq<byte> := [0, 3, 0, 1, 255, 0, 0]

  /** Reading a packet back: its negotiation data, its Noise message, and what follows it. */
  lemma PacketBlocks(neg: seq<byte>, msg: seq<byte>, rest: seq<byte>)
    requires |neg| < 0x1_0000 && |msg| < 0x1_0000
    ensures var bytes := Packet(neg, msg) + rest;
            && Whole(bytes) && Block(bytes) == neg
            && Whole(After(bytes)) && Block(After(bytes)) == msg
            && After(After(bytes)) == rest
  {
    var tail := Be16(|msg|) + msg + rest;
    assert Packet(neg, msg) + rest == Be16(|neg|) + neg + tail;
    BlockAt(neg, tail);
    BlockAt(msg, rest);
  }

  /** The bytes start with a client's first header. */
  predicate Offer(bytes: seq<byte>) {
    Whole(bytes) && |Block(bytes)| == NEG1
  }

  /** What the writer puts on the wire for each msg_num. */
  function Composed(header: seq<byte>, msg: seq<byte>, num: nat): seq<byte>
    requires |header| == NEG1 && |msg| < 0x1_0000
  {
    if num == MSG2_ERR then REFUSAL else Packet(if num == MSG1 then header else [], msg)
  }

  lemma ComposedAt(p: Noise, header: seq<byte>, step: nat)
    requires NoiseOk(p) && step < 3 && |header| == NEG1
    ensures Composed(header, p.messages[step], NumAt(step)) == PacketAt(p, header, step)
  {
    var num := NumAt(step);
    assert num != MSG2_ERR && (num == MSG1 <==> step == 0);
  }

  // ----- One wakeup

  /** A message that was sent: its place in the pattern and its msg_num. */
  datatype Sent = Sent(step: nat, num: nat)

  function SentBytes(p: Noise, header: seq<byte>, s: Option<Sent>): seq<byte>
    requires NoiseOk(p) && |header| == NEG1 && (s.Some? ==> s.value.step < 3)
  {
    if s.None? then [] else Composed(header, p.messages[s.value.step], s.value.num)
  }

  /** How a wakeup ends: its result, where the endpoint then stands, and what it has said. */
  datatype Woken = Woken(n: int, phase: Phase, after: Reading, said: Option<Sent>)

  /** Where an endpoint in NGX_NSOC_HANDSHAKE_PROCESS_PHASE can be. */
  predicate Going(r: Reading) {
    ReadingOk(r) && r.step <= 3 && r.msgNum != MSG2_ERR
  }

  /**
   The loop of NGX_NSOC_HANDSHAKE_PROCESS_PHASE: read what is there, write what is due, stop before a
   read that has to wait.
   */
  function GetProcess(p: Noise, role: Role, r: Reading): (w: Woken)
    requires Going(r)
    ensures Going(w.after) && (w.n == 0 || w.n == AGAIN || w.n == ERROR) && w.phase == (if w.n == 0 then EndPhase else ProcessPhase)
    ensures w.said.Some? ==> r.step <= w.said.value.step < 3
    ensures w.n == 0 ==> w.after.step == 3
    decreases 3 - r.step
  {
    match ActionAt(role, r.step)
    case Split => Woken(0, EndPhase, r.(buf := None), None)
    case WriteMessage =>
      if !Known(r.msgNum) then Woken(ERROR, ProcessPhase, r, None)
      else
        var next := r.(msgNum := NextNum(r.msgNum), step := r.step + 1, buf := None);
        var said := Some(Sent(r.step, r.msgNum));
        if ActionAt(role, next.step).ReadMessage? then Woken(AGAIN, ProcessPhase, next, said)
        else GetProcess(p, role, next).(said := said)
    case ReadMessage =>
      var g := GetMessage(p, r);
      if g.n != 0 then Woken(g.n, ProcessPhase, g.after, None) else GetProcess(p, role, g.after)
  }

  /** A turn that writes: after it the loop stops, or there is only the split left. */
  lemma ProcessWrites(p: Noise, role: Role, r: Reading, n: int, more: bool, after: Reading, said: Option<Sent>)
    requires Going(r) && ActionAt(role, r.step).WriteMessage?
    requires n == (if Known(r.msgNum) then AGAIN else ERROR) && more == (n != ERROR && !ActionAt(role, r.step + 1).ReadMessage?)
    requires said == if n == AGAIN then Some(Sent(r.step, r.msgNum)) else None
    requires after == if n == ERROR then r else r.(msgNum := NextNum(r.msgNum), step := r.step + 1, buf := None)
    ensures Going(after) && (more ==> after.step > r.step && ActionAt(role, after.step).Split?)
    ensures GetProcess(p, role, r) ==
            if more then Sends(said, GetProcess(p, role, after)) else Woken(n, ProcessPhase, after, said)
  {
  }

  /** A wakeup of which a message has been sent already. */
  function Sends(said: Option<Sent>, w: Woken): Woken {
    if said.None? then w else w.(said := said)
  }

  /** ngx_nsoc_do_handshake_process, before it is done. */
  function GetWake(p: Noise, header: seq<byte>, role: Role, phase: Phase, r: Reading): (w: Woken)
    requires Going(r) && (phase.NonePhase? ==> r.step == 0)
    ensures Going(w.after) && (w.n == 0 || w.n == AGAIN || w.n == ERROR)
    ensures w.said.Some? ==> w.said.value.step < 3
    ensures w.phase.EndPhase? <==> w.n == 0
    ensures w.phase.EndPhase? ==> w.after.step == 3
    ensures w.phase.NonePhase? ==> w.after.step == 0
  {
    if !phase.NonePhase? then GetProcess(p, role, r)
    else if role.Client? then
      if p.supports(header) then GetProcess(p, role, r.(buf := None)) else Woken(ERROR, NonePhase, r.(buf := None), None)
    else
      var h := GetHeader(r);
      if h.n != 0 then Woken(h.n, NonePhase, h.after, None)
      else if !VersionOk(h.offered) then
        Woken(ERROR, NonePhase, h.after.(msgNum := MSG1, buf := None), Some(Sent(0, MSG2_ERR)))
      else if !p.supports(h.offered) then Woken(ERROR, NonePhase, h.after.(buf := None), None)
      else GetProcess(p, role, h.after.(buf := None))
  }

  /** One side of the handshake (ngx_noise_connection_t). */
  class Endpoint {
    const role: Role
    const noise: Noise
    const header: seq<byte>
    const inbox: Pipe
    const outbox: Pipe
    var phase: Phase
    var msgNum: nat
    var again: bool
    var negLen: Length
    var noiseLen: Length
    var buf: Option<Buffer>
    var step: nat
    var handshaked: bool

    ghost predicate Shape()
      reads this
    {
      && NoiseOk(noise) && |header| == NEG1 && inbox != outbox
      && LengthOk(negLen) && LengthOk(noiseLen) && BufferOk(buf) && step <= 3
      && (again ==> phase.NonePhase? || ActionAt(role, step).ReadMessage?)
      && (phase.NonePhase? ==> step == 0)
      && handshaked == phase.EndPhase?
      && (phase.EndPhase? ==> step == 3)
    }

    /** The refusal's number is held only while the refusal is composed. */
    ghost predicate Valid()
      reads this
    {
      Shape() && msgNum != MSG2_ERR
    }

    /** Where the reading of a message stands. */
    ghost function Reading(): HandshakeReads.Reading
      reads this, inbox
    {
      HandshakeReads.Reading(msgNum, negLen, noiseLen, buf, step, inbox.bytes)
    }

    /** Between two messages, `n` of them done, nothing half read. */
    ghost predicate Rests(p: Phase, n: nat)
      reads this
    {
      phase == p && msgNum == NumAt(n) && step == n && negLen == NoLength && noiseLen == NoLength && buf == None
    }

    constructor (role: Role, noise: Noise, header: seq<byte>, inbox: Pipe, outbox: Pipe)
      requires |header| == NEG1 && NoiseOk(noise) && inbox != outbox
      ensures Valid() && Rests(NonePhase, 0) && !handshaked
      ensures this.role == role && this.noise == noise && this.header == header
      ensures this.inbox == inbox && this.outbox == outbox
    {
      this.role, this.noise, this.header, this.inbox, this.outbox := role, noise, header, inbox, outbox;
      phase, msgNum, again, negLen, noiseLen, buf, step, handshaked := NonePhase, MSG1, false, NoLength, NoLength, None, 0, false;
    }

    /** The outbox has grown by `p`. */
    ghost predicate Said(out: seq<byte>, sent: seq<byte>, p: seq<byte>)
      reads this, outbox
    {
      outbox.bytes == out + p && outbox.sent == sent + p
    }

    lemma NothingSaid()
      ensures Said(outbox.bytes, outbox.sent, [])
    {
    }

    /** ngx_nsoc_handshake_start_action_write_message and the send, which takes the whole message. */
    method WriteMessage() returns (ok: bool, ghost said: Option<Sent>)
      requires NoiseOk(noise) && |header| == NEG1 && step < 3
      modifies this`msgNum, this`step, this`buf, outbox
      ensures ok == Known(old(msgNum)) && said == if ok then Some(Sent(old(step), old(msgNum))) else None
      ensures msgNum == if ok then NextNum(old(msgNum)) else old(msgNum)
      ensures step == old(step) + if ok && old(msgNum) != MSG2_ERR then 1 else 0
      ensures buf == if ok then None else old(buf)
      ensures Said(old(outbox.bytes), old(outbox.sent), SentBytes(noise, header, said))
    {
      if !Known(msgNum) {
        NothingSaid();
        return false, None;
      }
      said := Some(Sent(step, msgNum));
      outbox.Send(Composed(header, noise.messages[step], msgNum));
      step := if msgNum != MSG2_ERR then step + 1 else step;
      msgNum, buf := NextNum(msgNum), None;
      return true, said;
    }

    /**
     The negotiation data in front of the second and third messages, and the move of msg_num. The
     first message has had its own read before.
     */
    method ReadNegotiation() returns (n: int)
      requires LengthOk(noiseLen) && BufferOk(buf) && LengthOk(negLen)
      modifies this`msgNum, this`negLen, this`buf, inbox`bytes
      ensures MessageGot(n, Reading()) == GetNegotiation(old(Reading()))
    {
      if msgNum == MSG1 {
        msgNum, buf := MSG2_OK, None;
        return 0;
      }
      if msgNum != MSG2_OK && msgNum != MSG3 {
        buf := None;
        return ERROR;
      }
      n, negLen, buf := ReadBlock(inbox, negLen, buf, Some(if msgNum == MSG2_OK then NEG2_OK else NEG3));
      buf := None;
      if n >= 0 {
        n := 0;
        if msgNum == MSG3 {
          msgNum := MSG1;
        } else if negLen.size == NEG2_OK {
          msgNum := MSG3;
        } else {
          n := ERROR;
        }
      }
    }

    method ReadNoise() returns (n: int)
      requires LengthOk(noiseLen) && BufferOk(buf) && LengthOk(negLen)
      modifies this`negLen, this`noiseLen, this`buf, this`step, inbox`bytes
      ensures MessageGot(n, Reading()) == GetNoise(noise, old(Reading()))
    {
      n, noiseLen, buf := ReadBlock(inbox, noiseLen, buf, None);
      if n < 0 {
        return;
      }
      if buf.None? || !noise.accepts(step, buf.value.bytes) {
        return ERROR;
      }
      step, buf, noiseLen, negLen := step + 1, None, NoLength, NoLength;
      return 0;
    }

    /** ngx_nsoc_handshake_start_action_read_message. */
    method ReadMessage() returns (n: int)
      requires LengthOk(noiseLen) && BufferOk(buf) && LengthOk(negLen)
      modifies this`msgNum, this`negLen, this`noiseLen, this`buf, this`step, this`again, inbox`bytes
      ensures MessageGot(n, Reading()) == GetMessage(noise, old(Reading())) && again == (n == AGAIN)
    {
      n := ReadNegotiation();
      if n == 0 {
        n := ReadNoise();
      }
      again := n == AGAIN;
    }

    /** The server reads the client's header. */
    method ReadHeader() returns (n: int, offered: seq<byte>)
      requires LengthOk(noiseLen) && LengthOk(negLen) && BufferOk(buf)
      modifies this`negLen, this`buf, this`again, inbox`bytes
      ensures HeaderGot(n, Reading(), offered) == GetHeader(old(Reading()))
    {
      n, negLen, buf := ReadBlock(inbox, negLen, buf, Some(NEG1));
      if n <= 0 {
        again := n == AGAIN;
        return if n == AGAIN then AGAIN else ERROR, [];
      }
      return 0, buf.value.bytes;
    }

    /** The answer to a version the server does not speak. */
    method Refuse()
      requires NoiseOk(noise) && |header| == NEG1 && step == 0
      modifies this`msgNum, this`step, this`buf, outbox
      ensures msgNum == MSG1 && step == 0 && buf == None
      ensures Said(old(outbox.bytes), old(outbox.sent), SentBytes(noise, header, Some(Sent(0, MSG2_ERR))))
    {
      msgNum := MSG2_ERR;
      var _, _ := WriteMessage();
    }

    /** A turn that writes. */
    method TurnWrite() returns (n: int, more: bool, ghost said: Option<Sent>)
      requires Valid() && phase.ProcessPhase? && !again && ActionAt(role, step).WriteMessage?
      modifies this`msgNum, this`step, this`buf, outbox
      ensures Valid() && (said.Some? ==> said.value.step < 3)
      ensures more ==> step > old(step) && ActionAt(role, step).Split?
      ensures Foreseen(old(Reading()), n, more, said)
      ensures Said(old(outbox.bytes), old(outbox.sent), SentBytes(noise, header, said))
    {
      var next := ActionAt(role, step + 1);
      ghost var r := Reading();
      n, said := SendOne();
      more := n != ERROR && !next.ReadMessage?;
      ProcessWrites(noise, role, r, n, more, Reading(), said);
    }

    /** Send a message, if its number is known. */
    method SendOne() returns (n: int, ghost said: Option<Sent>)
      requires Valid() && phase.ProcessPhase? && !again && step < 3
      modifies this`msgNum, this`step, this`buf, outbox
      ensures Valid() && n == if Known(old(msgNum)) then AGAIN else ERROR
      ensures said == if n == AGAIN then Some(Sent(old(step), old(msgNum))) else None
      ensures Reading() == if n == ERROR then old(Reading())
                           else old(Reading()).(msgNum := NextNum(old(msgNum)), step := old(step) + 1, buf := None)
      ensures Said(old(outbox.bytes), old(outbox.sent), SentBytes(noise, header, said))
    {
      var ok;
      ok, said := WriteMessage();
      n := if ok then AGAIN else ERROR;
    }

    /** A turn that reads. */
    method TurnRead() returns (n: int, more: bool)
      requires Valid() && phase.ProcessPhase? && ActionAt(role, step).ReadMessage?
      modifies this`msgNum, this`negLen, this`noiseLen, this`buf, this`step, this`again, inbox`bytes
      ensures Valid() && (more ==> step > old(step))
      ensures Foreseen(old(Reading()), n, more, None)
    {
      n := ReadMessage();
      more := n == 0;
    }

    /** From `r` the loop goes on as from here, or has ended here; this turn has sent `said`. */
    ghost predicate Foreseen(r: HandshakeReads.Reading, n: int, more: bool, said: Option<Sent>)
      requires Valid() && Going(r)
      reads this, inbox
    {
      GetProcess(noise, role, r) ==
      if more then Sends(said, GetProcess(noise, role, Reading())) else Woken(n, phase, Reading(), said)
    }

    /** One pass of the switch in NGX_NSOC_HANDSHAKE_PROCESS_PHASE; `more` goes round again. */
    method Turn() returns (n: int, more: bool, ghost said: Option<Sent>)
      requires Valid() && phase.ProcessPhase?
      modifies this`phase, this`msgNum, this`negLen, this`noiseLen, this`buf, this`step, this`again, this`handshaked
      modifies inbox`bytes, outbox
      ensures Valid() && (said.Some? ==> said.value.step < 3)
      ensures more ==> phase.ProcessPhase? && step > old(step) && (said.Some? ==> ActionAt(role, step).Split?)
      ensures old(ActionAt(role, step).Split?) ==> !more && said == None
      ensures Foreseen(old(Reading()), n, more, said)
      ensures Said(old(outbox.bytes), old(outbox.sent), SentBytes(noise, header, said))
    {
      var action := if again then Action.ReadMessage else ActionAt(role, step);
      match action
      case WriteMessage =>
        n, more, said := TurnWrite();
      case ReadMessage =>
        NothingSaid();
        n, more := TurnRead();
        said := None;
      case Split =>
        NothingSaid();
        phase, buf, handshaked := EndPhase, None, true;
        n, more, said := 0, false, None;
    }

    /** NGX_NSOC_HANDSHAKE_PROCESS_PHASE. */
    method Process() returns (n: int, ghost said: Option<Sent>)
      requires Valid() && phase.ProcessPhase?
      modifies this`phase, this`msgNum, this`negLen, this`noiseLen, this`buf, this`step, this`again, this`handshaked
      modifies inbox`bytes, outbox
      ensures Valid() && (said.Some? ==> said.value.step < 3)
      ensures GetProcess(noise, role, old(Reading())) == Woken(n, phase, Reading(), said)
      ensures Said(old(outbox.bytes), old(outbox.sent), SentBytes(noise, header, said))
    {
      ghost var r := Reading();
      var more := true;
      n, said := 0, None;
      NothingSaid();
      while more
        invariant Valid() && (said.Some? ==> said.value.step < 3)
        invariant more ==> phase.ProcessPhase? && (said.Some? ==> ActionAt(role, step).Split?)
        invariant Foreseen(r, n, more, said)
        invariant Said(old(outbox.bytes), old(outbox.sent), SentBytes(noise, header, said))
        decreases more, 3 - step
      {
        n, more, said := TurnOn(r, said, old(outbox.bytes), old(outbox.sent));
      }
    }

    /** One more turn of that loop. */
    method TurnOn(ghost r: HandshakeReads.Reading, ghost before: Option<Sent>, ghost out: seq<byte>, ghost sent: seq<byte>)
      returns (n: int, more: bool, ghost said: Option<Sent>)
      requires Valid() && phase.ProcessPhase? && Going(r) && (before.Some? ==> before.value.step < 3 && ActionAt(role, step).Split?)
      requires Foreseen(r, 0, true, before) && Said(out, sent, SentBytes(noise, header, before))
      modifies this`phase, this`msgNum, this`negLen, this`noiseLen, this`buf, this`step, this`again, this`handshaked
      modifies inbox`bytes, outbox
      ensures Valid() && (said.Some? ==> said.value.step < 3)
      ensures more ==> phase.ProcessPhase? && step > old(step) && (said.Some? ==> ActionAt(role, step).Split?)
      ensures Foreseen(r, n, more, said)
      ensures Said(out, sent, SentBytes(noise, header, said))
    {
      ghost var now := outbox.bytes;
      n, more, said := Turn();
      if before.Some? {
        assert now + [] == now && old(outbox.sent) + [] == old(outbox.sent);
        said := before;
      } else {
        assert out + [] == out && sent + [] == sent;
      }
    }

    /** NGX_NSOC_HANDSHAKE_NONE_PHASE: the server takes the client's header, or refuses its version. */
    method Begin() returns (n: int, ghost said: Option<Sent>)
      requires Valid() && phase.NonePhase?
      modifies this`phase, this`msgNum, this`negLen, this`buf, this`step, this`again, inbox`bytes, outbox
      ensures Valid() && (said.Some? ==> said.value.step < 3)
      ensures Said(old(outbox.bytes), old(outbox.sent), SentBytes(noise, header, said))
      ensures var w := GetWake(noise, header, role, NonePhase, old(Reading()));
              if n == 0 then phase.ProcessPhase? && said == None && w == GetProcess(noise, role, Reading())
              else phase.NonePhase? && w == Woken(n, phase, Reading(), said)
    {
      NothingSaid();
      said := None;
      var offered := header;
      if role.Server? {
        n, offered := ReadHeader();
        if n != 0 {
          return;
        }
        if !VersionOk(offered) {
          Refuse();
          return ERROR, Some(Sent(0, MSG2_ERR));
        }
      }
      buf := None;
      if !noise.supports(offered) {
        return ERROR, None;
      }
      phase, again := ProcessPhase, false;
      return 0, None;
    }

    /** ngx_nsoc_do_handshake_process: one wakeup, whatever has arrived. */
    method Wake() returns (n: int, ghost said: Option<Sent>)
      requires Valid() && !phase.EndPhase?
      modifies this`phase, this`msgNum, this`negLen, this`noiseLen, this`buf, this`step, this`again, this`handshaked
      modifies inbox`bytes, outbox
      ensures Valid() && (said.Some? ==> said.value.step < 3)
      ensures GetWake(noise, header, role, old(phase), old(Reading())) == Woken(n, phase, Reading(), said)
      ensures Said(old(outbox.bytes), old(outbox.sent), SentBytes(noise, header, said))
    {
      ghost var out, sent := outbox.bytes, outbox.sent;
      if phase.NonePhase? {
        n, said := Begin();
        if n != 0 {
          return;
        }
        assert out + [] == out && sent + [] == sent;
      }
      n, said := Process();
    }
  }
}
