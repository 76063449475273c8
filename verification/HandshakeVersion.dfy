/**
 What a server makes of a first message, in bytes: the version it speaks, the refusal, and the messages that
 it does not answer at all.
 */
module HandshakeVersion {
  import opened Bytes
  import opened HandshakeReads
  import opened Handshake
  import opened HandshakeLink
  import opened HandshakeCuts

  /** A first message: the length of the header, six bytes of it, the length of the Noise message, and that. */
  function FirstMessage(header: seq<byte>, msg: seq<byte>): (m: seq<byte>)
    requires |msg| < 0x1_0000
  {
    [0, 6] + header + [|msg| / 256, |msg| % 256] + msg
  }

  lemma FirstMessageIs(p: Noise, header: seq<byte>, msg: seq<byte>)
    requires |header| == 6 && 0 < |msg| < 0x1_0000 && p.accepts(0, msg)
    ensures IsFirst(p, header, FirstMessage(header, msg))
  {
    var m := FirstMessage(header, msg);
    assert m[8] == |msg| / 256 && m[9] == |msg| % 256;
    assert m[2..8] == header && m[10..] == msg;
  }

  /** Which of the two answers it is. */
  lemma VersionChooses(p: Noise, own: seq<byte>, header: seq<byte>, msg: seq<byte>, w: Woken)
    requires |header| == 6 && 0 < |msg| < 0x1_0000 && p.accepts(0, msg) && p.supports(header)
    requires w == GetWake(p, own, Server, NonePhase, Reading(MSG1, NoLength, NoLength, None, 0, FirstMessage(header, msg)))
    ensures if header[0] == 0 && header[1] == 1
            then w.n == AGAIN && w.said == Some(Sent(1, MSG2_OK)) && w.after.input == []
            else w.n == ERROR && w.said == Some(Sent(0, MSG2_ERR))
  {
    var m := FirstMessage(header, msg);
    FirstMessageIs(p, header, msg);
    assert m[0..0 + |m|] == m;
    FirstWake(p, header, own, m, 0, m, w);
  }

  lemma AnswerBytes(p: Noise, own: seq<byte>, s: Sent)
    requires NoiseOk(p) && |own| == NEG1 && s.step < 3 && s.num != MSG1 && s.num != MSG2_ERR
    ensures SentBytes(p, own, Some(s)) == Packet([], p.messages[s.step])
  {
  }

  lemma RefusalBytes(p: Noise, own: seq<byte>, s: Sent)
    requires NoiseOk(p) && |own| == NEG1 && s.step < 3 && s.num == MSG2_ERR
    ensures SentBytes(p, own, Some(s)) == [0, 3, 0, 1, 255, 0, 0]
  {
  }

  /**
   A server that has nothing read yet and receives a whole first message with a header it supports: it answers with
   its message exactly if the header starts with 0 and 1, and otherwise with the refusal, and fails.
   */
  lemma VersionDecides(p: Noise, own: seq<byte>, header: seq<byte>, msg: seq<byte>, w: Woken)
    requires NoiseOk(p) && |own| == 6 && |header| == 6 && 0 < |msg| < 0x1_0000 && p.accepts(0, msg) && p.supports(header)
    requires w == GetWake(p, own, Server, NonePhase, Reading(MSG1, NoLength, NoLength, None, 0, FirstMessage(header, msg)))
    ensures if header[0] == 0 && header[1] == 1
            then w.n == AGAIN && w.after.input == [] && SentBytes(p, own, w.said) == Packet([], p.messages[1])
            else w.n == ERROR && SentBytes(p, own, w.said) == [0, 3, 0, 1, 255, 0, 0]
  {
    VersionChooses(p, own, header, msg, w);
    if header[0] == 0 && header[1] == 1 {
      AnswerBytes(p, own, w.said.value);
    } else {
      RefusalBytes(p, own, w.said.value);
    }
  }

  /** A block behind its length in two bytes. */
  lemma BlockBehind(a: byte, b: byte, data: seq<byte>, rest: seq<byte>, input: seq<byte>)
    requires |data| == a * 256 + b && input == [a, b] + data + rest
    ensures Whole(input) && Size(input) == |data| && Block(input) == data && After(input) == rest
  {
    assert input[0] == a && input[1] == b;
    assert input[2..2 + |data|] == data && input[2 + |data|..] == rest;
  }

  /** A header of the right version that the library does not support: an error, and nothing said. */
  lemma Unsupported(p: Noise, own: seq<byte>, header: seq<byte>, rest: seq<byte>, w: Woken)
    requires |header| == 6 && header[0] == 0 && header[1] == 1 && !p.supports(header)
    requires w == GetWake(p, own, Server, NonePhase, Reading(MSG1, NoLength, NoLength, None, 0, [0, 6] + header + rest))
    ensures w.n == ERROR && w.said == None
  {
    var input := [0, 6] + header + rest;
    var r := Reading(MSG1, NoLength, NoLength, None, 0, input);
    BlockBehind(0, 6, header, rest, input);
    HeaderOf(r, header);
    WakeUnsupported(p, own, r, GetHeader(r));
  }

  lemma HeaderOf(r: Reading, header: seq<byte>)
    requires CleanReading(r) && Whole(r.input) && Block(r.input) == header && |header| == NEG1
    ensures GetHeader(r).n == 0 && GetHeader(r).offered == header
  {
    WholeBlock(Some(NEG1), r.input);
  }

  lemma WakeUnsupported(p: Noise, own: seq<byte>, r: Reading, h: HeaderGot)
    requires Going(r) && r.step == 0 && h == GetHeader(r) && h.n == 0 && VersionOk(h.offered) && !p.supports(h.offered)
    ensures var w := GetWake(p, own, Server, NonePhase, r); w.n == ERROR && w.said == None
  {
  }

  /** A header whose length is not six: an error, and nothing said. */
  lemma OtherHeaderSize(p: Noise, own: seq<byte>, a: byte, b: byte, rest: seq<byte>, w: Woken)
    requires a * 256 + b != 6
    requires w == GetWake(p, own, Server, NonePhase, Reading(MSG1, NoLength, NoLength, None, 0, [a, b] + rest))
    ensures w.n == ERROR && w.said == None
  {
    var input := [a, b] + rest;
    assert input[0] == a && input[1] == b && input[2..] == rest;
  }

  /** A client whose own header the library does not support says nothing and fails. */
  lemma ClientUnsupported(p: Noise, own: seq<byte>, input: seq<byte>)
    requires !p.supports(own)
    ensures var w := GetWake(p, own, Client, NonePhase, Resting(0, input));
            w.n == ERROR && w.said == None
  {
  }

  /** A whole message that the library rejects ends the handshake of whoever reads it, and nothing more is said. */
  lemma Rejected(p: Noise, own: seq<byte>, role: Role, k: nat, input: seq<byte>, noise: seq<byte>)
    requires k == 1 || k == 2
    requires ActionAt(role, k).ReadMessage? && Whole(input) && Size(input) == 0 && noise == After(input)
    requires Whole(noise) && !p.accepts(k, Block(noise))
    ensures var w := GetWake(p, own, role, ProcessPhase, Resting(k, input));
            w.n == ERROR && w.said == None
  {
    RejectedRead(p, Resting(k, input), noise, Block(noise));
    RejectedWake(p, own, role, Resting(k, input));
  }

  lemma RejectedWake(p: Noise, own: seq<byte>, role: Role, r: Reading)
    requires Going(r) && ActionAt(role, r.step).ReadMessage? && GetMessage(p, r).n == ERROR
    ensures var w := GetWake(p, own, role, ProcessPhase, r); w.n == ERROR && w.said == None
  {
    LoopReads(p, role, r);
  }

  lemma RejectedRead(p: Noise, r: Reading, noise: seq<byte>, msg: seq<byte>)
    requires r.msgNum == MSG2_OK || r.msgNum == MSG3
    requires CleanReading(r) && Whole(r.input) && Size(r.input) == 0 && After(r.input) == noise
    requires Whole(noise) && Block(noise) == msg && !p.accepts(r.step, msg)
    ensures GetMessage(p, r).n == ERROR
  {
    WholeBlock(Some(0), r.input);
    WholeBlock(None, noise);
  }
}
