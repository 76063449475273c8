/**
 What an endpoint reads during the handshake: length fields, blocks of data and whole messages, each of
 which may have arrived in part. The reads are given as functions of the state and the input, so that
 what a cut in the input does to a message can be stated.
 */
module HandshakeReads {
  import opened Bytes

  // Values of msg_num.
  const MSG1: nat := 0
  const MSG2_OK: nat := 1
  const MSG2_ERR: nat := 3
  const MSG3: nat := 4

  const NEG1: nat := 6
  const NEG2_OK: nat := 0
  const NEG3: nat := 0

  /** Room for one Noise message of the handshake. */
  const MAX_HANDSHAKE_LEN: nat := 96

  const UNSET: int := -1

  /** Codes the functions return: a length that is not negative, or one of these. */
  const AGAIN: int := -2
  const ERROR: int := -1

  /**
   noise-c: the three messages of the pattern in order, which bytes it accepts for each, and which
   protocol headers it can start a handshake with.
   */
  datatype Noise = Noise(messages: seq<seq<byte>>, accepts: (nat, seq<byte>) -> bool, supports: seq<byte> -> bool)

  predicate NoiseOk(p: Noise) {
    && |p.messages| == 3
    && forall k | 0 <= k < 3 :: 0 < |p.messages[k]| <= MAX_HANDSHAKE_LEN && p.accepts(k, p.messages[k])
  }

  /** The first length field, as a number. */
  function Size(bytes: seq<byte>): (n: nat)
    requires |bytes| >= 2
    ensures n < 0x1_0000
  {
    FromBe16(bytes[0], bytes[1])
  }

  /** The bytes start with a length field and all the data it announces. */
  predicate Whole(bytes: seq<byte>) {
    |bytes| >= 2 && 2 + Size(bytes) <= |bytes|
  }

  function Block(bytes: seq<byte>): (data: seq<byte>)
    requires Whole(bytes)
  {
    bytes[2..2 + Size(bytes)]
  }

  function After(bytes: seq<byte>): (rest: seq<byte>)
    requires Whole(bytes)
  {
    bytes[2 + Size(bytes)..]
  }

  lemma BlockAt(data: seq<byte>, rest: seq<byte>)
    requires |data| < 0x1_0000
    ensures Whole(Be16(|data|) + data + rest)
    ensures Block(Be16(|data|) + data + rest) == data
    ensures After(Be16(|data|) + data + rest) == rest
  {
    var bytes := Be16(|data|) + data + rest;
    assert bytes[0] == Be16(|data|)[0] && bytes[1] == Be16(|data|)[1];
    assert Size(bytes) == |data|;
    assert bytes[2..2 + |data|] == data;
    assert bytes[2 + |data|..] == rest;
  }

  /** The bytes start with a Noise message that the library accepts as number `step`. */
  predicate NoiseReady(p: Noise, step: nat, bytes: seq<byte>) {
    Whole(bytes) && Block(bytes) != [] && p.accepts(step, Block(bytes))
  }

  /** The bytes start with a whole message: empty negotiation data, then the Noise message. */
  predicate MessageReady(p: Noise, step: nat, bytes: seq<byte>) {
    Whole(bytes) && Size(bytes) == 0 && NoiseReady(p, step, After(bytes))
  }

  /** A byte queue from one side to the other; what is sent in one call arrives as a whole. */
  class Pipe {
    var bytes: seq<byte>
    ghost var sent: seq<byte>

    constructor ()
      ensures bytes == [] && sent == []
    {
      bytes, sent := [], [];
    }

    method Recv(k: nat) returns (data: Option<seq<byte>>)
      requires k > 0
      modifies this`bytes
      ensures old(bytes) == [] ==> data == None && bytes == []
      ensures old(bytes) != [] ==>
                var n := if k <= |old(bytes)| then k else |old(bytes)|;
                data == Some(old(bytes)[..n]) && bytes == old(bytes)[n..]
    {
      if bytes == [] {
        return None;
      }
      var n := if k <= |bytes| then k else |bytes|;
      data := Some(bytes[..n]);
      bytes := bytes[n..];
    }

    method Send(data: seq<byte>)
      modifies this
      ensures bytes == old(bytes) + data && sent == old(sent) + data
    {
      bytes := bytes + data;
      sent := sent + data;
    }
  }

  /** A length field as it is read: unset, half read, or read. */
  datatype Length = Length(size: int, reading: bool)

  const NoLength := Length(UNSET, false)

  predicate LengthOk(l: Length) {
    if l.reading then 0 <= l.size < 256 else UNSET <= l.size < 0x1_0000
  }

  datatype Buffer = Buffer(cap: nat, bytes: seq<byte>)

  predicate BufferOk(b: Option<Buffer>) {
    b.Some? ==> |b.value.bytes| <= b.value.cap
  }

  // ----- Length fields

  datatype LengthGot = LengthGot(rc: int, len: Length, rest: seq<byte>)

  /** What reading a length field comes to: both bytes, the one that was missing, or half of it. */
  function GetLength(l: Length, input: seq<byte>): (g: LengthGot)
    requires LengthOk(l)
    ensures LengthOk(g.len) && (g.rc == 0 || g.rc == AGAIN) && (g.rc == 0 ==> !g.len.reading && g.len.size >= 0)
  {
    if l.reading then
      if input == [] then LengthGot(AGAIN, l, [])
      else LengthGot(0, Length(FromBe16(l.size, input[0]), false), input[1..])
    else if input == [] then LengthGot(AGAIN, NoLength, [])
    else if |input| == 1 then LengthGot(AGAIN, Length(input[0], true), [])
    else LengthGot(0, Length(Size(input), false), input[2..])
  }

  /** One receive of the length field. */
  method LengthTurn(inbox: Pipe, first: byte, need: nat) returns (got: nat, first': byte, second: byte)
    requires 1 <= need <= 2
    modifies inbox`bytes
    ensures got == if need <= |old(inbox.bytes)| then need else |old(inbox.bytes)|
    ensures inbox.bytes == old(inbox.bytes)[got..]
    ensures first' == if need == 2 && got > 0 then old(inbox.bytes)[0] else first
    ensures got == need ==> second == old(inbox.bytes)[need - 1]
  {
    got, first', second := 0, first, 0;
    var data := inbox.Recv(need);
    if data.Some? {
      got := |data.value|;
      if need == 2 {
        first' := data.value[0];
      }
      if got == need {
        second := data.value[need - 1];
      }
    }
  }

  /** The two functions that read a length field, negotiation and Noise alike. */
  method ReadLength(inbox: Pipe, l: Length) returns (rc: int, out: Length)
    requires LengthOk(l)
    modifies inbox`bytes
    ensures LengthGot(rc, out, inbox.bytes) == GetLength(l, old(inbox.bytes))
  {
    var first: byte, second: byte := 0, 0;
    var need := 2;
    if l.reading {
      first, need := l.size, 1;
    }
    ghost var all := inbox.bytes;
    while need > 0
      invariant 0 <= need <= 2
      invariant need == 2 ==> inbox.bytes == all && !l.reading
      invariant need == 1 ==> if l.reading then inbox.bytes == all && first == l.size
                              else |all| == 1 && first == all[0] && inbox.bytes == []
      invariant need == 0 ==> if l.reading then all != [] && first == l.size && second == all[0] && inbox.bytes == all[1..]
                              else |all| >= 2 && first == all[0] && second == all[1] && inbox.bytes == all[2..]
    {
      var got;
      got, first, second := LengthTurn(inbox, first, need);
      if got == 0 {
        return AGAIN, if need == 1 then Length(first, true) else NoLength;
      }
      need := need - got;
    }
    return 0, Length(FromBe16(first, second), false);
  }

  // ----- Data

  datatype DataGot = DataGot(n: int, buf: Buffer, rest: seq<byte>)

  /** What reading into a buffer, a new one if there is none, comes to. */
  function GetData(b: Option<Buffer>, cap: nat, input: seq<byte>): (g: DataGot)
    requires BufferOk(b)
    ensures BufferOk(Some(g.buf)) && (g.n > 0 || g.n == AGAIN || g.n == ERROR)
  {
    var buf := if b.Some? then b.value else Buffer(cap, []);
    var room := buf.cap - |buf.bytes|;
    if room == 0 then DataGot(ERROR, buf, input)
    else if input == [] then DataGot(AGAIN, buf, [])
    else
      var n := if room <= |input| then room else |input|;
      DataGot(n, buf.(bytes := buf.bytes + input[..n]), input[n..])
  }

  /** ngx_nsoc_read_handshake_data: how many bytes this call added to the buffer. */
  method ReadData(inbox: Pipe, b: Option<Buffer>, cap: nat) returns (n: int, out: Buffer)
    requires BufferOk(b)
    modifies inbox`bytes
    ensures DataGot(n, out, inbox.bytes) == GetData(b, cap, old(inbox.bytes))
  {
    out := if b.Some? then b.value else Buffer(cap, []);
    var size := out.cap - |out.bytes|;
    if size == 0 {
      return ERROR, out;
    }
    var data := inbox.Recv(size);
    if data.None? {
      return AGAIN, out;
    }
    return |data.value|, out.(bytes := out.bytes + data.value);
  }

  // ----- Blocks

  datatype BlockGot = BlockGot(n: int, len: Length, buf: Option<Buffer>, rest: seq<byte>)

  /** The data behind a length that has been read. */
  function GetBody(l: Length, b: Option<Buffer>, input: seq<byte>): (g: BlockGot)
    requires LengthOk(l) && !l.reading && l.size >= 0 && BufferOk(b)
  {
    if l.size == 0 then BlockGot(0, l, b, input)
    else
      var d := GetData(b, l.size, input);
      BlockGot(if 0 <= d.n < l.size then AGAIN else d.n, l, Some(d.buf), d.rest)
  }

  /** What reading a block comes to; a length other than the one expected is an error. */
  function GetBlock(l: Length, b: Option<Buffer>, expected: Option<nat>, input: seq<byte>): (g: BlockGot)
    requires LengthOk(l) && BufferOk(b)
    ensures LengthOk(g.len) && BufferOk(g.buf) && (g.n >= 0 || g.n == AGAIN || g.n == ERROR)
    ensures g.n > 0 ==> g.buf.Some?
  {
    if l == NoLength || l.reading then
      var got := GetLength(l, input);
      if got.rc == AGAIN then BlockGot(AGAIN, got.len, b, got.rest)
      else if expected.Some? && got.len.size != expected.value then BlockGot(ERROR, got.len, b, got.rest)
      else GetBody(got.len, b, got.rest)
    else GetBody(l, b, input)
  }

  /**
   ngx_nsoc_read_negotiation and ngx_nsoc_read_noise_msg: read a length field, check it against
   `expected` if there is one, then read that much data.
   */
  method ReadBlock(inbox: Pipe, l: Length, b: Option<Buffer>, expected: Option<nat>)
    returns (n: int, out: Length, buf: Option<Buffer>)
    requires LengthOk(l) && BufferOk(b)
    modifies inbox`bytes
    ensures BlockGot(n, out, buf, inbox.bytes) == GetBlock(l, b, expected, old(inbox.bytes))
  {
    out, buf := l, b;
    if out.size == UNSET || out.reading {
      n, out := ReadLength(inbox, out);
      if n == AGAIN {
        return;
      }
      if expected.Some? && out.size != expected.value {
        n := ERROR;
        return;
      }
    }
    n := 0;
    if out.size > 0 {
      var data;
      n, data := ReadData(inbox, buf, out.size);
      buf := Some(data);
    }
    if 0 <= n < out.size {
      n := AGAIN;
    }
  }

  /** A block that is all there. */
  lemma WholeBlock(expected: Option<nat>, input: seq<byte>)
    requires Whole(input) && (expected.Some? ==> expected.value == Size(input))
    ensures var n := Size(input);
            GetBlock(NoLength, None, expected, input) ==
            BlockGot(n, Length(n, false), if n == 0 then None else Some(Buffer(n, Block(input))), After(input))
  {
    var n := Size(input);
    var rest := input[2..];
    if n > 0 {
      assert rest[..n] == Block(input) && rest[n..] == After(input);
      assert [] + rest[..n] == rest[..n];
    }
  }

  lemma NoBlock(b: Option<Buffer>, expected: Option<nat>)
    requires BufferOk(b)
    ensures GetBlock(NoLength, b, expected, []) == BlockGot(AGAIN, NoLength, b, [])
  {
  }

  // ----- Messages

  /** What an endpoint knows while it reads a message, and what has arrived. */
  datatype Reading = Reading(msgNum: nat, negLen: Length, noiseLen: Length, buf: Option<Buffer>, step: nat, input: seq<byte>)

  datatype MessageGot = MessageGot(n: int, after: Reading)

  predicate ReadingOk(r: Reading) {
    LengthOk(r.negLen) && LengthOk(r.noiseLen) && BufferOk(r.buf)
  }

  /** The negotiation data in front of a message, and the move of msg_num; what is in the buffer is dropped. */
  function GetNegotiation(r: Reading): (g: MessageGot)
    requires ReadingOk(r)
    ensures ReadingOk(g.after) && (g.n == 0 || g.n == AGAIN || g.n == ERROR) && g.after.step == r.step && g.after.buf == None
  {
    if r.msgNum == MSG1 then MessageGot(0, r.(msgNum := MSG2_OK, buf := None))
    else if r.msgNum != MSG2_OK && r.msgNum != MSG3 then MessageGot(ERROR, r.(buf := None))
    else
      var g := GetBlock(r.negLen, r.buf, Some(0), r.input);
      var after := r.(negLen := g.len, buf := None, input := g.rest);
      if g.n < 0 then MessageGot(g.n, after)
      else if r.msgNum == MSG3 then MessageGot(0, after.(msgNum := MSG1))
      else if g.len.size == 0 then MessageGot(0, after.(msgNum := MSG3))
      else MessageGot(ERROR, after)
  }

  function GetNoise(p: Noise, r: Reading): (g: MessageGot)
    requires ReadingOk(r)
    ensures ReadingOk(g.after) && (g.n == 0 || g.n == AGAIN || g.n == ERROR)
    ensures g.after.step == r.step + if g.n == 0 then 1 else 0
  {
    var g := GetBlock(r.noiseLen, r.buf, None, r.input);
    var after := r.(noiseLen := g.len, buf := g.buf, input := g.rest);
    if g.n < 0 then MessageGot(g.n, after)
    else if g.buf.None? || !p.accepts(r.step, g.buf.value.bytes) then MessageGot(ERROR, after)
    else MessageGot(0, after.(step := r.step + 1, buf := None, noiseLen := NoLength, negLen := NoLength))
  }

  function GetMessage(p: Noise, r: Reading): (g: MessageGot)
    requires ReadingOk(r)
    ensures ReadingOk(g.after) && (g.n == 0 || g.n == AGAIN || g.n == ERROR)
    ensures g.after.step == r.step + if g.n == 0 then 1 else 0
    ensures g.after.msgNum == MSG2_ERR ==> r.msgNum == MSG2_ERR
  {
    var neg := GetNegotiation(r);
    if neg.n != 0 then neg else GetNoise(p, neg.after)
  }

  datatype HeaderGot = HeaderGot(n: int, after: Reading, offered: seq<byte>)

  /** The header of the first message, which the server reads on its own. */
  function GetHeader(r: Reading): (g: HeaderGot)
    requires ReadingOk(r)
    ensures ReadingOk(g.after) && (g.n == 0 || g.n == AGAIN || g.n == ERROR)
    ensures g.after.step == r.step && g.after.msgNum == r.msgNum
  {
    var g := GetBlock(r.negLen, r.buf, Some(NEG1), r.input);
    var after := r.(negLen := g.len, buf := g.buf, input := g.rest);
    if g.n <= 0 then HeaderGot(if g.n == AGAIN then AGAIN else ERROR, after, [])
    else HeaderGot(0, after, g.buf.value.bytes)
  }

  /** Nothing of a message read yet. */
  predicate CleanReading(r: Reading) {
    r.negLen == NoLength && r.noiseLen == NoLength && r.buf == None
  }

  /** A Noise message that is all there. */
  lemma NoiseArrived(p: Noise, r: Reading)
    requires ReadingOk(r) && r.noiseLen == NoLength && r.buf == None && NoiseReady(p, r.step, r.input)
    ensures GetNoise(p, r) ==
            MessageGot(0, r.(step := r.step + 1, negLen := NoLength, input := After(r.input)))
  {
    WholeBlock(None, r.input);
  }

  /** The first message, whose header was read before. */
  lemma FirstArrived(p: Noise, r: Reading)
    requires ReadingOk(r) && r.msgNum == MSG1 && r.noiseLen == NoLength && r.buf == None && NoiseReady(p, r.step, r.input)
    ensures GetMessage(p, r) ==
            MessageGot(0, Reading(MSG2_OK, NoLength, NoLength, None, r.step + 1, After(r.input)))
  {
    NoiseArrived(p, r.(msgNum := MSG2_OK));
  }

  /** The second and the third message. */
  lemma MessageArrived(p: Noise, r: Reading)
    requires (r.msgNum == MSG2_OK || r.msgNum == MSG3) && CleanReading(r) && MessageReady(p, r.step, r.input)
    ensures GetMessage(p, r) ==
            MessageGot(0, Reading(if r.msgNum == MSG2_OK then MSG3 else MSG1, NoLength, NoLength, None, r.step + 1,
                                  After(After(r.input))))
  {
    WholeBlock(Some(0), r.input);
    NoiseArrived(p, GetNegotiation(r).after);
  }

  lemma NothingArrived(p: Noise, r: Reading)
    requires (r.msgNum == MSG2_OK || r.msgNum == MSG3) && CleanReading(r) && r.input == []
    ensures GetMessage(p, r) == MessageGot(AGAIN, r)
  {
  }

  lemma OtherArrived(p: Noise, r: Reading)
    requires (r.msgNum == MSG2_OK || r.msgNum == MSG3) && CleanReading(r) && |r.input| >= 2 && Size(r.input) != 0
    ensures GetMessage(p, r).n == ERROR
  {
  }
}
