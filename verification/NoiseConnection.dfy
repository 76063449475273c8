/**
 The transport side of a Noise connection as the source runs it: a writer that
 encrypts in place, and a reader that may be suspended anywhere in a frame.
 */
module NoiseConnection {
  import opened Bytes
  import opened Framing

  // ----- The socket

  /** What the socket does next: hand over some bytes, or report that none are there yet. */
  datatype Event = Data(bytes: seq<byte>) | NotYet

  function Pending(es: seq<Event>): seq<byte> {
    if es == [] then [] else (if es[0].Data? then es[0].bytes else []) + Pending(es[1..])
  }

  ghost predicate Proper(es: seq<Event>) {
    forall i | 0 <= i < |es| && es[i].Data? :: es[i].bytes != []
  }

  /** A bound on the number of reads left. */
  ghost function Weight(es: seq<Event>): nat {
    |es| + |Pending(es)|
  }

  /** Between the two event queues exactly the bytes `taken` were read. */
  ghost predicate Consumed(before: seq<Event>, after: seq<Event>, taken: seq<byte>) {
    && Proper(after)
    && Pending(before) == taken + Pending(after)
    && Weight(after) <= Weight(before)
    && (before == [] ==> after == [])
  }

  lemma ConsumedThen(a: seq<Event>, b: seq<Event>, c: seq<Event>, xs: seq<byte>, ys: seq<byte>)
    requires Consumed(a, b, xs) && Consumed(b, c, ys)
    ensures Consumed(a, c, xs + ys)
  {
    assert xs + (ys + Pending(c)) == xs + ys + Pending(c);
  }

  class Wire {
    var events: seq<Event>

    constructor (events: seq<Event>)
      ensures this.events == events
    {
      this.events := events;
    }

    /** ngx_recv: up to `k` bytes, or None for NGX_AGAIN. */
    method Recv(k: nat) returns (data: Option<seq<byte>>)
      requires Proper(events) && k > 0
      modifies this
      ensures Consumed(old(events), events, if data.Some? then data.value else [])
      ensures data.Some? ==> 0 < |data.value| <= k
      ensures old(events) != [] ==> Weight(events) < Weight(old(events))
      ensures old(events) == [] ==> data.None?
    {
      if events == [] {
        return None;
      }
      var e := events[0];
      if e.NotYet? {
        events := events[1..];
        return None;
      }
      if |e.bytes| <= k {
        events := events[1..];
        return Some(e.bytes);
      }
      ghost var rest := events[1..];
      events := [Data(e.bytes[k..])] + events[1..];
      assert events[1..] == rest;
      assert e.bytes == e.bytes[..k] + e.bytes[k..];
      assert e.bytes + Pending(rest) == e.bytes[..k] + (e.bytes[k..] + Pending(rest));
      return Some(e.bytes[..k]);
    }
  }

  // ----- Writing

  method Store(buf: array<byte>, at: nat, data: seq<byte>)
    requires at + |data| <= buf.Length
    modifies buf
    ensures buf[..at] == old(buf[..at])
    ensures buf[at..at + |data|] == data
    ensures buf[at + |data|..] == old(buf[at + |data|..])
  {
    ghost var head, tail := buf[..at], buf[at + |data|..];
    for k := 0 to |data|
      invariant buf[..at] == head && buf[at + |data|..] == tail
      invariant buf[at..at + k] == data[..k]
    {
      buf[at + k] := data[k];
    }
  }

  datatype Written = Sent(size: nat) | WriteError

  /**
   ngx_nsoc_write, for a send that completes: the payload lies behind room for two length
   fields and in front of room for the MAC, and is turned into its frame in place.
   */
  method Write(c: Cipher, nonce: nat, bufferSize: nat, buf: array<byte>, size: nat)
    returns (r: Written, wire: seq<byte>)
    requires Sound(c) && bufferSize <= MAX_PAYLOAD
    requires buf.Length == bufferSize + MAC + 2 * LEN_FIELD && size <= buf.Length
    modifies buf
    ensures r.Sent? <==> 2 * LEN_FIELD <= size <= bufferSize + 2 * LEN_FIELD
    ensures r.Sent? ==> r.size == size && wire == Frame(c, nonce, old(buf[4..size])) == buf[..size + MAC]
    ensures r.WriteError? ==> wire == [] && buf[..] == old(buf[..])
  {
    if size < 2 * LEN_FIELD {
      return WriteError, [];
    }
    var dataSize := size - 2 * LEN_FIELD;
    if dataSize > bufferSize {
      return WriteError, [];
    }
    ghost var chunk := buf[4..size];
    buf[2], buf[3] := dataSize / 256, dataSize % 256;
    assert buf[2..size] == Plain(chunk);
    var sealed := c.seal(nonce, buf[2..size]);
    Store(buf, 2, sealed);
    buf[0], buf[1] := |sealed| / 256, |sealed| % 256;
    assert buf[..2 + |sealed|] == Be16(|sealed|) + sealed;
    return Sent(size), buf[..2 + |sealed|];
  }

  // ----- Reading

  const UNSET: int := -1

  datatype Outcome = Chunk(size: nat) | Again | Broken

  /** `next` is what the byte-at-a-time reader makes of `xs` from `r`, with the messages `out`. */
  ghost predicate Reads(r: Reader, xs: seq<byte>, next: Reader, out: seq<seq<byte>>) {
    FeedAll(r, xs) == Fed(next, out)
  }

  lemma ReadsThen(r: Reader, xs: seq<byte>, mid: Reader, ys: seq<byte>, next: Reader, out: seq<seq<byte>>)
    requires Reads(r, xs, mid, []) && Reads(mid, ys, next, out)
    ensures Reads(r, xs + ys, next, out)
  {
    FeedConcat(r, xs, ys);
    assert [] + out == out;
  }

  /** From `start`, reading `taken` leaves `need` bytes of the length field to come. */
  ghost predicate LengthRead(start: Reader, taken: seq<byte>, need: nat, first: byte, second: byte) {
    if need == 2 then start == Idle && taken == []
    else if need == 1 then Reads(start, taken, HalfLength(first), [])
    else Reads(start, taken, Body(FromBe16(first, second), []), [])
  }

  lemma LengthReads(start: Reader, taken: seq<byte>, need: nat, first: byte, second: byte, data: seq<byte>)
    requires 0 < |data| <= need <= 2 && LengthRead(start, taken, need, first, second)
    ensures LengthRead(start, taken + data, need - |data|, if need == 2 then data[0] else first,
                       if |data| == need then data[need - 1] else second)
  {
    if need == 2 {
      assert [] + data == data;
      if |data| == 2 {
        FeedLength(data[0], data[1]);
        assert data == [data[0], data[1]];
      } else {
        assert data == [data[0]] && data[1..] == [];
        assert FeedAll(HalfLength(data[0]), []) == Fed(HalfLength(data[0]), []);
      }
    } else {
      assert data == [data[0]] && data[1..] == [];
      var body := Body(FromBe16(first, data[0]), []);
      assert FeedAll(body, []) == Fed(body, []);
      assert Reads(HalfLength(first), data, body, []);
      ReadsThen(start, taken, HalfLength(first), data, body, []);
    }
  }

  // ----- What is taken for the payload

  /** The buffer from the body on, once the plaintext has been put over the ciphertext. */
  function Overlaid(plain: seq<byte>, held: seq<byte>): (w: seq<byte>)
    requires |plain| <= |held|
    ensures |w| == |held|
  {
    plain + held[|plain|..]
  }

  /** The inner length is compared with the room, not with the plaintext. */
  function TakenFrom(plain: seq<byte>, held: seq<byte>, size: nat): (chunk: Option<seq<byte>>)
    requires |plain| <= |held| && size + 2 <= |held|
  {
    var w := Overlaid(plain, held);
    var n := FromBe16(w[0], w[1]);
    if n <= size then Some(w[2..2 + n]) else None
  }

  lemma OverlaidIs(buf: seq<byte>, plain: seq<byte>, held: seq<byte>)
    requires |buf| >= 4 && |plain| <= |held| == |buf| - 2
    requires buf[2..2 + |plain|] == plain && buf[2 + |plain|..] == held[|plain|..]
    ensures buf[2..] == Overlaid(plain, held)
    ensures buf[2] == Overlaid(plain, held)[0] && buf[3] == Overlaid(plain, held)[1]
  {
    assert buf[2..] == buf[2..2 + |plain|] + buf[2 + |plain|..];
    assert buf[2] == buf[2..][0] && buf[3] == buf[2..][1];
  }

  /** A plaintext that says its own length is taken for what it says. */
  lemma TakenIsPayload(plain: seq<byte>, held: seq<byte>, size: nat)
    requires |plain| <= |held| && size + 2 <= |held| && Payload(plain).Some?
    ensures TakenFrom(plain, held, size) == if |Payload(plain).value| <= size then Payload(plain) else None
  {
    var w := Overlaid(plain, held);
    assert w[0] == plain[0] && w[1] == plain[1];
    var n := FromBe16(plain[0], plain[1]);
    if n <= size {
      assert w[2..2 + n] == plain[2..2 + n];
    }
  }

  /** What is delivered does not depend on what the buffer holds behind the plaintext: the MAC, older data. */
  ghost predicate PlainDecides(plain: seq<byte>, size: nat, room: nat)
    requires |plain| <= room && size + 2 <= room
  {
    forall held, held' | |held| == room && |held'| == room :: TakenFrom(plain, held, size) == TakenFrom(plain, held', size)
  }

  /**
   This holds for a plaintext with a prefix exactly when the prefix is refused or fits the plaintext; for a
   single byte exactly when that byte alone is enough to refuse; and never for the empty plaintext.
   */
  lemma PrefixDecides(plain: seq<byte>, size: nat, room: nat)
    requires |plain| <= room && size + 2 <= room
    ensures PlainDecides(plain, size, room) <==>
            if |plain| == 0 then false
            else if |plain| == 1 then FromBe16(plain[0], 0) > size
            else FromBe16(plain[0], plain[1]) > size || FromBe16(plain[0], plain[1]) <= |plain| - 2
  {
    if |plain| == 0 {
      EmptyPlain(plain, size, room);
    } else if |plain| == 1 {
      OneBytePlain(plain, size, room);
    } else {
      var n := FromBe16(plain[0], plain[1]);
      if n > size {
        forall held: seq<byte> | |held| == room ensures TakenFrom(plain, held, size) == None {
          PrefixKept(plain, held);
        }
      } else if n <= |plain| - 2 {
        forall held: seq<byte> | |held| == room ensures TakenFrom(plain, held, size) == Payload(plain) {
          TakenIsPayload(plain, held, size);
        }
      } else {
        var held: seq<byte>, held': seq<byte> := seq(room, _ => 0), seq(room, _ => 1);
        TakenAt(plain, held, size, |plain| - 2);
        TakenAt(plain, held', size, |plain| - 2);
      }
    }
  }

  lemma PrefixKept(plain: seq<byte>, held: seq<byte>)
    requires 2 <= |plain| <= |held|
    ensures Overlaid(plain, held)[0] == plain[0] && Overlaid(plain, held)[1] == plain[1]
  {
  }

  lemma TakenLength(plain: seq<byte>, held: seq<byte>, size: nat)
    requires |plain| <= |held| && size + 2 <= |held|
    ensures var w, chunk := Overlaid(plain, held), TakenFrom(plain, held, size);
            chunk.Some? ==> |chunk.value| == FromBe16(w[0], w[1])
  {
  }

  /** With no plaintext the inner length is what the buffer held: an empty chunk, or one of another length or none. */
  lemma EmptyPlain(plain: seq<byte>, size: nat, room: nat)
    requires plain == [] && size + 2 <= room
    ensures !PlainDecides(plain, size, room)
  {
    var held: seq<byte>, held' := seq(room, _ => 0), seq(room, i => if i == 1 then 1 else 0);
    assert Overlaid(plain, held) == held && Overlaid(plain, held') == held';
    assert held'[0] == 0 && held'[1] == 1;
    assert TakenFrom(plain, held, size) == Some(held[2..2]);
    TakenLength(plain, held', size);
  }

  lemma OneBytePlain(plain: seq<byte>, size: nat, room: nat)
    requires |plain| == 1 && size + 2 <= room
    ensures PlainDecides(plain, size, room) <==> FromBe16(plain[0], 0) > size
  {
    if FromBe16(plain[0], 0) > size {
      forall held: seq<byte> | |held| == room ensures TakenFrom(plain, held, size) == None {
        assert Overlaid(plain, held)[0] == plain[0];
      }
    } else {
      var held: seq<byte>, held': seq<byte> := seq(room, _ => 0), seq(room, _ => 1);
      var w, w' := Overlaid(plain, held), Overlaid(plain, held');
      assert w[0] == plain[0] == w'[0] && w[1] == 0 && w'[1] == 1;
      var n := FromBe16(plain[0], 0);
      assert TakenFrom(plain, held, size) == Some(w[2..2 + n]);
      TakenLength(plain, held', size);
    }
  }

  /** Behind the plaintext the delivered bytes are those the buffer held. */
  lemma TakenAt(plain: seq<byte>, held: seq<byte>, size: nat, i: nat)
    requires 2 <= |plain| <= |held| && size + 2 <= |held| && FromBe16(plain[0], plain[1]) <= size
    requires |plain| - 2 <= i < FromBe16(plain[0], plain[1])
    ensures var chunk := TakenFrom(plain, held, size);
            chunk.Some? && |chunk.value| == FromBe16(plain[0], plain[1]) && chunk.value[i] == held[2 + i]
  {
    var w := Overlaid(plain, held);
    assert w[0] == plain[0] && w[1] == plain[1];
    assert w[2 + i] == held[2 + i];
  }

  /** Two authentic bytes that announce a hundred are delivered as a hundred bytes nobody sent. */
  lemma TwoBytesForAHundred(held: seq<byte>, size: nat)
    requires size >= 100 && size + 2 <= |held|
    ensures TakenFrom([0, 100], held, size) == Some(held[2..102])
  {
    var w := Overlaid([0, 100], held);
    assert w[0] == 0 && w[1] == 100;
    assert w[2..102] == held[2..102];
  }

  // ----- What fits the buffer

  /** A length field that announces more than the buffer holds, and one that announces nothing. */
  lemma TooLargeAndEmpty(limit: nat)
    requires limit < 0xFFFF
    ensures SizesOk(Idle, [255, 255], 0xFFFF) && !SizesOk(Idle, [255, 255], limit)
    ensures !SizesOk(Idle, [0, 0], 0xFFFF)
  {
    LengthAlone(255, 255, 0xFFFF);
    LengthAlone(255, 255, limit);
    LengthAlone(0, 0, 0xFFFF);
  }

  lemma LengthAlone(a: byte, b: byte, limit: nat)
    ensures SizesOk(Idle, [a, b], limit) <==> 0 < FromBe16(a, b) <= limit
  {
    var n := FromBe16(a, b);
    assert [a, b][1..] == [b] && [b][1..] == [];
    assert SizesOk(Body(n, []), [], limit) <==> 0 < n <= limit;
    assert SizesOk(HalfLength(a), [b], limit) <==> 0 < n <= limit;
  }

  /** Whatever arrives, as long as no body is empty, every body has at most `limit` bytes. */
  ghost predicate NeverOverrun(limit: nat) {
    forall xs :: SizesOk(Idle, xs, 0xFFFF) ==> SizesOk(Idle, xs, limit)
  }

  /**
   The reader does not compare the length of a body with its buffer, which holds `bufferSize` bytes and room
   for the length fields and the MAC. No peer that announces bodies can overrun it exactly when the size is
   the largest there is.
   */
  lemma OnlyTheLargestBuffer(bufferSize: nat)
    ensures NeverOverrun(bufferSize + MAC + LEN_FIELD) <==> bufferSize >= MAX_PAYLOAD
  {
    var limit := bufferSize + MAC + LEN_FIELD;
    if bufferSize >= MAX_PAYLOAD {
      forall xs: seq<byte> | SizesOk(Idle, xs, 0xFFFF) ensures SizesOk(Idle, xs, limit) {
        SizesMonotone(Idle, xs, 0xFFFF, limit);
      }
    } else {
      var xs: seq<byte> := [255, 255];
      TooLargeAndEmpty(limit);
      assert SizesOk(Idle, xs, 0xFFFF) && !SizesOk(Idle, xs, limit);
    }
  }

  lemma TailSlice(buf: seq<byte>, n: nat)
    requires 4 + n <= |buf|
    ensures buf[4..4 + n] == buf[2..][2..2 + n]
  {
    var tail := buf[2..];
    var u, v := tail[2..2 + n], buf[4..4 + n];
    forall k | 0 <= k < n ensures u[k] == v[k] {
      assert tail[2 + k] == buf[4 + k];
    }
  }

  /** Storing `data` at `at` puts it behind what was there from the third byte on. */
  lemma Behind(before: seq<byte>, after: seq<byte>, at: nat, data: seq<byte>)
    requires 2 <= at && at + |data| <= |after| == |before|
    requires after[..at] == before[..at] && after[at..at + |data|] == data
    ensures after[2..at + |data|] == before[2..at] + data
  {
    assert after[2..at] == after[..at][2..] == before[2..at];
    assert after[2..at + |data|] == after[2..at] + after[at..at + |data|];
  }

  class NoiseReader {
    const wire: Wire
    const cipher: Cipher
    /** The buffer of the proxy; a body is collected and unsealed two bytes into it. */
    const buf: array<byte>
    var nonce: nat
    var recvSize: int
    var sizeReading: bool
    /** How much of the body `recv_buf` holds; it exists while a body is being read. */
    var pos: nat

    constructor (wire: Wire, cipher: Cipher, buf: array<byte>, nonce: nat)
      ensures this.wire == wire && this.cipher == cipher && this.buf == buf && this.nonce == nonce
      ensures recvSize == UNSET && !sizeReading
    {
      this.wire, this.cipher, this.buf, this.nonce := wire, cipher, buf, nonce;
      recvSize, sizeReading, pos := UNSET, false, 0;
    }

    ghost predicate Valid()
      reads this
    {
      && buf.Length >= 4
      && (sizeReading ==> 0 <= recvSize < 256)
      && (!sizeReading && recvSize != UNSET ==> 0 <= pos < recvSize <= buf.Length - 2)
    }

    ghost function State(): Reader
      requires Valid()
      reads this, buf
    {
      if sizeReading then HalfLength(recvSize)
      else if recvSize == UNSET then Idle
      else Body(recvSize, buf[2..2 + pos])
    }

    /** What is still to come from the socket only holds bodies that fit the buffer. */
    ghost predicate Ready()
      reads this, wire, buf
    {
      && Valid()
      && Proper(wire.events)
      && SizesOk(State(), Pending(wire.events), buf.Length - 2)
    }

    /** The length field has been read but for `need` bytes. */
    ghost predicate Partway(origin: seq<Event>, start: Reader, taken: seq<byte>, need: nat, first: byte, second: byte)
      reads wire
    {
      && need <= 2 && Consumed(origin, wire.events, taken) && LengthRead(start, taken, need, first, second)
      && (wire.events == [] && origin != [] ==> Weight(wire.events) < Weight(origin))
    }

    /** One ngx_recv of the length field. */
    method LengthTurn(need: nat, first: byte, second: byte, ghost origin: seq<Event>, ghost start: Reader, ghost taken: seq<byte>)
      returns (got: nat, first': byte, second': byte, ghost taken': seq<byte>)
      requires need > 0 && Partway(origin, start, taken, need, first, second)
      modifies wire
      ensures got <= need
      ensures got == 0 ==> first' == first && taken' == taken && Consumed(origin, wire.events, taken)
      ensures got == 0 && origin != [] ==> Weight(wire.events) < Weight(origin)
      ensures got > 0 ==> Partway(origin, start, taken', need - got, first', second')
    {
      ghost var events := wire.events;
      var data := wire.Recv(need);
      if data.None? {
        assert taken + [] == taken;
        ConsumedThen(origin, events, wire.events, taken, []);
        return 0, first, second, taken;
      }
      ConsumedThen(origin, events, wire.events, taken, data.value);
      LengthReads(start, taken, need, first, second, data.value);
      taken' := taken + data.value;
      got := |data.value|;
      first' := if need == 2 then data.value[0] else first;
      second' := if got == need then data.value[need - 1] else second;
    }

    /** ngx_nsoc_read_noise_msg_len: true once both bytes of the length are there. */
    method ReadLength() returns (ok: bool, ghost taken: seq<byte>)
      requires Valid() && Proper(wire.events) && (sizeReading || recvSize == UNSET)
      modifies this`recvSize, this`sizeReading, wire
      ensures buf.Length >= 4 && Consumed(old(wire.events), wire.events, taken)
      ensures !ok && old(wire.events) != [] ==> Weight(wire.events) < Weight(old(wire.events))
      ensures ok ==> !sizeReading && 0 <= recvSize && Reads(old(State()), taken, Body(recvSize, []), [])
      ensures !ok ==> Valid() && Reads(old(State()), taken, State(), [])
    {
      ghost var start, origin := State(), wire.events;
      taken := [];
      var first: byte, second: byte := 0, 0;
      var need: nat := 2;
      if sizeReading {
        first, need := recvSize, 1;
      }
      while need > 0
        invariant Partway(origin, start, taken, need, first, second)
      {
        var got;
        got, first, second, taken := LengthTurn(need, first, second, origin, start, taken);
        if got == 0 {
          sizeReading := need == 1;
          recvSize := if sizeReading then first else UNSET;
          return false, taken;
        }
        need := need - got;
      }
      sizeReading := false;
      recvSize := FromBe16(first, second);
      return true, taken;
    }

    /** Put what was received behind what is there. */
    method Append(data: seq<byte>)
      requires buf.Length >= 4 && 2 + pos + |data| <= buf.Length
      modifies this`pos, buf
      ensures pos == old(pos) + |data|
      ensures buf[2..2 + pos] == old(buf[2..2 + pos]) + data
    {
      ghost var before := buf[..];
      Store(buf, 2 + pos, data);
      Behind(before, buf[..], 2 + pos, data);
      pos := pos + |data|;
    }

    /** One ngx_recv into the body; `full` when that completes it. */
    method Collect() returns (data: Option<seq<byte>>, full: bool)
      requires Valid() && Proper(wire.events) && !sizeReading && recvSize != UNSET
      modifies this`pos, buf, wire
      ensures Consumed(old(wire.events), wire.events, if data.Some? then data.value else [])
      ensures old(wire.events) != [] ==> Weight(wire.events) < Weight(old(wire.events))
      ensures data.Some? ==> pos > old(pos)
      ensures !full ==> Valid() && Reads(old(State()), if data.Some? then data.value else [], State(), [])
      ensures full ==> && data.Some? && 0 < recvSize <= buf.Length - 2
                       && Reads(old(State()), data.value, Idle, [buf[2..2 + recvSize]])
    {
      data := wire.Recv(recvSize - pos);
      if data.None? {
        assert FeedAll(State(), []) == Fed(State(), []);
        return data, false;
      }
      FeedBody(recvSize, buf[2..2 + pos], data.value);
      Append(data.value);
      full := pos == recvSize;
    }

    /** The body is complete: unseal it in place and read the length of the payload. */
    method Finish(size: nat, ghost message: seq<byte>, ghost held: seq<byte>) returns (r: Outcome)
      requires Sound(cipher) && size <= buf.Length - 4
      requires buf.Length >= 4 && 0 < recvSize <= buf.Length - 2 && message == buf[2..2 + recvSize] && held == buf[2..]
      modifies this`recvSize, this`sizeReading, this`nonce, buf
      ensures !r.Again?
      ensures r.Chunk? ==> Valid() && State() == Idle && nonce == old(nonce) + 1 && r.size <= size
      ensures Delivered(r, old(nonce), message, held, size)
    {
      var plain := cipher.unseal(nonce, buf[2..2 + recvSize]);
      if plain.None? {
        recvSize := UNSET;
        return Broken;
      }
      Store(buf, 2, plain.value);
      OverlaidIs(buf[..], plain.value, held);
      nonce := nonce + 1;
      var n := FromBe16(buf[2], buf[3]);
      if n > size {
        return Broken;
      }
      TailSlice(buf[..], n);
      recvSize, sizeReading := UNSET, false;
      return Chunk(n);
    }

    /** What comes of a complete message: what the code takes for the payload, or an error. */
    ghost predicate Delivered(r: Outcome, nonce: nat, message: seq<byte>, held: seq<byte>, size: nat)
      reads this, buf
    {
      && |message| <= |held| && message == held[..|message|] && size + 2 <= |held|
      && match cipher.unseal(nonce, message)
         case None => r.Broken?
         case Some(plain) =>
           && |plain| <= |held|
           && match TakenFrom(plain, held, size)
              case None => r.Broken?
              case Some(chunk) => r == Chunk(|chunk|) && 4 + |chunk| <= buf.Length && buf[4..4 + |chunk|] == chunk
    }

    /** One turn of the body loop, with what was read before it. */
    method BodyTurn(ghost origin: seq<Event>, ghost start: Reader, ghost taken: seq<byte>)
      returns (some: bool, full: bool, ghost taken': seq<byte>)
      requires Valid() && !sizeReading && recvSize != UNSET
      requires Consumed(origin, wire.events, taken) && Reads(start, taken, State(), [])
      modifies this`pos, buf, wire
      ensures Consumed(origin, wire.events, taken')
      ensures origin != [] && (old(wire.events) != [] || Weight(old(wire.events)) < Weight(origin)) ==>
                Weight(wire.events) < Weight(origin)
      ensures some ==> pos > old(pos)
      ensures !full ==> Valid() && Reads(start, taken', State(), [])
      ensures full ==> some && 0 < recvSize <= buf.Length - 2 && Reads(start, taken', Idle, [buf[2..2 + recvSize]])
    {
      ghost var mid, events := State(), wire.events;
      var data;
      data, full := Collect();
      some := data.Some?;
      ghost var more := if some then data.value else [];
      ConsumedThen(origin, events, wire.events, taken, more);
      ReadsThen(start, taken, mid, more, if full then Idle else State(), if full then [buf[2..2 + recvSize]] else []);
      taken' := taken + more;
    }

    /** The body loop: collect until the socket has no more or the body is complete. */
    method ReadBody() returns (full: bool, ghost taken: seq<byte>)
      requires Valid() && Proper(wire.events) && !sizeReading && recvSize != UNSET
      modifies this`pos, buf, wire
      ensures Consumed(old(wire.events), wire.events, taken)
      ensures old(wire.events) != [] ==> Weight(wire.events) < Weight(old(wire.events))
      ensures !full ==> Valid() && Reads(old(State()), taken, State(), [])
      ensures full ==> && 0 < recvSize <= buf.Length - 2
                       && Reads(old(State()), taken, Idle, [buf[2..2 + recvSize]])
    {
      ghost var start, origin := State(), wire.events;
      taken := [];
      assert FeedAll(start, []) == Fed(start, []);
      assert [] + Pending(origin) == Pending(origin);
      while true
        invariant Valid() && !sizeReading && recvSize != UNSET
        invariant Consumed(origin, wire.events, taken) && Reads(start, taken, State(), [])
        invariant wire.events == [] && origin != [] ==> Weight(wire.events) < Weight(origin)
        decreases recvSize - pos
      {
        var some;
        some, full, taken := BodyTurn(origin, start, taken);
        if !some || full {
          return;
        }
      }
    }

    /** The first half of ngx_nsoc_recv: get to where a body is being read. */
    method Prepare() returns (ok: bool, ghost taken: seq<byte>)
      requires Ready()
      modifies this`recvSize, this`sizeReading, this`pos, wire
      ensures Ready() && Consumed(old(wire.events), wire.events, taken)
      ensures !ok && old(wire.events) != [] ==> Weight(wire.events) < Weight(old(wire.events))
      ensures Reads(old(State()), taken, State(), [])
      ensures ok ==> !sizeReading && recvSize != UNSET
    {
      ghost var start := State();
      if recvSize == UNSET || sizeReading {
        ok, taken := ReadLength();
        SizesConcat(start, taken, Pending(wire.events), buf.Length - 2);
        if ok {
          pos := 0;
          assert buf[2..2] == [];
        }
        return;
      }
      assert FeedAll(start, []) == Fed(start, []);
      assert [] + Pending(wire.events) == Pending(wire.events);
      return true, [];
    }

    /** Both halves of the reading in ngx_nsoc_recv, up to a complete body. */
    method ReadMessage() returns (full: bool, ghost taken: seq<byte>)
      requires Ready()
      modifies this`recvSize, this`sizeReading, this`pos, buf, wire
      ensures Consumed(old(wire.events), wire.events, taken)
      ensures old(wire.events) != [] ==> Weight(wire.events) < Weight(old(wire.events))
      ensures !full ==> Valid() && Reads(old(State()), taken, State(), [])
      ensures full ==> 0 < recvSize <= buf.Length - 2 && Reads(old(State()), taken, Idle, [buf[2..2 + recvSize]])
    {
      ghost var start, events := State(), wire.events;
      full, taken := Prepare();
      if !full {
        return;
      }
      ghost var mid, between, first := State(), wire.events, taken;
      full, taken := ReadBody();
      ConsumedThen(events, between, wire.events, first, taken);
      ReadsThen(start, first, mid, taken, if full then Idle else State(), if full then [buf[2..2 + recvSize]] else []);
      taken := first + taken;
    }

    /** ngx_nsoc_recv */
    method Recv(size: nat)
      returns (r: Outcome, ghost taken: seq<byte>, ghost message: seq<byte>, ghost held: seq<byte>)
      requires Ready() && Sound(cipher) && size <= buf.Length - 4
      modifies this`recvSize, this`sizeReading, this`pos, this`nonce, buf, wire
      ensures Consumed(old(wire.events), wire.events, taken)
      ensures old(wire.events) != [] ==> Weight(wire.events) < Weight(old(wire.events))
      ensures r.Again? ==> Ready() && nonce == old(nonce) && Reads(old(State()), taken, State(), [])
      ensures r.Chunk? ==> Ready() && State() == Idle && nonce == old(nonce) + 1
      ensures !r.Again? ==> Reads(old(State()), taken, Idle, [message]) && Delivered(r, old(nonce), message, held, size)
    {
      ghost var start := State();
      var full;
      full, taken := ReadMessage();
      SizesConcat(start, taken, Pending(wire.events), buf.Length - 2);
      message, held := [], [];
      if !full {
        return Again, taken, message, held;
      }
      message, held := buf[2..2 + recvSize], buf[2..];
      r := Finish(size, message, held);
    }
  }
}
