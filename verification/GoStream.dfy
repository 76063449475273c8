/**
 The Go client's connection: a byte stream over the same frames. Writes are cut into chunks, reads
 take what is left of a chunk, and the module's reader understands the frames too.
 */
module GoStream {
  import opened Bytes
  import opened Framing
  import NoiseConnection
  import NoiseTransfer

  function Joined(chunks: seq<seq<byte>>): (p: seq<byte>) {
    if chunks == [] then [] else chunks[0] + Joined(chunks[1..])
  }

  lemma JoinedOne(p: seq<byte>)
    ensures Joined([p]) == p
  {
    var rest := [p][1..];
    assert rest == [];
    assert Joined([p]) == p + Joined(rest);
  }

  /** How a write is cut up: full chunks, then what remains. */
  function Chunked(p: seq<byte>): (chunks: seq<seq<byte>>)
    decreases |p|
  {
    if p == [] then []
    else if |p| <= MAX_PAYLOAD then [p]
    else [p[..MAX_PAYLOAD]] + Chunked(p[MAX_PAYLOAD..])
  }

  function Least(a: nat, b: nat): nat {
    if a <= b then a else b
  }

  /** All chunks but the last are full: no write takes more frames than it needs. */
  lemma {:induction false} ChunksAreFull(p: seq<byte>, i: nat)
    requires i + 1 < |Chunked(p)|
    ensures |Chunked(p)[i]| == 65517
    decreases |p|
  {
    if i > 0 {
      assert |p| > MAX_PAYLOAD;
      ChunksAreFull(p[MAX_PAYLOAD..], i - 1);
    }
  }

  /** Cutting up loses nothing, and every chunk fits a frame. */
  lemma {:induction false} ChunkedJoins(p: seq<byte>)
    ensures Joined(Chunked(p)) == p
    ensures AllFit(Chunked(p), MAX_PAYLOAD)
    decreases |p|
  {
    if |p| > MAX_PAYLOAD {
      ChunkedJoins(p[MAX_PAYLOAD..]);
      assert p == p[..MAX_PAYLOAD] + p[MAX_PAYLOAD..];
      assert Chunked(p)[1..] == Chunked(p[MAX_PAYLOAD..]);
    } else if p != [] {
      JoinedOne(p);
    }
  }

  lemma {:induction false} JoinedConcat(a: seq<seq<byte>>, b: seq<seq<byte>>)
    ensures Joined(a + b) == Joined(a) + Joined(b)
  {
    if a == [] {
      assert a + b == b;
    } else {
      assert (a + b)[1..] == a[1..] + b;
      JoinedConcat(a[1..], b);
    }
  }

  /** The sending half of a noiseConn, and the bytes it has put on the connection. */
  class Sender {
    const cipher: Cipher
    var nonce: nat
    var wire: seq<byte>
    ghost var chunks: seq<seq<byte>>

    ghost predicate Valid()
      reads this
    {
      && Sound(cipher) && AllFit(chunks, MAX_PAYLOAD)
      && nonce == |chunks| && wire == Frames(cipher, 0, chunks)
    }

    constructor (cipher: Cipher)
      requires Sound(cipher)
      ensures Valid() && chunks == [] && this.cipher == cipher
    {
      this.cipher := cipher;
      nonce, wire, chunks := 0, [], [];
    }

    /** One chunk; the length of the ciphertext always fits its two bytes. */
    method WriteChunk(chunk: seq<byte>) returns (ok: bool)
      requires Valid() && 0 < |chunk| <= MAX_PAYLOAD
      modifies this
      ensures Valid() && ok && chunks == old(chunks) + [chunk]
    {
      var plaintext := Be16(|chunk|) + chunk;
      var ciphertext := cipher.seal(nonce, plaintext);
      assert ciphertext == Sealed(cipher, nonce, chunk);
      if |ciphertext| > 0xFFFF {
        return false;
      }
      NoiseTransfer.FramesPush(cipher, 0, chunks, chunk);
      nonce := nonce + 1;
      wire := wire + (Be16(|ciphertext|) + ciphertext);
      chunks := chunks + [chunk];
      return true;
    }

    /** Write: all of it, in chunks, with no error. */
    method Write(p: seq<byte>) returns (total: nat, ok: bool)
      requires Valid()
      modifies this
      ensures Valid() && ok && total == |p|
      ensures chunks == old(chunks) + Chunked(p)
    {
      total := 0;
      while total < |p|
        invariant 0 <= total <= |p| && Valid()
        invariant chunks + Chunked(p[total..]) == old(chunks) + Chunked(p)
      {
        var rest := p[total..];
        var size := if |rest| > MAX_PAYLOAD then MAX_PAYLOAD else |rest|;
        Cut(chunks, rest, size);
        ok := WriteChunk(rest[..size]);
        if !ok {
          return;
        }
        assert rest[size..] == p[total + size..];
        total := total + size;
      }
      ok := true;
    }
  }

  lemma Reassociate<T>(a: seq<T>, x: T, b: seq<T>)
    ensures a + ([x] + b) == (a + [x]) + b
  {
  }

  lemma ChunkedFirst(p: seq<byte>, size: nat)
    requires p != [] && size == (if |p| > MAX_PAYLOAD then MAX_PAYLOAD else |p|)
    ensures Chunked(p) == [p[..size]] + Chunked(p[size..])
  {
    if |p| <= MAX_PAYLOAD {
      assert p[..size] == p;
      assert p[size..] == [];
    }
  }

  lemma Cut(before: seq<seq<byte>>, p: seq<byte>, size: nat)
    requires p != [] && size == (if |p| > MAX_PAYLOAD then MAX_PAYLOAD else |p|)
    ensures before + Chunked(p) == (before + [p[..size]]) + Chunked(p[size..])
  {
    ChunkedFirst(p, size);
    Reassociate(before, p[..size], Chunked(p[size..]));
  }

  lemma NothingInFront(p: seq<byte>)
    ensures [] + p == p
  {
  }

  /** The payload of any authentic plaintext: the bytes its length announces, if it has one and they are all there. */
  method PayloadOf(plain: seq<byte>) returns (r: Option<seq<byte>>)
    ensures r.Some? <==> |plain| >= 2 && plain[0] * 256 + plain[1] <= |plain| - 2
    ensures r.Some? ==> r.value == plain[2..2 + FromBe16(plain[0], plain[1])] && Payload(plain) == r
  {
    if |plain| < 2 {
      return None;
    }
    var n := FromBe16(plain[0], plain[1]);
    if n > |plain| - 2 {
      return None;
    }
    return Some(plain[2..2 + n]);
  }

  /** The receiving half: what is still to arrive, and what is left of the last frame. */
  class Receiver {
    const cipher: Cipher
    var input: seq<byte>
    var nonce: nat
    var readBuf: seq<byte>
    ghost var rest: seq<seq<byte>>

    ghost predicate Valid()
      reads this
    {
      Sound(cipher) && AllFit(rest, MAX_PAYLOAD) && input == Frames(cipher, nonce, rest)
    }

    /** The stream the reader has yet to see. */
    ghost function Stream(): seq<byte>
      reads this
    {
      readBuf + Joined(rest)
    }

    constructor (cipher: Cipher, input: seq<byte>, ghost chunks: seq<seq<byte>>)
      requires Sound(cipher) && AllFit(chunks, MAX_PAYLOAD) && input == Frames(cipher, 0, chunks)
      ensures Valid() && Stream() == Joined(chunks)
    {
      this.cipher, this.input, nonce, readBuf, rest := cipher, input, 0, [], chunks;
      NothingInFront(Joined(chunks));
    }

    /** readUint16 and io.ReadFull: the ciphertext of the next frame. */
    method ReadFrame() returns (r: Option<seq<byte>>)
      requires Valid()
      modifies this`input
      ensures rest == [] ==> r == None
      ensures rest != [] ==>
                && r == Some(Sealed(cipher, nonce, rest[0]))
                && input == Frames(cipher, nonce + 1, rest[1..])
    {
      if |input| < 2 {
        return None;
      }
      var size := FromBe16(input[0], input[1]);
      ghost var m := if rest != [] then Sealed(cipher, nonce, rest[0]) else [];
      if rest != [] {
        FrameParts(m, Frames(cipher, nonce + 1, rest[1..]), input);
      }
      if size == 0 || |input| < 2 + size {
        return None;
      }
      r := Some(input[2..2 + size]);
      input := input[2 + size..];
    }

    /** readPayloadFrame: the next chunk. */
    method ReadPayloadFrame() returns (r: Option<seq<byte>>)
      requires Valid()
      modifies this`input, this`nonce, this`rest
      ensures old(rest) == [] ==> r == None && rest == []
      ensures old(rest) != [] ==> Valid() && r == Some(old(rest)[0]) && rest == old(rest)[1..]
    {
      var ct := ReadFrame();
      if ct.None? {
        return None;
      }
      if rest != [] {
        PayloadOfPlain(rest[0]);
      }
      var plain := cipher.unseal(nonce, ct.value);
      if plain.None? {
        return None;
      }
      var payload := PayloadOf(plain.value);
      if payload.None? {
        return None;
      }
      r := payload;
      nonce := nonce + 1;
      rest := rest[1..];
    }

    /** Read: at least one byte of the stream while there is any, and never out of order. */
    method Read(k: nat) returns (r: Option<seq<byte>>)
      requires Valid()
      modifies this
      ensures k == 0 ==> r == Some([]) && Valid() && Stream() == old(Stream())
      ensures k > 0 && old(Stream()) == [] ==> r == None
      ensures k > 0 && old(Stream()) != [] ==>
                && Valid() && r.Some? && 0 < |r.value| <= k
                && old(Stream()) == r.value + Stream()
      ensures k > 0 && old(Stream()) != [] ==>
                && (old(readBuf) == [] ==> old(rest) != [])
                && |r.value| == Least(k, |if old(readBuf) != [] then old(readBuf) else old(rest)[0]|)
    {
      if k == 0 {
        return Some([]);
      }
      while readBuf == []
        invariant Valid() && Stream() == old(Stream())
        invariant if readBuf == [] then old(readBuf) == [] && rest == old(rest)
                  else readBuf == if old(readBuf) != [] || old(rest) == [] then old(readBuf) else old(rest)[0]
        decreases |rest|, readBuf == []
      {
        ghost var before := rest;
        var payload := ReadPayloadFrame();
        if payload.None? {
          return None;
        }
        readBuf := payload.value;
        assert before[0] + Joined(before[1..]) == Joined(before);
      }
      var n := if k < |readBuf| then k else |readBuf|;
      r := Some(readBuf[..n]);
      assert readBuf + Joined(rest) == readBuf[..n] + (readBuf[n..] + Joined(rest));
      readBuf := readBuf[n..];
    }
  }

  lemma FrameParts(m: seq<byte>, tail: seq<byte>, input: seq<byte>)
    requires 0 < |m| < 0x1_0000 && input == (Be16(|m|) + m) + tail
    ensures |input| >= 2 + |m| && FromBe16(input[0], input[1]) == |m|
    ensures input[2..2 + |m|] == m && input[2 + |m|..] == tail
  {
    assert input[0] == Be16(|m|)[0] && input[1] == Be16(|m|)[1];
  }

  // Whole streams.

  /** Any sequence of writes is one stream of bytes. */
  method WriteAll(s: Sender, writes: seq<seq<byte>>)
    requires s.Valid() && s.chunks == []
    modifies s
    ensures s.Valid() && Joined(s.chunks) == Joined(writes)
  {
    var i := 0;
    while i < |writes|
      invariant 0 <= i <= |writes| && s.Valid()
      invariant Joined(s.chunks) == Joined(writes[..i])
    {
      ghost var before := s.chunks;
      var _, _ := s.Write(writes[i]);
      JoinedConcat(before, Chunked(writes[i]));
      ChunkedJoins(writes[i]);
      assert writes[..i + 1] == writes[..i] + [writes[i]];
      JoinedConcat(writes[..i], [writes[i]]);
      JoinedOne(writes[i]);
      i := i + 1;
    }
    assert writes[..i] == writes;
  }

  /** Reads of any sizes return the stream in order, at least a byte each while it lasts. */
  method ReadAll(r: Receiver, sizes: seq<nat>) returns (out: seq<byte>)
    requires r.Valid() && forall i :: 0 <= i < |sizes| ==> sizes[i] > 0
    modifies r
    ensures out <= old(r.Stream())
    ensures |sizes| >= |old(r.Stream())| ==> out == old(r.Stream())
  {
    out := [];
    var i := 0;
    while i < |sizes|
      invariant 0 <= i <= |sizes| && r.Valid()
      invariant out + r.Stream() == old(r.Stream()) && |out| >= i
    {
      var data := r.Read(sizes[i]);
      if data.None? {
        return;
      }
      assert out + (data.value + r.Stream()) == (out + data.value) + r.Stream();
      out := out + data.value;
      i := i + 1;
    }
  }

  /** Go to Go: what is written is what is read. */
  method Converse(c: Cipher, writes: seq<seq<byte>>, sizes: seq<nat>) returns (out: seq<byte>)
    requires Sound(c) && forall i :: 0 <= i < |sizes| ==> sizes[i] > 0
    ensures out <= Joined(writes)
    ensures |sizes| >= |Joined(writes)| ==> out == Joined(writes)
  {
    var s := new Sender(c);
    WriteAll(s, writes);
    var r := new Receiver(c, s.wire, s.chunks);
    out := ReadAll(r, sizes);
  }

  /** Go to the module: a reader with buffers of the default size gets the same stream. */
  method ToModule(s: Sender, r: NoiseConnection.NoiseReader) returns (out: seq<seq<byte>>)
    requires s.Valid() && r.Valid() && r.State() == Idle && r.nonce == 0 && r.cipher == s.cipher
    requires r.buf.Length == MAX_PAYLOAD + MAC + 2 * LEN_FIELD
    requires NoiseConnection.Proper(r.wire.events) && NoiseConnection.Pending(r.wire.events) == s.wire
    modifies r, r.buf, r.wire
    ensures Joined(out) == old(Joined(s.chunks))
    ensures r.nonce == old(s.nonce)
  {
    out := NoiseTransfer.ReceiveAll(r, MAX_PAYLOAD, s.chunks);
  }
}
