/** Whole conversations over one direction of a Noise connection: every write is read back, however the wire is cut. */
module NoiseTransfer {
  import opened Bytes
  import opened Framing
  import opened NoiseConnection

  lemma AllFitPush(chunks: seq<seq<byte>>, last: seq<byte>, limit: nat)
    requires AllFit(chunks, limit) && 0 < |last| <= limit
    ensures AllFit(chunks + [last], limit)
  {
  }

  lemma FramesFirst(c: Cipher, nonce: nat, first: seq<byte>, rest: seq<seq<byte>>)
    requires Sound(c) && AllFit([first] + rest, MAX_PAYLOAD) && AllFit(rest, MAX_PAYLOAD) && 0 < |first| <= MAX_PAYLOAD
    ensures Frames(c, nonce, [first] + rest) == Frame(c, nonce, first) + Frames(c, nonce + 1, rest)
  {
    assert ([first] + rest)[1..] == rest;
  }

  lemma {:induction false} FramesPush(c: Cipher, nonce: nat, chunks: seq<seq<byte>>, last: seq<byte>)
    requires Sound(c) && AllFit(chunks, MAX_PAYLOAD) && 0 < |last| <= MAX_PAYLOAD
    ensures AllFit(chunks + [last], MAX_PAYLOAD)
    ensures Frames(c, nonce, chunks + [last]) == Frames(c, nonce, chunks) + Frame(c, nonce + |chunks|, last)
    decreases |chunks|
  {
    AllFitPush(chunks, last, MAX_PAYLOAD);
    if chunks == [] {
      assert chunks + [last] == [last] + [];
      FramesFirst(c, nonce, last, []);
    } else {
      var first, rest := chunks[0], chunks[1..];
      FramesPush(c, nonce + 1, rest, last);
      assert chunks + [last] == [first] + (rest + [last]) && chunks == [first] + rest;
      FramesFirst(c, nonce, first, rest + [last]);
      FramesFirst(c, nonce, first, rest);
      assert nonce + 1 + |rest| == nonce + |chunks|;
    }
  }

  /** Write the chunks one after the other, each from a buffer of its own size plus the room a frame needs. */
  method SendAll(c: Cipher, nonce: nat, bufferSize: nat, chunks: seq<seq<byte>>) returns (wire: seq<byte>, next: nat)
    requires Sound(c) && bufferSize <= MAX_PAYLOAD && AllFit(chunks, bufferSize)
    ensures AllFit(chunks, MAX_PAYLOAD) && wire == Frames(c, nonce, chunks)
    ensures next == nonce + |chunks|
  {
    wire, next := [], nonce;
    for k := 0 to |chunks|
      invariant next == nonce + k
      invariant AllFit(chunks[..k], MAX_PAYLOAD) && wire == Frames(c, nonce, chunks[..k])
    {
      assert chunks[..k + 1] == chunks[..k] + [chunks[k]];
      FramesPush(c, nonce, chunks[..k], chunks[k]);
      var frame := SendOne(c, next, bufferSize, chunks[k]);
      wire := wire + frame;
      next := next + 1;
    }
    assert chunks[..|chunks|] == chunks;
  }

  method SendOne(c: Cipher, nonce: nat, bufferSize: nat, chunk: seq<byte>) returns (frame: seq<byte>)
    requires Sound(c) && bufferSize <= MAX_PAYLOAD && |chunk| <= bufferSize
    ensures frame == Frame(c, nonce, chunk)
  {
    var buf := new byte[bufferSize + MAC + 2 * LEN_FIELD];
    Store(buf, 4, chunk);
    var r;
    r, frame := Write(c, nonce, bufferSize, buf, 4 + |chunk|);
  }

  /** What is left on the wire is exactly the messages of the chunks `rest`. */
  ghost predicate Left(r: Reader, pending: seq<byte>, c: Cipher, nonce: nat, rest: seq<seq<byte>>, limit: nat) {
    && Sound(c) && limit <= MAX_PAYLOAD && AllFit(rest, limit)
    && FeedAll(r, pending) == Fed(Idle, Seals(c, nonce, rest))
  }

  /** Reading part of the wire without completing a message leaves the same chunks. */
  lemma LeftAfterAgain(r: Reader, taken: seq<byte>, mid: Reader, pending: seq<byte>,
                       c: Cipher, nonce: nat, rest: seq<seq<byte>>, limit: nat)
    requires Left(r, taken + pending, c, nonce, rest, limit) && Reads(r, taken, mid, [])
    ensures Left(mid, pending, c, nonce, rest, limit)
  {
    FeedConcat(r, taken, pending);
  }

  /** Completing a message takes exactly the next chunk. */
  lemma LeftAfterMessage(r: Reader, taken: seq<byte>, message: seq<byte>, pending: seq<byte>,
                         c: Cipher, nonce: nat, rest: seq<seq<byte>>, limit: nat)
    requires Left(r, taken + pending, c, nonce, rest, limit) && Reads(r, taken, Idle, [message])
    ensures rest != [] && message == Sealed(c, nonce, rest[0])
    ensures Left(Idle, pending, c, nonce + 1, rest[1..], limit)
  {
    FeedConcat(r, taken, pending);
    var seals, more := Seals(c, nonce, rest), FeedAll(Idle, pending).messages;
    assert seals == [message] + more;
    assert seals[0] == message;
    assert seals[1..] == more;
    assert seals == [Sealed(c, nonce, rest[0])] + Seals(c, nonce + 1, rest[1..]);
  }

  lemma LeftNothing(r: Reader, c: Cipher, nonce: nat, rest: seq<seq<byte>>, limit: nat)
    requires Left(r, [], c, nonce, rest, limit)
    ensures r == Idle && rest == []
  {
    OpenedSeals(c, nonce, rest);
  }

  /** One call of the reader on a well-formed wire either makes no delivery or delivers the next chunk. */
  method ReceiveOne(r: NoiseReader, size: nat, ghost limit: nat, ghost rest: seq<seq<byte>>) returns (got: Option<seq<byte>>)
    requires r.Ready() && limit <= size && size + 4 <= r.buf.Length
    requires Left(r.State(), Pending(r.wire.events), r.cipher, r.nonce, rest, limit)
    modifies r, r.buf, r.wire
    ensures r.Ready() && Weight(r.wire.events) <= Weight(old(r.wire.events))
    ensures old(r.wire.events) != [] ==> Weight(r.wire.events) < Weight(old(r.wire.events))
    ensures got.None? ==> r.nonce == old(r.nonce)
                          && Left(r.State(), Pending(r.wire.events), r.cipher, r.nonce, rest, limit)
    ensures got.Some? ==> rest != [] && got.value == rest[0] && r.nonce == old(r.nonce) + 1
                          && Left(r.State(), Pending(r.wire.events), r.cipher, r.nonce, rest[1..], limit)
  {
    ghost var start, nonce := r.State(), r.nonce;
    var outcome, taken, message, held := r.Recv(size);
    if outcome.Again? {
      LeftAfterAgain(start, taken, r.State(), Pending(r.wire.events), r.cipher, nonce, rest, limit);
      return None;
    }
    LeftAfterMessage(start, taken, message, Pending(r.wire.events), r.cipher, nonce, rest, limit);
    PayloadOfPlain(rest[0]);
    TakenIsPayload(Plain(rest[0]), held, size);
    return Some(r.buf[4..4 + outcome.size]);
  }

  /** Keep calling the reader until the schedule is used up. */
  method ReceiveLeft(r: NoiseReader, size: nat, ghost limit: nat, ghost chunks: seq<seq<byte>>) returns (out: seq<seq<byte>>)
    requires r.Ready() && limit <= size && size + 4 <= r.buf.Length
    requires Left(r.State(), Pending(r.wire.events), r.cipher, r.nonce, chunks, limit)
    modifies r, r.buf, r.wire
    ensures out == chunks
    ensures r.nonce == old(r.nonce) + |chunks|
    ensures r.Valid() && r.State() == Idle && r.wire.events == []
  {
    out := [];
    ghost var rest := chunks;
    while r.wire.events != []
      invariant r.Ready() && out + rest == chunks && r.nonce == old(r.nonce) + |out|
      invariant Left(r.State(), Pending(r.wire.events), r.cipher, r.nonce, rest, limit)
      decreases Weight(r.wire.events)
    {
      var got := ReceiveOne(r, size, limit, rest);
      if got.Some? {
        assert out + rest == out + [rest[0]] + rest[1..];
        out := out + [got.value];
        rest := rest[1..];
      }
    }
    LeftNothing(r.State(), r.cipher, r.nonce, rest, limit);
  }

  /**
   Frame round trip: a fresh reader on any delivery schedule of the frames of `chunks` gets exactly
   those chunks, in order, and ends between frames with the nonce the writer ended with.
   */
  method ReceiveAll(r: NoiseReader, bufferSize: nat, ghost chunks: seq<seq<byte>>) returns (out: seq<seq<byte>>)
    requires r.Valid() && r.State() == Idle && Proper(r.wire.events) && Sound(r.cipher)
    requires bufferSize <= MAX_PAYLOAD && r.buf.Length == bufferSize + MAC + 2 * LEN_FIELD
    requires AllFit(chunks, bufferSize) && AllFit(chunks, MAX_PAYLOAD)
    requires Pending(r.wire.events) == Frames(r.cipher, r.nonce, chunks)
    modifies r, r.buf, r.wire
    ensures out == chunks
    ensures r.nonce == old(r.nonce) + |chunks|
    ensures r.Valid() && r.State() == Idle && r.wire.events == []
  {
    FeedFrames(r.cipher, r.nonce, chunks, bufferSize);
    out := ReceiveLeft(r, bufferSize + MAC, bufferSize, chunks);
  }

  /** There are ciphers to which all this applies: seal by appending 16 bytes, unseal by taking them off. */
  lemma SoundCipherExists() returns (c: Cipher)
    ensures Sound(c)
  {
    c := Cipher((n, p) => p + seq(MAC, _ => 0),
                (n, ct) => if |ct| >= MAC then Some(ct[..|ct| - MAC]) else None);
    forall n: nat, p: seq<byte>
      ensures c.unseal(n, c.seal(n, p)) == Some(p)
    {
      assert (p + seq(MAC, _ => 0))[..|p|] == p;
    }
  }
}
