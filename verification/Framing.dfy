/**
 Noise transport frames: what the writer puts on the wire, and a reader that
 takes one byte at a time. The resumable reader of NoiseConnection.dfy is proved
 to be this reader however its input is cut up.
 */
module Framing {
  import opened Bytes

  const MAC: nat := 16
  const LEN_FIELD: nat := 2
  const MAX_PAYLOAD: nat := 65517

  /** An AEAD under one key: sealing and opening with a nonce. */
  datatype Cipher = Cipher(seal: (nat, seq<byte>) -> seq<byte>, unseal: (nat, seq<byte>) -> Option<seq<byte>>)

  /** Unsealing undoes sealing under the same nonce; sealing adds a MAC of 16 bytes and unsealing takes it off. */
  ghost predicate Sound(c: Cipher) {
    && (forall n: nat, p: seq<byte> :: |c.seal(n, p)| == |p| + MAC && c.unseal(n, c.seal(n, p)) == Some(p))
    && (forall n: nat, ct: seq<byte> :: c.unseal(n, ct).Some? ==> |c.unseal(n, ct).value| + MAC == |ct|)
  }

  // ----- The writer's side

  /** The plaintext of a frame: its own length, then the payload. */
  function Plain(chunk: seq<byte>): (p: seq<byte>)
    requires |chunk| <= MAX_PAYLOAD
    ensures |p| == |chunk| + LEN_FIELD
  {
    Be16(|chunk|) + chunk
  }

  /** The limit on a Noise message is 65535 bytes, and the largest payload just meets it. */
  ghost function Sealed(c: Cipher, nonce: nat, chunk: seq<byte>): (ct: seq<byte>)
    requires Sound(c) && |chunk| <= MAX_PAYLOAD
    ensures |ct| == |chunk| + LEN_FIELD + MAC <= 65535
  {
    c.seal(nonce, Plain(chunk))
  }

  ghost function Frame(c: Cipher, nonce: nat, chunk: seq<byte>): seq<byte>
    requires Sound(c) && |chunk| <= MAX_PAYLOAD
  {
    Be16(|Sealed(c, nonce, chunk)|) + Sealed(c, nonce, chunk)
  }

  ghost predicate AllFit(chunks: seq<seq<byte>>, limit: nat) {
    forall i | 0 <= i < |chunks| :: 0 < |chunks[i]| <= limit
  }

  /** The bytes on the wire for a sequence of writes, from the given nonce on. */
  ghost function Frames(c: Cipher, nonce: nat, chunks: seq<seq<byte>>): seq<byte>
    requires Sound(c) && AllFit(chunks, MAX_PAYLOAD)
    decreases |chunks|
  {
    if chunks == [] then [] else Frame(c, nonce, chunks[0]) + Frames(c, nonce + 1, chunks[1..])
  }

  ghost function Seals(c: Cipher, nonce: nat, chunks: seq<seq<byte>>): seq<seq<byte>>
    requires Sound(c) && AllFit(chunks, MAX_PAYLOAD)
    decreases |chunks|
  {
    if chunks == [] then [] else [Sealed(c, nonce, chunks[0])] + Seals(c, nonce + 1, chunks[1..])
  }

  // ----- The reader's side, a byte at a time

  /** Between frames, inside the length field, or inside the body. */
  datatype Reader = Idle | HalfLength(first: byte) | Body(size: nat, got: seq<byte>)

  datatype Fed = Fed(state: Reader, messages: seq<seq<byte>>)

  function Feed(r: Reader, x: byte): Fed {
    match r
    case Idle => Fed(HalfLength(x), [])
    case HalfLength(first) => Fed(Body(FromBe16(first, x), []), [])
    case Body(size, got) =>
      if |got| + 1 == size then Fed(Idle, [got + [x]]) else Fed(Body(size, got + [x]), [])
  }

  function FeedAll(r: Reader, xs: seq<byte>): Fed
    decreases |xs|
  {
    if xs == [] then Fed(r, [])
    else
      var one := Feed(r, xs[0]);
      var rest := FeedAll(one.state, xs[1..]);
      Fed(rest.state, one.messages + rest.messages)
  }

  /** Every body the reader is in, or enters while reading `xs`, has between 1 and `limit` bytes. */
  predicate SizesOk(r: Reader, xs: seq<byte>, limit: nat)
    decreases |xs|
  {
    && (r.Body? ==> |r.got| < r.size <= limit)
    && (xs != [] ==> SizesOk(Feed(r, xs[0]).state, xs[1..], limit))
  }

  /** What two readings in a row amount to. */
  function Then(a: Fed, b: Fed): Fed {
    Fed(b.state, a.messages + b.messages)
  }

  lemma ThenAssociates(a: Fed, b: Fed, c: Fed)
    ensures Then(a, Then(b, c)) == Then(Then(a, b), c)
  {
  }

  lemma FeedFirst(r: Reader, x: byte, xs: seq<byte>)
    ensures FeedAll(r, [x] + xs) == Then(Feed(r, x), FeedAll(Feed(r, x).state, xs))
  {
    assert ([x] + xs)[1..] == xs;
  }

  /** Reading in two pieces is reading in one: where the input is cut does not matter. */
  lemma {:induction false} FeedConcat(r: Reader, xs: seq<byte>, ys: seq<byte>)
    ensures FeedAll(r, xs + ys) == Then(FeedAll(r, xs), FeedAll(FeedAll(r, xs).state, ys))
    decreases |xs|
  {
    if xs == [] {
      assert xs + ys == ys;
    } else {
      var x, rest := xs[0], xs[1..];
      var one := Feed(r, x);
      var a := FeedAll(one.state, rest);
      FeedConcat(one.state, rest, ys);
      FeedFirst(r, x, rest);
      FeedFirst(r, x, rest + ys);
      assert [x] + rest == xs && [x] + (rest + ys) == xs + ys;
      ThenAssociates(one, a, FeedAll(a.state, ys));
    }
  }

  lemma {:induction false} SizesConcat(r: Reader, xs: seq<byte>, ys: seq<byte>, limit: nat)
    ensures SizesOk(r, xs + ys, limit) <==> SizesOk(r, xs, limit) && SizesOk(FeedAll(r, xs).state, ys, limit)
    decreases |xs|
  {
    if xs == [] {
      assert xs + ys == ys;
    } else {
      assert (xs + ys)[1..] == xs[1..] + ys;
      SizesConcat(Feed(r, xs[0]).state, xs[1..], ys, limit);
    }
  }

  /** Body bytes are collected until the body is complete. */
  lemma {:induction false} FeedBody(size: nat, got: seq<byte>, xs: seq<byte>)
    requires |got| + |xs| <= size && |got| < size
    ensures FeedAll(Body(size, got), xs)
            == if |got| + |xs| == size then Fed(Idle, [got + xs]) else Fed(Body(size, got + xs), [])
    decreases |xs|
  {
    if xs == [] {
      assert got + xs == got;
    } else {
      assert got + [xs[0]] + xs[1..] == got + xs;
      if |got| + 1 < size {
        FeedBody(size, got + [xs[0]], xs[1..]);
      } else {
        assert xs[1..] == [] && xs == [xs[0]];
      }
    }
  }

  lemma {:induction false} SizesBody(size: nat, got: seq<byte>, xs: seq<byte>, limit: nat)
    requires |got| + |xs| <= size <= limit && |got| < size
    ensures SizesOk(Body(size, got), xs, limit)
    decreases |xs|
  {
    if xs != [] {
      if |got| + 1 < size {
        SizesBody(size, got + [xs[0]], xs[1..], limit);
      } else {
        assert xs[1..] == [];
      }
    }
  }

  lemma FeedLength(a: byte, b: byte)
    ensures FeedAll(Idle, [a, b]) == Fed(Body(FromBe16(a, b), []), [])
    ensures 0 < FromBe16(a, b) ==> SizesOk(Idle, [a, b], FromBe16(a, b))
  {
    var n := FromBe16(a, b);
    assert [a, b][1..] == [b] && [b][1..] == [];
    assert FeedAll(Body(n, []), []) == Fed(Body(n, []), []);
    assert FeedAll(HalfLength(a), [b]) == Fed(Body(n, []), []);
    assert SizesOk(Body(n, []), [], n) <==> 0 < n;
    assert SizesOk(HalfLength(a), [b], n) <==> 0 < n;
  }

  /** A length field and as many bytes are one message, and leave the reader between frames. */
  lemma FeedMessage(m: seq<byte>)
    requires 0 < |m| < 0x1_0000
    ensures FeedAll(Idle, Be16(|m|) + m) == Fed(Idle, [m])
    ensures SizesOk(Idle, Be16(|m|) + m, |m|)
  {
    var len := Be16(|m|);
    assert len == [len[0], len[1]];
    FeedLength(len[0], len[1]);
    FeedConcat(Idle, len, m);
    SizesConcat(Idle, len, m, |m|);
    FeedBody(|m|, [], m);
    SizesBody(|m|, [], m, |m|);
    assert [] + m == m;
  }

  lemma {:induction false} SizesMonotone(r: Reader, xs: seq<byte>, a: nat, b: nat)
    requires a <= b && SizesOk(r, xs, a)
    ensures SizesOk(r, xs, b)
    decreases |xs|
  {
    if xs != [] {
      SizesMonotone(Feed(r, xs[0]).state, xs[1..], a, b);
    }
  }

  /** The wire image of any sequence of writes reads back as the same sequence of messages. */
  lemma {:induction false} FeedFrames(c: Cipher, nonce: nat, chunks: seq<seq<byte>>, limit: nat)
    requires Sound(c) && limit <= MAX_PAYLOAD && AllFit(chunks, limit)
    ensures FeedAll(Idle, Frames(c, nonce, chunks)) == Fed(Idle, Seals(c, nonce, chunks))
    ensures SizesOk(Idle, Frames(c, nonce, chunks), limit + LEN_FIELD + MAC)
    decreases |chunks|
  {
    if chunks != [] {
      FeedFrames(c, nonce + 1, chunks[1..], limit);
      FeedMessageThen(Sealed(c, nonce, chunks[0]), Frames(c, nonce + 1, chunks[1..]), limit + LEN_FIELD + MAC);
    }
  }

  lemma FeedMessageThen(m: seq<byte>, rest: seq<byte>, limit: nat)
    requires 0 < |m| < 0x1_0000 && |m| <= limit
    ensures FeedAll(Idle, Be16(|m|) + m + rest) == Then(Fed(Idle, [m]), FeedAll(Idle, rest))
    ensures SizesOk(Idle, Be16(|m|) + m + rest, limit) <==> SizesOk(Idle, rest, limit)
  {
    FeedMessage(m);
    FeedConcat(Idle, Be16(|m|) + m, rest);
    SizesMonotone(Idle, Be16(|m|) + m, |m|, limit);
    SizesConcat(Idle, Be16(|m|) + m, rest, limit);
  }

  // ----- From messages back to payloads

  /** What the reader takes a plaintext to say. */
  function Payload(plain: seq<byte>): Option<seq<byte>> {
    if |plain| < 2 then None
    else
      var n := FromBe16(plain[0], plain[1]);
      if n <= |plain| - 2 then Some(plain[2..2 + n]) else None
  }

  lemma PayloadOfPlain(chunk: seq<byte>)
    requires |chunk| <= MAX_PAYLOAD
    ensures Payload(Plain(chunk)) == Some(chunk)
  {
    var p := Plain(chunk);
    assert p[0] == Be16(|chunk|)[0] && p[1] == Be16(|chunk|)[1];
    assert p[2..2 + |chunk|] == chunk;
  }

  /** Unseal a sequence of messages under consecutive nonces. */
  ghost function Opened(c: Cipher, nonce: nat, messages: seq<seq<byte>>): Option<seq<seq<byte>>>
    decreases |messages|
  {
    if messages == [] then Some([])
    else
      match c.unseal(nonce, messages[0])
      case None => None
      case Some(plain) =>
        match Payload(plain)
        case None => None
        case Some(chunk) =>
          match Opened(c, nonce + 1, messages[1..])
          case None => None
          case Some(rest) => Some([chunk] + rest)
  }

  /** Opening what was sealed gives back the chunks, in order. */
  lemma {:induction false} OpenedSeals(c: Cipher, nonce: nat, chunks: seq<seq<byte>>)
    requires Sound(c) && AllFit(chunks, MAX_PAYLOAD)
    ensures Opened(c, nonce, Seals(c, nonce, chunks)) == Some(chunks)
    ensures |Seals(c, nonce, chunks)| == |chunks|
    decreases |chunks|
  {
    if chunks != [] {
      OpenedSeals(c, nonce + 1, chunks[1..]);
      PayloadOfPlain(chunks[0]);
      assert Seals(c, nonce, chunks)[1..] == Seals(c, nonce + 1, chunks[1..]);
      assert [chunks[0]] + chunks[1..] == chunks;
    }
  }
}
