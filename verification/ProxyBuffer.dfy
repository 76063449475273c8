/**
 The proxy's buffer between a plain side and a Noise side: reads leave room for two
 length fields in front and for the MAC behind, so that encryption in place always fits.
 */
module ProxyBuffer {
  import opened Bytes
  import opened Framing
  import opened NoiseConnection
  import opened NoiseTransfer

  class Buffer {
    const bufferSize: nat
    const data: array<byte>
    var last: nat

    /** The allocation, and the limit the configuration enforces on block_buffer_size. */
    constructor (bufferSize: nat)
      requires bufferSize <= MAX_PAYLOAD
      ensures Valid() && fresh(data) && this.bufferSize == bufferSize && Contents() == []
    {
      this.bufferSize := bufferSize;
      var d := new byte[bufferSize + MAC + 2 * LEN_FIELD];
      data := d;
      last := 2 * LEN_FIELD;
    }

    ghost predicate Valid()
      reads this
    {
      && bufferSize <= MAX_PAYLOAD
      && data.Length == bufferSize + MAC + 2 * LEN_FIELD
      && 2 * LEN_FIELD <= last <= data.Length - MAC
    }

    ghost function Contents(): seq<byte>
      requires Valid()
      reads this, data
    {
      data[4..last]
    }

    /** A read from the plain side: at most what is left in front of the room for the MAC. */
    method ReadPlain(input: seq<byte>) returns (n: nat)
      requires Valid()
      modifies this`last, data
      ensures Valid()
      ensures n <= |input| && Contents() == old(Contents()) + input[..n]
      ensures n == |input| || last == data.Length - MAC
    {
      var size := data.Length - last - MAC;
      n := if |input| < size then |input| else size;
      ghost var had := data[4..last];
      Store(data, last, input[..n]);
      assert data[4..last] == data[..last][4..] == had;
      assert data[4..last + n] == had + input[..n];
      last := last + n;
    }

    /** Hand the buffer to the Noise side: encryption never fails for want of room, and the buffer is empty again. */
    method Forward(c: Cipher, nonce: nat) returns (wire: seq<byte>)
      requires Valid() && Sound(c)
      modifies this`last, data
      ensures Valid() && Contents() == []
      ensures |old(Contents())| <= bufferSize
      ensures wire == Frame(c, nonce, old(Contents()))
      ensures |wire| <= data.Length && |wire| - LEN_FIELD <= 65535
    {
      var r;
      r, wire := Write(c, nonce, bufferSize, data, last);
      last := 2 * LEN_FIELD;
    }

    /**
     Any sequence of plain-side reads, forwarded as they come: the wire carries the frames of
     chunks that add up to the input, each of which fits a buffer of the same size on the other side.
     */
    method Relay(c: Cipher, nonce: nat, inputs: seq<seq<byte>>) returns (wire: seq<byte>, chunks: seq<seq<byte>>)
      requires Valid() && Sound(c) && bufferSize > 0 && Contents() == []
      modifies this`last, data
      ensures Valid() && Contents() == []
      ensures Relayed(c, nonce, chunks, wire, Flat(inputs))
    {
      wire, chunks := [], [];
      for i := 0 to |inputs|
        invariant Valid() && Contents() == []
        invariant Relayed(c, nonce, chunks, wire, Flat(inputs[..i]))
      {
        wire, chunks := RelayOne(c, nonce, inputs[i], wire, chunks, Flat(inputs[..i]));
        assert inputs[..i + 1] == inputs[..i] + [inputs[i]];
        FlatPush(inputs[..i], inputs[i]);
      }
      assert inputs[..|inputs|] == inputs;
    }

    /** `wire` is the frames of `chunks`, which add up to `bytes` and fit. */
    ghost predicate Relayed(c: Cipher, nonce: nat, chunks: seq<seq<byte>>, wire: seq<byte>, bytes: seq<byte>)
    {
      && Sound(c)
      && bufferSize <= MAX_PAYLOAD
      && AllFit(chunks, bufferSize)
      && wire == Frames(c, nonce, chunks)
      && Flat(chunks) == bytes
    }

    method RelayOne(c: Cipher, nonce: nat, input: seq<byte>,
                    sent: seq<byte>, had: seq<seq<byte>>, ghost bytes: seq<byte>)
      returns (wire: seq<byte>, chunks: seq<seq<byte>>)
      requires Valid() && bufferSize > 0 && Contents() == [] && Relayed(c, nonce, had, sent, bytes)
      modifies this`last, data
      ensures Valid() && Contents() == []
      ensures Relayed(c, nonce, chunks, wire, bytes + input)
    {
      wire, chunks := sent, had;
      var i := 0;
      assert bytes + input[..0] == bytes;
      while i < |input|
        invariant 0 <= i <= |input| && Valid() && Contents() == []
        invariant Relayed(c, nonce, chunks, wire, bytes + input[..i])
      {
        var n;
        n, wire, chunks := RelayChunk(c, nonce, input[i..], wire, chunks, bytes + input[..i]);
        PieceBehind(bytes, input, i, n);
        i := i + n;
      }
      assert input[..i] == input;
    }

    /** One read and one write. */
    method RelayChunk(c: Cipher, nonce: nat, input: seq<byte>,
                      sent: seq<byte>, had: seq<seq<byte>>, ghost bytes: seq<byte>)
      returns (n: nat, wire: seq<byte>, chunks: seq<seq<byte>>)
      requires Valid() && bufferSize > 0 && Contents() == [] && input != [] && Relayed(c, nonce, had, sent, bytes)
      modifies this`last, data
      ensures Valid() && Contents() == []
      ensures 0 < n <= |input| && Relayed(c, nonce, chunks, wire, bytes + input[..n])
    {
      n := ReadPlain(input);
      assert Contents() == input[..n];
      var frame := Forward(c, nonce + |had|);
      RelayedMore(c, nonce, had, sent, bytes, input[..n]);
      wire, chunks := sent + frame, had + [input[..n]];
    }

    lemma RelayedMore(c: Cipher, nonce: nat, chunks: seq<seq<byte>>, wire: seq<byte>, bytes: seq<byte>, chunk: seq<byte>)
      requires Relayed(c, nonce, chunks, wire, bytes) && 0 < |chunk| <= bufferSize
      ensures Relayed(c, nonce, chunks + [chunk], wire + Frame(c, nonce + |chunks|, chunk), bytes + chunk)
    {
      FramesPush(c, nonce, chunks, chunk);
      FlatPush(chunks, chunk);
    }
  }

  lemma PieceBehind(bytes: seq<byte>, input: seq<byte>, i: nat, n: nat)
    requires i + n <= |input|
    ensures bytes + input[..i] + input[i..][..n] == bytes + input[..i + n]
  {
    assert input[..i + n] == input[..i] + input[i..][..n];
  }

  ghost function Flat(xs: seq<seq<byte>>): seq<byte> {
    if xs == [] then [] else Flat(xs[..|xs| - 1]) + xs[|xs| - 1]
  }

  lemma FlatPush(xs: seq<seq<byte>>, x: seq<byte>)
    ensures Flat(xs + [x]) == Flat(xs) + x
  {
    assert (xs + [x])[..|xs|] == xs;
  }
}
