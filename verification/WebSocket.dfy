/**
 The Go client's WebSocket frames (sections 5.2 and 5.3 of RFC 6455). A byte is a number below 256,
 so the bit fields of the header are written with `/` and `%`: the top bit is `b / 128`, the low four
 bits are `b % 16`, the low seven `b % 128`.
 */
module WebSocket {
  import opened Bytes

  /** The largest payload the client reads. */
  const MAX_READ: nat := 0x10_0000

  // Length fields.

  function Pow256(k: nat): (p: nat)
    ensures p > 0
  {
    if k == 0 then 1 else 256 * Pow256(k - 1)
  }

  function BigEndian(n: nat, k: nat): (s: seq<byte>)
    ensures |s| == k
  {
    if k == 0 then [] else BigEndian(n / 256, k - 1) + [n % 256]
  }

  function FromBigEndian(s: seq<byte>): nat {
    if s == [] then 0 else FromBigEndian(s[..|s| - 1]) * 256 + s[|s| - 1]
  }

  lemma {:induction false} BigEndianRoundTrip(n: nat, k: nat)
    requires n < Pow256(k)
    ensures FromBigEndian(BigEndian(n, k)) == n
  {
    if k > 0 {
      BigEndianRoundTrip(n / 256, k - 1);
      assert BigEndian(n, k)[..k - 1] == BigEndian(n / 256, k - 1);
    }
  }

  lemma {:induction false} FromBigEndianBound(s: seq<byte>)
    ensures FromBigEndian(s) < Pow256(|s|)
  {
    if s != [] {
      FromBigEndianBound(s[..|s| - 1]);
    }
  }

  /** The byte with the mask bit and the length marker, and the extended length behind it. */
  function LengthField(n: nat): (f: seq<byte>)
    ensures f != []
  {
    if n <= 125 then [128 + n]
    else if n <= 0xFFFF then [128 + 126] + BigEndian(n, 2)
    else [128 + 127] + BigEndian(n, 8)
  }

  datatype Length = Length(n: nat, rest: seq<byte>)

  function ParseLength(marker: byte, input: seq<byte>): Option<Length> {
    if marker == 126 then
      if |input| < 2 then None else Some(Length(FromBigEndian(input[..2]), input[2..]))
    else if marker == 127 then
      if |input| < 8 then None else Some(Length(FromBigEndian(input[..8]), input[8..]))
    else Some(Length(marker, input))
  }

  lemma Pow256Values()
    ensures Pow256(2) == 0x1_0000 && Pow256(8) == 0x1_0000_0000_0000_0000
  {
    assert Pow256(4) == 0x1_0000_0000;
  }

  /** Reading a length field gives back the length; its first bit is the mask bit. */
  lemma LengthRoundTrip(n: nat, rest: seq<byte>)
    requires n < 0x1_0000_0000_0000_0000
    ensures LengthField(n)[0] / 128 == 1
    ensures ParseLength(LengthField(n)[0] % 128, LengthField(n)[1..] + rest) == Some(Length(n, rest))
  {
    var f := LengthField(n);
    Pow256Values();
    if n <= 125 {
      assert f[1..] + rest == rest;
    } else {
      var k := if n <= 0xFFFF then 2 else 8;
      BigEndianRoundTrip(n, k);
      assert f[1..] == BigEndian(n, k);
      assert (f[1..] + rest)[..k] == BigEndian(n, k);
      assert (f[1..] + rest)[k..] == rest;
    }
  }

  /** No other length field that reads as the same length is shorter. */
  lemma LengthIsShortest(f: seq<byte>)
    requires f != [] && ParseLength(f[0] % 128, f[1..]).Some?
    requires ParseLength(f[0] % 128, f[1..]).value.rest == []
    ensures |LengthField(ParseLength(f[0] % 128, f[1..]).value.n)| <= |f|
  {
    Pow256Values();
    if f[0] % 128 == 126 {
      FromBigEndianBound(f[1..][..2]);
    }
  }

  // Masking.

  /** Exclusive or on the lowest `k` bits. */
  function XorBits(a: nat, b: nat, k: nat): (r: nat) {
    if k == 0 then 0 else (if a % 2 == b % 2 then 0 else 1) + 2 * XorBits(a / 2, b / 2, k - 1)
  }

  lemma {:induction false} XorTwice(a: nat, b: nat, k: nat)
    requires a < Pow2(k)
    ensures XorBits(XorBits(a, b, k), b, k) == a
    ensures XorBits(a, b, k) < Pow2(k)
  {
    if k > 0 {
      XorTwice(a / 2, b / 2, k - 1);
      var r := XorBits(a, b, k);
      assert r / 2 == XorBits(a / 2, b / 2, k - 1);
    }
  }

  lemma Pow2Of8()
    ensures Pow2(8) == 256
  {
    assert Pow2(4) == 16;
  }

  function Xor(a: byte, b: byte): (r: byte)
    ensures XorBits(r, b, 8) == a
  {
    Pow2Of8();
    XorTwice(a, b, 8);
    XorBits(a, b, 8)
  }

  function Mask(payload: seq<byte>, key: seq<byte>): (m: seq<byte>)
    requires |key| == 4
    ensures |m| == |payload|
    ensures forall i :: 0 <= i < |payload| ==> m[i] == Xor(payload[i], key[i % 4])
  {
    seq(|payload|, i requires 0 <= i < |payload| => Xor(payload[i], key[i % 4]))
  }

  lemma MaskTwice(payload: seq<byte>, key: seq<byte>)
    requires |key| == 4
    ensures Mask(Mask(payload, key), key) == payload
  {
    var m := Mask(payload, key);
    forall i | 0 <= i < |payload|
      ensures Mask(m, key)[i] == payload[i]
    {
      assert m[i] == Xor(payload[i], key[i % 4]);
    }
  }

  // Frames.

  datatype Frame = Frame(opcode: byte, payload: seq<byte>)

  ghost predicate FrameOk(f: Frame) {
    f.opcode < 16 && |f.payload| <= MAX_READ
  }

  /** writeWebSocketFrame: the bytes, for a given mask key. */
  function Written(f: Frame, key: seq<byte>): (bytes: seq<byte>)
    requires |key| == 4
  {
    [128 + f.opcode % 16] + LengthField(|f.payload|) + key + Mask(f.payload, key)
  }

  datatype Failure = UnexpectedEnd | TooLarge | Fragmented

  datatype Outcome = Got(frame: Frame, rest: seq<byte>) | Failed(failure: Failure)

  /** What readWebSocketFrame makes of its input. */
  function Parsed(input: seq<byte>): Outcome {
    if |input| < 2 then Failed(UnexpectedEnd)
    else
      var length := ParseLength(input[1] % 128, input[2..]);
      if length.None? then Failed(UnexpectedEnd)
      else if length.value.n > MAX_READ then Failed(TooLarge)
      else ParsedBody(input[0], input[1] / 128 == 1, length.value.n, length.value.rest)
  }

  function ParsedBody(first: byte, masked: bool, n: nat, input: seq<byte>): Outcome {
    var k := if masked then 4 else 0;
    if |input| < k + n then Failed(UnexpectedEnd)
    else if first / 128 == 0 then Failed(Fragmented)
    else
      var body := input[k..k + n];
      Got(Frame(first % 16, if masked then Mask(body, input[..4]) else body), input[k + n..])
  }

  lemma HeaderParts(first: byte, len: seq<byte>, body: seq<byte>, input: seq<byte>)
    requires len != [] && input == [first] + len + body
    ensures input[0] == first && input[1] == len[0] && input[2..] == len[1..] + body
  {
  }

  /** The header is read as it was written, and the body is left to read. */
  lemma HeaderRoundTrip(first: byte, n: nat, body: seq<byte>, input: seq<byte>)
    requires n < 0x1_0000_0000_0000_0000 && input == [first] + LengthField(n) + body
    ensures Parsed(input) == if n > MAX_READ then Failed(TooLarge) else ParsedBody(first, true, n, body)
  {
    HeaderParts(first, LengthField(n), body, input);
    LengthRoundTrip(n, body);
  }

  lemma Regroup(first: byte, len: seq<byte>, key: seq<byte>, m: seq<byte>, rest: seq<byte>)
    ensures [first] + len + key + m + rest == [first] + len + (key + m + rest)
  {
  }

  lemma BodyRoundTrip(f: Frame, key: seq<byte>, rest: seq<byte>)
    requires |key| == 4 && f.opcode < 16
    ensures ParsedBody(128 + f.opcode, true, |f.payload|, key + Mask(f.payload, key) + rest) == Got(f, rest)
  {
    var n, m := |f.payload|, Mask(f.payload, key);
    var body := key + m + rest;
    assert body[..4] == key && body[4..4 + n] == m && body[4 + n..] == rest;
    MaskTwice(f.payload, key);
  }

  /** A written frame reads back as it was, unless it is over the client's limit. */
  lemma FrameRoundTrip(f: Frame, key: seq<byte>, rest: seq<byte>)
    requires |key| == 4 && f.opcode < 16 && |f.payload| < 0x1_0000_0000_0000_0000
    ensures Parsed(Written(f, key) + rest) == if |f.payload| <= MAX_READ then Got(f, rest) else Failed(TooLarge)
  {
    var body := key + Mask(f.payload, key) + rest;
    var input := Written(f, key) + rest;
    Regroup(128 + f.opcode, LengthField(|f.payload|), key, Mask(f.payload, key), rest);
    HeaderRoundTrip(128 + f.opcode, |f.payload|, body, input);
    BodyRoundTrip(f, key, rest);
  }

  // What a server sends, and what the numbers and the mask are in bits and bytes.

  /** The first byte of a number on the wire is its most significant. */
  lemma {:induction false} MostSignificantFirst(x: byte, s: seq<byte>)
    ensures FromBigEndian([x] + s) == x * Pow256(|s|) + FromBigEndian(s)
  {
    var t := [x] + s;
    if s == [] {
      assert t[..0] == [];
    } else {
      var last := s[|s| - 1];
      MostSignificantFirst(x, s[..|s| - 1]);
      assert t[..|t| - 1] == [x] + s[..|s| - 1];
      ShiftUp(x, Pow256(|s| - 1), FromBigEndian(s[..|s| - 1]), last);
    }
  }

  lemma ShiftUp(x: nat, p: nat, v: nat, last: nat)
    ensures (x * p + v) * 256 + last == x * (256 * p) + (v * 256 + last)
  {
  }

  /** The length field of a frame without a mask. */
  function BareLength(n: nat): (f: seq<byte>)
    requires n < 0x1_0000_0000_0000_0000
    ensures f != []
  {
    if n <= 125 then [n] else if n <= 0xFFFF then [126] + BigEndian(n, 2) else [127] + BigEndian(n, 8)
  }

  lemma BareLengthRoundTrip(n: nat, rest: seq<byte>)
    requires n < 0x1_0000_0000_0000_0000
    ensures BareLength(n)[0] < 128
    ensures ParseLength(BareLength(n)[0], BareLength(n)[1..] + rest) == Some(Length(n, rest))
  {
    var f := BareLength(n);
    Pow256Values();
    if n <= 125 {
      assert f[1..] + rest == rest;
    } else {
      var k := if n <= 0xFFFF then 2 else 8;
      BigEndianRoundTrip(n, k);
      assert f[1..] == BigEndian(n, k);
      assert (f[1..] + rest)[..k] == BigEndian(n, k);
      assert (f[1..] + rest)[k..] == rest;
    }
  }

  /**
   A frame without a mask, as a server sends it, is read as it is: a last frame of at most 2^20 bytes gives its
   payload and what follows, a longer one is refused, and so is one that is not the last of its message.
   */
  lemma BareFrame(first: byte, payload: seq<byte>, rest: seq<byte>)
    requires |payload| < 0x1_0000_0000_0000_0000
    ensures Parsed([first] + BareLength(|payload|) + (payload + rest)) ==
            if |payload| > 0x10_0000 then Failed(TooLarge)
            else if first < 128 then Failed(Fragmented)
            else Got(Frame(first % 16, payload), rest)
  {
    var n, len, body := |payload|, BareLength(|payload|), payload + rest;
    var input := [first] + len + body;
    HeaderParts(first, len, body, input);
    BareLengthRoundTrip(n, body);
    assert input[1] % 128 == len[0];
    assert body[0..0 + n] == payload && body[0 + n..] == rest;
  }

  /** Bit `k` of a number. */
  predicate BitOf(x: nat, k: nat) {
    if k == 0 then x % 2 == 1 else BitOf(x / 2, k - 1)
  }

  /** Masking flips exactly the bits that are set in the key. */
  lemma {:induction false} XorFlips(a: nat, b: nat, n: nat, k: nat)
    requires k < n
    ensures BitOf(XorBits(a, b, n), k) <==> BitOf(a, k) != BitOf(b, k)
    decreases k
  {
    var r := XorBits(a, b, n);
    assert r / 2 == XorBits(a / 2, b / 2, n - 1) && r % 2 == if a % 2 == b % 2 then 0 else 1;
    if k > 0 {
      XorFlips(a / 2, b / 2, n - 1, k - 1);
    }
  }

  lemma MaskFlips(payload: seq<byte>, key: seq<byte>, i: nat, k: nat)
    requires |key| == 4 && i < |payload| && k < 8
    ensures BitOf(Mask(payload, key)[i], k) <==> BitOf(payload[i], k) != BitOf(key[i % 4], k)
  {
    XorFlips(payload[i], key[i % 4], 8, k);
  }

  /** Frames one after the other, each with its own key. */
  ghost function WrittenAll(fs: seq<Frame>, keys: seq<seq<byte>>): seq<byte>
    requires |keys| == |fs| && forall i :: 0 <= i < |keys| ==> |keys[i]| == 4
  {
    if fs == [] then [] else Written(fs[0], keys[0]) + WrittenAll(fs[1..], keys[1..])
  }

  /** Reading `n` frames. */
  ghost function ParsedAll(input: seq<byte>, n: nat): Option<seq<Frame>> {
    if n == 0 then (if input == [] then Some([]) else None)
    else
      match Parsed(input)
      case Failed(_) => None
      case Got(f, rest) =>
        match ParsedAll(rest, n - 1)
        case None => None
        case Some(fs) => Some([f] + fs)
  }

  /** Any sequence of frames within the limit is read back, in order, to the last byte. */
  lemma {:induction false} FramesRoundTrip(fs: seq<Frame>, keys: seq<seq<byte>>)
    requires |keys| == |fs| && forall i :: 0 <= i < |keys| ==> |keys[i]| == 4
    requires forall i :: 0 <= i < |fs| ==> FrameOk(fs[i])
    ensures ParsedAll(WrittenAll(fs, keys), |fs|) == Some(fs)
  {
    if fs != [] {
      assert FrameOk(fs[0]);
      FramesRoundTrip(fs[1..], keys[1..]);
      FrameRoundTrip(fs[0], keys[0], WrittenAll(fs[1..], keys[1..]));
      assert [fs[0]] + fs[1..] == fs;
    }
  }

  // The loops.

  /** The masking loop of the writer, and the one in place of the reader. */
  method MaskInPlace(a: array<byte>, key: seq<byte>)
    requires |key| == 4
    modifies a
    ensures a[..] == Mask(old(a[..]), key)
  {
    var i := 0;
    while i < a.Length
      invariant 0 <= i <= a.Length
      invariant forall j :: 0 <= j < i ==> a[j] == Xor(old(a[j]), key[j % 4])
      invariant forall j :: i <= j < a.Length ==> a[j] == old(a[j])
    {
      a[i] := Xor(a[i], key[i % 4]);
      i := i + 1;
    }
  }

  /** readWebSocketFrame. */
  method ReadFrame(input: seq<byte>) returns (r: Outcome)
    ensures r == Parsed(input)
  {
    if |input| < 2 {
      return Failed(UnexpectedEnd);
    }
    var length := ParseLength(input[1] % 128, input[2..]);
    if length.None? {
      return Failed(UnexpectedEnd);
    }
    var n, rest := length.value.n, length.value.rest;
    if n > MAX_READ {
      return Failed(TooLarge);
    }
    var masked := input[1] / 128 == 1;
    var k := if masked then 4 else 0;
    if |rest| < k + n {
      return Failed(UnexpectedEnd);
    }
    var payload := new byte[n](i requires 0 <= i < n => rest[k + i]);
    assert payload[..] == rest[k..k + n];
    if masked {
      MaskInPlace(payload, rest[..4]);
    }
    if input[0] / 128 == 0 {
      return Failed(Fragmented);
    }
    return Got(Frame(input[0] % 16, payload[..]), rest[k + n..]);
  }

  /** writeWebSocketFrame, for the mask key drawn. */
  method WriteFrame(f: Frame, key: seq<byte>) returns (bytes: seq<byte>)
    requires |key| == 4
    ensures bytes == Written(f, key)
  {
    var n := |f.payload|;
    bytes := [128 + f.opcode % 16];
    if n <= 125 {
      bytes := bytes + [128 + n];
    } else if n <= 0xFFFF {
      bytes := bytes + ([128 + 126] + BigEndian(n, 2));
    } else {
      bytes := bytes + ([128 + 127] + BigEndian(n, 8));
    }
    var masked := new byte[n](i requires 0 <= i < n => f.payload[i]);
    assert masked[..] == f.payload;
    MaskInPlace(masked, key);
    bytes := bytes + key + masked[..];
  }
}
