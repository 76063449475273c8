/** What the base64 decoder makes of a text, and what white space does to a key. */
module Base64Text {
  import opened Bytes
  import opened Base64

  // Arithmetic on the bits of a group.

  /** Moving by a multiple of the modulus. */
  lemma ModShift(y: int, k: int, m: int)
    requires m > 0
    ensures (y + m * k) % m == y % m
    decreases if k < 0 then -k else k
  {
    if k > 0 {
      ModShift(y, k - 1, m);
      assert y + m * k == (y + m * (k - 1)) + m;
      ModNext(y + m * (k - 1), m);
    } else if k < 0 {
      ModShift(y, k + 1, m);
      assert y + m * (k + 1) == (y + m * k) + m;
      ModNext(y + m * k, m);
    }
  }

  lemma ModNext(x: int, m: int)
    requires m > 0
    ensures (x + m) % m == x % m
  {
    var q, r := x / m, x % m;
    assert x == m * q + r;
    assert x + m == m * (q + 1) + r;
    ModUnique(x + m, m, q + 1, r);
  }

  lemma ModUnique(x: int, m: int, q: int, r: int)
    requires m > 0 && x == m * q + r && 0 <= r < m
    ensures x % m == r
  {
    var q', r' := x / m, x % m;
    Differ(m, q, q');
    var k := q - q';
    assert m * k == r' - r;
    AtLeast(m, k);
    AtLeast(m, -k);
    Negate(m, k);
    assert k == 0;
  }

  lemma Differ(m: int, a: int, b: int)
    ensures m * (a - b) == m * a - m * b
  {
  }

  lemma AtLeast(m: int, k: int)
    requires m > 0
    ensures k >= 1 ==> m * k >= m
  {
    if k >= 1 {
      Differ(m, k, 1);
      assert m * (k - 1) >= 0;
    }
  }

  lemma Negate(m: int, k: int)
    ensures m * -k == -(m * k)
  {
  }

  /** A digit goes below what the group holds; what overflows the word does not matter. */
  lemma PushLow(g: nat, d: digit, p: nat)
    requires (p == 1 || p == 64 || p == 4096 || p == 262144)
    ensures (g * 64 + d) % WORD % (p * 64) == (g % p) * 64 + d
  {
    var c := if p == 1 then 67108864 else if p == 64 then 1048576 else if p == 4096 then 16384 else 256;
    assert p * 64 * c == WORD;
    var x, m := g * 64 + d, p * 64;
    var y := x % WORD;
    var t := x / WORD;
    assert x == WORD * t + y;
    assert WORD * t == m * (c * t) by {
      Regroup(m, c, t);
    }
    ModShift(y, c * t, m);
    var q := g / p;
    assert g == p * q + g % p;
    assert x == m * q + ((g % p) * 64 + d) by {
      Regroup(p, 64, q);
      Regroup(64, p, q);
    }
    ModUnique(x, m, q, (g % p) * 64 + d);
  }

  lemma Regroup(a: int, b: int, c: int)
    ensures (a * b) * c == a * (b * c)
  {
  }

  lemma DivIs(x: int, m: int, q: int, r: int)
    requires m > 0 && x == m * q + r && 0 <= r < m
    ensures x / m == q && x % m == r
  {
    ModUnique(x, m, q, r);
    Differ(m, x / m, q);
    assert m * (x / m - q) == 0;
  }


  /** A byte of the group is a byte of its low bits. */
  lemma LowByte(g: nat, m: nat, k: nat)
    requires (m == 4096 && k == 16) || (m == 262144 && (k == 1024 || k == 4)) ||
             (m == 16777216 && (k == 65536 || k == 256 || k == 1))
    ensures g / k % 256 == g % m / k % 256
  {
    var c := if m == 262144 && k == 4 then 256 else if m == 16777216 && k == 256 then 256 else if k == 1 then 65536 else 1;
    assert m == k * (256 * c);
    var q, v := g / m, g % m;
    var a, r := v / k, v % k;
    Regroup(k, 256 * c, q);
    assert g == k * (256 * c * q) + k * a + r;
    Differ(k, 256 * c * q, -a);
    Negate(k, a);
    DivIs(g, k, 256 * c * q + a, r);
    Regroup(256, c, q);
    ModShift(a, c * q, 256);
  }

  lemma Group2(g: nat, d1: digit, d2: digit)
    ensures Shift(Shift(g, d1), d2) % 4096 == d1 * 64 + d2
  {
    PushLow(g, d1, 1);
    PushLow(Shift(g, d1), d2, 64);
  }

  lemma Group3(g: nat, d1: digit, d2: digit, d3: digit)
    ensures Shift(Shift(Shift(g, d1), d2), d3) % 262144 == d1 * 4096 + d2 * 64 + d3
  {
    Group2(g, d1, d2);
    PushLow(Shift(Shift(g, d1), d2), d3, 4096);
  }

  lemma Group4(g: nat, d1: digit, d2: digit, d3: digit, d4: digit)
    ensures Shift(Shift(Shift(Shift(g, d1), d2), d3), d4) % 16777216 == d1 * 262144 + d2 * 4096 + d3 * 64 + d4
  {
    Group3(g, d1, d2, d3);
    PushLow(Shift(Shift(Shift(g, d1), d2), d3), d4, 262144);
  }

  // What digits stand for.

  /** The bits of two, three and four digits. */
  function Bits2(d1: digit, d2: digit): (v: nat)
    ensures v < 4096
  {
    d1 * 64 + d2
  }

  function Bits3(d1: digit, d2: digit, d3: digit): (v: nat)
    ensures v < 262144
  {
    d1 * 4096 + d2 * 64 + d3
  }

  function Bits4(d1: digit, d2: digit, d3: digit, d4: digit): (v: nat)
    ensures v < 16777216
  {
    d1 * 262144 + d2 * 4096 + d3 * 64 + d4
  }

  function Bytes1(v: nat): seq<byte>
    requires v < 4096
  {
    [v / 16]
  }

  function Bytes2(v: nat): seq<byte>
    requires v < 262144
  {
    [v / 1024, v / 4 % 256]
  }

  function Bytes3(v: nat): seq<byte>
    requires v < 16777216
  {
    [v / 65536, v / 256 % 256, v % 256]
  }

  /** Four digits are three bytes, three are two, two are one; what is left over stands for nothing. */
  function Value(ds: seq<digit>): (key: seq<byte>) {
    if |ds| < 2 then []
    else if |ds| == 2 then Bytes1(Bits2(ds[0], ds[1]))
    else if |ds| == 3 then Bytes2(Bits3(ds[0], ds[1], ds[2]))
    else Bytes3(Bits4(ds[0], ds[1], ds[2], ds[3])) + Value(ds[4..])
  }

  function ByteCount(n: nat): nat {
    n / 4 * 3 + if n % 4 < 2 then 0 else n % 4 - 1
  }

  lemma {:induction false} ValueLength(ds: seq<digit>)
    ensures |Value(ds)| == ByteCount(|ds|)
  {
    if |ds| >= 4 {
      ValueLength(ds[4..]);
    }
  }

  // The decoder on digits.

  function Gather(s: State, ds: seq<digit>, len: nat): (r: Option<State>)
    requires StateOk(s, len)
    ensures r.Some? ==> StateOk(r.value, len)
    decreases |ds|
  {
    if ds == [] then Some(s)
    else
      var r := Push(s, ds[0], len);
      if r.None? then None else Gather(r.value, ds[1..], len)
  }

  /** From a state on, the bytes the digits bring, if they are as many as wanted. */
  function Rest(s: State, ds: seq<digit>, len: nat): Option<seq<byte>>
    requires StateOk(s, len)
  {
    var r := Gather(s, ds, len);
    if r.None? then None else Finish(r.value, len)
  }

  lemma LowBytes1(g: nat, v: nat)
    requires v < 4096 && g % 4096 == v
    ensures [g / 16 % 256] == Bytes1(v)
  {
    LowByte(g, 4096, 16);
  }

  lemma LowBytes2(g: nat, v: nat)
    requires v < 262144 && g % 262144 == v
    ensures [g / 1024 % 256, g / 4 % 256] == Bytes2(v)
  {
    LowByte(g, 262144, 1024);
    LowByte(g, 262144, 4);
  }

  lemma LowBytes3(g: nat, v: nat)
    requires v < 16777216 && g % 16777216 == v
    ensures [g / 65536 % 256, g / 256 % 256, g % 256] == Bytes3(v)
  {
    LowByte(g, 16777216, 65536);
    LowByte(g, 16777216, 256);
    LowByte(g, 16777216, 1);
  }

  /** Two digits at the start of a group, whatever the word held before. */
  lemma GatherTwo(s: State, ds: seq<digit>, len: nat) returns (g: nat)
    requires StateOk(s, len) && s.size == 0 && |ds| >= 2
    ensures g < WORD && g == Shift(Shift(s.group, ds[0]), ds[1])
    ensures Gather(s, ds, len) == Gather(State(g, 2, ds[1], s.out), ds[2..], len)
  {
    g := Shift(Shift(s.group, ds[0]), ds[1]);
    var s1 := State(Shift(s.group, ds[0]), 1, ds[0], s.out);
    assert Gather(s, ds, len) == Gather(s1, ds[1..], len);
    assert ds[1..][1..] == ds[2..];
  }

  lemma GatherTail2(s: State, ds: seq<digit>, len: nat) returns (g: nat)
    requires StateOk(s, len) && s.size == 0 && |ds| == 2
    ensures g < WORD && [g / 16 % 256] == Value(ds)
    ensures Gather(s, ds, len) == Some(State(g, 2, ds[1], s.out))
  {
    g := GatherTwo(s, ds, len);
    assert ds[2..] == [];
    Group2(s.group, ds[0], ds[1]);
    LowBytes1(g, Bits2(ds[0], ds[1]));
  }

  lemma GatherTail3(s: State, ds: seq<digit>, len: nat) returns (g: nat)
    requires StateOk(s, len) && s.size == 0 && |ds| == 3
    ensures g < WORD && [g / 1024 % 256, g / 4 % 256] == Value(ds)
    ensures Gather(s, ds, len) == Some(State(g, 3, ds[2], s.out))
  {
    var g2 := GatherTwo(s, ds, len);
    g := Shift(g2, ds[2]);
    assert ds[2..][1..] == [];
    assert Gather(State(g, 3, ds[2], s.out), [], len) == Some(State(g, 3, ds[2], s.out));
    Group3(s.group, ds[0], ds[1], ds[2]);
    LowBytes2(g, Bits3(ds[0], ds[1], ds[2]));
  }

  /** Four digits are three bytes, whatever the word held before. */
  lemma GatherGroup(s: State, ds: seq<digit>, len: nat) returns (t: State)
    requires StateOk(s, len) && s.size == 0 && |ds| >= 4
    ensures len - |s.out| < 3 ==> Gather(s, ds, len) == None
    ensures len - |s.out| >= 3 ==>
              && StateOk(t, len) && t.size == 0
              && t.out == s.out + Bytes3(Bits4(ds[0], ds[1], ds[2], ds[3]))
              && Gather(s, ds, len) == Gather(t, ds[4..], len)
  {
    var g2 := GatherTwo(s, ds, len);
    var s2 := State(g2, 2, ds[1], s.out);
    var s3 := State(Shift(g2, ds[2]), 3, ds[2], s.out);
    assert ds[2..][1..] == ds[3..] && ds[3..][1..] == ds[4..];
    assert Gather(s2, ds[2..], len) == Gather(s3, ds[3..], len);
    var g := Shift(s3.group, ds[3]);
    Group4(s.group, ds[0], ds[1], ds[2], ds[3]);
    LowBytes3(g, Bits4(ds[0], ds[1], ds[2], ds[3]));
    t := State(g, 0, ds[3], s.out + [g / 65536 % 256, g / 256 % 256, g % 256]);
  }

  /** From `s` on exactly these bytes are brought. */
  ghost predicate Brings(s: State, ds: seq<digit>, bytes: seq<byte>, len: nat)
    requires StateOk(s, len)
  {
    Rest(s, ds, len) == if |s.out| + |bytes| == len then Some(s.out + bytes) else None
  }

  lemma BringsNothing(s: State, ds: seq<digit>, len: nat)
    requires StateOk(s, len) && s.size == 0 && |ds| < 2
    ensures Brings(s, ds, [], len)
  {
    if |ds| == 1 {
      var t := State(Shift(s.group, ds[0]), 1, ds[0], s.out);
      assert ds[1..] == [];
      assert Gather(t, [], len) == Some(t);
      assert Gather(s, ds, len) == Some(t);
    }
    assert s.out + [] == s.out;
  }

  lemma BringsTail(s: State, ds: seq<digit>, len: nat)
    requires StateOk(s, len) && s.size == 0 && 2 <= |ds| <= 3
    ensures Brings(s, ds, Value(ds), len)
  {
    if |ds| == 2 {
      var g := GatherTail2(s, ds, len);
      assert Finish(State(g, 2, ds[1], s.out), len) == if |s.out| + 1 == len then Some(s.out + Value(ds)) else None;
    } else {
      var g := GatherTail3(s, ds, len);
      assert Finish(State(g, 3, ds[2], s.out), len) == if |s.out| + 2 == len then Some(s.out + Value(ds)) else None;
    }
  }

  lemma BringsMore(s: State, ds: seq<digit>, three: seq<byte>, t: State, rest: seq<digit>, more: seq<byte>, len: nat)
    requires StateOk(s, len) && StateOk(t, len) && t.out == s.out + three && Gather(s, ds, len) == Gather(t, rest, len)
    requires Brings(t, rest, more, len)
    ensures Brings(s, ds, three + more, len)
  {
    assert (s.out + three) + more == s.out + (three + more);
  }

  /** Digits bring the bytes they stand for. */
  lemma {:induction false} RestIs(s: State, ds: seq<digit>, len: nat)
    requires StateOk(s, len) && s.size == 0
    ensures Brings(s, ds, Value(ds), len)
    decreases |ds|
  {
    if |ds| < 2 {
      BringsNothing(s, ds, len);
    } else if |ds| <= 3 {
      BringsTail(s, ds, len);
    } else {
      var t := GatherGroup(s, ds, len);
      if len - |s.out| >= 3 {
        RestIs(t, ds[4..], len);
        BringsMore(s, ds, Bytes3(Bits4(ds[0], ds[1], ds[2], ds[3])), t, ds[4..], Value(ds[4..]), len);
      }
    }
  }

  // From text to digits.

  /** The digits the decoder sees, `d` being the one before the text; none if a character is refused. */
  function Read(text: string, d: digit): Option<seq<digit>> {
    if text == "" then Some([])
    else
      match Classify(text[0])
      case Padding => Some([])
      case Unknown => None
      case Digit(e) => Cons(e, Read(text[1..], e))
      case Space => Cons(d, Read(text[1..], d))
  }

  function Cons(d: digit, ds: Option<seq<digit>>): Option<seq<digit>> {
    if ds.None? then None else Some([d] + ds.value)
  }

  lemma {:induction false} CollectIs(s: State, text: string, len: nat)
    requires StateOk(s, len)
    ensures Collect(s, text, len) ==
            match Read(text, s.digit)
            case None => None
            case Some(ds) => Gather(s, ds, len)
    decreases |text|
  {
    if text != "" {
      var c := Classify(text[0]);
      if !c.Padding? && !c.Unknown? {
        var d: digit := if c.Digit? then c.d else s.digit;
        var rest := Read(text[1..], d);
        var r := Push(s, d, len);
        if r.Some? {
          CollectIs(r.value, text[1..], len);
        }
        if rest.Some? {
          assert ([d] + rest.value)[1..] == rest.value;
        }
      }
    }
  }

  /** The decoder, on every text: the bytes that its digits stand for, if they are as many as wanted. */
  lemma DecodeIs(text: string, len: nat)
    ensures Decode(text, len) ==
            match Read(text, 0)
            case None => None
            case Some(ds) => if len <= MAX_KEY && |Value(ds)| == len then Some(Value(ds)) else None
  {
    if len <= MAX_KEY {
      CollectIs(Start(), text, len);
      if Read(text, 0).Some? {
        RestIs(Start(), Read(text, 0).value, len);
        assert [] + Value(Read(text, 0).value) == Value(Read(text, 0).value);
      }
    }
  }
}
