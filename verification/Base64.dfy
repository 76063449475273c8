/** Loading a public key: the base64 decoder, against the encoding of section 4 of RFC 4648. */
module Base64 {
  import opened Bytes

  const MAX_KEY: nat := 2048

  /** The 32 bits of `group`. */
  const WORD: nat := 0x1_0000_0000

  /** Six bits. */
  type digit = d: int | 0 <= d < 64

  // The encoding.

  function Letter(d: digit): char {
    if d < 26 then 'A' + d as char
    else if d < 52 then 'a' + (d - 26) as char
    else if d < 62 then '0' + (d - 52) as char
    else if d == 62 then '+'
    else '/'
  }

  function Letters(ds: seq<digit>): (text: string)
    ensures |text| == |ds|
  {
    if ds == [] then "" else [Letter(ds[0])] + Letters(ds[1..])
  }

  /** Three bytes are four digits; the bits left over at the end are filled up with zeros. */
  function Digits(key: seq<byte>): (ds: seq<digit>) {
    if key == [] then []
    else if |key| == 1 then [key[0] / 4, key[0] % 4 * 16]
    else if |key| == 2 then [key[0] / 4, key[0] % 4 * 16 + key[1] / 16, key[1] % 16 * 4]
    else
      [key[0] / 4, key[0] % 4 * 16 + key[1] / 16, key[1] % 16 * 4 + key[2] / 64, key[2] % 64] + Digits(key[3..])
  }

  function Pad(n: nat): string {
    if n % 3 == 0 then "" else if n % 3 == 1 then "==" else "="
  }

  function Encode(key: seq<byte>): string {
    Letters(Digits(key)) + Pad(|key|)
  }

  // The decoder.

  /** A digit, the padding, white space (which repeats the last digit), or nothing known. */
  datatype Class = Digit(d: digit) | Padding | Space | Unknown

  function Classify(ch: char): Class {
    if 'A' <= ch <= 'Z' then Digit((ch - 'A') as nat)
    else if 'a' <= ch <= 'z' then Digit((ch - 'a') as nat + 26)
    else if '0' <= ch <= '9' then Digit((ch - '0') as nat + 52)
    else if ch == '+' then Digit(62)
    else if ch == '/' then Digit(63)
    else if ch == '=' then Padding
    else if ch == ' ' || ch == '\t' || ch == '\r' || ch == '\n' then Space
    else Unknown
  }

  /** The decoder between two characters: the bits collected, how many digits of a group, the last digit, the key so far. */
  datatype State = State(group: nat, size: nat, digit: digit, out: seq<byte>)

  predicate StateOk(s: State, len: nat) {
    s.group < WORD && s.size < 4 && |s.out| <= len
  }

  function Shift(group: nat, d: digit): (r: nat)
    ensures r < WORD
  {
    (group * 64 + d) % WORD
  }

  function Push(s: State, d: digit, len: nat): (r: Option<State>)
    requires StateOk(s, len)
    ensures r.Some? ==> StateOk(r.value, len)
  {
    var group := Shift(s.group, d);
    if s.size < 3 then Some(State(group, s.size + 1, d, s.out))
    else if len - |s.out| < 3 then None
    else Some(State(group, 0, d, s.out + [group / 65536 % 256, group / 256 % 256, group % 256]))
  }

  /** The characters up to the padding or the end of the file; nothing if one is refused. */
  function Collect(s: State, text: string, len: nat): (r: Option<State>)
    requires StateOk(s, len)
    ensures r.Some? ==> StateOk(r.value, len)
    decreases |text|
  {
    if text == "" then Some(s)
    else
      var c := Classify(text[0]);
      if c.Padding? then Some(s)
      else if c.Unknown? then None
      else
        var r := Push(s, if c.Digit? then c.d else s.digit, len);
        if r.None? then None else Collect(r.value, text[1..], len)
  }

  /** The bytes of an incomplete group. */
  function Finish(s: State, len: nat): (r: Option<seq<byte>>)
    requires StateOk(s, len)
    ensures r.Some? ==> |r.value| == len
  {
    var out :=
      if s.size == 3 then s.out + [s.group / 1024 % 256, s.group / 4 % 256]
      else if s.size == 2 then s.out + [s.group / 16 % 256]
      else s.out;
    if |out| == len then Some(out) else None
  }

  function Start(): State {
    State(0, 0, 0, [])
  }

  function Decode(text: string, len: nat): (r: Option<seq<byte>>)
    ensures r.Some? ==> |r.value| == len <= MAX_KEY
  {
    if len > MAX_KEY then None
    else
      var s := Collect(Start(), text, len);
      if s.None? then None else Finish(s.value, len)
  }

  // The loader.

  /** The key array holds what the decoder has produced, and is untouched from `len` on. */
  ghost predicate Holds(key: array<byte>, was: seq<byte>, s: State, posn: nat, len: nat)
    reads key
  {
    && StateOk(s, len) && posn == |s.out| && len <= key.Length == |was|
    && key[..posn] == s.out && key[len..] == was[len..]
  }

  method Put(key: array<byte>, posn: nat, x: byte, ghost was: seq<byte>, ghost out: seq<byte>, ghost len: nat)
    requires posn == |out| < len <= key.Length == |was| && key[..posn] == out && key[len..] == was[len..]
    modifies key
    ensures key[..posn + 1] == out + [x] && key[len..] == was[len..]
  {
    key[posn] := x;
  }

  /** One digit: it joins the group, and a full group goes to the key. */
  method TakeDigit(key: array<byte>, group: nat, size: nat, d: digit, posn: nat, len: nat, ghost was: seq<byte>, ghost s: State)
    returns (ok: bool, group': nat, size': nat, posn': nat, ghost s': State)
    requires Holds(key, was, s, posn, len) && s.group == group && s.size == size
    modifies key
    ensures ok == Push(s, d, len).Some?
    ensures ok ==> s' == Push(s, d, len).value && Holds(key, was, s', posn', len) && s'.group == group' && s'.size == size'
    ensures ok || key[len..] == was[len..]
  {
    group', size', posn', s' := Shift(group, d), size + 1, posn, s;
    ok := true;
    if size' >= 4 {
      if len - posn < 3 {
        ok := false;
        return;
      }
      size' := 0;
      var a, b, c := group' / 65536 % 256, group' / 256 % 256, group' % 256;
      Put(key, posn, a, was, s.out, len);
      Put(key, posn + 1, b, was, s.out + [a], len);
      Put(key, posn + 2, c, was, s.out + [a] + [b], len);
      assert s.out + [a] + [b] + [c] == s.out + [a, b, c];
      posn' := posn + 3;
    }
    s' := Push(s, d, len).value;
  }

  /** The bytes of an incomplete group. */
  method TakeRest(key: array<byte>, group: nat, size: nat, posn: nat, len: nat, ghost was: seq<byte>, ghost s: State) returns (ok: bool)
    requires Holds(key, was, s, posn, len) && s.group == group && s.size == size
    modifies key
    ensures ok == Finish(s, len).Some?
    ensures ok ==> key[..len] == Finish(s, len).value
    ensures key[len..] == was[len..]
  {
    var p := posn;
    if size == 3 {
      if len - p < 2 {
        return false;
      }
      var a, b := group / 1024 % 256, group / 4 % 256;
      Put(key, p, a, was, s.out, len);
      Put(key, p + 1, b, was, s.out + [a], len);
      assert s.out + [a] + [b] == s.out + [a, b];
      p := p + 2;
    } else if size == 2 {
      if len - p < 1 {
        return false;
      }
      Put(key, p, group / 16 % 256, was, s.out, len);
      p := p + 1;
    }
    return p >= len;
  }

  /** ngx_noise_protocol_load_public_key: on success exactly `len` bytes of the key are written, and none behind. */
  method LoadPublicKey(text: string, key: array<byte>, len: nat) returns (ok: bool)
    requires len <= key.Length
    modifies key
    ensures ok <==> Decode(text, len).Some?
    ensures ok ==> key[..len] == Decode(text, len).value
    ensures key[len..] == old(key[len..])
  {
    if len > MAX_KEY {
      return false;
    }
    ghost var was := key[..];
    assert key[len..] == was[len..];
    var group, size, posn, digit, i := 0, 0, 0, 0, 0;
    ghost var s := Start();
    while i < |text|
      invariant 0 <= i <= |text| && Holds(key, was, s, posn, len) && s.group == group && s.size == size && s.digit == digit
      invariant Collect(s, text[i..], len) == Collect(Start(), text, len)
    {
      var c := Classify(text[i]);
      assert text[i..][1..] == text[i + 1..];
      if c.Padding? {
        break;
      }
      if c.Unknown? {
        return false;
      }
      if c.Digit? {
        digit := c.d;
      }
      ok, group, size, posn, s := TakeDigit(key, group, size, digit, posn, len, was, s);
      if !ok {
        return;
      }
      i := i + 1;
    }
    ok := TakeRest(key, group, size, posn, len, was, s);
  }
}
