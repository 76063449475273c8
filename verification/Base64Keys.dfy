/** Keys as base64 text: the round trip, and exactly which white space a key file survives. */
module Base64Keys {
  import opened Bytes
  import opened Base64
  import opened Base64Text

  // Keys and digits.

  lemma GroupOfBytes(a: byte, b: byte, c: byte)
    ensures Bytes3(Bits4(a / 4, a % 4 * 16 + b / 16, b % 16 * 4 + c / 64, c % 64)) == [a, b, c]
  {
    var v := Bits4(a / 4, a % 4 * 16 + b / 16, b % 16 * 4 + c / 64, c % 64);
    assert v == a * 65536 + b * 256 + c;
    DivIs(v, 65536, a, b * 256 + c);
    DivIs(v, 256, a * 256 + b, c);
    DivIs(a * 256 + b, 256, a, b);
  }

  lemma ValueOfGroup(d1: digit, d2: digit, d3: digit, d4: digit, rest: seq<digit>)
    ensures Value([d1, d2, d3, d4] + rest) == Bytes3(Bits4(d1, d2, d3, d4)) + Value(rest)
  {
    assert ([d1, d2, d3, d4] + rest)[4..] == rest;
  }

  /** A group of digits in front. */
  lemma ValueOfBytes(a: byte, b: byte, c: byte, rest: seq<digit>, ds: seq<digit>)
    requires ds == [a / 4, a % 4 * 16 + b / 16, b % 16 * 4 + c / 64, c % 64] + rest
    ensures Value(ds) == [a, b, c] + Value(rest)
  {
    ValueOfGroup(a / 4, a % 4 * 16 + b / 16, b % 16 * 4 + c / 64, c % 64, rest);
    GroupOfBytes(a, b, c);
  }

  lemma ValueOfFirst(key: seq<byte>, ds: seq<digit>, rest: seq<digit>)
    requires |key| >= 3 && ds == Digits(key) && rest == Digits(key[3..])
    ensures Value(ds) == [key[0], key[1], key[2]] + Value(rest)
  {
    ValueOfBytes(key[0], key[1], key[2], rest, ds);
  }

  lemma ValueOfOne(a: byte, ds: seq<digit>)
    requires ds == [a / 4, a % 4 * 16]
    ensures Value(ds) == [a]
  {
    OneOfBytes(a);
  }

  lemma ValueOfTwo(a: byte, b: byte, ds: seq<digit>)
    requires ds == [a / 4, a % 4 * 16 + b / 16, b % 16 * 4]
    ensures Value(ds) == [a, b]
  {
    TailOfBytes(a, b);
  }

  lemma ValueOfTail(key: seq<byte>, ds: seq<digit>)
    requires |key| < 3 && ds == Digits(key)
    ensures Value(ds) == key
  {
    if |key| == 1 {
      assert key == [key[0]];
      ValueOfOne(key[0], ds);
    } else if |key| == 2 {
      assert key == [key[0], key[1]];
      ValueOfTwo(key[0], key[1], ds);
    }
  }

  /** Digits of a key stand for the key. */
  lemma {:induction false} ValueOfDigits(key: seq<byte>)
    ensures Value(Digits(key)) == key
  {
    if |key| < 3 {
      ValueOfTail(key, Digits(key));
    } else {
      assert key == [key[0], key[1], key[2]] + key[3..];
      ValueOfDigits(key[3..]);
      ValueOfFirst(key, Digits(key), Digits(key[3..]));
    }
  }

  lemma OneOfBytes(a: byte)
    ensures Bytes1(Bits2(a / 4, a % 4 * 16)) == [a]
  {
    DivIs(Bits2(a / 4, a % 4 * 16), 16, a, 0);
  }

  lemma TailOfBytes(a: byte, b: byte)
    ensures Bytes2(Bits3(a / 4, a % 4 * 16 + b / 16, b % 16 * 4)) == [a, b]
  {
    var v := Bits3(a / 4, a % 4 * 16 + b / 16, b % 16 * 4);
    assert v == a * 1024 + b * 4;
    DivIs(v, 1024, a, b * 4);
    DivIs(v, 4, a * 256 + b, 0);
    DivIs(a * 256 + b, 256, a, b);
  }

  lemma {:induction false} DigitCount(key: seq<byte>)
    ensures |Digits(key)| == |key| / 3 * 4 + if |key| % 3 == 0 then 0 else |key| % 3 + 1
  {
    if |key| >= 3 {
      DigitCount(key[3..]);
    }
  }

  lemma GroupOfDigits(d1: digit, d2: digit, d3: digit, d4: digit)
    ensures var k := Bytes3(Bits4(d1, d2, d3, d4));
            k[0] / 4 == d1 && k[0] % 4 * 16 + k[1] / 16 == d2 && k[1] % 16 * 4 + k[2] / 64 == d3 && k[2] % 64 == d4
  {
    var v := Bits4(d1, d2, d3, d4);
    var x, y, z, w := d2 / 16, d2 % 16, d3 / 4, d3 % 4;
    var a, b, c := 4 * d1 + x, 16 * y + z, 64 * w + d4;
    assert v == a * 65536 + b * 256 + c;
    DivIs(v, 65536, a, b * 256 + c);
    DivIs(v, 256, a * 256 + b, c);
    DivIs(a * 256 + b, 256, a, b);
  }

  lemma DigitsOfBytes(three: seq<byte>, rest: seq<byte>, four: seq<digit>)
    requires |three| == 3
    requires four == [three[0] / 4, three[0] % 4 * 16 + three[1] / 16, three[1] % 16 * 4 + three[2] / 64, three[2] % 64]
    ensures Digits(three + rest) == four + Digits(rest)
  {
    var key := three + rest;
    assert key[0] == three[0] && key[1] == three[1] && key[2] == three[2];
    assert key[3..] == rest;
  }

  lemma DigitsOfGroup(four: seq<digit>, rest: seq<byte>)
    requires |four| == 4
    ensures Digits(Bytes3(Bits4(four[0], four[1], four[2], four[3])) + rest) == four + Digits(rest)
  {
    GroupOfDigits(four[0], four[1], four[2], four[3]);
    DigitsOfBytes(Bytes3(Bits4(four[0], four[1], four[2], four[3])), rest, four);
  }

  /** Whole groups of digits are the digits of what they stand for: no two say the same. */
  lemma {:induction false} DigitsOfValue(ds: seq<digit>)
    requires |ds| % 4 == 0
    ensures Digits(Value(ds)) == ds
  {
    if ds != [] {
      var four := ds[..4];
      assert ds == four + ds[4..];
      DigitsOfValue(ds[4..]);
      DigitsOfGroup(four, Value(ds[4..]));
    }
  }

  lemma SameFront(a: seq<digit>, b: seq<digit>)
    requires |a| >= 4 && |b| >= 4 && a[0] == b[0] && a[1] == b[1] && a[2] == b[2] && a[3] == b[3]
    requires Value(a[4..]) == Value(b[4..])
    ensures Value(a) == Value(b)
  {
  }

  /** A digit too many stands for nothing. */
  lemma {:induction false} ValueOfOneMore(seen: seq<digit>, ds: seq<digit>, groups: nat)
    requires |ds| == 4 * groups && |seen| == |ds| + 1 && ds == seen[..|ds|]
    ensures Value(seen) == Value(ds)
    decreases groups
  {
    if groups > 0 {
      assert seen[4..][..|ds| - 4] == ds[4..];
      ValueOfOneMore(seen[4..], ds[4..], groups - 1);
      SameFront(seen, ds);
    }
  }

  // Letters and digits.

  lemma LetterIsDigit(d: digit)
    ensures Classify(Letter(d)) == Digit(d)
  {
  }

  function Last(ds: seq<digit>, d: digit): digit {
    if ds == [] then d else ds[|ds| - 1]
  }

  function Append(ds: seq<digit>, rest: Option<seq<digit>>): Option<seq<digit>> {
    if rest.None? then None else Some(ds + rest.value)
  }

  lemma AppendCons(d: digit, ds: seq<digit>, rest: Option<seq<digit>>)
    ensures Cons(d, Append(ds, rest)) == Append([d] + ds, rest)
  {
    if rest.Some? {
      assert [d] + (ds + rest.value) == ([d] + ds) + rest.value;
    }
  }

  lemma ReadLetter(e: digit, rest: string, d: digit)
    ensures Read([Letter(e)] + rest, d) == Cons(e, Read(rest, e))
  {
    LetterIsDigit(e);
    assert ([Letter(e)] + rest)[1..] == rest;
  }

  lemma {:induction false} ReadLetters(ds: seq<digit>, rest: string, d: digit)
    ensures Read(Letters(ds) + rest, d) == Append(ds, Read(rest, Last(ds, d)))
    decreases |ds|
  {
    if ds == [] {
      assert Letters(ds) + rest == rest;
      assert Read(rest, d).Some? ==> [] + Read(rest, d).value == Read(rest, d).value;
    } else {
      assert Letters(ds) + rest == [Letter(ds[0])] + (Letters(ds[1..]) + rest);
      ReadLetter(ds[0], Letters(ds[1..]) + rest, d);
      ReadLetters(ds[1..], rest, ds[0]);
      AppendCons(ds[0], ds[1..], Read(rest, Last(ds, d)));
      assert [ds[0]] + ds[1..] == ds;
    }
  }

  /** A text with one white space in it. */
  lemma ReadBroken(text: string, a: seq<digit>, space: char, b: seq<digit>)
    requires Classify(space).Space? && text == Letters(a) + ([space] + Letters(b))
    ensures Read(text, 0) == Some(a + ([Last(a, 0)] + b))
  {
    var x := Last(a, 0);
    ReadLetters(a, [space] + Letters(b), 0);
    assert ([space] + Letters(b))[1..] == Letters(b);
    assert Letters(b) + "" == Letters(b);
    ReadLetters(b, "", x);
    assert b + [] == b;
  }

  lemma ReadPad(n: nat, d: digit)
    ensures Read(Pad(n), d) == Some([])
  {
  }

  /** Decoding the encoding of a key restores it. */
  lemma RoundTrip(key: seq<byte>)
    requires |key| <= MAX_KEY
    ensures Decode(Encode(key), |key|) == Some(key)
  {
    var ds := Digits(key);
    ReadLetters(ds, Pad(|key|), 0);
    ReadPad(|key|, Last(ds, 0));
    assert ds + [] == ds;
    DecodeIs(Encode(key), |key|);
    ValueOfDigits(key);
  }

  // White space.

  /** The text with every white space replaced by the letter before it. */
  function Repeated(text: string, before: char): string {
    if text == "" then ""
    else
      match Classify(text[0])
      case Space => [before] + Repeated(text[1..], before)
      case _ => [text[0]] + Repeated(text[1..], text[0])
  }

  lemma {:induction false} ReadRepeated(text: string, d: digit)
    ensures Read(Repeated(text, Letter(d)), d) == Read(text, d)
    decreases |text|
  {
    if text != "" {
      var c := Classify(text[0]);
      var rest := Repeated(text[1..], if c.Space? then Letter(d) else text[0]);
      var all := Repeated(text, Letter(d));
      assert all[1..] == rest;
      if c.Space? {
        LetterIsDigit(d);
        ReadRepeated(text[1..], d);
      } else if c.Digit? {
        DigitIsLetter(text[0]);
        ReadRepeated(text[1..], c.d);
      }
    }
  }

  lemma DigitIsLetter(ch: char)
    requires Classify(ch).Digit?
    ensures Letter(Classify(ch).d) == ch
  {
  }

  /** White space is not skipped: it counts as the letter before it once more, as 'A' at the start. */
  lemma SpacesRepeat(text: string, len: nat)
    ensures Decode(text, len) == Decode(Repeated(text, 'A'), len)
  {
    DecodeIs(text, len);
    DecodeIs(Repeated(text, 'A'), len);
    assert Letter(0) == 'A';
    ReadRepeated(text, 0);
  }

  lemma BrokenText()
    ensures Letters([16, 20, 9, 3]) == "QUJD"
    ensures Read("QU\nJD", 0) == Some([16, 20, 20, 9, 3])
  {
    Letters4(16, 20, 9, 3);
    var a: seq<digit>, b: seq<digit> := [16, 20], [9, 3];
    Letters2(16, 20);
    Letters2(9, 3);
    assert "QU\nJD" == Letters(a) + (['\n'] + Letters(b));
    ReadBroken("QU\nJD", a, '\n', b);
    assert a + ([Last(a, 0)] + b) == [16, 20, 20, 9, 3];
  }

  lemma BrokenValues()
    ensures Digits([65, 66, 67]) == [16, 20, 9, 3]
    ensures Value([16, 20, 20, 9, 3]) == [65, 69, 9]
  {
    var key: seq<byte>, ds: seq<digit>, seen: seq<digit> := [65, 66, 67], [16, 20, 9, 3], [16, 20, 20, 9];
    assert key[3..] == [];
    assert Digits(key) == ds + Digits(key[3..]) && ds + [] == ds;
    assert seen + [3] == [16, 20, 20, 9, 3];
    ValueOfGroup(16, 20, 20, 9, [3]);
    assert Value([3]) == [];
  }

  /** A line break inside a key is not an error: another key is loaded. */
  lemma BrokenLine()
    ensures Encode([65, 66, 67]) == "QUJD"
    ensures Decode("QU\nJD", 3) == Some([65, 69, 9])
  {
    BrokenText();
    BrokenValues();
    DecodeIs("QU\nJD", 3);
  }

  lemma Letters2(d1: digit, d2: digit)
    ensures Letters([d1, d2]) == [Letter(d1), Letter(d2)]
  {
    assert [d1, d2][1..] == [d2] && [d2][1..] == [];
  }

  lemma Letters4(d1: digit, d2: digit, d3: digit, d4: digit)
    ensures Letters([d1, d2, d3, d4]) == [Letter(d1), Letter(d2), Letter(d3), Letter(d4)]
  {
    assert [d1, d2, d3, d4][1..] == [d2, d3, d4] && [d2, d3, d4][1..] == [d3, d4];
    Letters2(d3, d4);
  }

  // Which white space a key survives.

  predicate IsSpace(ch: char) {
    Classify(ch).Space?
  }

  /** The text without its white space. */
  function Strip(text: string): string {
    if text == "" then ""
    else if IsSpace(text[0]) then Strip(text[1..])
    else [text[0]] + Strip(text[1..])
  }

  /** The text in front of the padding. */
  function Head(text: string): string {
    if text == "" || Classify(text[0]).Padding? then "" else [text[0]] + Head(text[1..])
  }

  function Spaces(text: string): nat {
    if text == "" then 0 else (if IsSpace(text[0]) then 1 else 0) + Spaces(text[1..])
  }

  /** The letter that white space at `p` repeats. */
  function Before(text: string, p: nat): char
    requires p <= |text|
  {
    if p == 0 then 'A' else text[p - 1]
  }

  /** Only at `p` there is white space, and every letter behind it is the letter before it. */
  ghost predicate RepeatsFrom(text: string, p: nat) {
    && p < |text| && IsSpace(text[p])
    && Spaces(text[..p]) == 0
    && forall j :: p < j < |text| ==> text[j] == Before(text, p)
  }

  lemma {:induction false} ReadHead(text: string, d: digit)
    ensures Read(text, d) == Read(Head(text), d)
    decreases |text|
  {
    if text != "" && !Classify(text[0]).Padding? {
      assert Head(text)[1..] == Head(text[1..]);
      match Classify(text[0])
      case Digit(e) => ReadHead(text[1..], e);
      case Space => ReadHead(text[1..], d);
      case _ =>
    }
  }

  lemma {:induction false} StripHead(text: string)
    ensures Strip(Head(text)) == Head(Strip(text))
  {
    if text != "" && !Classify(text[0]).Padding? {
      StripHead(text[1..]);
      assert Head(text)[1..] == Head(text[1..]);
      if !IsSpace(text[0]) {
        assert Strip(text)[1..] == Strip(text[1..]);
      }
    }
  }

  lemma {:induction false} HeadOfLetters(ds: seq<digit>, rest: string)
    requires rest == "" || Classify(rest[0]).Padding?
    ensures Head(Letters(ds) + rest) == Letters(ds)
    decreases |ds|
  {
    var text := Letters(ds) + rest;
    if ds == [] {
      assert text == rest;
    } else {
      LetterIsDigit(ds[0]);
      assert text[0] == Letter(ds[0]) && text[1..] == Letters(ds[1..]) + rest;
      HeadOfLetters(ds[1..], rest);
    }
  }

  lemma {:induction false} StripCount(text: string)
    ensures |text| == |Strip(text)| + Spaces(text)
    ensures Spaces(text) == 0 ==> Strip(text) == text
  {
    if text != "" {
      StripCount(text[1..]);
    }
  }

  /** Every character counts. */
  lemma {:induction false} ReadCount(text: string, ds: seq<digit>, d: digit)
    requires Strip(text) == Letters(ds)
    ensures Read(text, d).Some? && |Read(text, d).value| == |text|
    decreases |text|
  {
    if text != "" {
      if IsSpace(text[0]) {
        ReadCount(text[1..], ds, d);
      } else {
        assert text[0] == Letters(ds)[0] == Letter(ds[0]);
        LetterIsDigit(ds[0]);
        assert Strip(text)[1..] == Letters(ds)[1..] == Letters(ds[1..]);
        ReadCount(text[1..], ds[1..], ds[0]);
      }
    }
  }

  /** Only one more digit behind whole groups leaves the number of bytes as it is. */
  lemma CountsAgree(n: nat, w: nat)
    ensures ByteCount(n / 3 * 4 + (if n % 3 == 0 then 0 else n % 3 + 1) + w) == n <==> w == 0 || (n % 3 == 0 && w == 1)
  {
    var k, r := n / 3, n % 3;
    var t := (if r == 0 then 0 else r + 1) + w;
    DivIs(4 * k + t, 4, k + t / 4, t % 4);
  }

  lemma {:induction false} SpacesSplit(text: string, p: nat)
    requires p <= |text|
    ensures Spaces(text) == Spaces(text[..p]) + Spaces(text[p..])
    ensures Strip(text) == Strip(text[..p]) + Strip(text[p..])
  {
    if p == 0 {
      assert text[..0] == "" && text[0..] == text;
    } else {
      SpacesSplit(text[1..], p - 1);
      assert text[..p][1..] == text[1..][..p - 1];
      assert text[p..] == text[1..][p - 1..];
      assert [text[0]] + (Strip(text[..p][1..]) + Strip(text[p..])) == [text[0]] + Strip(text[..p][1..]) + Strip(text[p..]);
    }
  }

  lemma {:induction false} NoSpaces(text: string)
    ensures Spaces(text) == 0 <==> forall j :: 0 <= j < |text| ==> !IsSpace(text[j])
  {
    if text != "" {
      NoSpaces(text[1..]);
      assert forall j :: 1 <= j < |text| ==> text[j] == text[1..][j - 1];
    }
  }

  lemma {:induction false} FindSpace(text: string) returns (p: nat)
    requires Spaces(text) > 0
    ensures p < |text| && IsSpace(text[p]) && Spaces(text[..p]) == 0
  {
    if IsSpace(text[0]) {
      p := 0;
    } else {
      var q := FindSpace(text[1..]);
      p := q + 1;
      assert text[..p][1..] == text[1..][..q];
    }
  }

  lemma SpaceInFront(tail: string)
    requires tail != "" && IsSpace(tail[0]) && Spaces(tail) == 1
    ensures Strip(tail) == tail[1..]
  {
    StripCount(tail[1..]);
  }

  /** Around the only white space. */
  lemma OnlySpace(text: string, p: nat)
    requires Spaces(text) == 1 && p < |text| && IsSpace(text[p]) && Spaces(text[..p]) == 0
    ensures Strip(text) == text[..p] + text[p + 1..]
  {
    SpacesSplit(text, p);
    StripCount(text[..p]);
    var tail := text[p..];
    assert tail[0] == text[p];
    SpaceInFront(tail);
    assert tail[1..] == text[p + 1..];
  }

  lemma SpaceNotBefore(text: string, p: nat, q: nat)
    requires p < |text| && IsSpace(text[p]) && q <= |text| && Spaces(text[..q]) == 0
    ensures q <= p
  {
    NoSpaces(text[..q]);
    forall j | 0 <= j < q
      ensures !IsSpace(text[j])
    {
      assert text[..q][j] == text[j];
    }
  }

  lemma RepeatsHasOne(text: string, p: nat)
    requires RepeatsFrom(text, p)
    ensures Spaces(text) == 1
  {
    var tail := text[p..];
    SpacesSplit(text, p);
    assert tail[1..] == text[p + 1..];
    NoSpaces(text[..p]);
    assert p > 0 ==> text[..p][p - 1] == text[p - 1];
    NoSpaces(text[p + 1..]);
  }

  lemma {:induction false} LettersAt(ds: seq<digit>, j: nat)
    requires j < |ds|
    ensures Letters(ds)[j] == Letter(ds[j])
  {
    if j > 0 {
      LettersAt(ds[1..], j - 1);
    }
  }

  lemma {:induction false} LettersSplit(ds: seq<digit>, p: nat)
    requires p <= |ds|
    ensures Letters(ds)[..p] == Letters(ds[..p]) && Letters(ds)[p..] == Letters(ds[p..])
  {
    if p > 0 {
      LettersSplit(ds[1..], p - 1);
      assert ds[..p][1..] == ds[1..][..p - 1];
      assert ds[p..] == ds[1..][p - 1..];
      assert Letters(ds)[..p] == [Letter(ds[0])] + Letters(ds[1..])[..p - 1];
      assert Letters(ds)[p..] == Letters(ds[1..])[p - 1..];
    } else {
      assert ds[..0] == [] && ds[0..] == ds;
    }
  }

  /** Moving digits up by one leaves them as they are only if they are all alike. */
  lemma {:induction false} AllAlike(x: digit, ds: seq<digit>)
    ensures ([x] + ds)[..|ds|] == ds <==> forall j :: 0 <= j < |ds| ==> ds[j] == x
  {
    var up := [x] + ds;
    if up[..|ds|] == ds {
      forall j | 0 <= j < |ds|
        ensures ds[j] == x
      {
        AlikeUpTo(x, ds, j);
      }
    }
  }

  lemma {:induction false} AlikeUpTo(x: digit, ds: seq<digit>, j: nat)
    requires ([x] + ds)[..|ds|] == ds && j < |ds|
    ensures ds[j] == x
  {
    var up := ([x] + ds)[..|ds|];
    if j > 0 {
      AlikeUpTo(x, ds, j - 1);
      assert up[j] == ds[j - 1];
    } else {
      assert up[0] == x;
    }
  }

  /** The letters around the only white space. */
  lemma AroundSpace(text: string, ds: seq<digit>, p: nat)
    requires Strip(text) == Letters(ds) && Spaces(text) == 1
    requires p < |text| && IsSpace(text[p]) && Spaces(text[..p]) == 0
    ensures p <= |ds| && |text| == |ds| + 1
    ensures text[..p] == Letters(ds[..p]) && text[p + 1..] == Letters(ds[p..])
  {
    OnlySpace(text, p);
    var front, back := text[..p], text[p + 1..];
    assert |Letters(ds)| == |front| + |back|;
    assert (front + back)[..p] == front && (front + back)[p..] == back;
    LettersSplit(ds, p);
  }

  /** The digits with the one before `p` repeated. */
  function Seen(ds: seq<digit>, p: nat): (seen: seq<digit>)
    requires p <= |ds|
    ensures |seen| == |ds| + 1
  {
    ds[..p] + ([Last(ds[..p], 0)] + ds[p..])
  }

  lemma SplitAt(text: string, p: nat)
    requires p < |text|
    ensures text == text[..p] + ([text[p]] + text[p + 1..])
  {
  }

  lemma ReadAround(text: string, ds: seq<digit>, p: nat)
    requires p < |text| && IsSpace(text[p]) && p <= |ds|
    requires text[..p] == Letters(ds[..p]) && text[p + 1..] == Letters(ds[p..])
    ensures Read(text, 0) == Some(Seen(ds, p))
  {
    SplitAt(text, p);
    ReadBroken(text, ds[..p], text[p], ds[p..]);
  }

  lemma RepeatsInDigits(text: string, ds: seq<digit>, p: nat)
    requires p < |text| && IsSpace(text[p]) && Spaces(text[..p]) == 0 && p <= |ds| && |text| == |ds| + 1
    requires text[..p] == Letters(ds[..p]) && text[p + 1..] == Letters(ds[p..])
    ensures RepeatsFrom(text, p) <==> forall j :: 0 <= j < |ds| - p ==> ds[p..][j] == Last(ds[..p], 0)
  {
    var x, tail := Last(ds[..p], 0), ds[p..];
    assert Before(text, p) == Letter(x) by {
      if p > 0 {
        LettersAt(ds[..p], p - 1);
        assert text[..p][p - 1] == text[p - 1];
      }
    }
    forall j | 0 <= j < |tail|
      ensures text[p + 1 + j] == Letter(tail[j])
    {
      LettersAt(tail, j);
      assert text[p + 1..][j] == text[p + 1 + j];
    }
    LettersAlike(text, p, tail, x);
  }

  lemma LettersAlike(text: string, p: nat, tail: seq<digit>, x: digit)
    requires |text| == p + 1 + |tail| && forall j :: 0 <= j < |tail| ==> text[p + 1 + j] == Letter(tail[j])
    ensures (forall j :: p < j < |text| ==> text[j] == Letter(x)) <==> (forall j :: 0 <= j < |tail| ==> tail[j] == x)
  {
    if forall j :: p < j < |text| ==> text[j] == Letter(x) {
      forall j | 0 <= j < |tail|
        ensures tail[j] == x
      {
        assert text[p + 1 + j] == Letter(x);
        LetterIsDigit(tail[j]);
        LetterIsDigit(x);
      }
    }
    if forall j :: 0 <= j < |tail| ==> tail[j] == x {
      forall j | p < j < |text|
        ensures text[j] == Letter(x)
      {
        assert text[p + 1 + (j - p - 1)] == Letter(tail[j - p - 1]);
      }
    }
  }

  lemma SameValue(a: seq<digit>, b: seq<digit>)
    requires |a| % 4 == 0 && |b| % 4 == 0
    ensures Value(a) == Value(b) <==> a == b
  {
    DigitsOfValue(a);
    DigitsOfValue(b);
  }

  lemma UpByOne(head: seq<digit>, x: digit, tail: seq<digit>)
    ensures (head + ([x] + tail))[..|head + tail|] == head + tail <==> ([x] + tail)[..|tail|] == tail
  {
    var up := ([x] + tail)[..|tail|];
    assert (head + ([x] + tail))[..|head + tail|] == head + up;
    assert (head + up)[|head|..] == up && (head + tail)[|head|..] == tail;
  }

  lemma SeenAlike(ds: seq<digit>, p: nat)
    requires p <= |ds|
    ensures Seen(ds, p)[..|ds|] == ds <==> forall j :: 0 <= j < |ds| - p ==> ds[p..][j] == Last(ds[..p], 0)
  {
    assert ds == ds[..p] + ds[p..];
    UpByOne(ds[..p], Last(ds[..p], 0), ds[p..]);
    AllAlike(Last(ds[..p], 0), ds[p..]);
  }

  lemma OneMoreValue(seen: seq<digit>, front: seq<digit>, ds: seq<digit>)
    requires |ds| % 4 == 0 && |seen| == |ds| + 1 && front == seen[..|ds|]
    ensures Value(seen) == Value(ds) <==> front == ds
  {
    ValueOfOneMore(seen, front, |ds| / 4);
    SameValue(front, ds);
  }

  /** One white space in whole groups of letters. */
  lemma OneSpaceValue(text: string, ds: seq<digit>, p: nat)
    requires Strip(text) == Letters(ds) && Spaces(text) == 1 && |ds| % 4 == 0
    requires p < |text| && IsSpace(text[p]) && Spaces(text[..p]) == 0
    ensures p <= |ds| && Read(text, 0) == Some(Seen(ds, p))
    ensures Value(Seen(ds, p)) == Value(ds) <==> RepeatsFrom(text, p)
  {
    AroundSpace(text, ds, p);
    ReadAround(text, ds, p);
    RepeatsInDigits(text, ds, p);
    SeenAlike(ds, p);
    OneMoreValue(Seen(ds, p), Seen(ds, p)[..|ds|], ds);
  }

  lemma OneSpaceDecides(text: string, ds: seq<digit>)
    requires Strip(text) == Letters(ds) && Spaces(text) == 1 && |ds| % 4 == 0
    ensures Read(text, 0).Some?
    ensures Value(Read(text, 0).value) == Value(ds) <==> exists p :: RepeatsFrom(text, p)
  {
    var p := FindSpace(text);
    OneSpaceValue(text, ds, p);
    if exists q :: RepeatsFrom(text, q) {
      var q :| RepeatsFrom(text, q);
      SpaceNotBefore(text, p, q);
      SpaceNotBefore(text, q, p);
    }
  }

  /** As many bytes come out as the letters alone would bring. */
  lemma SpacedLength(text: string, ds: seq<digit>, seen: seq<digit>, n: nat)
    requires Strip(text) == Letters(ds) && Read(text, 0) == Some(seen)
    requires |ds| == n / 3 * 4 + if n % 3 == 0 then 0 else n % 3 + 1
    ensures |Value(seen)| == n <==> Spaces(text) == 0 || (n % 3 == 0 && Spaces(text) == 1)
  {
    ReadCount(text, ds, 0);
    StripCount(text);
    ValueLength(seen);
    CountsAgree(n, Spaces(text));
  }

  lemma NoSpaceReads(text: string, ds: seq<digit>)
    requires Strip(text) == Letters(ds) && Spaces(text) == 0
    ensures Read(text, 0) == Some(ds)
  {
    StripCount(text);
    assert Letters(ds) + "" == Letters(ds) && ds + [] == ds;
    ReadLetters(ds, "", 0);
  }

  /** No white space; or one, in a key without padding, with nothing but repetition behind it. */
  ghost predicate Survives(text: string, n: nat) {
    Spaces(text) == 0 || (n % 3 == 0 && exists p :: RepeatsFrom(text, p))
  }

  lemma WholeGroups(n: nat, m: nat)
    requires n % 3 == 0 && m == n / 3 * 4
    ensures m % 4 == 0
  {
    DivIs(m, 4, n / 3, 0);
  }

  lemma TooManySpaces(text: string, n: nat)
    requires Spaces(text) > 0 && !(n % 3 == 0 && Spaces(text) == 1)
    ensures !Survives(text, n)
  {
    if exists q :: RepeatsFrom(text, q) {
      var q :| RepeatsFrom(text, q);
      RepeatsHasOne(text, q);
    }
  }

  lemma OneSpaceSurvives(text: string, ds: seq<digit>, seen: seq<digit>, n: nat)
    requires Strip(text) == Letters(ds) && Spaces(text) == 1 && |ds| % 4 == 0 && n % 3 == 0 && Read(text, 0) == Some(seen)
    ensures Value(seen) == Value(ds) <==> Survives(text, n)
  {
    OneSpaceDecides(text, ds);
  }

  /** Of a text in front of the padding. */
  lemma SpacedValue(text: string, ds: seq<digit>, seen: seq<digit>, key: seq<byte>)
    requires Strip(text) == Letters(ds) && Value(ds) == key && Read(text, 0) == Some(seen)
    requires |ds| == |key| / 3 * 4 + if |key| % 3 == 0 then 0 else |key| % 3 + 1
    ensures Value(seen) == key <==> Survives(text, |key|)
  {
    if Spaces(text) == 0 {
      NoSpaceReads(text, ds);
    } else if Spaces(text) == 1 && |key| % 3 == 0 {
      WholeGroups(|key|, |ds|);
      OneSpaceSurvives(text, ds, seen, |key|);
    } else {
      SpacedLength(text, ds, seen, |key|);
      TooManySpaces(text, |key|);
    }
  }

  /**
   The text of a key with white space in it is decoded to the key exactly when no white space stands in
   front of the padding, or there is no padding, one white space, and nothing behind it but the letter
   before it. One line break at the very end of a key without padding is of the second kind.
   */
  lemma WhiteSpace(text: string, key: seq<byte>)
    requires |key| <= MAX_KEY && Strip(text) == Encode(key)
    ensures Decode(text, |key|) == Some(key) <==> Survives(Head(text), |key|)
  {
    ReadHead(text, 0);
    StripHead(text);
    HeadOfLetters(Digits(key), Pad(|key|));
    ValueOfDigits(key);
    DigitCount(key);
    ReadCount(Head(text), Digits(key), 0);
    SpacedValue(Head(text), Digits(key), Read(Head(text), 0).value, key);
    DecodeIs(text, |key|);
  }
}
