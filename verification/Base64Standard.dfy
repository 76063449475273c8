/** The encoding the decoder is proved against is that of section 4 of RFC 4648: its alphabet, its bits and its padding. */
module Base64Standard {
  import opened Bytes
  import opened Base64

  const UPPER: string := "ABCDEFGHIJKLMNOPQRSTUVWXYZ"
  const LOWER: string := "abcdefghijklmnopqrstuvwxyz"
  const REST: string := "0123456789+/"

  /** The digits are the places in this alphabet, to the encoder and to the decoder. */
  lemma Alphabet(d: digit)
    ensures var ch := if d < 26 then UPPER[d] else if d < 52 then LOWER[d - 26] else REST[d - 52];
            Letter(d) == ch && Classify(ch) == Digit(d)
  {
    if d < 26 {
      UpperCase(d);
    } else if d < 52 {
      LowerCase(d - 26);
    }
  }

  lemma UpperCase(d: digit)
    requires d < 26
    ensures UPPER[d] == 'A' + d as char
  {
  }

  lemma LowerCase(d: digit)
    requires d < 26
    ensures LOWER[d] == 'a' + d as char
  {
  }

  /** Beside the alphabet the decoder knows the padding sign and four kinds of white space, and nothing else. */
  lemma OtherSigns(ch: char)
    ensures Classify(ch).Padding? <==> ch == '='
    ensures Classify(ch).Space? <==> ch == ' ' || ch == '\t' || ch == '\r' || ch == '\n'
    ensures Classify(ch).Unknown? <==>
            !('A' <= ch <= 'Z' || 'a' <= ch <= 'z' || '0' <= ch <= '9') && ch !in ['+', '/', '=', ' ', '\t', '\r', '\n']
  {
  }

  /** Three bytes and four digits are the same 24 bits. */
  lemma ThreeBytes(a: byte, b: byte, c: byte)
    ensures var ds: seq<int> := Digits([a, b, c]);
            |ds| == 4 && ((ds[0] * 64 + ds[1]) * 64 + ds[2]) * 64 + ds[3] == (a * 256 + b) * 256 + c
  {
    assert Digits([a, b, c][3..]) == [];
  }

  /** At the end two bytes are three digits, and one byte is two, with zeros for the bits that are left. */
  lemma LastBytes(a: byte, b: byte)
    ensures var ds: seq<int> := Digits([a, b]); |ds| == 3 && (ds[0] * 64 + ds[1]) * 64 + ds[2] == (a * 256 + b) * 4
    ensures var ds: seq<int> := Digits([a]); |ds| == 2 && ds[0] * 64 + ds[1] == a * 16
  {
  }

  /** Padding fills the text up to whole groups of four, with the fewest signs. */
  lemma Padded(key: seq<byte>)
    ensures |Encode(key)| % 4 == 0 && |Pad(|key|)| < 3
    ensures forall i | 0 <= i < |Pad(|key|)| :: Pad(|key|)[i] == '='
  {
    DigitsFill(key);
  }

  lemma {:induction false} DigitsFill(key: seq<byte>)
    ensures (|Digits(key)| + |Pad(|key|)|) % 4 == 0
  {
    if |key| > 2 {
      DigitsFill(key[3..]);
      PadRepeats(|key| - 3);
      assert |Digits(key)| == 4 + |Digits(key[3..])|;
    }
  }

  lemma PadRepeats(n: nat)
    ensures Pad(n + 3) == Pad(n)
  {
  }
}
