/**
  Unpadded base64url (section 5 of RFC 4648; padding as in section 3.2): the encoder strips the padding,
  the decoder puts it back and hands the text to a lenient decoder that skips foreign characters.
*/
module Base64Url {
  import opened Common

  type Byte = b: int | 0 <= b < 256
  type Sextet = s: int | 0 <= s < 64

  /** Table 2 of RFC 4648. */
  function ToChar(s: Sextet): char {
    if s < 26 then 'A' + (s as char)
    else if s < 52 then 'a' + ((s - 26) as char)
    else if s < 62 then '0' + ((s - 52) as char)
    else if s == 62 then '-'
    else '_'
  }

  /** The decoder's table: the url-safe alphabet and, because of the translation before it, the plain one too. */
  function FromChar(c: char): Option<Sextet> {
    if 'A' <= c <= 'Z' then Some((c - 'A') as int)
    else if 'a' <= c <= 'z' then Some((c - 'a') as int + 26)
    else if '0' <= c <= '9' then Some((c - '0') as int + 52)
    else if c == '-' || c == '+' then Some(62)
    else if c == '_' || c == '/' then Some(63)
    else None
  }

  lemma AlphabetIsInverted(s: Sextet)
    ensures FromChar(ToChar(s)) == Some(s)
    ensures ToChar(s) < 128 as char && ToChar(s) != '=' && ToChar(s) != '.'
  {
  }

  /** The encoder with the padding stripped. */
  function Encode(bytes: seq<Byte>): string {
    if |bytes| == 0 then ""
    else if |bytes| == 1 then
      [ToChar(bytes[0] / 4), ToChar(bytes[0] % 4 * 16)]
    else if |bytes| == 2 then
      [ToChar(bytes[0] / 4), ToChar(bytes[0] % 4 * 16 + bytes[1] / 16), ToChar(bytes[1] % 16 * 4)]
    else
      [ToChar(bytes[0] / 4), ToChar(bytes[0] % 4 * 16 + bytes[1] / 16),
       ToChar(bytes[1] % 16 * 4 + bytes[2] / 64), ToChar(bytes[2] % 64)]
      + Encode(bytes[3..])
  }

  /** Where the decoder stands: position in the current quad, bits left over, padding characters seen. */
  datatype Scanner = Scanner(quad: nat, left: int, pads: nat)

  predicate Sane(s: Scanner) {
    && s.quad < 4
    && 0 <= s.left < (if s.quad == 1 then 64 else if s.quad == 2 then 16 else if s.quad == 3 then 4 else 1)
  }

  /** One pass over the characters; None is the decoder's error. */
  function Scan(text: string, s: Scanner): Option<seq<Byte>>
    requires Sane(s)
    decreases |text|
  {
    if text == "" then if s.quad == 0 then Some([]) else None
    else if text[0] == '=' then
      if s.quad >= 2 && s.quad + s.pads + 1 >= 4 then Some([])
      else Scan(text[1..], if s.quad >= 2 then s.(pads := s.pads + 1) else s)
    else
      match FromChar(text[0])
      case None => Scan(text[1..], s)
      case Some(v) =>
        if s.quad == 0 then Scan(text[1..], Scanner(1, v, 0))
        else if s.quad == 1 then Prepend(s.left * 4 + v / 16, Scan(text[1..], Scanner(2, v % 16, 0)))
        else if s.quad == 2 then Prepend(s.left * 16 + v / 4, Scan(text[1..], Scanner(3, v % 4, 0)))
        else Prepend(s.left * 64 + v, Scan(text[1..], Scanner(0, 0, 0)))
  }

  function Prepend(b: Byte, rest: Option<seq<Byte>>): Option<seq<Byte>> {
    match rest
    case None => None
    case Some(bytes) => Some([b] + bytes)
  }

  /** As many padding characters as the length is short of a multiple of four. */
  function Padding(length: nat): string {
    if length % 4 == 0 then "" else if length % 4 == 3 then "=" else if length % 4 == 2 then "==" else "==="
  }

  function Decode(text: string): Option<seq<Byte>> {
    if exists i :: 0 <= i < |text| && text[i] >= 128 as char then None
    else Scan(text + Padding(|text|), Scanner(0, 0, 0))
  }

  lemma {:induction false} EncodedText(bytes: seq<Byte>)
    ensures forall i :: 0 <= i < |Encode(bytes)| ==> Encode(bytes)[i] < 128 as char && Encode(bytes)[i] != '.'
    ensures |Encode(bytes)| == (|bytes| * 4 + 2) / 3
  {
    if |bytes| >= 3 {
      EncodedText(bytes[3..]);
      AlphabetIsInverted(bytes[0] / 4);
      AlphabetIsInverted(bytes[0] % 4 * 16 + bytes[1] / 16);
      AlphabetIsInverted(bytes[1] % 16 * 4 + bytes[2] / 64);
      AlphabetIsInverted(bytes[2] % 64);
    } else if |bytes| == 2 {
      AlphabetIsInverted(bytes[0] / 4);
      AlphabetIsInverted(bytes[0] % 4 * 16 + bytes[1] / 16);
      AlphabetIsInverted(bytes[1] % 16 * 4);
    } else if |bytes| == 1 {
      AlphabetIsInverted(bytes[0] / 4);
      AlphabetIsInverted(bytes[0] % 4 * 16);
    }
  }

  /** One character of the alphabet at the head of the text, at each position of a quad. */
  lemma ScanFirst(v: Sextet, rest: string)
    ensures Scan([ToChar(v)] + rest, Scanner(0, 0, 0)) == Scan(rest, Scanner(1, v, 0))
  {
    AlphabetIsInverted(v);
    assert ([ToChar(v)] + rest)[1..] == rest;
  }

  lemma ScanSecond(left: nat, v: Sextet, rest: string)
    requires left < 64
    ensures Scan([ToChar(v)] + rest, Scanner(1, left, 0)) == Prepend(left * 4 + v / 16, Scan(rest, Scanner(2, v % 16, 0)))
  {
    AlphabetIsInverted(v);
    assert ([ToChar(v)] + rest)[1..] == rest;
  }

  lemma ScanThird(left: nat, v: Sextet, rest: string)
    requires left < 16
    ensures Scan([ToChar(v)] + rest, Scanner(2, left, 0)) == Prepend(left * 16 + v / 4, Scan(rest, Scanner(3, v % 4, 0)))
  {
    AlphabetIsInverted(v);
    assert ([ToChar(v)] + rest)[1..] == rest;
  }

  lemma ScanFourth(left: nat, v: Sextet, rest: string)
    requires left < 4
    ensures Scan([ToChar(v)] + rest, Scanner(3, left, 0)) == Prepend(left * 64 + v, Scan(rest, Scanner(0, 0, 0)))
  {
    AlphabetIsInverted(v);
    assert ([ToChar(v)] + rest)[1..] == rest;
  }

  /** Splitting bytes into sextets and joining them again. */
  lemma SextetsJoin(a: Byte, b: Byte, c: Byte)
    ensures a / 4 * 4 + (a % 4 * 16 + b / 16) / 16 == a
    ensures (a % 4 * 16 + b / 16) % 16 == b / 16
    ensures b / 16 * 16 + (b % 16 * 4 + c / 64) / 4 == b
    ensures (b % 16 * 4 + c / 64) % 4 == c / 64
    ensures c / 64 * 64 + c % 64 == c
  {
  }

  lemma ScanFirstByte(a: Byte, b: Byte, rest: string)
    ensures Scan([ToChar(a / 4)] + ([ToChar(a % 4 * 16 + b / 16)] + rest), Scanner(0, 0, 0))
         == Prepend(a, Scan(rest, Scanner(2, b / 16, 0)))
  {
    SextetsJoin(a, b, 0);
    ScanFirst(a / 4, [ToChar(a % 4 * 16 + b / 16)] + rest);
    ScanSecond(a / 4, a % 4 * 16 + b / 16, rest);
  }

  lemma ScanSecondByte(b: Byte, c: Byte, rest: string)
    ensures Scan([ToChar(b % 16 * 4 + c / 64)] + rest, Scanner(2, b / 16, 0))
         == Prepend(b, Scan(rest, Scanner(3, c / 64, 0)))
  {
    SextetsJoin(0, b, c);
    ScanThird(b / 16, b % 16 * 4 + c / 64, rest);
  }

  lemma ScanThirdByte(c: Byte, rest: string)
    ensures Scan([ToChar(c % 64)] + rest, Scanner(3, c / 64, 0)) == Prepend(c, Scan(rest, Scanner(0, 0, 0)))
  {
    SextetsJoin(0, 0, c);
    ScanFourth(c / 64, c % 64, rest);
  }

  lemma ScanQuad(a: Byte, b: Byte, c: Byte, rest: string)
    ensures Scan([ToChar(a / 4), ToChar(a % 4 * 16 + b / 16), ToChar(b % 16 * 4 + c / 64), ToChar(c % 64)] + rest,
                 Scanner(0, 0, 0))
         == Prepend(a, Prepend(b, Prepend(c, Scan(rest, Scanner(0, 0, 0)))))
  {
    var last := [ToChar(c % 64)] + rest;
    var third := [ToChar(b % 16 * 4 + c / 64)] + last;
    assert [ToChar(a / 4), ToChar(a % 4 * 16 + b / 16), ToChar(b % 16 * 4 + c / 64), ToChar(c % 64)] + rest
        == [ToChar(a / 4)] + ([ToChar(a % 4 * 16 + b / 16)] + third);
    ScanFirstByte(a, b, third);
    ScanSecondByte(b, c, last);
    ScanThirdByte(c, rest);
  }

  lemma ScanPadding()
    ensures Scan("=", Scanner(3, 0, 0)) == Some([])
    ensures Scan("==", Scanner(2, 0, 0)) == Some([])
  {
  }

  lemma ScanOneByte(a: Byte)
    ensures Scan([ToChar(a / 4), ToChar(a % 4 * 16)] + "==", Scanner(0, 0, 0)) == Some([a])
  {
    assert [ToChar(a / 4), ToChar(a % 4 * 16)] + "==" == [ToChar(a / 4)] + ([ToChar(a % 4 * 16 + 0 / 16)] + "==");
    ScanFirstByte(a, 0, "==");
    ScanPadding();
    assert [a] + [] == [a];
  }

  lemma ScanTwoBytes(a: Byte, b: Byte)
    ensures Scan([ToChar(a / 4), ToChar(a % 4 * 16 + b / 16), ToChar(b % 16 * 4)] + "=", Scanner(0, 0, 0)) == Some([a, b])
  {
    var third := [ToChar(b % 16 * 4 + 0 / 64)] + "=";
    assert [ToChar(a / 4), ToChar(a % 4 * 16 + b / 16), ToChar(b % 16 * 4)] + "="
        == [ToChar(a / 4)] + ([ToChar(a % 4 * 16 + b / 16)] + third);
    ScanFirstByte(a, b, third);
    ScanSecondByte(b, 0, "=");
    ScanPadding();
    assert [a] + ([b] + []) == [a, b];
  }

  lemma EncodeQuad(bytes: seq<Byte>)
    requires |bytes| >= 3
    ensures var tail := Encode(bytes[3..]);
            Encode(bytes) + Padding(|Encode(bytes)|)
            == [ToChar(bytes[0] / 4), ToChar(bytes[0] % 4 * 16 + bytes[1] / 16),
                ToChar(bytes[1] % 16 * 4 + bytes[2] / 64), ToChar(bytes[2] % 64)] + (tail + Padding(|tail|))
  {
    var tail := Encode(bytes[3..]);
    assert |Encode(bytes)| == 4 + |tail|;
    assert Padding(4 + |tail|) == Padding(|tail|);
  }

  lemma ScanUndoesOne(bytes: seq<Byte>)
    requires |bytes| == 1
    ensures Scan(Encode(bytes) + Padding(|Encode(bytes)|), Scanner(0, 0, 0)) == Some(bytes)
  {
    ScanOneByte(bytes[0]);
    assert Encode(bytes) + Padding(|Encode(bytes)|) == [ToChar(bytes[0] / 4), ToChar(bytes[0] % 4 * 16)] + "==";
    assert bytes == [bytes[0]];
  }

  lemma ScanUndoesTwo(bytes: seq<Byte>)
    requires |bytes| == 2
    ensures Scan(Encode(bytes) + Padding(|Encode(bytes)|), Scanner(0, 0, 0)) == Some(bytes)
  {
    ScanTwoBytes(bytes[0], bytes[1]);
    assert Encode(bytes) + Padding(|Encode(bytes)|)
        == [ToChar(bytes[0] / 4), ToChar(bytes[0] % 4 * 16 + bytes[1] / 16), ToChar(bytes[1] % 16 * 4)] + "=";
    assert bytes == [bytes[0], bytes[1]];
  }

  lemma PrependsAll(bytes: seq<Byte>)
    requires |bytes| >= 3
    ensures Prepend(bytes[0], Prepend(bytes[1], Prepend(bytes[2], Some(bytes[3..])))) == Some(bytes)
  {
    assert [bytes[0]] + ([bytes[1]] + ([bytes[2]] + bytes[3..])) == bytes;
  }

  lemma {:induction false} ScanUndoesEncode(bytes: seq<Byte>)
    ensures Scan(Encode(bytes) + Padding(|Encode(bytes)|), Scanner(0, 0, 0)) == Some(bytes)
  {
    if bytes == [] {
    } else if |bytes| == 1 {
      ScanUndoesOne(bytes);
    } else if |bytes| == 2 {
      ScanUndoesTwo(bytes);
    } else {
      var tail := Encode(bytes[3..]);
      ScanUndoesEncode(bytes[3..]);
      EncodeQuad(bytes);
      ScanQuad(bytes[0], bytes[1], bytes[2], tail + Padding(|tail|));
      PrependsAll(bytes);
    }
  }

  /** Decoding undoes encoding, for every byte string. */
  lemma DecodeUndoesEncode(bytes: seq<Byte>)
    ensures Decode(Encode(bytes)) == Some(bytes)
  {
    EncodedText(bytes);
    ScanUndoesEncode(bytes);
  }

  // ---------------------------------------------------------------------------------------------
  // The encoding against its definition
  // ---------------------------------------------------------------------------------------------

  /** Byte i of the input, which is followed by zero bits. */
  function ByteAt(bytes: seq<Byte>, i: nat): Byte {
    if i < |bytes| then bytes[i] else 0
  }

  /** The six bits from bit 6 * i on: a window into two neighbouring bytes. */
  function SixBits(bytes: seq<Byte>, i: nat): Sextet {
    var window := ByteAt(bytes, i * 6 / 8) * 256 + ByteAt(bytes, i * 6 / 8 + 1);
    match i * 6 % 8
    case 0 => window / 1024 % 64
    case 2 => window / 256 % 64
    case 4 => window / 64 % 64
    case _ => window / 16 % 64
  }

  /** The six bits at each position of a quad. */
  lemma WindowAt0(a: Byte, b: Byte)
    ensures (a * 256 + b) / 1024 % 64 == a / 4
  {
    assert a == a / 4 * 4 + a % 4;
  }

  lemma WindowAt6(a: Byte, b: Byte)
    ensures (a * 256 + b) / 16 % 64 == a % 4 * 16 + b / 16
  {
    assert a == a / 4 * 4 + a % 4 && b == b / 16 * 16 + b % 16;
    assert (a * 256 + b) / 16 == a * 16 + b / 16 == a / 4 * 64 + (a % 4 * 16 + b / 16);
  }

  lemma WindowAt12(b: Byte, c: Byte)
    ensures (b * 256 + c) / 64 % 64 == b % 16 * 4 + c / 64
  {
    assert b == b / 16 * 16 + b % 16 && c == c / 64 * 64 + c % 64;
    assert (b * 256 + c) / 64 == b * 4 + c / 64 == b / 16 * 64 + (b % 16 * 4 + c / 64);
  }

  lemma WindowAt18(c: Byte, d: Byte)
    ensures (c * 256 + d) / 256 % 64 == c % 64
  {
    assert (c * 256 + d) / 256 == c;
  }

  lemma SixBitsOfQuad(bytes: seq<Byte>, i: nat)
    requires i < 4
    ensures var a, b, c := ByteAt(bytes, 0), ByteAt(bytes, 1), ByteAt(bytes, 2);
            SixBits(bytes, i) == if i == 0 then a / 4 else if i == 1 then a % 4 * 16 + b / 16
                                 else if i == 2 then b % 16 * 4 + c / 64 else c % 64
  {
    WindowAt0(ByteAt(bytes, 0), ByteAt(bytes, 1));
    WindowAt6(ByteAt(bytes, 0), ByteAt(bytes, 1));
    WindowAt12(ByteAt(bytes, 1), ByteAt(bytes, 2));
    WindowAt18(ByteAt(bytes, 2), ByteAt(bytes, 3));
  }

  lemma SixBitsShift(bytes: seq<Byte>, i: nat)
    requires |bytes| >= 3 && i >= 4
    ensures SixBits(bytes, i) == SixBits(bytes[3..], i - 4)
  {
    assert (i - 4) * 6 == i * 6 - 24;
    assert forall k: nat :: ByteAt(bytes, k + 3) == ByteAt(bytes[3..], k);
  }

  lemma EncodeStarts(bytes: seq<Byte>, i: nat)
    requires i < 4 && i < |Encode(bytes)|
    ensures Encode(bytes)[i] == ToChar(SixBits(bytes, i))
  {
    SixBitsOfQuad(bytes, i);
  }

  /** Each character stands for the next six bits; the text is as long as it takes, and no longer. */
  lemma {:induction false} EncodeReadsBits(bytes: seq<Byte>, i: nat)
    requires i < |Encode(bytes)|
    ensures i * 6 < |bytes| * 8
    ensures Encode(bytes)[i] == ToChar(SixBits(bytes, i))
    decreases i
  {
    EncodedText(bytes);
    if i < 4 {
      EncodeStarts(bytes, i);
    } else {
      assert Encode(bytes)[i] == Encode(bytes[3..])[i - 4];
      EncodeReadsBits(bytes[3..], i - 4);
      SixBitsShift(bytes, i);
    }
  }

  /** The letters in order, and the two characters that differ from plain base64. */
  lemma AlphabetIsUrlSafe(s: Sextet)
    ensures s < 25 ==> ToChar(s) as int + 1 == ToChar(s + 1) as int
    ensures ToChar(0) == 'A' && ToChar(25) == 'Z' && ToChar(26) == 'a' && ToChar(51) == 'z'
            && ToChar(52) == '0' && ToChar(61) == '9' && ToChar(62) == '-' && ToChar(63) == '_'
    ensures 26 <= s < 51 || 52 <= s < 61 ==> ToChar(s) as int + 1 == ToChar(s + 1) as int
  {
  }

  /** Test vectors of section 10 of RFC 4648. */
  lemma KnownVectors()
    ensures Encode([0x66]) == "Zg"
    ensures Encode([0x66, 0x6f]) == "Zm8"
    ensures Encode([0x66, 0x6f, 0x6f]) == "Zm9v"
  {
  }
}
