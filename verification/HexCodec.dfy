/** `bin2hex` and `hex2bin` (utils/bfss_utils.h). */
module HexCodec {
  import opened Layout

  const DIGITS := "0123456789abcdef"

  function HexDigit(n: bv8): char
    requires n < 16
  {
    DIGITS[n as int]
  }

  /** The decoding table: anything that is not a digit counts as zero. */
  function HexValue(ch: char): bv8 {
    match ch
    case '0' => 0
    case '1' => 1
    case '2' => 2
    case '3' => 3
    case '4' => 4
    case '5' => 5
    case '6' => 6
    case '7' => 7
    case '8' => 8
    case '9' => 9
    case 'a' => 10
    case 'b' => 11
    case 'c' => 12
    case 'd' => 13
    case 'e' => 14
    case 'f' => 15
    case 'A' => 10
    case 'B' => 11
    case 'C' => 12
    case 'D' => 13
    case 'E' => 14
    case 'F' => 15
    case _ => 0
  }

  function HexPair(b: Byte): string { [HexDigit((b & 0xf0) >> 4), HexDigit(b & 0xf)] }

  function PairToByte(hi: char, lo: char): Byte { (HexValue(hi) << 4) | HexValue(lo) }

  function Bin2Hex(s: seq<Byte>): (h: string)
    ensures |h| == 2 * |s|
  {
    if s == [] then "" else HexPair(s[0]) + Bin2Hex(s[1..])
  }

  function Hex2Bin(h: string): (s: seq<Byte>)
    ensures |s| == |h| / 2
  {
    if |h| < 2 then [] else [PairToByte(h[0], h[1])] + Hex2Bin(h[2..])
  }

  predicate IsHex(h: string) { |h| % 2 == 0 && forall i :: 0 <= i < |h| ==> h[i] in DIGITS }

  lemma DigitValue(n: bv8)
    requires n < 16
    ensures HexValue(HexDigit(n)) == n && HexDigit(n) in DIGITS
  {
  }

  lemma PairValue(b: Byte)
    ensures PairToByte(HexPair(b)[0], HexPair(b)[1]) == b
  {
    DigitValue((b & 0xf0) >> 4);
    DigitValue(b & 0xf);
  }

  lemma {:induction false} DecodeEncode(s: seq<Byte>)
    ensures Hex2Bin(Bin2Hex(s)) == s && IsHex(Bin2Hex(s))
  {
    if s != [] {
      var h := Bin2Hex(s);
      assert h[2..] == Bin2Hex(s[1..]);
      DecodeEncode(s[1..]);
      PairValue(s[0]);
      DigitValue((s[0] & 0xf0) >> 4);
      DigitValue(s[0] & 0xf);
      forall i | 0 <= i < |h| ensures h[i] in DIGITS {
        if i >= 2 { assert h[i] == h[2..][i - 2]; }
      }
    }
  }

  /** Byte `i` is written as its high digit and then its low digit. */
  lemma {:induction false} EncodesDigits(s: seq<Byte>, i: nat)
    requires i < |s|
    ensures Bin2Hex(s)[2 * i] == "0123456789abcdef"[(s[i] / 16) as int]
    ensures Bin2Hex(s)[2 * i + 1] == "0123456789abcdef"[(s[i] % 16) as int]
  {
    if i == 0 {
      PairDigits(s[0]);
    } else {
      EncodesDigits(s[1..], i - 1);
    }
  }

  lemma PairDigits(b: Byte)
    ensures HexPair(b)[0] == "0123456789abcdef"[(b / 16) as int]
    ensures HexPair(b)[1] == "0123456789abcdef"[(b % 16) as int]
  {
    assert (b & 0xf0) >> 4 == b / 16 && b & 0xf == b % 16;
  }

  /** Both cases of a digit have its value, and every other character counts as zero. */
  lemma DigitValues(ch: char)
    ensures forall n: nat :: n < 16 && (ch == "0123456789abcdef"[n] || ch == "0123456789ABCDEF"[n]) ==>
              HexValue(ch) as int == n
    ensures ch !in "0123456789abcdef" && ch !in "0123456789ABCDEF" ==> HexValue(ch) == 0
  {
    assert "0123456789abcdef" == ['0', '1', '2', '3', '4', '5', '6', '7', '8', '9', 'a', 'b', 'c', 'd', 'e', 'f'];
    assert "0123456789ABCDEF" == ['0', '1', '2', '3', '4', '5', '6', '7', '8', '9', 'A', 'B', 'C', 'D', 'E', 'F'];
  }

  /** Byte `i` is decoded from the high digit and then the low digit. */
  lemma DecodesDigits(h: string, i: nat)
    requires i < |h| / 2
    ensures Hex2Bin(h)[i] == HexValue(h[2 * i]) * 16 + HexValue(h[2 * i + 1])
  {
    DecodeAt(h, i);
    PairIs(h[2 * i], h[2 * i + 1]);
  }

  lemma PairIs(hi: char, lo: char)
    ensures PairToByte(hi, lo) == HexValue(hi) * 16 + HexValue(lo)
  {
    ValueSmall(hi);
    ValueSmall(lo);
    TwoDigits(HexValue(hi), HexValue(lo));
  }

  lemma ValueSmall(ch: char)
    ensures HexValue(ch) < 16
  {
  }

  lemma TwoDigits(hi: bv8, lo: bv8)
    requires hi < 16 && lo < 16
    ensures (hi << 4) | lo == hi * 16 + lo
  {
  }

  lemma ValueDigit(hi: char, lo: char)
    ensures HexPair(PairToByte(hi, lo)) == [hi, lo] <==> hi in DIGITS && lo in DIGITS
  {
    var b := PairToByte(hi, lo);
    HighPart(HexValue(hi), HexValue(lo));
    OneDigit(hi);
    OneDigit(lo);
  }

  lemma HighPart(hi: bv8, lo: bv8)
    requires hi < 16 && lo < 16
    ensures var b := (hi << 4) | lo; (b & 0xf0) >> 4 == hi && b & 0xf == lo
  {
  }

  lemma OneDigit(ch: char)
    ensures HexValue(ch) < 16 && (HexDigit(HexValue(ch)) == ch <==> ch in DIGITS)
  {
    assert DIGITS[0] == '0' && DIGITS[1] == '1' && DIGITS[2] == '2' && DIGITS[3] == '3' && DIGITS[4] == '4'
        && DIGITS[5] == '5' && DIGITS[6] == '6' && DIGITS[7] == '7' && DIGITS[8] == '8' && DIGITS[9] == '9';
    assert DIGITS[10] == 'a' && DIGITS[11] == 'b' && DIGITS[12] == 'c' && DIGITS[13] == 'd' && DIGITS[14] == 'e'
        && DIGITS[15] == 'f';
  }

  /** Exactly the lower-case hexadecimal strings survive decoding and encoding. */
  lemma {:induction false} EncodeDecode(h: string)
    ensures Bin2Hex(Hex2Bin(h)) == h <==> IsHex(h)
  {
    if |h| < 2 {
    } else {
      EncodeDecode(h[2..]);
      ValueDigit(h[0], h[1]);
      var g := Bin2Hex(Hex2Bin(h));
      assert g == HexPair(PairToByte(h[0], h[1])) + Bin2Hex(Hex2Bin(h[2..]));
      assert h == [h[0], h[1]] + h[2..];
      assert g[..2] == HexPair(PairToByte(h[0], h[1])) && g[2..] == Bin2Hex(Hex2Bin(h[2..]));
      assert g == h ==> g[..2] == [h[0], h[1]] && g[2..] == h[2..];
      HexSplits(h);
    }
  }

  lemma HexSplits(h: string)
    requires |h| >= 2
    ensures IsHex(h) <==> h[0] in DIGITS && h[1] in DIGITS && IsHex(h[2..])
  {
    if h[0] in DIGITS && h[1] in DIGITS && IsHex(h[2..]) {
      forall i | 0 <= i < |h| ensures h[i] in DIGITS { if i >= 2 { assert h[i] == h[2..][i - 2]; } }
    }
  }

  method EncodeHex(s: seq<Byte>) returns (h: string)
    ensures h == Bin2Hex(s)
    ensures forall i :: 0 <= i < |s| ==> h[2 * i] == "0123456789abcdef"[(s[i] / 16) as int]
    ensures forall i :: 0 <= i < |s| ==> h[2 * i + 1] == "0123456789abcdef"[(s[i] % 16) as int]
  {
    h := seq(|s| * 2, _ => '0');
    var i := 0;
    while i < |s|
      invariant 0 <= i <= |s| && |h| == 2 * |s| && h[..2 * i] == Bin2Hex(s[..i])
    {
      assert s[..i + 1] == s[..i] + [s[i]];
      EncodeConcat(s[..i], [s[i]]);
      assert Bin2Hex([s[i]]) == HexPair(s[i]);
      h := h[i * 2 := HexDigit((s[i] & 0xf0) >> 4)];
      h := h[i * 2 + 1 := HexDigit(s[i] & 0xf)];
      i := i + 1;
    }
    assert s[..i] == s && h[..2 * i] == h;
    forall j | 0 <= j < |s|
      ensures h[2 * j] == "0123456789abcdef"[(s[j] / 16) as int]
      ensures h[2 * j + 1] == "0123456789abcdef"[(s[j] % 16) as int]
    {
      EncodesDigits(s, j);
    }
  }

  lemma {:induction false} EncodeConcat(s: seq<Byte>, t: seq<Byte>)
    ensures Bin2Hex(s + t) == Bin2Hex(s) + Bin2Hex(t)
  {
    if s == [] {
      assert s + t == t;
    } else {
      assert (s + t)[1..] == s[1..] + t;
      EncodeConcat(s[1..], t);
    }
  }

  method DecodeHex(h: string) returns (s: seq<Byte>)
    ensures s == Hex2Bin(h)
    ensures forall i :: 0 <= i < |h| / 2 ==> s[i] == HexValue(h[2 * i]) * 16 + HexValue(h[2 * i + 1])
  {
    var len := |h| / 2;
    s := seq(len, _ => 0);
    var i := 0;
    while i < len
      invariant 0 <= i <= len == |s| && s[..i] == Hex2Bin(h)[..i]
    {
      DecodeAt(h, i);
      s := s[i := PairToByte(h[i * 2], h[i * 2 + 1])];
      i := i + 1;
    }
    assert s[..i] == s && Hex2Bin(h)[..i] == Hex2Bin(h);
    forall j | 0 <= j < |h| / 2 ensures s[j] == HexValue(h[2 * j]) * 16 + HexValue(h[2 * j + 1]) {
      DecodesDigits(h, j);
    }
  }

  lemma {:induction false} DecodeAt(h: string, i: nat)
    requires i < |h| / 2
    ensures Hex2Bin(h)[i] == PairToByte(h[i * 2], h[i * 2 + 1])
  {
    if i > 0 { DecodeAt(h[2..], i - 1); }
  }

  lemma {:induction false} ZeroDigits(s: seq<Byte>)
    requires forall i :: 0 <= i < |s| ==> s[i] == 0
    ensures forall n :: 0 <= n < 2 * |s| ==> Bin2Hex(s)[n] == '0'
  {
    forall n | 0 <= n < 2 * |s| ensures Bin2Hex(s)[n] == '0' {
      EncodesDigits(s, n / 2);
      assert n == 2 * (n / 2) || n == 2 * (n / 2) + 1;
    }
  }
}
