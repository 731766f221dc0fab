/** Hexadecimal printing and parsing, and leading zero bits. */
module Hex {
  import opened Wire
  import opened Arithmetic

  const HEX_CHARS := "0123456789abcdef"

  function Digit(v: byte): (c: char)
    requires v < 16
  {
    HEX_CHARS[v as nat]
  }

  // -1 for a character that is not a hex digit.
  function CharValue(c: char): (v: int)
    ensures -1 <= v < 16
  {
    if '0' <= c <= '9' then c as int - '0' as int
    else if 'a' <= c <= 'f' then c as int - 'a' as int + 10
    else if 'A' <= c <= 'F' then c as int - 'A' as int + 10
    else -1
  }

  predicate IsHexDigit(c: char) {
    CharValue(c) >= 0
  }

  function High(b: byte): (v: byte)
    ensures v < 16
  {
    (b >> 4) & 0x0F
  }

  function Low(b: byte): (v: byte)
    ensures v < 16
  {
    b & 0x0F
  }

  function Join(high: nat, low: nat): byte
    requires high < 16 && low < 16
  {
    (Nibble(high) << 4) | Nibble(low)
  }

  function Nibble(v: nat): byte
    requires v < 16
  {
    v as byte
  }

  function ToHex(bytes: seq<byte>): (s: string)
    ensures |s| == 2 * |bytes|
  {
    if bytes == [] then ""
    else ToHex(bytes[..|bytes| - 1]) + [Digit(High(bytes[|bytes| - 1])), Digit(Low(bytes[|bytes| - 1]))]
  }

  // Pairs of digits from the left; the first bad pair stops the parse.
  function Parse(s: string): (r: Option<seq<byte>>)
    requires |s| % 2 == 0
    ensures r.Some? ==> 2 * |r.value| == |s|
  {
    if s == "" then Some([])
    else
      var n := |s| - 2;
      var init := Parse(s[..n]);
      var high, low := CharValue(s[n]), CharValue(s[n + 1]);
      if init.None? || high < 0 || low < 0 then None else Some(init.value + [Join(high, low)])
  }

  function FromHex(s: string): (r: Option<seq<byte>>) {
    if |s| % 2 != 0 then None else Parse(s)
  }

  function Lower(c: char): char {
    if 'A' <= c <= 'F' then (c as int - 'A' as int + 'a' as int) as char else c
  }

  function LowerAll(s: string): (t: string)
    ensures |t| == |s|
    ensures forall j :: 0 <= j < |s| ==> t[j] == Lower(s[j])
  {
    seq(|s|, j requires 0 <= j < |s| => Lower(s[j]))
  }

  // The characters that are digits, and the order of their values: the sixteen
  // of lower case have increasing values below 16, upper case has the same.
  lemma HexDigits(c: char)
    ensures IsHexDigit(c) <==> '0' <= c <= '9' || 'a' <= c <= 'f' || 'A' <= c <= 'F'
  {
  }

  lemma DigitOrder(c: char, d: char)
    requires IsHexDigit(c) && IsHexDigit(d)
    ensures Lower(c) < Lower(d) <==> CharValue(c) < CharValue(d)
    ensures CharValue(Lower(c)) == CharValue(c)
  {
  }

  lemma DigitValue(v: byte)
    requires v < 16
    ensures CharValue(Digit(v)) == v as int
  {
  }

  lemma NibbleBack(v: byte)
    requires v < 16
    ensures Nibble(v as nat) == v
  {
  }

  lemma NibbleValue(v: nat)
    requires v < 16
    ensures Nibble(v) as nat == v && Nibble(v) < 16
  {
    ByteCast(v);
  }

  lemma BothNibbles(b: byte)
    ensures (High(b) << 4) | Low(b) == b
  {
  }

  lemma ByteOfNibbles(b: byte)
    ensures Join(High(b) as nat, Low(b) as nat) == b
  {
    BothNibbles(b);
    NibbleBack(High(b));
    NibbleBack(Low(b));
    hide High, Low, Nibble;
  }

  lemma NibblesOfByte(high: nat, low: nat)
    requires high < 16 && low < 16
    ensures High(Join(high, low)) == Nibble(high) && Low(Join(high, low)) == Nibble(low)
  {
    NibbleValue(high);
    NibbleValue(low);
    hide Nibble;
    Nibbles(Nibble(high), Nibble(low));
    hide High, Low;
  }

  lemma Nibbles(h: byte, l: byte)
    requires h < 16 && l < 16
    ensures High((h << 4) | l) == h && Low((h << 4) | l) == l
  {
  }

  lemma LowerOfDigit(c: char)
    requires IsHexDigit(c)
    ensures Nibble(CharValue(c)) < 16 && Digit(Nibble(CharValue(c))) == Lower(c)
  {
    NibbleValue(CharValue(c));
    hide Nibble;
  }

  // Parsing what was printed returns the bytes.
  lemma {:induction false} ParsePrinted(bytes: seq<byte>)
    ensures FromHex(ToHex(bytes)) == Some(bytes)
  {
    if bytes != [] {
      var n := |bytes| - 1;
      var b := bytes[n];
      ParsePrinted(bytes[..n]);
      assert ToHex(bytes)[..2 * n] == ToHex(bytes[..n]);
      assert bytes == bytes[..n] + [b];
      DigitValue(High(b));
      DigitValue(Low(b));
      ByteOfNibbles(b);
      hide Join, High, Low, Digit, CharValue;
    }
  }

  // Printing what was parsed returns the string in lower case.
  lemma {:induction false} PrintParsed(s: string)
    requires FromHex(s).Some?
    ensures ToHex(FromHex(s).value) == LowerAll(s)
  {
    if s != "" {
      var n := |s| - 2;
      PrintParsed(s[..n]);
      var high, low := CharValue(s[n]), CharValue(s[n + 1]);
      NibblesOfByte(high, low);
      LowerOfDigit(s[n]);
      LowerOfDigit(s[n + 1]);
      var b := Join(high, low);
      hide Join, High, Low, Nibble, Digit, CharValue, Lower;
      assert FromHex(s).value[..n / 2] == FromHex(s[..n]).value;
      assert LowerAll(s) == LowerAll(s[..n]) + [Lower(s[n]), Lower(s[n + 1])];
    }
  }

  predicate HexCharacter(c: char) {
    c in "0123456789abcdefABCDEF"
  }

  lemma CharacterIsDigit(c: char)
    ensures HexCharacter(c) <==> IsHexDigit(c)
  {
    HexDigits(c);
  }

  // Upper and lower case parse alike.
  lemma {:induction false} ParseIgnoresCase(s: string)
    ensures FromHex(LowerAll(s)) == FromHex(s)
  {
    if |s| % 2 == 0 && s != "" {
      var n := |s| - 2;
      ParseIgnoresCase(s[..n]);
      assert LowerAll(s)[..n] == LowerAll(s[..n]);
      SameValue(s[n]);
      SameValue(s[n + 1]);
      hide Lower, CharValue, Join;
    }
  }

  lemma SameValue(c: char)
    ensures CharValue(Lower(c)) == CharValue(c)
  {
  }

  // Parsing fails on an odd length or a character that is none of the digits
  // and the letters a to f in either case, and on nothing else.
  lemma {:induction false} ParseRejects(s: string)
    ensures FromHex(s).None? <==> |s| % 2 != 0 || exists j :: 0 <= j < |s| && !HexCharacter(s[j])
  {
    RejectedByValue(s);
    forall j | 0 <= j < |s|
      ensures HexCharacter(s[j]) <==> IsHexDigit(s[j])
    {
      CharacterIsDigit(s[j]);
    }
    hide HexCharacter, IsHexDigit, FromHex;
  }

  lemma {:induction false} RejectedByValue(s: string)
    ensures FromHex(s).None? <==> |s| % 2 != 0 || exists j :: 0 <= j < |s| && !IsHexDigit(s[j])
  {
    if |s| % 2 == 0 && s != "" {
      var n := |s| - 2;
      RejectedByValue(s[..n]);
      if j :| 0 <= j < |s| && !IsHexDigit(s[j]) {
        assert j < n ==> !IsHexDigit(s[..n][j]);
      }
      if j :| 0 <= j < n && !IsHexDigit(s[..n][j]) {
        assert !IsHexDigit(s[j]);
      }
    }
  }

  // ------------------------------------------------------------------
  // The loops.

  lemma PrintedPrefix(bytes: seq<byte>, i: nat)
    requires i < |bytes|
    ensures ToHex(bytes[..i + 1]) == ToHex(bytes[..i]) + [Digit(High(bytes[i])), Digit(Low(bytes[i]))]
  {
    assert bytes[..i + 1][..i] == bytes[..i];
  }

  // Two digits per byte and a terminating NUL.
  method BytesToHexBuf(bytes: seq<byte>, hex: array<char>)
    requires 2 * |bytes| < hex.Length
    modifies hex
    ensures hex[..2 * |bytes|] == ToHex(bytes) && hex[2 * |bytes|] == '\0'
    ensures hex[2 * |bytes| + 1..] == old(hex[2 * |bytes| + 1..])
  {
    for i := 0 to |bytes|
      invariant hex[..2 * i] == ToHex(bytes[..i])
      invariant hex[2 * |bytes| + 1..] == old(hex[2 * |bytes| + 1..])
    {
      hide ToHex, Digit, High, Low;
      PrintedPrefix(bytes, i);
      ghost var before := hex[..2 * i];
      hex[i * 2] := Digit(High(bytes[i]));
      hex[i * 2 + 1] := Digit(Low(bytes[i]));
      assert hex[..2 * i] == before;
      assert hex[..2 * (i + 1)] == before + [hex[2 * i], hex[2 * i + 1]];
    }
    assert bytes[..|bytes|] == bytes;
    hex[2 * |bytes|] := '\0';
  }

  lemma ParsedPrefix(s: string, i: nat)
    requires 2 * i + 2 <= |s|
    ensures var init := FromHex(s[..2 * i]);
            var high, low := CharValue(s[2 * i]), CharValue(s[2 * i + 1]);
            FromHex(s[..2 * i + 2])
            == if init.None? || high < 0 || low < 0 then None else Some(init.value + [Join(high, low)])
  {
    assert s[..2 * i + 2][..2 * i] == s[..2 * i];
  }

  lemma {:induction false} BadPrefix(s: string, i: nat)
    requires 2 * i <= |s| && FromHex(s[..2 * i]).None?
    ensures FromHex(s).None?
  {
    ParseRejects(s[..2 * i]);
    ParseRejects(s);
    var j :| 0 <= j < 2 * i && !IsHexDigit(s[..2 * i][j]);
    assert !IsHexDigit(s[j]);
  }

  // The caller guarantees two characters for each byte asked for.
  method HexToBytesBuf(hex: string, bytes: array<byte>, byteLen: nat) returns (ok: bool)
    requires 2 * byteLen <= |hex| && byteLen <= bytes.Length
    modifies bytes
    ensures ok <==> FromHex(hex[..2 * byteLen]).Some?
    ensures ok ==> FromHex(hex[..2 * byteLen]) == Some(bytes[..byteLen])
    ensures bytes[byteLen..] == old(bytes[byteLen..])
  {
    for i := 0 to byteLen
      invariant FromHex(hex[..2 * i]) == Some(bytes[..i])
      invariant bytes[byteLen..] == old(bytes[byteLen..])
    {
      hide FromHex, Join, CharValue;
      ParsedPrefix(hex, i);
      var high := CharValue(hex[i * 2]);
      var low := CharValue(hex[i * 2 + 1]);
      if high < 0 || low < 0 {
        assert hex[..2 * byteLen][..2 * (i + 1)] == hex[..2 * i + 2];
        BadPrefix(hex[..2 * byteLen], i + 1);
        return false;
      }
      bytes[i] := Join(high, low);
      assert bytes[..i + 1] == bytes[..i] + [bytes[i]];
    }
    ok := true;
  }

  method HexToBytes(hex: string) returns (r: Option<array<byte>>)
    ensures r.None? <==> FromHex(hex).None?
    ensures r.Some? ==> fresh(r.value) && FromHex(hex) == Some(r.value[..])
  {
    if |hex| % 2 != 0 {
      return None;
    }
    var byteLen := |hex| / 2;
    var bytes := new byte[byteLen](_ => 0);
    var ok := HexToBytesBuf(hex, bytes, byteLen);
    assert hex[..2 * byteLen] == hex && bytes[..byteLen] == bytes[..];
    r := if ok then Some(bytes) else None;
  }

  // ------------------------------------------------------------------
  // Leading zero bits.

  // The bytes as one big-endian number.
  function BigEndian(bytes: seq<byte>): nat {
    if bytes == [] then 0 else (bytes[0] as nat) * Pow2(8 * (|bytes| - 1)) + BigEndian(bytes[1..])
  }

  function ByteZeros(b: byte): (z: nat)
    ensures z <= 8
  {
    if b == 0 then 8
    else if b >= 0x80 then 0 else if b >= 0x40 then 1 else if b >= 0x20 then 2 else if b >= 0x10 then 3
    else if b >= 0x08 then 4 else if b >= 0x04 then 5 else if b >= 0x02 then 6 else 7
  }

  function LeadingZeros(bytes: seq<byte>): (z: nat)
    ensures z <= 8 * |bytes|
  {
    if bytes == [] then 0
    else if bytes[0] == 0 then 8 + LeadingZeros(bytes[1..])
    else ByteZeros(bytes[0])
  }

  lemma {:induction false} PowAdd(a: nat, b: nat)
    ensures Pow2(a + b) == Pow2(a) * Pow2(b)
  {
    if a > 0 {
      PowAdd(a - 1, b);
      assert a + b - 1 == (a - 1) + b;
      assert Pow2(a) * Pow2(b) == 2 * (Pow2(a - 1) * Pow2(b));
    }
  }

  lemma ByteRange(b: byte)
    requires b != 0
    ensures var z := ByteZeros(b);
            z < 8 && Pow2(7 - z) <= b as nat < Pow2(8 - z)
  {
    assert Pow2(0) == 1 && Pow2(1) == 2 && Pow2(2) == 4 && Pow2(3) == 8 && Pow2(4) == 16;
    assert Pow2(5) == 2 * Pow2(4) && Pow2(6) == 2 * Pow2(5) && Pow2(7) == 2 * Pow2(6) && Pow2(8) == 2 * Pow2(7);
  }

  lemma {:induction false} BigEndianBound(bytes: seq<byte>)
    ensures BigEndian(bytes) < Pow2(8 * |bytes|)
  {
    if bytes != [] {
      var m := 8 * (|bytes| - 1);
      BigEndianBound(bytes[1..]);
      PowAdd(8, m);
      assert Pow2(4) == 16 && Pow2(8) == 16 * Pow2(4);
      MulStep(bytes[0] as nat, 256, Pow2(m));
    }
  }

  // A number that starts with the nonzero byte b, followed by m bits worth r.
  lemma FirstByteBracket(b: byte, m: nat, r: nat)
    requires b != 0 && r < Pow2(m)
    ensures var z := ByteZeros(b);
            z < 8 && Pow2(7 - z + m) <= (b as nat) * Pow2(m) + r < Pow2(8 - z + m)
  {
    ByteRange(b);
    hide ByteZeros;
    var z, x := ByteZeros(b), b as nat;
    PowAdd(7 - z, m);
    PowAdd(8 - z, m);
    Sandwich(Pow2(7 - z), x, Pow2(8 - z), Pow2(m), r);
  }

  lemma Sandwich(lo: nat, x: nat, hi: nat, p: nat, r: nat)
    requires lo <= x < hi && r < p
    ensures lo * p <= x * p + r < hi * p
  {
    MulStep(x, hi, p);
    if lo < x {
      MulStep(lo, x, p);
    }
  }

  lemma {:induction false} AllZero(bytes: seq<byte>)
    ensures LeadingZeros(bytes) == 8 * |bytes| <==> forall j :: 0 <= j < |bytes| ==> bytes[j] == 0
  {
    if bytes != [] {
      AllZero(bytes[1..]);
      assert forall j :: 0 < j < |bytes| ==> bytes[j] == bytes[1..][j - 1];
    }
  }

  // z leading zero bits bracket the number between two powers of two.
  lemma {:induction false} LeadingZerosBracket(bytes: seq<byte>)
    ensures var z, v := LeadingZeros(bytes), BigEndian(bytes);
            && v < Pow2(8 * |bytes| - z)
            && (v != 0 ==> z < 8 * |bytes| && v >= Pow2(8 * |bytes| - z - 1))
  {
    if bytes != [] {
      var b, rest := bytes[0], bytes[1..];
      LeadingZerosBracket(rest);
      BigEndianBound(rest);
      if b != 0 {
        FirstByteBracket(b, 8 * |rest|, BigEndian(rest));
        assert 8 * |bytes| - ByteZeros(b) == 8 - ByteZeros(b) + 8 * |rest|;
      }
      hide Pow2, ByteZeros;
    }
  }

  method CountLeadingZeros(data: seq<byte>) returns (zeros: nat)
    ensures zeros == LeadingZeros(data)
  {
    zeros := 0;
    for i := 0 to |data|
      invariant zeros == 8 * i
      invariant LeadingZeros(data) == 8 * i + LeadingZeros(data[i..])
    {
      if data[i] == 0 {
        zeros := zeros + 8;
      } else {
        var b := data[i];
        ghost var k := 0;
        while (b & 0x80) == 0
          invariant b != 0 && zeros == 8 * i + k
          invariant k + ByteZeros(b) == ByteZeros(data[i])
          decreases ByteZeros(b)
        {
          ShiftZeros(b);
          zeros := zeros + 1;
          b := b << 1;
          k := k + 1;
        }
        TopBit(b);
        return;
      }
    }
  }

  lemma TopBit(b: byte)
    ensures (b & 0x80) != 0 ==> ByteZeros(b) == 0
  {
    assert (b & 0x80) != 0 ==> b >= 0x80;
  }

  lemma ShiftZeros(b: byte)
    requires b != 0 && (b & 0x80) == 0
    ensures (b << 1) != 0 && ByteZeros(b << 1) + 1 == ByteZeros(b)
  {
    assert b < 0x80;
  }

  // ------------------------------------------------------------------
  // Both ends of the conversion read as numbers.

  // A string of digits as a base 16 number.
  function HexNumber(s: string): int {
    if s == "" then 0 else 16 * HexNumber(s[..|s| - 1]) + CharValue(s[|s| - 1])
  }

  lemma NibbleSum(b: byte)
    ensures 16 * (High(b) as int) + Low(b) as int == b as int
  {
  }

  lemma {:induction false} BigEndianSnoc(bytes: seq<byte>, b: byte)
    ensures BigEndian(bytes + [b]) == 256 * BigEndian(bytes) + b as nat
  {
    var all := bytes + [b];
    if bytes == [] {
      assert all == [b] && [b][1..] == [] && Pow2(0) == 1;
    } else {
      var n := |bytes| - 1;
      BigEndianSnoc(bytes[1..], b);
      assert all[1..] == bytes[1..] + [b];
      PowByte(n);
      hide Pow2;
      Shifted(bytes[0] as nat, Pow2(8 * n));
      assert BigEndian(all) == (bytes[0] as nat) * Pow2(8 * (n + 1)) + BigEndian(bytes[1..] + [b]);
    }
  }

  lemma PowByte(n: nat)
    ensures Pow2(8 * (n + 1)) == 256 * Pow2(8 * n)
  {
    PowAdd(8, 8 * n);
    assert Pow2(3) == 8 && Pow2(6) == 64 && Pow2(8) == 256;
  }

  lemma Shifted(x: nat, p: nat)
    ensures x * (256 * p) == 256 * (x * p)
  {
  }

  // The printed form, read in base 16, is the bytes read as one big-endian
  // number.
  lemma {:induction false} PrintedNumber(bytes: seq<byte>)
    ensures HexNumber(ToHex(bytes)) == BigEndian(bytes)
  {
    if bytes != [] {
      var n := |bytes| - 1;
      var b, s := bytes[n], ToHex(bytes);
      PrintedNumber(bytes[..n]);
      assert bytes == bytes[..n] + [b];
      BigEndianSnoc(bytes[..n], b);
      DigitValue(High(b));
      DigitValue(Low(b));
      NibbleSum(b);
      assert s[..2 * n] == ToHex(bytes[..n]);
      TwoDigits(s);
      hide ToHex, BigEndian, HexNumber, High, Low, Digit, CharValue;
    }
  }

  lemma TwoDigits(s: string)
    requires |s| >= 2
    ensures var n := |s| - 2;
            HexNumber(s) == 256 * HexNumber(s[..n]) + 16 * CharValue(s[n]) + CharValue(s[n + 1])
  {
    var n := |s| - 2;
    assert s[..n + 1][..n] == s[..n];
  }
}
