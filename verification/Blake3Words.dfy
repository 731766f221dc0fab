/**
 32-bit words, their little-endian bytes, and the rotations, in modular
 arithmetic on 32 bits as in C.
 */
module Blake3Words {
  import opened Wire

  type word = bv32
  type Words8 = s: seq<word> | |s| == 8 witness seq(8, _ => 0)
  type Words16 = s: seq<word> | |s| == 16 witness seq(16, _ => 0)
  type Bytes64 = s: seq<byte> | |s| == 64 witness seq(64, _ => 0)

  const IV: Words8 :=
    [0x6A09E667, 0xBB67AE85, 0x3C6EF372, 0xA54FF53A, 0x510E527F, 0x9B05688C, 0x1F83D9AB, 0x5BE0CD19]

  // The fractional parts of the square roots of the first eight primes, in 32
  // bits. FLOORS holds the integer parts.
  const PRIMES := [2, 3, 5, 7, 11, 13, 17, 19]
  const FLOORS := [1, 1, 2, 2, 3, 3, 4, 4]

  lemma {:induction false} RootsOfPrimes(i: nat)
    requires i < 8
    ensures var x := FLOORS[i] * TWO32 + IV[i] as nat;
            x * x < PRIMES[i] * TWO64 < (x + 1) * (x + 1)
  {
  }

  // Everything compress is given.
  datatype Input = Input(cv: Words8, block: Bytes64, len: byte, counter: bv64, flags: byte)

  // A compression function: the first half of the output of compress.
  type Compressor = Input -> Words8

  function Add(x: word, y: word): word {
    x + y
  }

  function Sub(x: word, y: word): word {
    x - y
  }

  function Xor(x: word, y: word): word {
    x ^ y
  }

  function Widen(b: byte): word {
    b as word
  }

  function Rotr(x: word, n: byte): word
    requires 0 < n < 32
  {
    (x >> n) | (x << (32 - n))
  }

  function Rotl(x: word, n: byte): word
    requires 0 < n < 32
  {
    (x << n) | (x >> (32 - n))
  }

  // The amounts g rotates by.
  predicate Rotation(n: byte) {
    n == 16 || n == 12 || n == 8 || n == 7
  }

  lemma LeftOfRight(x: word)
    ensures Rotl((x >> 16) | (x << 16), 16) == x && Rotl((x >> 12) | (x << 20), 12) == x
    ensures Rotl((x >> 8) | (x << 24), 8) == x && Rotl((x >> 7) | (x << 25), 7) == x
  {
  }

  lemma RightOfLeft(x: word)
    ensures Rotr((x << 16) | (x >> 16), 16) == x && Rotr((x << 12) | (x >> 20), 12) == x
    ensures Rotr((x << 8) | (x >> 24), 8) == x && Rotr((x << 7) | (x >> 25), 7) == x
  {
  }

  lemma RotateBack(x: word, n: byte)
    requires Rotation(n)
    ensures Rotl(Rotr(x, n), n) == x
  {
    hide Rotl;
    LeftOfRight(x);
    assert n == 16 ==> Rotr(x, n) == (x >> 16) | (x << 16);
    assert n == 12 ==> Rotr(x, n) == (x >> 12) | (x << 20);
    assert n == 8 ==> Rotr(x, n) == (x >> 8) | (x << 24);
    assert n == 7 ==> Rotr(x, n) == (x >> 7) | (x << 25);
  }

  lemma RotateForth(x: word, n: byte)
    requires Rotation(n)
    ensures Rotr(Rotl(x, n), n) == x
  {
    hide Rotr;
    RightOfLeft(x);
    assert n == 16 ==> Rotl(x, n) == (x << 16) | (x >> 16);
    assert n == 12 ==> Rotl(x, n) == (x << 12) | (x >> 20);
    assert n == 8 ==> Rotl(x, n) == (x << 8) | (x >> 24);
    assert n == 7 ==> Rotl(x, n) == (x << 7) | (x >> 25);
  }

  lemma SubSum(x: word, y: word)
    ensures Sub(x + y, y) == x
  {
  }

  lemma AddDifference(x: word, y: word)
    ensures Add(x - y, y) == x
  {
  }

  lemma AddSub(x: word, y: word)
    ensures Sub(Add(x, y), y) == x
  {
    hide Sub;
    SubSum(x, y);
  }

  lemma SubAdd(x: word, y: word)
    ensures Add(Sub(x, y), y) == x
  {
    hide Add;
    AddDifference(x, y);
  }

  lemma XorTwice(x: word, y: word)
    ensures Xor(Xor(x, y), y) == x
  {
  }

  lemma WidenBinds(x: byte, y: byte)
    requires Widen(x) == Widen(y)
    ensures x == y
  {
  }

  // load32_le and store32_le.
  function Load(b0: byte, b1: byte, b2: byte, b3: byte): word {
    (b0 as word) | ((b1 as word) << 8) | ((b2 as word) << 16) | ((b3 as word) << 24)
  }

  // Byte j of x, counted from the least significant.
  function ByteAt(x: word, j: nat): byte
    requires j < 4
  {
    match j
    case 0 => (x & 0xFF) as byte
    case 1 => ((x >> 8) & 0xFF) as byte
    case 2 => ((x >> 16) & 0xFF) as byte
    case 3 => (x >> 24) as byte
  }

  lemma LoadStore(x: word)
    ensures Load(ByteAt(x, 0), ByteAt(x, 1), ByteAt(x, 2), ByteAt(x, 3)) == x
  {
  }

  lemma StoreLoad(b0: byte, b1: byte, b2: byte, b3: byte)
    ensures var x := Load(b0, b1, b2, b3);
            ByteAt(x, 0) == b0 && ByteAt(x, 1) == b1 && ByteAt(x, 2) == b2 && ByteAt(x, 3) == b3
  {
  }

  // The words stored in some bytes, and the bytes storing some words.
  function WordsOf(bs: seq<byte>): (ws: seq<word>)
    requires |bs| % 4 == 0
    ensures |ws| == |bs| / 4
    ensures forall i :: 0 <= i < |ws| ==> ws[i] == Load(bs[4 * i], bs[4 * i + 1], bs[4 * i + 2], bs[4 * i + 3])
  {
    seq(|bs| / 4, i requires 0 <= i < |bs| / 4 => Load(bs[4 * i], bs[4 * i + 1], bs[4 * i + 2], bs[4 * i + 3]))
  }

  function BytesOf(ws: seq<word>): (bs: seq<byte>)
    ensures |bs| == 4 * |ws|
    ensures forall i :: 0 <= i < |bs| ==> bs[i] == ByteAt(ws[i / 4], i % 4)
  {
    seq(4 * |ws|, i requires 0 <= i < 4 * |ws| => ByteAt(ws[i / 4], i % 4))
  }

  lemma BytesOfWord(ws: seq<word>, i: nat)
    requires i < |ws|
    ensures var bs := BytesOf(ws);
            && bs[4 * i] == ByteAt(ws[i], 0) && bs[4 * i + 1] == ByteAt(ws[i], 1)
            && bs[4 * i + 2] == ByteAt(ws[i], 2) && bs[4 * i + 3] == ByteAt(ws[i], 3)
  {
    hide ByteAt;
    assert 4 * i / 4 == (4 * i + 1) / 4 == (4 * i + 2) / 4 == (4 * i + 3) / 4 == i;
  }

  lemma WordsOfBytes(ws: seq<word>)
    ensures WordsOf(BytesOf(ws)) == ws
  {
    hide Load, ByteAt, BytesOf;
    forall i | 0 <= i < |ws|
      ensures WordsOf(BytesOf(ws))[i] == ws[i]
    {
      BytesOfWord(ws, i);
      LoadStore(ws[i]);
    }
  }

  lemma BytesOfWords(bs: seq<byte>)
    requires |bs| % 4 == 0
    ensures BytesOf(WordsOf(bs)) == bs
  {
    hide Load, ByteAt;
    forall i | 0 <= i < |bs|
      ensures BytesOf(WordsOf(bs))[i] == bs[i]
    {
      var k := 4 * (i / 4);
      StoreLoad(bs[k], bs[k + 1], bs[k + 2], bs[k + 3]);
    }
  }
}
