/**
 The 128-byte layout of a transaction, its hexadecimal form, and the 64 bytes
 its hash covers. Integers are stored in little-endian order.
 */
module TransactionCodec {
  import opened Arithmetic
  import opened Wire
  import opened Hex

  const TX_TOTAL_SIZE := 128

  // ------------------------------------------------------------------
  // Little-endian integers.

  function Pow256(n: nat): (p: nat)
    ensures p > 0
  {
    if n == 0 then 1 else 256 * Pow256(n - 1)
  }

  function ByteOf(n: nat): byte
    requires n < 256
  {
    n as byte
  }

  function ValueOf(b: byte): (n: nat)
    ensures n < 256
  {
    b as nat
  }

  lemma ByteValue(n: nat)
    requires n < 256
    ensures ValueOf(ByteOf(n)) == n
  {
    ByteCast(n);
  }

  lemma ValueByte(b: byte)
    ensures ByteOf(ValueOf(b)) == b
  {
  }

  function LittleEndian(x: nat, n: nat): (bs: seq<byte>)
    ensures |bs| == n
  {
    if n == 0 then [] else [ByteOf(x % 256)] + LittleEndian(x / 256, n - 1)
  }

  function FromLittleEndian(bs: seq<byte>): (x: nat)
    ensures x < Pow256(|bs|)
  {
    if bs == [] then 0 else ValueOf(bs[0]) + 256 * FromLittleEndian(bs[1..])
  }

  lemma {:induction false} DecodeInt(x: nat, n: nat)
    requires x < Pow256(n)
    ensures FromLittleEndian(LittleEndian(x, n)) == x
  {
    hide ByteOf, ValueOf;
    if n > 0 {
      ByteValue(x % 256);
      DecodeInt(x / 256, n - 1);
    }
  }

  lemma {:induction false} EncodeInt(bs: seq<byte>)
    ensures LittleEndian(FromLittleEndian(bs), |bs|) == bs
  {
    hide ByteOf, ValueOf;
    if bs != [] {
      ValueByte(bs[0]);
      EncodeInt(bs[1..]);
      FirstByte(ValueOf(bs[0]), FromLittleEndian(bs[1..]));
    }
  }

  lemma FirstByte(v: nat, rest: nat)
    requires v < 256
    ensures (v + 256 * rest) % 256 == v && (v + 256 * rest) / 256 == rest
  {
  }

  // Byte j has the weight 256^j.
  lemma {:induction false} ByteWeight(x: nat, n: nat, j: nat)
    requires j < n
    ensures ValueOf(LittleEndian(x, n)[j]) == x / Pow256(j) % 256
  {
    hide ByteOf, ValueOf;
    if j == 0 {
      ByteValue(x % 256);
    } else {
      ByteWeight(x / 256, n - 1, j - 1);
      QuotientOfQuotient(x, Pow256(j - 1));
    }
  }

  lemma QuotientOfQuotient(x: nat, p: nat)
    requires p > 0
    ensures x / 256 / p == x / (256 * p)
  {
    var y := x / 256;
    DivMod(y, p);
    var q, r := y / p, y % p;
    assert x == q * (256 * p) + (256 * r + x % 256);
    DivModUnique(x, 256 * p, q, 256 * r + x % 256);
  }

  lemma Widths()
    ensures Pow256(4) == TWO32 && Pow256(8) == TWO64
  {
    assert Pow256(1) == 256 && Pow256(2) == 65536;
    assert Pow256(3) == 256 * 65536 && Pow256(5) == 256 * TWO32 && Pow256(6) == 65536 * TWO32;
  }

  // ------------------------------------------------------------------
  // The layout.

  // Everything but the signature, in the order of the struct.
  function HashedBytes(tx: Transaction): (bs: seq<byte>)
    ensures |bs| == 64
  {
    LittleEndian(tx.nonce, 8) + LittleEndian(tx.expiry, 4) + tx.source + tx.dest
    + LittleEndian(tx.value, 8) + LittleEndian(tx.fee, 4)
  }

  function TxBytes(tx: Transaction): (bs: seq<byte>)
    ensures |bs| == TX_TOTAL_SIZE
  {
    HashedBytes(tx) + tx.signature
  }

  function TxOfBytes(bs: seq<byte>): Transaction
    requires |bs| == TX_TOTAL_SIZE
  {
    Widths();
    Transaction(FromLittleEndian(bs[..8]), FromLittleEndian(bs[8..12]), bs[12..32], bs[32..52],
                FromLittleEndian(bs[52..60]), FromLittleEndian(bs[60..64]), bs[64..])
  }

  // Every transaction survives the layout, and every 128 bytes are the layout
  // of the transaction read from them.
  lemma DecodeLayout(tx: Transaction)
    ensures TxOfBytes(TxBytes(tx)) == tx
  {
    Widths();
    hide LittleEndian, FromLittleEndian, Pow256;
    var bs := TxBytes(tx);
    assert bs[..8] == LittleEndian(tx.nonce, 8);
    assert bs[8..12] == LittleEndian(tx.expiry, 4);
    assert bs[12..32] == tx.source && bs[32..52] == tx.dest;
    assert bs[52..60] == LittleEndian(tx.value, 8);
    assert bs[60..64] == LittleEndian(tx.fee, 4);
    assert bs[64..] == tx.signature;
    DecodeInt(tx.nonce, 8);
    DecodeInt(tx.expiry, 4);
    DecodeInt(tx.value, 8);
    DecodeInt(tx.fee, 4);
  }

  lemma EncodeLayout(bs: seq<byte>)
    requires |bs| == TX_TOTAL_SIZE
    ensures TxBytes(TxOfBytes(bs)) == bs
  {
    hide LittleEndian, FromLittleEndian;
    EncodeInt(bs[..8]);
    EncodeInt(bs[8..12]);
    EncodeInt(bs[52..60]);
    EncodeInt(bs[60..64]);
  }

  // Where each field lies: at the offset of the struct, which has no padding.
  lemma FieldOffsets(tx: Transaction)
    ensures var bs := TxBytes(tx);
            && bs[0..8] == LittleEndian(tx.nonce, 8) && bs[8..12] == LittleEndian(tx.expiry, 4)
            && bs[12..32] == tx.source && bs[32..52] == tx.dest
            && bs[52..60] == LittleEndian(tx.value, 8) && bs[60..64] == LittleEndian(tx.fee, 4)
            && bs[64..128] == tx.signature && bs[..64] == HashedBytes(tx)
  {
    hide LittleEndian;
  }

  // A message that carries a transaction is the struct and a public key.
  lemma MessageSizes(e: Entry, round: u32, count: u32)
    ensures WireSize(TxMsg(e)) == |TxBytes(e.tx)| + |e.pubkey| == 160
    ensures WireSize(HeaderMsg(round, count)) == 8 + |LittleEndian(round, 4)| + |LittleEndian(count, 4)| == 16
    ensures WireSize(EndMsg(round, count)) == |LittleEndian(round, 4)| + |LittleEndian(count, 4)| == 8
  {
    hide LittleEndian;
  }

  // The hash covers everything but the signature, and nothing is ambiguous.
  lemma HashedBytesBind(s: Transaction, t: Transaction)
    ensures HashedBytes(s) == HashedBytes(t) <==> s == t.(signature := s.signature)
  {
    if HashedBytes(s) == HashedBytes(t) {
      var t' := t.(signature := s.signature);
      assert TxBytes(s) == TxBytes(t');
      DecodeLayout(s);
      DecodeLayout(t');
    }
  }

  // ------------------------------------------------------------------
  // The hexadecimal form.

  function Serialize(tx: Transaction): (s: string)
    ensures |s| == 256
  {
    ToHex(TxBytes(tx))
  }

  function Deserialize(s: string): Option<Transaction> {
    if |s| != 256 then None
    else
      var bs := FromHex(s);
      if bs.None? then None else Some(TxOfBytes(bs.value))
  }

  lemma DeserializeSerialized(tx: Transaction)
    ensures Deserialize(Serialize(tx)) == Some(tx)
  {
    ParsePrinted(TxBytes(tx));
    DecodeLayout(tx);
  }

  lemma SerializeDeserialized(s: string)
    requires Deserialize(s).Some?
    ensures Serialize(Deserialize(s).value) == LowerAll(s)
  {
    PrintParsed(s);
    EncodeLayout(FromHex(s).value);
  }

  lemma DeserializeRejects(s: string)
    ensures Deserialize(s).None? <==> |s| != 256 || exists j :: 0 <= j < |s| && !HexCharacter(s[j])
  {
    ParseRejects(s);
  }

  // ------------------------------------------------------------------
  // The methods.

  // The buffer transaction_compute_hash fills by advancing an offset.
  method HashBuffer(tx: Transaction) returns (buf: array<byte>)
    ensures fresh(buf) && buf[..] == HashedBytes(tx)
  {
    hide LittleEndian;
    buf := new byte[64](_ => 0);
    var off := 0;
    off := CopyAt(buf, off, LittleEndian(tx.nonce, 8));
    off := CopyAt(buf, off, LittleEndian(tx.expiry, 4));
    off := CopyAt(buf, off, tx.source);
    off := CopyAt(buf, off, tx.dest);
    off := CopyAt(buf, off, LittleEndian(tx.value, 8));
    off := CopyAt(buf, off, LittleEndian(tx.fee, 4));
    assert buf[..] == buf[..off];
  }

  method DeserializeHex(hexData: string) returns (r: Option<Transaction>)
    ensures r == Deserialize(hexData)
  {
    if |hexData| != 256 {
      return None;
    }
    var bytes := new byte[TX_TOTAL_SIZE](_ => 0);
    var ok := HexToBytesBuf(hexData, bytes, TX_TOTAL_SIZE);
    assert hexData[..256] == hexData && bytes[..TX_TOTAL_SIZE] == bytes[..];
    r := if ok then Some(TxOfBytes(bytes[..])) else None;
  }
}
