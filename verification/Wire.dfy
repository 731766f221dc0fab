/**
 The values that cross the system: C integer widths, transactions, and the
 messages of the round protocol. A receiver never sees a tag: it recovers the
 kind of a message from the number of bytes received.
 */
module Wire {

  type byte = bv8

  const TWO32: int := 0x1_0000_0000
  const TWO64: int := 0x1_0000_0000_0000_0000

  type u32 = x: int | 0 <= x < TWO32
  type u64 = x: int | 0 <= x < TWO64

  // Fixed-size byte fields.
  type Address = s: seq<byte> | |s| == 20 witness seq(20, _ => 0)
  type Hash28 = s: seq<byte> | |s| == 28 witness seq(28, _ => 0)
  type Bytes32 = s: seq<byte> | |s| == 32 witness seq(32, _ => 0)
  type Signature = s: seq<byte> | |s| == 64 witness seq(64, _ => 0)

  // C's unsigned arithmetic wraps around.
  function Wrap32(x: nat): u32 {
    x % TWO32
  }

  function Wrap64(x: nat): u64 {
    x % TWO64
  }

  datatype Transaction = Transaction(
    nonce: u64, expiry: u32, source: Address, dest: Address,
    value: u64, fee: u32, signature: Signature)

  // A transaction and the public key that travels beside it.
  datatype Entry = Entry(tx: Transaction, pubkey: Bytes32)

  // The messages on a shard's transaction channel.
  datatype Msg =
    | HeaderMsg(round: u32, numShards: u32)
    | TxMsg(entry: Entry)
    | EndMsg(endRound: u32, txCount: u32)

  const HEADER_SIZE := 16
  const TX_SIZE := 160
  const END_SIZE := 8

  // sizeof(DispatchHeader), sizeof(TxWithPubkey), sizeof(RoundEnd).
  function WireSize(m: Msg): nat {
    match m
    case HeaderMsg(_, _) => HEADER_SIZE
    case TxMsg(_) => TX_SIZE
    case EndMsg(_, _) => END_SIZE
  }

  // What a follower reports for one round. There is no round number in it.
  datatype ShardSummary = ShardSummary(shardId: u32, txCount: u32, totalFees: u64, merkleRoot: Bytes32)

  datatype Block = Block(number: u32, numShards: u32, totalTxCount: u32, totalFees: u64, merkleRoot: Bytes32)

  // The two hash functions the workers apply, as parameters of the model:
  // SHA-256 and the 28-byte transaction hash.
  datatype Hashing = Hashing(sha: seq<byte> -> Bytes32, txHash: Transaction -> Hash28)

  datatype Option<T> = None | Some(value: T)

  const ZERO32: Bytes32 := seq(32, _ => 0)

  function Zeros(n: nat): (z: seq<byte>)
    ensures |z| == n && forall j :: 0 <= j < n ==> z[j] == 0
  {
    seq(n, _ => 0)
  }

  // Transactions and public keys are kept in two parallel arrays.
  function Zip(txs: seq<Transaction>, pubkeys: seq<Bytes32>): (es: seq<Entry>)
    requires |txs| == |pubkeys|
    ensures |es| == |txs|
    ensures forall j :: 0 <= j < |txs| ==> es[j] == Entry(txs[j], pubkeys[j])
  {
    seq(|txs|, j requires 0 <= j < |txs| => Entry(txs[j], pubkeys[j]))
  }

  // memcpy(buf + off, src, |src|).
  method CopyAt(buf: array<byte>, off: nat, src: seq<byte>) returns (next: nat)
    requires off + |src| <= buf.Length
    modifies buf
    ensures next == off + |src|
    ensures buf[..next] == old(buf[..off]) + src && buf[next..] == old(buf[next..])
  {
    next := off + |src|;
    for i := 0 to |src|
      invariant buf[..off] == old(buf[..off])
      invariant buf[off..off + i] == src[..i]
      invariant buf[off + i..] == old(buf[off + i..])
    {
      buf[off + i] := src[i];
      assert buf[off..off + i + 1] == buf[off..off + i] + [src[i]];
    }
    assert src[..|src|] == src;
    assert buf[..next] == buf[..off] + buf[off..next];
  }

  // A FIFO channel; sending appends, receiving takes the oldest message.
  class Channel<T> {
    var queue: seq<T>

    constructor ()
      ensures queue == []
    {
      queue := [];
    }

    method Send(m: T)
      modifies this
      ensures queue == old(queue) + [m]
    {
      queue := queue + [m];
    }

    method Receive() returns (m: T)
      requires queue != []
      modifies this
      ensures old(queue) == [m] + queue
    {
      m := queue[0];
      queue := queue[1..];
    }
  }
}
