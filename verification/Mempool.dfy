/**
 The mempool: two parallel arrays, of transactions and of public keys, with a
 count. Draining takes the oldest entries and forgets the rest.
 */
module Mempool {
  import opened Wire

  const MEMPOOL_MAX_SIZE := 1048576

  function EffectiveCapacity(capacity: nat): (c: nat)
    ensures 0 < c <= MEMPOOL_MAX_SIZE
    ensures capacity <= MEMPOOL_MAX_SIZE && capacity > 0 ==> c == capacity
    ensures capacity > MEMPOOL_MAX_SIZE || capacity == 0 ==> c == 1048576
  {
    if capacity == 0 || capacity > MEMPOOL_MAX_SIZE then MEMPOOL_MAX_SIZE else capacity
  }

  // How many entries a drain of at most max takes out of count.
  function DrainCount(count: nat, max: nat): (n: nat)
    ensures n <= count && n <= max
    ensures n == count || n == max
  {
    if count < max then count else max
  }

  class Pool {
    var txs: array<Transaction>
    var pubkeys: array<Bytes32>
    var count: nat
    const capacity: nat

    ghost predicate Valid()
      reads this
    {
      && 0 < capacity <= MEMPOOL_MAX_SIZE
      && txs.Length == pubkeys.Length == capacity
      && count <= capacity
    }

    ghost function Contents(): (es: seq<Entry>)
      requires Valid()
      reads this, txs, pubkeys
      ensures |es| == count
    {
      Zip(txs[..count], pubkeys[..count])
    }

    constructor (capacity: nat)
      ensures Valid() && fresh(txs) && fresh(pubkeys)
      ensures this.capacity == EffectiveCapacity(capacity) && Contents() == []
    {
      var c := EffectiveCapacity(capacity);
      this.capacity := c;
      var zeroTx := Transaction(0, 0, seq(20, _ => 0), seq(20, _ => 0), 0, 0, seq(64, _ => 0));
      txs := new Transaction[c](_ => zeroTx);
      pubkeys := new Bytes32[c](_ => ZERO32);
      count := 0;
    }

    // A missing key is stored as 32 zero bytes. A full pool refuses.
    method Add(tx: Transaction, pubkey: Option<Bytes32>) returns (ok: bool)
      requires Valid()
      modifies this`count, txs, pubkeys
      ensures Valid()
      ensures ok <==> |old(Contents())| < capacity
      ensures var key := if pubkey.Some? then pubkey.value else ZERO32;
              Contents() == if ok then old(Contents()) + [Entry(tx, key)] else old(Contents())
    {
      if count >= capacity {
        return false;
      }
      txs[count] := tx;
      match pubkey {
        case Some(key) => pubkeys[count] := key;
        case None => pubkeys[count] := ZERO32;
      }
      count := count + 1;
      ok := true;
    }

    // The first n entries go out; the count drops to zero, so whatever lay
    // beyond them is gone.
    method Drain(out: array<Transaction>, pubkeysOut: array<Bytes32>, max: nat) returns (n: nat)
      requires Valid() && {out} !! {txs} && {pubkeysOut} !! {pubkeys}
      requires out.Length >= count && pubkeysOut.Length >= count
      modifies this`count, out, pubkeysOut
      ensures Valid() && Contents() == []
      ensures n == DrainCount(|old(Contents())|, max)
      ensures n <= out.Length && n <= pubkeysOut.Length
      ensures Zip(out[..n], pubkeysOut[..n]) == old(Contents())[..n]
      ensures out[n..] == old(out[n..]) && pubkeysOut[n..] == old(pubkeysOut[n..])
    {
      n := if count < max then count else max;
      forall j | 0 <= j < n {
        out[j] := txs[j];
      }
      forall j | 0 <= j < n {
        pubkeysOut[j] := pubkeys[j];
      }
      count := 0;
    }

    method Size() returns (n: nat)
      requires Valid()
      ensures n == |Contents()|
    {
      n := count;
    }
  }
}
