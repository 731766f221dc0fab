/**
 What a block root says about transactions when transactions are hashed as the
 workers hash them: everything but the signatures and the public keys, in
 arrival order.
 */
module BlockContents {
  import opened Wire
  import opened Routing
  import opened ShardWorker
  import opened Protocol
  import opened Commitment
  import opened Blake3Compress
  import opened TransactionCodec
  import opened TransactionHash

  // The lists agree position by position, signatures and public keys aside.
  predicate SameUnsigned(es: seq<Entry>, es': seq<Entry>) {
    && |es| == |es'|
    && forall j :: 0 <= j < |es| ==> HashedBytes(es[j].tx) == HashedBytes(es'[j].tx)
  }

  // Two different hashed texts, one from each list, on which the transaction
  // hash fails.
  ghost predicate TxHashBroken(es: seq<Entry>, es': seq<Entry>) {
    exists i, j :: 0 <= i < |es| && 0 <= j < |es'| && Fails(HashedBytes(es[i].tx), HashedBytes(es'[j].tx))
  }

  ghost predicate Fails(x: seq<byte>, y: seq<byte>) {
    x != y && CompressBroken(Cv, x, y)
  }

  lemma {:induction false} SameHashesSameUnsigned(h: Hashing, es: seq<Entry>, es': seq<Entry>)
    requires forall tx :: h.txHash(tx) == TxHash(tx)
    requires TxHashes(h, es) == TxHashes(h, es')
    ensures SameUnsigned(es, es') || TxHashBroken(es, es')
  {
    hide HashedBytes, TxHash, CompressBroken, Cv;
    assert |es| == |TxHashes(h, es)| == |es'|;
    if !SameUnsigned(es, es') {
      var j :| 0 <= j < |es| && HashedBytes(es[j].tx) != HashedBytes(es'[j].tx);
      var s, t := es[j].tx, es'[j].tx;
      assert TxHash(s) == TxHashes(h, es)[j] == TxHashes(h, es')[j] == TxHash(t);
      HashedBytesBind(s, t);
      TxHashBinds(s, t);
      assert Fails(HashedBytes(s), HashedBytes(t));
    }
  }

  // Two blocks with one root, from any two runs with as many shards: shard by
  // shard in arrival order they hold the same transactions but for signatures
  // and public keys, or SHA-256 is broken on inputs that the leaders and the
  // workers hashed, or the transaction hash is, on transactions of the blocks.
  lemma {:induction false} SameRootSameTransactions(c: Config, s: State, k: nat, c': Config, s': State, k': nat)
    requires ValidConfig(c) && Reachable(c, s) && k < |s.blocks|
    requires ValidConfig(c') && Reachable(c', s') && k' < |s'.blocks|
    requires c'.n == c.n && c'.hashing == c.hashing
    requires forall tx :: c.hashing.txHash(tx) == TxHash(tx)
    requires s.blocks[k].merkleRoot == s'.blocks[k'].merkleRoot
    ensures k < |s.rounds| && k < |s.orders| && k' < |s'.rounds| && k' < |s'.orders|
    ensures var sha := c.hashing.sha;
            || Broken(sha, BlockInputs(sha, HashLists(c, s.rounds, k, s.orders[k])),
                           BlockInputs(sha, HashLists(c', s'.rounds, k', s'.orders[k'])))
            || (&& |s.orders[k]| == |s'.orders[k']|
                && forall j :: 0 <= j < |s.orders[k]| ==>
                     var es, es' := ForShard(c.n, s.rounds[k], s.orders[k][j]), ForShard(c.n, s'.rounds[k'], s'.orders[k'][j]);
                     SameUnsigned(es, es') || TxHashBroken(es, es'))
  {
    SameRootSameHashes(c, s, k, c', s', k');
    hide Reachable, Broken, BlockInputs, ForShard, SameUnsigned, TxHashBroken, TxHash, TxHashes;
    var l, l' := HashLists(c, s.rounds, k, s.orders[k]), HashLists(c', s'.rounds, k', s'.orders[k']);
    if l == l' {
      assert |s.orders[k]| == |l| == |l'| == |s'.orders[k']|;
      forall j | 0 <= j < |s.orders[k]|
        ensures var es, es' := ForShard(c.n, s.rounds[k], s.orders[k][j]), ForShard(c.n, s'.rounds[k'], s'.orders[k'][j]);
                SameUnsigned(es, es') || TxHashBroken(es, es')
      {
        var es, es' := ForShard(c.n, s.rounds[k], s.orders[k][j]), ForShard(c.n, s'.rounds[k'], s'.orders[k'][j]);
        assert TxHashes(c.hashing, es) == l[j] == l'[j] == TxHashes(c.hashing, es');
        SameHashesSameUnsigned(c.hashing, es, es');
      }
    }
  }
}
