/**
 The shard worker: draining one round from the transaction channel, summarising
 it, and (on the leader) assembling a block from the shards' summaries.
 */
module ShardWorker {
  import opened Wire
  import opened Routing

  // ------------------------------------------------------------------
  // What the worker computes, as functions.

  // The local state of the drain loop.
  datatype Drain = Drain(buf: seq<Entry>, expected: nat, gotEnd: bool)

  const EMPTY_DRAIN := Drain([], 0, false)

  predicate Finished(d: Drain) {
    d.gotEnd && |d.buf| >= d.expected
  }

  // One message taken in by the drain loop. Its kind is told from its size;
  // a message of any other size is dropped.
  function Receive(d: Drain, m: Msg): Drain {
    if WireSize(m) == END_SIZE then d.(expected := m.txCount, gotEnd := true)
    else if WireSize(m) == TX_SIZE then d.(buf := d.buf + [m.entry])
    else d
  }

  // Run the drain loop on the messages waiting in q: it stops when the round
  // is complete or, blocked, when q runs dry.
  function DrainAll(d: Drain, q: seq<Msg>): (Drain, seq<Msg>)
    decreases |q|
  {
    if Finished(d) || q == [] then (d, q) else DrainAll(Receive(d, q[0]), q[1..])
  }

  // The round number the leader takes from the message it finds when idle.
  function LeaderRound(round: u32, m: Msg): u32 {
    if WireSize(m) == HEADER_SIZE then m.round else Wrap32(round + 1)
  }

  function TxHashes(h: Hashing, es: seq<Entry>): (hs: seq<Hash28>)
    ensures |hs| == |es|
    ensures forall j :: 0 <= j < |es| ==> hs[j] == h.txHash(es[j].tx)
  {
    seq<Hash28>(|es|, j requires 0 <= j < |es| => h.txHash(es[j].tx))
  }

  // The hash chain over transaction hashes, from 32 zero bytes.
  function ChainRoot(sha: seq<byte> -> Bytes32, hashes: seq<Hash28>): Bytes32 {
    if hashes == [] then ZERO32
    else sha(ChainRoot(sha, hashes[..|hashes| - 1]) + hashes[|hashes| - 1])
  }

  function Summarize(h: Hashing, shard: nat, es: seq<Entry>): ShardSummary {
    ShardSummary(Wrap32(shard), Wrap32(|es|), Wrap64(FeeSum(es)), ChainRoot(h.sha, TxHashes(h, es)))
  }

  function TxCountSum(ss: seq<ShardSummary>): nat {
    if ss == [] then 0 else TxCountSum(ss[..|ss| - 1]) + ss[|ss| - 1].txCount
  }

  function FeeTotal(ss: seq<ShardSummary>): nat {
    if ss == [] then 0 else FeeTotal(ss[..|ss| - 1]) + ss[|ss| - 1].totalFees
  }

  function Roots(ss: seq<ShardSummary>): seq<byte> {
    if ss == [] then [] else Roots(ss[..|ss| - 1]) + ss[|ss| - 1].merkleRoot
  }

  function Assemble(h: Hashing, round: u32, numShards: nat, ss: seq<ShardSummary>): Block {
    Block(round, Wrap32(numShards), Wrap32(TxCountSum(ss)), Wrap64(FeeTotal(ss)), h.sha(Roots(ss)))
  }

  // A leader that never sees a header numbers its blocks 1, 2, 3, ...
  lemma NumbersWithoutHeaders(k: nat, m: Msg)
    requires !m.HeaderMsg?
    ensures LeaderRound(Wrap32(k), m) == Wrap32(k + 1)
  {
  }

  // ------------------------------------------------------------------
  // A round written out: three transactions over two shards, the second of them
  // odd, as messages, as summaries, and as the block of round 1.

  lemma {:induction false} RoundOfThree(h: Hashing, e: Entry, o: Entry, e': Entry)
    requires e.tx.nonce % 2 == 0 && o.tx.nonce % 2 == 1 && e'.tx.nonce % 2 == 0
    ensures Segment(2, 1, [e, o, e'], 0) == [HeaderMsg(1, 2), TxMsg(e), TxMsg(e'), EndMsg(1, 2)]
    ensures Segment(2, 1, [e, o, e'], 1) == [TxMsg(o), EndMsg(1, 1)]
    ensures var z := seq(32, _ => 0);
            var root := h.sha(h.sha(z + h.txHash(e.tx)) + h.txHash(e'.tx));
            var root' := h.sha(z + h.txHash(o.tx));
            var own := ShardSummary(0, 2, e.tx.fee + e'.tx.fee, root);
            var other := ShardSummary(1, 1, o.tx.fee, root');
            && Summarize(h, 0, [e, e']) == own && Summarize(h, 1, [o]) == other
            && Assemble(h, 1, 2, [own, other]) == Block(1, 2, 3, e.tx.fee + o.tx.fee + e'.tx.fee, h.sha(root + root'))
  {
    SharesOfThree(e, o, e');
    assert TxMsgs([e, e']) == [TxMsg(e), TxMsg(e')] && TxMsgs([o]) == [TxMsg(o)];
    SummaryOfOne(h, 1, o);
    SummaryOfTwo(h, 0, e, e');
    BlockOfTwo(h, Summarize(h, 0, [e, e']), Summarize(h, 1, [o]));
    hide ForShard, TxMsgs, Summarize, Assemble;
  }

  lemma SharesOfThree(e: Entry, o: Entry, e': Entry)
    requires e.tx.nonce % 2 == 0 && o.tx.nonce % 2 == 1 && e'.tx.nonce % 2 == 0
    ensures ForShard(2, [e, o, e'], 0) == [e, e'] && ForShard(2, [e, o, e'], 1) == [o]
  {
    assert [e, o, e'][..2] == [e, o] && [e, o][..1] == [e] && [e][..0] == [];
    assert ForShard(2, [e], 0) == [e] && ForShard(2, [e], 1) == [];
    assert ForShard(2, [e, o], 0) == [e] && ForShard(2, [e, o], 1) == [o];
  }

  lemma SummaryOfOne(h: Hashing, shard: u32, e: Entry)
    ensures Summarize(h, shard, [e]) == ShardSummary(shard, 1, e.tx.fee, h.sha(seq(32, _ => 0) + h.txHash(e.tx)))
  {
    assert TxHashes(h, [e]) == [h.txHash(e.tx)];
    assert [e][..0] == [] && FeeSum([e]) == e.tx.fee;
    ChainOfOne(h.sha, h.txHash(e.tx));
    hide TxHashes, FeeSum, ChainRoot;
  }

  lemma SummaryOfTwo(h: Hashing, shard: u32, e: Entry, e': Entry)
    ensures Summarize(h, shard, [e, e'])
         == ShardSummary(shard, 2, e.tx.fee + e'.tx.fee, h.sha(h.sha(seq(32, _ => 0) + h.txHash(e.tx)) + h.txHash(e'.tx)))
  {
    assert TxHashes(h, [e, e']) == [h.txHash(e.tx), h.txHash(e'.tx)];
    assert [e, e'][..1] == [e] && [e][..0] == [];
    assert FeeSum([e]) == e.tx.fee;
    assert FeeSum([e, e']) == e.tx.fee + e'.tx.fee;
    ChainOfTwo(h.sha, h.txHash(e.tx), h.txHash(e'.tx));
    hide TxHashes, FeeSum, ChainRoot;
  }

  lemma ChainOfOne(sha: seq<byte> -> Bytes32, x: Hash28)
    ensures ChainRoot(sha, [x]) == sha(seq(32, _ => 0) + x)
  {
    assert [x][..0] == [];
    assert ZERO32 == seq(32, _ => 0);
  }

  // The chain of two hashes, written out from its 32 zero bytes.
  lemma ChainOfTwo(sha: seq<byte> -> Bytes32, x: Hash28, y: Hash28)
    ensures ChainRoot(sha, []) == seq(32, _ => 0)
    ensures ChainRoot(sha, [x, y]) == sha(sha(seq(32, _ => 0) + x) + y)
  {
    assert [x, y][..1] == [x];
    ChainOfOne(sha, x);
  }

  lemma BlockOfTwo(h: Hashing, s: ShardSummary, s': ShardSummary)
    requires s.txCount + s'.txCount < TWO32 && s.totalFees + s'.totalFees < TWO64
    ensures Assemble(h, 1, 2, [s, s'])
         == Block(1, 2, s.txCount + s'.txCount, s.totalFees + s'.totalFees, h.sha(s.merkleRoot + s'.merkleRoot))
  {
    assert [s, s'][..1] == [s] && [s][..0] == [];
    assert TxCountSum([s]) == s.txCount && FeeTotal([s]) == s.totalFees && Roots([s]) == s.merkleRoot;
    assert TxCountSum([s, s']) == s.txCount + s'.txCount && FeeTotal([s, s']) == s.totalFees + s'.totalFees;
    assert Roots([s, s']) == s.merkleRoot + s'.merkleRoot;
  }

  // ------------------------------------------------------------------
  // Framing: a drain that starts at the head of a segment consumes exactly
  // that round's transactions and its end marker.

  lemma {:induction false} FramingFrom(es: seq<Entry>, k: nat, r: u32, rest: seq<Msg>)
    requires k <= |es| < TWO32
    ensures DrainAll(Drain(es[..k], 0, false), TxMsgs(es)[k..] + [EndMsg(r, |es|)] + rest)
         == (Drain(es, |es|, true), rest)
    decreases |es| - k
  {
    var q := TxMsgs(es)[k..] + [EndMsg(r, |es|)] + rest;
    if k == |es| {
      assert es[..k] == es;
      assert q == [EndMsg(r, |es|)] + rest;
      assert q[1..] == rest;
    } else {
      assert q[0] == TxMsg(es[k]);
      assert q[1..] == TxMsgs(es)[k + 1..] + [EndMsg(r, |es|)] + rest;
      assert es[..k] + [es[k]] == es[..k + 1];
      FramingFrom(es, k + 1, r, rest);
    }
  }

  lemma Framing(es: seq<Entry>, r: u32, rest: seq<Msg>)
    requires |es| < TWO32
    ensures DrainAll(EMPTY_DRAIN, TxMsgs(es) + [EndMsg(r, |es|)] + rest) == (Drain(es, |es|, true), rest)
  {
    assert es[..0] == [];
    assert TxMsgs(es)[0..] == TxMsgs(es);
    FramingFrom(es, 0, r, rest);
  }

  // ------------------------------------------------------------------
  // The loops.

  method GrowTxs(a: array<Transaction>, filler: Transaction) returns (b: array<Transaction>)
    requires a.Length > 0
    ensures fresh(b) && b.Length == 2 * a.Length && b[..a.Length] == a[..]
  {
    b := new Transaction[2 * a.Length](_ => filler);
    forall j | 0 <= j < a.Length {
      b[j] := a[j];
    }
  }

  method GrowPubkeys(a: array<Bytes32>) returns (b: array<Bytes32>)
    requires a.Length > 0
    ensures fresh(b) && b.Length == 2 * a.Length && b[..a.Length] == a[..]
  {
    b := new Bytes32[2 * a.Length](_ => ZERO32);
    forall j | 0 <= j < a.Length {
      b[j] := a[j];
    }
  }

  // Store one entry at position bufCount, doubling both buffers when full.
  method StoreEntry(txBuf: array<Transaction>, pubkeyBuf: array<Bytes32>, bufCount: nat, e: Entry)
    returns (txs: array<Transaction>, pubkeys: array<Bytes32>)
    requires 0 < txBuf.Length == pubkeyBuf.Length && bufCount <= txBuf.Length
    modifies txBuf, pubkeyBuf
    ensures txs == txBuf || fresh(txs)
    ensures pubkeys == pubkeyBuf || fresh(pubkeys)
    ensures bufCount < txs.Length == pubkeys.Length
    ensures Zip(txs[..bufCount + 1], pubkeys[..bufCount + 1])
         == old(Zip(txBuf[..bufCount], pubkeyBuf[..bufCount])) + [e]
  {
    txs, pubkeys := txBuf, pubkeyBuf;
    if bufCount >= txBuf.Length {
      txs := GrowTxs(txBuf, e.tx);
      pubkeys := GrowPubkeys(pubkeyBuf);
    }
    txs[bufCount] := e.tx;
    pubkeys[bufCount] := e.pubkey;
  }

  // Phase 1: receive into the two growing buffers until the round is complete.
  // Running out of messages leaves the worker blocked with what it has.
  method BufferRound(pull: Channel<Msg>)
    returns (txBuf: array<Transaction>, pubkeyBuf: array<Bytes32>, bufCount: nat, expected: nat, gotEnd: bool)
    modifies pull
    ensures fresh(txBuf) && fresh(pubkeyBuf)
    ensures bufCount <= txBuf.Length && bufCount <= pubkeyBuf.Length
    ensures (Drain(Zip(txBuf[..bufCount], pubkeyBuf[..bufCount]), expected, gotEnd), pull.queue)
         == DrainAll(EMPTY_DRAIN, old(pull.queue))
  {
    var zeroTx := Transaction(0, 0, seq(20, _ => 0), seq(20, _ => 0), 0, 0, seq(64, _ => 0));
    txBuf := new Transaction[512](_ => zeroTx);
    pubkeyBuf := new Bytes32[512](_ => ZERO32);
    bufCount, expected, gotEnd := 0, 0, false;
    ghost var d := EMPTY_DRAIN;
    assert Zip(txBuf[..0], pubkeyBuf[..0]) == [];
    while !gotEnd || bufCount < expected
      invariant fresh(txBuf) && fresh(pubkeyBuf)
      invariant 0 < txBuf.Length == pubkeyBuf.Length
      invariant bufCount <= txBuf.Length
      invariant d == Drain(Zip(txBuf[..bufCount], pubkeyBuf[..bufCount]), expected, gotEnd)
      invariant DrainAll(EMPTY_DRAIN, old(pull.queue)) == DrainAll(d, pull.queue)
      decreases |pull.queue|
    {
      if pull.queue == [] {
        return;
      }
      ghost var q := pull.queue;
      var raw := pull.Receive();
      assert q[0] == raw && q[1..] == pull.queue;
      if WireSize(raw) == END_SIZE {
        expected := raw.txCount;
        gotEnd := true;
      } else if WireSize(raw) == TX_SIZE {
        txBuf, pubkeyBuf := StoreEntry(txBuf, pubkeyBuf, bufCount, raw.entry);
        bufCount := bufCount + 1;
      }
      d := Receive(d, raw);
    }
  }

  // A wrapped sum may be wrapped at every step.
  lemma WrapsZero()
    ensures Wrap32(0) == 0 && Wrap64(0) == 0
  {
  }

  lemma WrapsAdd(x: nat, y: nat)
    ensures Wrap32(Wrap32(x) + y) == Wrap32(x + y) && Wrap64(Wrap64(x) + y) == Wrap64(x + y)
  {
  }

  // Phase 2: the fee sum and the transaction hashes.
  method HashRound(h: Hashing, txBuf: array<Transaction>, bufCount: nat, ghost es: seq<Entry>)
    returns (totalFees: u64, txHashes: array<Hash28>)
    requires bufCount <= txBuf.Length && |es| == bufCount
    requires forall j :: 0 <= j < bufCount ==> es[j].tx == txBuf[j]
    ensures fresh(txHashes)
    ensures totalFees == Wrap64(FeeSum(es))
    ensures txHashes[..] == TxHashes(h, es)
  {
    hide Wrap64;
    totalFees := 0;
    WrapsZero();
    txHashes := new Hash28[bufCount](_ => seq(28, _ => 0));
    for i := 0 to bufCount
      invariant totalFees == Wrap64(FeeSum(es[..i]))
      invariant forall j :: 0 <= j < i ==> txHashes[j] == h.txHash(es[j].tx)
    {
      assert es[..i + 1][..i] == es[..i];
      WrapsAdd(FeeSum(es[..i]), txBuf[i].fee);
      totalFees := Wrap64(totalFees + txBuf[i].fee);
      txHashes[i] := h.txHash(txBuf[i]);
    }
    assert es[..bufCount] == es;
  }

  // Phase 3: the sequential fold, each step hashing the running hash and the
  // next transaction hash.
  method FoldHashes(sha: seq<byte> -> Bytes32, txHashes: array<Hash28>) returns (runningHash: Bytes32)
    ensures runningHash == ChainRoot(sha, txHashes[..])
  {
    runningHash := ZERO32;
    for i := 0 to txHashes.Length
      invariant runningHash == ChainRoot(sha, txHashes[..i])
    {
      assert txHashes[..i + 1][..i] == txHashes[..i];
      runningHash := sha(runningHash + txHashes[i]);
    }
    assert txHashes[..txHashes.Length] == txHashes[..];
  }

  // None: still blocked waiting for messages of the round.
  method ProcessTransactions(h: Hashing, pull: Channel<Msg>, shardId: u32) returns (r: Option<ShardSummary>)
    modifies pull
    ensures var (d, q) := DrainAll(EMPTY_DRAIN, old(pull.queue));
            && pull.queue == q
            && r == if Finished(d) then Some(Summarize(h, shardId, d.buf)) else None
  {
    var txBuf, pubkeyBuf, bufCount, expected, gotEnd := BufferRound(pull);
    ghost var es := Zip(txBuf[..bufCount], pubkeyBuf[..bufCount]);
    if !gotEnd || bufCount < expected {
      return None;
    }
    if bufCount == 0 {
      assert es == [] && TxHashes(h, es) == [];
      return Some(ShardSummary(shardId, 0, 0, ZERO32));
    }
    var totalFees, txHashes := HashRound(h, txBuf, bufCount, es);
    var runningHash := FoldHashes(h.sha, txHashes);
    r := Some(ShardSummary(shardId, Wrap32(bufCount), totalFees, runningHash));
  }

  // The leader's receive loop for the followers' reports: arrival order.
  method CollectSummaries(own: ShardSummary, results: Channel<ShardSummary>, numShards: nat)
    returns (r: Option<array<ShardSummary>>)
    requires numShards > 0
    modifies results
    ensures r.None? <==> |old(results.queue)| < numShards - 1
    ensures r.Some? ==> && fresh(r.value)
                        && r.value[..] == [own] + old(results.queue)[..numShards - 1]
                        && results.queue == old(results.queue)[numShards - 1..]
  {
    var summaries := new ShardSummary[numShards](_ => own);
    var resultsReceived := 0;
    while resultsReceived < numShards - 1
      invariant 0 <= resultsReceived <= numShards - 1
      invariant resultsReceived <= |old(results.queue)|
      invariant results.queue == old(results.queue)[resultsReceived..]
      invariant summaries[..1 + resultsReceived] == [own] + old(results.queue)[..resultsReceived]
    {
      if results.queue == [] {
        return None;
      }
      var s := results.Receive();
      summaries[1 + resultsReceived] := s;
      resultsReceived := resultsReceived + 1;
    }
    assert summaries[..] == summaries[..1 + resultsReceived];
    r := Some(summaries);
  }

  method AssembleBlock(h: Hashing, round: u32, numShards: nat, summaries: array<ShardSummary>) returns (block: Block)
    requires summaries.Length == numShards
    ensures block == Assemble(h, round, numShards, summaries[..])
  {
    hide Wrap32, Wrap64;
    var totalTxCount: u32, totalFees: u64 := 0, 0;
    WrapsZero();
    for i := 0 to numShards
      invariant totalTxCount == Wrap32(TxCountSum(summaries[..i]))
      invariant totalFees == Wrap64(FeeTotal(summaries[..i]))
    {
      assert summaries[..i + 1][..i] == summaries[..i];
      WrapsAdd(TxCountSum(summaries[..i]), summaries[i].txCount);
      WrapsAdd(FeeTotal(summaries[..i]), summaries[i].totalFees);
      totalTxCount := Wrap32(totalTxCount + summaries[i].txCount);
      totalFees := Wrap64(totalFees + summaries[i].totalFees);
    }
    var allRoots: seq<byte> := [];
    for i := 0 to numShards
      invariant allRoots == Roots(summaries[..i])
    {
      assert summaries[..i + 1][..i] == summaries[..i];
      allRoots := allRoots + summaries[i].merkleRoot;
    }
    assert summaries[..numShards] == summaries[..];
    block := Block(round, Wrap32(numShards), totalTxCount, totalFees, h.sha(allRoots));
  }
}
