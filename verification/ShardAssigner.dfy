/**
 The shard assigner: drain the mempool, route every transaction to its shard's
 channel, and close the round on every shard.
 */
module ShardAssigner {
  import opened Wire
  import opened Routing
  import opened Mempool

  const MAX_SHARDS := 64

  // block_size rounded down to a multiple of the shard count, but never zero.
  function Exact(blockSize: nat, n: nat): (max: nat)
    requires n > 0
    ensures max > 0
  {
    var exact := (blockSize / n) * n;
    if exact == 0 then n else exact
  }

  // The entries one dispatch takes out of the pool.
  function Taken(pool: seq<Entry>, blockSize: nat, n: nat): (es: seq<Entry>)
    requires n > 0
    ensures es <= pool
  {
    pool[..DrainCount(|pool|, Exact(blockSize, n))]
  }

  // es has been routed, on top of what the channels held before, and counted.
  ghost predicate RoutedTo(n: nat, queues: seq<seq<Msg>>, counts: seq<u64>, before: seq<seq<Msg>>, es: seq<Entry>)
    requires n > 0 && |queues| == |before| == n <= |counts|
  {
    forall i :: 0 <= i < n ==>
      && queues[i] == before[i] + TxMsgs(ForShard(n, es, i))
      && counts[i] == |ForShard(n, es, i)|
  }

  lemma RoutedMore(n: nat, queues: seq<seq<Msg>>, counts: seq<u64>, before: seq<seq<Msg>>, es: seq<Entry>, e: Entry)
    requires n > 0 && |queues| == |before| == n <= |counts| && |es| < MEMPOOL_MAX_SIZE
    requires RoutedTo(n, queues, counts, before, es)
    ensures var i := ShardForTx(e.tx, n);
            RoutedTo(n, queues[i := queues[i] + [TxMsg(e)]], counts[i := Wrap64(counts[i] as nat + 1)], before, es + [e])
  {
    hide ShardForTx, ForShard;
    var shard := ShardForTx(e.tx, n);
    ForShardLength(n, es, shard);
    forall i | 0 <= i < n
      ensures ForShard(n, es + [e], i) == ForShard(n, es, i) + if shard == i then [e] else []
    {
      ForShardSnoc(n, es, e, i);
    }
  }

  class Assigner {
    const numShards: nat
    var roundNumber: u32
    const push: seq<Channel<Msg>>
    const doneSock: Channel<u32>
    const assignedCounts: array<u64>

    ghost predicate Valid()
      reads this
    {
      && 0 < numShards <= MAX_SHARDS
      && |push| == numShards
      && (forall i, j :: 0 <= i < j < numShards ==> push[i] != push[j])
      && assignedCounts.Length == MAX_SHARDS
    }

    constructor (push: seq<Channel<Msg>>, doneSock: Channel<u32>)
      requires 0 < |push| <= MAX_SHARDS
      requires forall i, j :: 0 <= i < j < |push| ==> push[i] != push[j]
      ensures Valid() && this.push == push && this.doneSock == doneSock
      ensures roundNumber == 0 && fresh(assignedCounts)
    {
      numShards := |push|;
      roundNumber := 0;
      this.push := push;
      this.doneSock := doneSock;
      assignedCounts := new u64[MAX_SHARDS](_ => 0);
    }

    // What waits on each shard's channel.
    ghost function Queues(): (qs: seq<seq<Msg>>)
      requires Valid()
      reads this, push
      ensures |qs| == numShards
      ensures forall i :: 0 <= i < numShards ==> qs[i] == push[i].queue
    {
      seq(numShards, i requires 0 <= i < |push| reads this, push => push[i].queue)
    }

    method SendTo(i: nat, m: Msg)
      requires Valid() && i < numShards
      modifies push
      ensures Queues() == old(Queues())[i := old(Queues())[i] + [m]]
    {
      push[i].Send(m);
    }

    // The state of a round in progress: es has been routed so far, on top of
    // what the channels held before.
    ghost predicate Routed(before: seq<seq<Msg>>, es: seq<Entry>)
      requires Valid() && |before| == numShards
      reads this, push, assignedCounts
    {
      RoutedTo(numShards, Queues(), assignedCounts[..], before, es)
    }

    method RouteOne(e: Entry, ghost before: seq<seq<Msg>>, ghost es: seq<Entry>)
      requires Valid() && |before| == numShards && Routed(before, es)
      requires |es| < MEMPOOL_MAX_SIZE
      modifies push, assignedCounts
      ensures Routed(before, es + [e])
    {
      hide ShardForTx, RoutedTo;
      RoutedMore(numShards, Queues(), assignedCounts[..], before, es, e);
      var shard := ShardForTx(e.tx, numShards);
      SendTo(shard, TxMsg(e));
      assignedCounts[shard] := Wrap64(assignedCounts[shard] as nat + 1);
    }

    // Route the drained entries one by one, counting per shard.
    method Route(drainBuf: array<Transaction>, pubkeyBuf: array<Bytes32>, count: nat, ghost es: seq<Entry>)
      requires Valid()
      requires count <= drainBuf.Length && count <= pubkeyBuf.Length
      requires count <= MEMPOOL_MAX_SIZE && es == Zip(drainBuf[..count], pubkeyBuf[..count])
      requires forall i :: 0 <= i < numShards ==> assignedCounts[i] == 0
      modifies push, assignedCounts
      ensures Routed(old(Queues()), es)
    {
      ghost var before := Queues();
      assert Routed(before, []);
      for k := 0 to count
        invariant Routed(before, es[..k])
      {
        hide Routed;
        var e := Entry(drainBuf[k], pubkeyBuf[k]);
        assert e == es[k];
        assert es[..k + 1] == es[..k] + [e];
        RouteOne(e, before, es[..k]);
      }
      assert es[..count] == es;
    }

    method CloseRound(ghost es: seq<Entry>)
      requires Valid() && |es| <= MEMPOOL_MAX_SIZE
      requires forall i :: 0 <= i < numShards ==> assignedCounts[i] == |ForShard(numShards, es, i)|
      modifies push
      ensures forall i :: 0 <= i < numShards ==>
                Queues()[i] == old(Queues()[i]) + [EndMsg(roundNumber, Wrap32(|ForShard(numShards, es, i)|))]
    {
      for i := 0 to numShards
        invariant forall j :: 0 <= j < numShards ==>
                    Queues()[j] == old(Queues()[j])
                      + if j < i then [EndMsg(roundNumber, Wrap32(|ForShard(numShards, es, j)|))] else []
      {
        SendTo(i, EndMsg(roundNumber, Wrap32(assignedCounts[i])));
      }
    }

    // Reset the counts, start the next round, announce it to the leader.
    method BeginRound()
      requires Valid()
      modifies this`roundNumber, push, assignedCounts
      ensures roundNumber == Wrap32(old(roundNumber) + 1)
      ensures Queues() == old(Queues())[0 := old(Queues())[0] + [HeaderMsg(roundNumber, Wrap32(numShards))]]
      ensures forall i :: 0 <= i < numShards ==> assignedCounts[i] == 0
    {
      forall i | 0 <= i < MAX_SHARDS {
        assignedCounts[i] := 0;
      }
      roundNumber := Wrap32(roundNumber + 1);
      SendTo(0, HeaderMsg(roundNumber, Wrap32(numShards)));
    }

    method TakeFrom(pool: Pool, max: nat)
      returns (drainBuf: array<Transaction>, pubkeyBuf: array<Bytes32>, count: nat)
      requires pool.Valid()
      modifies pool`count
      ensures pool.Valid() && pool.Contents() == []
      ensures fresh(drainBuf) && fresh(pubkeyBuf)
      ensures count <= drainBuf.Length && count <= pubkeyBuf.Length && count <= MEMPOOL_MAX_SIZE
      ensures Zip(drainBuf[..count], pubkeyBuf[..count])
           == old(pool.Contents())[..DrainCount(|old(pool.Contents())|, max)]
    {
      drainBuf := new Transaction[MEMPOOL_MAX_SIZE](
        _ => Transaction(0, 0, seq(20, _ => 0), seq(20, _ => 0), 0, 0, seq(64, _ => 0)));
      pubkeyBuf := new Bytes32[MEMPOOL_MAX_SIZE](_ => ZERO32);
      count := pool.Drain(drainBuf, pubkeyBuf, max);
    }

    static lemma SegmentSent(n: nat, r: u32, es: seq<Entry>,
                             before: seq<seq<Msg>>, begun: seq<seq<Msg>>, routed: seq<seq<Msg>>, closed: seq<seq<Msg>>)
      requires n > 0 && |before| == |begun| == |routed| == |closed| == n
      requires begun == before[0 := before[0] + [HeaderMsg(r, Wrap32(n))]]
      requires forall i :: 0 <= i < n ==> routed[i] == begun[i] + TxMsgs(ForShard(n, es, i))
      requires forall i :: 0 <= i < n ==> closed[i] == routed[i] + [EndMsg(r, Wrap32(|ForShard(n, es, i)|))]
      ensures forall i :: 0 <= i < n ==> closed[i] == before[i] + Segment(n, r, es, i)
    {
      hide ForShard;
      forall i | 0 <= i < n
        ensures closed[i] == before[i] + Segment(n, r, es, i)
      {
        assert closed[i] == begun[i] + TxMsgs(ForShard(n, es, i)) + [EndMsg(r, Wrap32(|ForShard(n, es, i)|))];
        assert Wrap32(r) == r;
      }
    }

    method Dispatch(pool: Pool, blockSize: u32)
      requires Valid() && pool.Valid()
      modifies this`roundNumber, pool`count, push, doneSock, assignedCounts
      ensures pool.Valid() && pool.Contents() == []
      ensures roundNumber == Wrap32(old(roundNumber) + 1)
      ensures var es := Taken(old(pool.Contents()), blockSize, numShards);
              forall i :: 0 <= i < numShards ==>
                && Queues()[i] == old(Queues()[i]) + Segment(numShards, roundNumber, es, i)
                && assignedCounts[i] == |ForShard(numShards, es, i)|
      ensures doneSock.queue == old(doneSock.queue) + [roundNumber]
    {
      hide Exact, ForShard, Zip, Segment, TxMsgs;
      ghost var before := Queues();
      BeginRound();
      ghost var begun := Queues();
      var drainBuf, pubkeyBuf, count := TakeFrom(pool, Exact(blockSize, numShards));
      ghost var es := Zip(drainBuf[..count], pubkeyBuf[..count]);
      assert Queues() == begun;
      Route(drainBuf, pubkeyBuf, count, es);
      ghost var routed := Queues();
      CloseRound(es);
      ghost var closed := Queues();
      SegmentSent(numShards, roundNumber, es, before, begun, routed, closed);
      doneSock.Send(roundNumber);
      assert Queues() == closed;
    }
  }
}
