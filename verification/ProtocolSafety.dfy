/**
 What holds in every reachable state of the round protocol, whatever the
 interleaving, however far the assigner runs ahead, in whatever order the
 followers' summaries arrive.
 */
module ProtocolSafety {
  import opened Wire
  import opened Routing
  import opened Mempool
  import opened ShardAssigner
  import opened ShardWorker
  import opened Protocol
  import opened ProtocolInvariant

  // Every summary the leader holds while it assembles block number k+1 was
  // computed by a different shard from exactly that shard's share of the k-th
  // drained list, although a summary does not say which round it is for.
  lemma {:induction false} SummariesAreOfTheRound(c: Config, s: State)
    requires ValidConfig(c) && Reachable(c, s) && s.leader.Collecting?
    ensures var k := |s.blocks|;
            var order := [0] + s.leader.senders;
            && k < |s.rounds|
            && s.leaderRound == Wrap32(k + 1)
            && |s.leader.summaries| == |order| <= c.n
            && (forall j :: 0 <= j < |order| ==>
                  && order[j] < c.n
                  && s.leader.summaries[j] == Summarize(c.hashing, order[j], ForShard(c.n, s.rounds[k], order[j]))
                  && s.leader.summaries[j].shardId == order[j])
            && (forall j, l :: 0 <= j < l < |order| ==> order[j] != order[l])
  {
    hide Reachable, ForShard, Streams, BlocksOk, FollowersOk, DoneOk, FeeSum, ChainRoot, TxHashes;
    ReachableInv(c, s);
    assert LeaderOk(c, s);
    hide Inv;
    var order := [0] + s.leader.senders;
    assert Collected(c, s.rounds, |s.blocks|, s.leader.summaries, s.leader.senders);
    assert forall j :: 0 < j < |order| ==> order[j] == s.leader.senders[j - 1];
  }

  // A leader waiting for a round finds its header: a transaction or an end
  // marker is never mistaken for the start of a round.
  lemma {:induction false} IdleReceiveIsHeader(c: Config, s: State)
    requires ValidConfig(c) && Reachable(c, s) && s.leader.Idle?
    requires |s.tx| > 0 && s.tx[0] != []
    ensures WireSize(s.tx[0][0]) == HEADER_SIZE
    ensures s.tx[0][0] == HeaderMsg(Wrap32(|s.blocks| + 1), c.n)
    ensures LeaderRound(s.leaderRound, s.tx[0][0]) == Wrap32(|s.blocks| + 1)
  {
    ReachableInv(c, s);
    IdleLeaderSeesHeader(c, s);
  }

  // An announcement gives every follower exactly one round to drain, that of
  // the next block, and finds it waiting with all earlier rounds drained.
  lemma AnnouncementReachesAll(c: Config, s: State, i: nat)
    requires ValidConfig(c) && Reachable(c, s) && s.leader.Announce? && Follower(c, i)
    ensures Shape(c, s)
    ensures var t := Apply(c, s, LeaderAnnounce);
            && t.starts[i] == [Wrap32(|s.blocks| + 1)]
            && t.followers[i].Waiting? && t.results[i] == [] && t.drained[i] == |s.blocks|
  {
    ReachableInv(c, s);
    assert FollowerOk(c, s, i);
    hide Reachable, ForShard, Streams, BlocksOk;
  }

  // Followers are never out of step: between an announcement and the block a
  // follower has drained that round or not, and nothing else is announced.
  lemma FollowersInStep(c: Config, s: State, i: nat)
    requires ValidConfig(c) && Reachable(c, s) && Follower(c, i)
    ensures Shape(c, s) && |s.blocks| <= s.drained[i] <= |s.blocks| + 1
    ensures s.starts[i] == [] || (s.starts[i] == [Wrap32(|s.blocks| + 1)] && s.drained[i] == |s.blocks|)
  {
    ReachableInv(c, s);
    assert FollowerOk(c, s, i);
    hide Reachable, ForShard, Streams, BlocksOk;
  }

  // ------------------------------------------------------------------
  // Block totals.

  lemma {:induction false} TotalsOfShares(c: Config, rounds: seq<seq<Entry>>, k: nat, order: seq<nat>)
    requires ValidConfig(c) && k < |rounds| && |rounds[k]| <= MEMPOOL_MAX_SIZE
    ensures TxCountSum(InOrder(c, rounds, k, order)) == Sum(Counts(c.n, rounds[k], order))
    ensures FeeTotal(InOrder(c, rounds, k, order)) == Sum(Fees(c.n, rounds[k], order))
  {
    hide ForShard, ChainRoot, FeeSum;
    if order != [] {
      var m := |order| - 1;
      var order' := order[..m];
      TotalsOfShares(c, rounds, k, order');
      assert InOrder(c, rounds, k, order)[..m] == InOrder(c, rounds, k, order');
      assert Counts(c.n, rounds[k], order)[..m] == Counts(c.n, rounds[k], order');
      assert Fees(c.n, rounds[k], order)[..m] == Fees(c.n, rounds[k], order');
      var share := ForShard(c.n, rounds[k], order[m]);
      ForShardLength(c.n, rounds[k], order[m]);
      FeeSumBound(share);
    }
  }

  lemma {:induction false} AssembledTotals(c: Config, rounds: seq<seq<Entry>>, k: nat, order: seq<nat>, r: u32)
    requires ValidConfig(c) && k < |rounds| && |rounds[k]| <= MEMPOOL_MAX_SIZE && Visits(c.n, order)
    ensures var b := Assemble(c.hashing, r, c.n, InOrder(c, rounds, k, order));
            && b.number == r && b.numShards == c.n
            && b.totalTxCount == |rounds[k]| < TWO32
            && b.totalFees == FeeSum(rounds[k]) < TWO64
  {
    var ss := InOrder(c, rounds, k, order);
    TotalsOfShares(c, rounds, k, order);
    SharesAddUp(c.n, rounds[k], order);
    FeeSumBound(rounds[k]);
    hide ForShard, Summarize, FeeSum, TxCountSum, FeeTotal, Visits, Sum, InOrder, Counts, Fees, Assemble;
    NothingWraps(c.hashing, r, c.n, ss);
  }

  lemma NothingWraps(h: Hashing, r: u32, n: nat, ss: seq<ShardSummary>)
    requires n < TWO32 && TxCountSum(ss) < TWO32 && FeeTotal(ss) < TWO64
    ensures var b := Assemble(h, r, n, ss);
            b.number == r && b.numShards == n && b.totalTxCount == TxCountSum(ss) && b.totalFees == FeeTotal(ss)
  {
  }

  lemma BlockOfRound(c: Config, s: State, k: nat)
    requires ValidConfig(c) && Reachable(c, s) && k < |s.blocks|
    ensures BlockOk(c, s, k) && |s.rounds[k]| <= MEMPOOL_MAX_SIZE
  {
    hide Reachable, Streams, LeaderOk, FollowersOk, DoneOk, Assemble, InOrder, Visits;
    ReachableInv(c, s);
    assert BlockOk(c, s, k);
  }

  // Blocks come out numbered 1, 2, 3, ... and the totals of the k-th are the
  // length and the fee sum of the k-th drained list; neither field overflows.
  lemma {:induction false} BlockTotals(c: Config, s: State, k: nat)
    requires ValidConfig(c) && Reachable(c, s) && k < |s.blocks|
    ensures k < |s.rounds|
    ensures s.blocks[k].number == Wrap32(k + 1)
    ensures k + 1 < TWO32 ==> s.blocks[k].number == k + 1
    ensures s.blocks[k].numShards == c.n
    ensures s.blocks[k].totalTxCount == |s.rounds[k]| < TWO32
    ensures s.blocks[k].totalFees == FeeSum(s.rounds[k]) < TWO64
  {
    BlockOfRound(c, s, k);
    hide Reachable, Shape, FeeSum, Visits, Assemble, InOrder;
    AssembledTotals(c, s.rounds, k, s.orders[k], Wrap32(k + 1));
  }

  // The combined root is over the shards' chained roots in arrival order.
  lemma {:induction false} BlockRoot(c: Config, s: State, k: nat)
    requires ValidConfig(c) && Reachable(c, s) && k < |s.blocks|
    ensures k < |s.rounds| && k < |s.orders| && Visits(c.n, s.orders[k]) && s.orders[k][0] == 0
    ensures s.blocks[k].merkleRoot == c.hashing.sha(Roots(InOrder(c, s.rounds, k, s.orders[k])))
  {
    BlockOfRound(c, s, k);
    hide Reachable, ForShard, TxCountSum, FeeTotal, Roots;
  }

  // ------------------------------------------------------------------
  // The imperative dispatch and drain loops are runs of these steps.

  function AssignerWork(c: Config, s: State): nat
    requires Shape(c, s)
  {
    match s.assigner
    case Intake => 0
    case Sending(es, next, _) => 2 * (|es| - next) + 2 * c.n + 3
    case Ending(_, next) => 2 * (c.n - next) + 2
  }

  // Let the receiver process finish the dispatch it is in.
  function FinishDispatch(c: Config, s: State): State
    requires ValidConfig(c) && Shape(c, s)
    decreases AssignerWork(c, s)
  {
    if s.assigner.Intake? then s
    else
      hide ShardForTx;
      var s' := AfterAssigner(c, s);
      FinishDispatch(c, s')
  }

  lemma {:induction false} FinishDispatchSends(c: Config, s: State)
    requires ValidConfig(c) && Shape(c, s)
    ensures var t := FinishDispatch(c, s);
            && Shape(c, t)
            && t == s.(assigner := Intake, tx := t.tx, done := t.done)
            && (forall i :: 0 <= i < c.n ==> t.tx[i] == s.tx[i] + ToSend(c, s, i))
            && t.done == s.done + if s.assigner.Intake? then [] else [s.roundNumber]
    decreases AssignerWork(c, s)
  {
    hide ShardForTx, ToSend, ForShard;
    if !s.assigner.Intake? {
      var s' := AfterAssigner(c, s);
      forall i | 0 <= i < c.n
        ensures s'.tx[i] + ToSend(c, s', i) == s.tx[i] + ToSend(c, s, i)
      {
        AssignerMoves(c, s, i);
      }
      FinishDispatchSends(c, s');
    } else {
      forall i | 0 <= i < c.n
        ensures ToSend(c, s, i) == []
      {
        NothingOwed(c, s, i);
      }
    }
  }

  lemma NothingOwed(c: Config, s: State, i: nat)
    requires ValidConfig(c) && Shape(c, s) && s.assigner.Intake? && i < c.n
    ensures ToSend(c, s, i) == []
  {
  }

  // Run to its end without interruption, a dispatch does to the channels what
  // Assigner.Dispatch promises: one segment each, then the done message.
  lemma {:induction false} DispatchRun(c: Config, s: State)
    requires ValidConfig(c) && Shape(c, s) && s.assigner.Intake?
    requires s.roundNumber == Wrap32(|s.rounds|)
    ensures var t := FinishDispatch(c, BeginDispatch(c, s));
            var es := Taken(s.pool, c.blockSize, c.n);
            && |t.tx| == c.n
            && t.pool == []
            && t.roundNumber == Wrap32(s.roundNumber + 1)
            && (forall i :: 0 <= i < c.n ==> t.tx[i] == s.tx[i] + Segment(c.n, t.roundNumber, es, i))
            && t.done == s.done + [t.roundNumber]
            && t.assigner.Intake?
  {
    hide ToSend, ForShard, Taken, Segments, Segment, StreamOk;
    var s1 := BeginDispatch(c, s);
    var es := Taken(s.pool, c.blockSize, c.n);
    FinishDispatchSends(c, s1);
    var t := FinishDispatch(c, s1);
    NextRoundNumber(|s.rounds|);
    hide FinishDispatch, Wrap32;
    forall i | 0 <= i < c.n
      ensures t.tx[i] == s.tx[i] + Segment(c.n, t.roundNumber, es, i)
    {
      BeginDispatchOwes(c, s, i);
      SameWireRound(c.n, |s.rounds| + 1, es, i);
    }
  }

  // A segment carries its round number in 32 bits.
  lemma SameWireRound(n: nat, r: nat, es: seq<Entry>, i: nat)
    requires n > 0
    ensures Segment(n, Wrap32(r), es, i) == Segment(n, r, es, i)
  {
    hide ForShard;
  }

  // Follower i takes in what waits on its channel until its round is complete
  // or the channel is empty.
  function FollowerRun(c: Config, s: State, i: nat): State
    requires ValidConfig(c) && Shape(c, s) && Follower(c, i)
    decreases |s.tx[i]|
  {
    if s.followers[i].Working? && s.tx[i] != [] then FollowerRun(c, AfterFollowerDrain(c, s, i), i) else s
  }

  // The drain steps of a follower compute what ProcessTransactions computes.
  lemma {:induction false} FollowerRunDrains(c: Config, s: State, i: nat)
    requires ValidConfig(c) && Shape(c, s) && Follower(c, i)
    requires s.followers[i].Working? && !Finished(s.followers[i].d)
    ensures var t := FollowerRun(c, s, i);
            var (d, q) := DrainAll(s.followers[i].d, s.tx[i]);
            && Shape(c, t)
            && t.tx == s.tx[i := q]
            && t.followers == s.followers[i := if Finished(d) then Reporting(Summarize(c.hashing, i, d.buf)) else Working(d)]
    decreases |s.tx[i]|
  {
    hide Summarize;
    if s.tx[i] != [] {
      var s' := AfterFollowerDrain(c, s, i);
      var d := Receive(s.followers[i].d, s.tx[i][0]);
      assert s'.tx[i] == s.tx[i][1..];
      if Finished(d) {
        assert DrainAll(d, s.tx[i][1..]) == (d, s.tx[i][1..]);
      } else {
        FollowerRunDrains(c, s', i);
      }
    }
  }

  // The leader's own drain, likewise.
  function LeaderRun(c: Config, s: State): State
    requires ValidConfig(c) && Shape(c, s)
    decreases |s.tx[0]|
  {
    if s.leader.Draining? && s.tx[0] != [] then LeaderRun(c, AfterLeaderDrain(c, s)) else s
  }

  lemma {:induction false} LeaderRunDrains(c: Config, s: State)
    requires ValidConfig(c) && Shape(c, s)
    requires s.leader.Draining? && !Finished(s.leader.d)
    ensures var t := LeaderRun(c, s);
            var (d, q) := DrainAll(s.leader.d, s.tx[0]);
            && Shape(c, t)
            && t.tx == s.tx[0 := q] && t.leaderRound == s.leaderRound && t.blocks == s.blocks
            && t.leader == if Finished(d) then Collecting([Summarize(c.hashing, 0, d.buf)], []) else Draining(d)
    decreases |s.tx[0]|
  {
    hide Summarize;
    if s.tx[0] != [] {
      var s' := AfterLeaderDrain(c, s);
      var d := Receive(s.leader.d, s.tx[0][0]);
      assert s'.tx[0] == s.tx[0][1..];
      if Finished(d) {
        assert DrainAll(d, s.tx[0][1..]) == (d, s.tx[0][1..]);
      } else {
        LeaderRunDrains(c, s');
      }
    }
  }

  // The followers' oldest reports, in the order in which they arrive.
  ghost predicate Ready(c: Config, s: State, froms: seq<nat>)
    requires Shape(c, s)
  {
    && (forall j :: 0 <= j < |froms| ==> Follower(c, froms[j]) && s.results[froms[j]] != [])
    && (forall j, l :: 0 <= j < l < |froms| ==> froms[j] != froms[l])
  }

  function Arriving(c: Config, s: State, froms: seq<nat>): (queue: seq<ShardSummary>)
    requires Shape(c, s) && Ready(c, s, froms)
    ensures |queue| == |froms|
    ensures forall j :: 0 <= j < |froms| ==> queue[j] == s.results[froms[j]][0]
  {
    seq(|froms|, j requires 0 <= j < |froms| => s.results[froms[j]][0])
  }

  function CollectSteps(froms: seq<nat>): seq<Step> {
    if froms == [] then [LeaderFinalize] else [LeaderCollect(froms[0])] + CollectSteps(froms[1..])
  }

  // From its own drain on, the leader's steps assemble the block that
  // CollectSummaries and AssembleBlock make of the reports as they arrive.
  lemma {:induction false} CollectRun(c: Config, s: State, froms: seq<nat>) returns (t: State)
    requires ValidConfig(c) && Shape(c, s) && s.leader.Collecting? && Ready(c, s, froms)
    requires |s.leader.senders| + |froms| == c.n - 1
    ensures RunsTo(c, s, CollectSteps(froms), t)
    ensures t.blocks == s.blocks + [Assemble(c.hashing, s.leaderRound, c.n, s.leader.summaries + Arriving(c, s, froms))]
    ensures t.leader.Idle?
    decreases |froms|
  {
    hide Assemble;
    if froms == [] {
      t := Apply(c, s, LeaderFinalize);
      assert s.leader.summaries + Arriving(c, s, []) == s.leader.summaries;
      assert CollectSteps([])[1..] == [];
    } else {
      var s' := Apply(c, s, LeaderCollect(froms[0]));
      t := CollectRun(c, s', froms[1..]);
      assert s'.leader.summaries + Arriving(c, s', froms[1..]) == s.leader.summaries + Arriving(c, s, froms);
      assert CollectSteps(froms)[1..] == CollectSteps(froms[1..]);
    }
  }
}
