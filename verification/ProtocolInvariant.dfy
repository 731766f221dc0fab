/**
 The inductive invariant of the round protocol, and the safety properties that
 follow from it.

 Its core is one equation per shard. What the shard has consumed of its current
 round, what waits on its channel, and what the dispatch in progress will still
 send it are together exactly the segments of the rounds it has yet to finish.
 */
module ProtocolInvariant {
  import opened Wire
  import opened Routing
  import opened ShardAssigner
  import opened ShardWorker
  import opened Receiver
  import opened Protocol

  // ------------------------------------------------------------------
  // Streams of segments.

  function Segments(n: nat, rounds: seq<seq<Entry>>, i: nat, k: nat): seq<Msg>
    requires n > 0 && k <= |rounds|
    decreases |rounds| - k
  {
    if k == |rounds| then [] else Segment(n, k + 1, rounds[k], i) + Segments(n, rounds, i, k + 1)
  }

  lemma {:induction false} SegmentsAppend(n: nat, rounds: seq<seq<Entry>>, es: seq<Entry>, i: nat, k: nat)
    requires n > 0 && k <= |rounds|
    ensures Segments(n, rounds + [es], i, k) == Segments(n, rounds, i, k) + Segment(n, |rounds| + 1, es, i)
    decreases |rounds| - k
  {
    hide Segment;
    if k < |rounds| {
      SegmentsAppend(n, rounds, es, i, k + 1);
    } else {
      assert Segments(n, rounds + [es], i, k + 1) == [];
    }
  }

  lemma Regroup(a: seq<Msg>, b: seq<Msg>, c: seq<Msg>)
    ensures a + b + c == a + (b + c)
  {
  }

  // Taking the next message off a channel q.
  lemma TakeOne(a: seq<Msg>, q: seq<Msg>, owed: seq<Msg>)
    requires q != []
    ensures a + q + owed == a + [q[0]] + (q[1..] + owed)
  {
  }

  // What precedes the transactions of round k (counted from 0) on channel i.
  function Head(n: nat, i: nat, k: nat): seq<Msg>
    requires n > 0
  {
    if i == 0 then [HeaderMsg(Wrap32(k + 1), Wrap32(n))] else []
  }

  // The next message of a shard that has taken in buf of round k: another
  // transaction of the round, or its end marker once buf is the whole share.
  lemma NextMessage(n: nat, rounds: seq<seq<Entry>>, i: nat, k: nat, buf: seq<Entry>, m: Msg, rest: seq<Msg>)
    requires n > 0 && k <= |rounds|
    requires k < |rounds| ==> |rounds[k]| < TWO32
    requires Head(n, i, k) + TxMsgs(buf) + [m] + rest == Segments(n, rounds, i, k)
    ensures k < |rounds|
    ensures m.TxMsg? || m.EndMsg?
    ensures m.EndMsg? ==> && buf == ForShard(n, rounds[k], i)
                          && m.txCount == |buf|
                          && rest == Segments(n, rounds, i, k + 1)
  {
    hide ForShard;
    assert |Segments(n, rounds, i, k)| > 0;
    var f := ForShard(n, rounds[k], i);
    ForShardLength(n, rounds[k], i);
    var h := Head(n, i, k);
    var tail := Segments(n, rounds, i, k + 1);
    var whole := h + TxMsgs(f) + [EndMsg(Wrap32(k + 1), Wrap32(|f|))] + tail;
    var seen := h + TxMsgs(buf) + [m] + rest;
    assert whole == seen;
    assert whole[|h| + |f|].EndMsg? && seen[|h| + |buf|] == m;
    assert |buf| <= |f|;
    assert m == whole[|h| + |buf|];
    if |buf| < |f| {
      assert m == TxMsg(f[|buf|]);
    } else {
      forall j | 0 <= j < |buf|
        ensures buf[j] == f[j]
      {
        assert whole[|h| + j] == TxMsg(f[j]);
        assert seen[|h| + j] == TxMsg(buf[j]);
      }
      assert buf == f;
      assert rest == whole[|h| + |buf| + 1..];
    }
  }

  // A shard in the middle of round k is never at the end of its stream.
  lemma StreamNotExhausted(n: nat, rounds: seq<seq<Entry>>, i: nat, k: nat, buf: seq<Entry>)
    requires n > 0 && k < |rounds|
    ensures Head(n, i, k) + TxMsgs(buf) != Segments(n, rounds, i, k)
  {
    hide ForShard;
    var f := ForShard(n, rounds[k], i);
    var h := Head(n, i, k);
    var whole := h + TxMsgs(f) + [EndMsg(Wrap32(k + 1), Wrap32(|f|))] + Segments(n, rounds, i, k + 1);
    assert whole == Segments(n, rounds, i, k);
    assert whole[|h| + |f|].EndMsg?;
    var seen := h + TxMsgs(buf);
    assert |h| + |f| < |seen| ==> seen[|h| + |f|].TxMsg?;
  }

  // ------------------------------------------------------------------
  // The invariant.

  // What shard i has consumed of the round it is in.
  function Consumed(c: Config, s: State, i: nat): seq<Msg>
    requires i < |s.followers|
  {
    if i == 0 then
      match s.leader
      case Idle => []
      case Collecting(_, _) => []
      case AwaitDone => [HeaderMsg(s.leaderRound, Wrap32(c.n))]
      case Announce => [HeaderMsg(s.leaderRound, Wrap32(c.n))]
      case Draining(d) => [HeaderMsg(s.leaderRound, Wrap32(c.n))] + TxMsgs(d.buf)
    else if s.followers[i].Working? then TxMsgs(s.followers[i].d.buf)
    else []
  }

  // What the dispatch in progress will still send to shard i.
  function ToSend(c: Config, s: State, i: nat): seq<Msg>
    requires ValidConfig(c) && Shape(c, s) && i < c.n
  {
    match s.assigner
    case Intake => []
    case Sending(es, next, counts) =>
      var f := ForShard(c.n, es[next..], i);
      TxMsgs(f) + [EndMsg(s.roundNumber, Wrap32(counts[i] + |f|))]
    case Ending(counts, next) =>
      if next <= i then [EndMsg(s.roundNumber, Wrap32(counts[i]))] else []
  }

  ghost predicate StreamOk(c: Config, s: State, i: nat)
    requires ValidConfig(c) && Shape(c, s) && i < c.n
  {
    && s.drained[i] <= |s.rounds|
    && Consumed(c, s, i) + s.tx[i] + ToSend(c, s, i) == Segments(c.n, s.rounds, i, s.drained[i])
  }

  ghost predicate Streams(c: Config, s: State)
    requires ValidConfig(c) && Shape(c, s)
  {
    forall i :: 0 <= i < c.n ==> StreamOk(c, s, i)
  }

  ghost predicate Basics(c: Config, s: State) {
    && s.roundNumber == Wrap32(|s.rounds|)
    && (s.assigner != Intake ==> s.rounds != [])
    && |s.pool| <= c.capacity
    && (forall k :: 0 <= k < |s.rounds| ==> |s.rounds[k]| <= c.capacity)
  }

  // Dispatches whose DispatchDone has been sent.
  function Dispatched(s: State): int {
    |s.rounds| - if s.assigner.Intake? then 0 else 1
  }

  // DispatchDone messages the leader has taken.
  function DoneTaken(s: State): nat {
    |s.blocks| + if s.leader.Idle? || s.leader.AwaitDone? then 0 else 1
  }

  ghost predicate DoneOk(s: State) {
    && DoneTaken(s) + |s.done| == Dispatched(s)
    && forall j :: 0 <= j < |s.done| ==> s.done[j] == Wrap32(DoneTaken(s) + j + 1)
  }

  ghost predicate FreshDrain(d: Drain) {
    !d.gotEnd
  }

  // The summary of round k (counted from 0) on shard i.
  function SummaryOf(c: Config, rounds: seq<seq<Entry>>, i: nat, k: nat): ShardSummary
    requires c.n > 0 && k < |rounds|
  {
    Summarize(c.hashing, i, ForShard(c.n, rounds[k], i))
  }

  ghost predicate LeaderOk(c: Config, s: State)
    requires ValidConfig(c) && Shape(c, s)
  {
    && s.leaderRound == Wrap32(|s.blocks| + if s.leader.Idle? then 0 else 1)
    && s.drained[0] == |s.blocks| + (if s.leader.Collecting? then 1 else 0)
    && s.drained[0] <= |s.rounds|
    && (s.leader.Draining? ==> FreshDrain(s.leader.d))
    && (s.leader.Collecting? ==>
          && |s.leader.senders| <= c.n - 1
          && Collected(c, s.rounds, |s.blocks|, s.leader.summaries, s.leader.senders))
  }

  // The summaries are the leader's own followed by those of distinct
  // followers, each computed from that follower's share of round k.
  ghost predicate Collected(c: Config, rounds: seq<seq<Entry>>, k: nat, summaries: seq<ShardSummary>, senders: seq<nat>)
    requires c.n > 0
  {
    && k < |rounds|
    && |summaries| == 1 + |senders|
    && summaries[0] == SummaryOf(c, rounds, 0, k)
    && (forall j :: 0 <= j < |senders| ==> Follower(c, senders[j]) && summaries[1 + j] == SummaryOf(c, rounds, senders[j], k))
    && (forall j, l :: 0 <= j < l < |senders| ==> senders[j] != senders[l])
  }

  // The leader has announced the round of the next block.
  ghost predicate Active(s: State) {
    s.leader.Draining? || s.leader.Collecting?
  }

  ghost predicate Reported(s: State, i: nat) {
    s.leader.Collecting? && i in s.leader.senders
  }

  // Where follower i stands in the round of the next block.
  ghost predicate FollowerOk(c: Config, s: State, i: nat)
    requires ValidConfig(c) && Shape(c, s) && Follower(c, i)
  {
    var k := |s.blocks|;
    var f := s.followers[i];
    if !Active(s) then
      f.Waiting? && s.starts[i] == [] && s.results[i] == [] && s.drained[i] == k
    else if Reported(s, i) then
      f.Waiting? && s.starts[i] == [] && s.results[i] == [] && s.drained[i] == k + 1
    else if s.drained[i] == k then
      && s.results[i] == []
      && (f.Waiting? ==> s.starts[i] == [s.leaderRound])
      && (f.Working? ==> s.starts[i] == [] && FreshDrain(f.d))
      && !f.Reporting?
    else
      && s.drained[i] == k + 1 && k < |s.rounds|
      && s.starts[i] == []
      && !f.Working?
      && (f.Reporting? ==> s.results[i] == [] && f.summary == SummaryOf(c, s.rounds, i, k))
      && (f.Waiting? ==> s.results[i] == [SummaryOf(c, s.rounds, i, k)])
  }

  ghost predicate FollowersOk(c: Config, s: State)
    requires ValidConfig(c) && Shape(c, s)
  {
    forall i: nat :: Follower(c, i) ==> FollowerOk(c, s, i)
  }

  // Block k, counted from 0, was assembled from every shard's summary of
  // round k, in some arrival order that starts with the leader's own.
  ghost predicate BlockOk(c: Config, s: State, k: nat)
    requires c.n > 0
  {
    && k < |s.blocks| && k < |s.orders| && k < |s.rounds|
    && Visits(c.n, s.orders[k]) && s.orders[k][0] == 0
    && s.blocks[k] == Assemble(c.hashing, Wrap32(k + 1), c.n, InOrder(c, s.rounds, k, s.orders[k]))
  }

  function InOrder(c: Config, rounds: seq<seq<Entry>>, k: nat, order: seq<nat>): (ss: seq<ShardSummary>)
    requires c.n > 0 && k < |rounds|
    ensures |ss| == |order|
    ensures forall j :: 0 <= j < |order| ==> ss[j] == SummaryOf(c, rounds, order[j], k)
  {
    seq(|order|, j requires 0 <= j < |order| => SummaryOf(c, rounds, order[j], k))
  }

  ghost predicate BlocksOk(c: Config, s: State)
    requires c.n > 0
  {
    && |s.orders| == |s.blocks|
    && forall k :: 0 <= k < |s.blocks| ==> BlockOk(c, s, k)
  }

  ghost predicate Inv(c: Config, s: State)
    requires ValidConfig(c)
  {
    && Shape(c, s)
    && Basics(c, s)
    && Streams(c, s)
    && DoneOk(s)
    && LeaderOk(c, s)
    && FollowersOk(c, s)
    && BlocksOk(c, s)
  }

  lemma InitInv(c: Config)
    requires ValidConfig(c)
    ensures Inv(c, Init(c))
  {
  }

  // ------------------------------------------------------------------
  // Every step keeps the invariant.

  lemma NextRoundNumber(r: nat)
    ensures Wrap32(Wrap32(r) + 1) == Wrap32(r + 1)
  {
  }

  // A dispatch that begins owes every shard the whole segment of its round.
  lemma BeginDispatchOwes(c: Config, s: State, i: nat)
    requires ValidConfig(c) && Shape(c, s) && s.assigner.Intake? && i < c.n
    requires s.roundNumber == Wrap32(|s.rounds|)
    ensures var s' := BeginDispatch(c, s);
            && Shape(c, s')
            && Consumed(c, s', i) == Consumed(c, s, i)
            && s'.tx[i] + ToSend(c, s', i) == s.tx[i] + Segment(c.n, |s.rounds| + 1, s'.rounds[|s.rounds|], i)
  {
    hide ForShard, Taken, Wrap32;
    var s' := BeginDispatch(c, s);
    var es := Taken(s.pool, c.blockSize, c.n);
    NextRoundNumber(|s.rounds|);
    assert es[0..] == es;
    assert s'.tx[i] == s.tx[i] + if i == 0 then [HeaderMsg(s'.roundNumber, Wrap32(c.n))] else [];
  }

  lemma RequestKeepsStream(c: Config, s: State, i: nat)
    requires ValidConfig(c) && Shape(c, s) && s.assigner.Intake? && i < c.n && StreamOk(c, s, i)
    requires s.roundNumber == Wrap32(|s.rounds|)
    ensures var s' := BeginDispatch(c, s);
            Shape(c, s') && StreamOk(c, s', i)
  {
    hide ForShard, Segments, Segment, Taken, Wrap32, Consumed;
    var s' := BeginDispatch(c, s);
    BeginDispatchOwes(c, s, i);
    SegmentsAppend(c.n, s.rounds, s'.rounds[|s.rounds|], i, s.drained[i]);
    assert s'.rounds == s.rounds + [s'.rounds[|s.rounds|]];
    Regroup(Consumed(c, s', i), s'.tx[i], ToSend(c, s', i));
    Regroup(Consumed(c, s, i), s.tx[i], Segment(c.n, |s.rounds| + 1, s'.rounds[|s.rounds|], i));
    assert ToSend(c, s, i) == [];
  }

  // More rounds do not disturb the blocks already assembled.
  lemma MoreRounds(c: Config, rounds: seq<seq<Entry>>, es: seq<Entry>, k: nat, order: seq<nat>)
    requires c.n > 0 && k < |rounds|
    ensures InOrder(c, rounds + [es], k, order) == InOrder(c, rounds, k, order)
  {
  }

  lemma BeginDispatchKeepsBlocks(c: Config, s: State)
    requires ValidConfig(c) && Inv(c, s) && s.assigner.Intake?
    ensures BlocksOk(c, BeginDispatch(c, s))
  {
    hide ForShard, Summarize, Assemble, Taken, Streams, FollowersOk, DoneOk, LeaderOk;
    var s' := BeginDispatch(c, s);
    forall k | 0 <= k < |s'.blocks|
      ensures BlockOk(c, s', k)
    {
      assert BlockOk(c, s, k);
      MoreRounds(c, s.rounds, s'.rounds[|s.rounds|], k, s.orders[k]);
    }
  }

  lemma BeginDispatchKeepsFollowers(c: Config, s: State)
    requires ValidConfig(c) && Inv(c, s) && s.assigner.Intake?
    ensures FollowersOk(c, BeginDispatch(c, s))
  {
    hide ForShard, Summarize, Taken, Streams, BlocksOk, DoneOk, LeaderOk;
    var s' := BeginDispatch(c, s);
    forall i: nat | Follower(c, i)
      ensures FollowerOk(c, s', i)
    {
      assert FollowerOk(c, s, i);
    }
  }

  lemma BeginDispatchKeepsStreams(c: Config, s: State)
    requires ValidConfig(c) && Inv(c, s) && s.assigner.Intake?
    ensures Streams(c, BeginDispatch(c, s))
  {
    hide StreamOk, BlocksOk, FollowersOk, DoneOk, LeaderOk, ForShard, Taken;
    forall i | 0 <= i < c.n
      ensures StreamOk(c, BeginDispatch(c, s), i)
    {
      RequestKeepsStream(c, s, i);
    }
  }

  lemma BeginDispatchKeepsLeader(c: Config, s: State)
    requires ValidConfig(c) && Inv(c, s) && s.assigner.Intake?
    ensures LeaderOk(c, BeginDispatch(c, s))
  {
    hide ForShard, Summarize, Taken, Streams, BlocksOk, DoneOk, FollowersOk, Wrap32;
  }

  lemma BeginDispatchKeepsInv(c: Config, s: State)
    requires ValidConfig(c) && Inv(c, s) && s.assigner.Intake?
    ensures Inv(c, BeginDispatch(c, s))
  {
    BeginDispatchKeepsBlocks(c, s);
    BeginDispatchKeepsFollowers(c, s);
    BeginDispatchKeepsStreams(c, s);
    BeginDispatchKeepsLeader(c, s);
    NextRoundNumber(|s.rounds|);
    hide ForShard, Taken, Streams, BlocksOk, FollowersOk, LeaderOk, Wrap32;
  }

  lemma RequestKeepsInv(c: Config, s: State, batch: seq<Entry>)
    requires ValidConfig(c) && Inv(c, s) && s.assigner.Intake?
    ensures Inv(c, AfterRequest(c, s, batch))
  {
    hide ForShard, Segments, Summarize, Assemble, BeginDispatch, StreamOk;
    var pool := IntakeBatch(c.admit, c.capacity, s.pool, batch);
    var s1 := s.(pool := pool, accepted := s.accepted + pool[|s.pool|..]);
    assert Inv(c, s1) by {
      forall i | 0 <= i < c.n
        ensures StreamOk(c, s1, i)
      {
        assert StreamOk(c, s, i);
        StreamSame(c, s, s1, i);
      }
      forall i: nat | Follower(c, i)
        ensures FollowerOk(c, s1, i)
      {
        assert FollowerOk(c, s, i);
      }
      forall k | 0 <= k < |s1.blocks|
        ensures BlockOk(c, s1, k)
      {
        assert BlockOk(c, s, k);
      }
    }
    if |pool| >= c.blockSize {
      BeginDispatchKeepsInv(c, s1);
    }
  }

  // Steps that do not touch shard i's drain or channel keep its equation.
  lemma StreamSame(c: Config, s: State, s': State, i: nat)
    requires ValidConfig(c) && Shape(c, s) && Shape(c, s') && i < c.n
    requires StreamOk(c, s, i)
    requires s'.rounds == s.rounds && s'.drained[i] == s.drained[i] && s'.tx[i] == s.tx[i]
    requires s'.assigner == s.assigner && s'.roundNumber == s.roundNumber
    requires Consumed(c, s', i) == Consumed(c, s, i)
    ensures StreamOk(c, s', i)
  {
  }

  // Sending a message moves it from what is owed to what is queued.
  lemma AssignerMoves(c: Config, s: State, i: nat)
    requires ValidConfig(c) && Shape(c, s) && !s.assigner.Intake? && i < c.n
    ensures var s' := AfterAssigner(c, s);
            && Shape(c, s')
            && s'.tx[i] + ToSend(c, s', i) == s.tx[i] + ToSend(c, s, i)
            && s' == s.(tx := s'.tx, assigner := s'.assigner, done := s'.done)
  {
    hide ForShard, Wrap32, ShardForTx;
    match s.assigner {
      case Sending(es, next, counts) =>
        if next < |es| {
          assert es[next..] == [es[next]] + es[next + 1..];
          ForShardAppend(c.n, [es[next]], es[next + 1..], i);
          ForShardOne(c.n, es[next], i);
          OweOneLess(c, s, i);
        } else {
          ForShardLength(c.n, es[next..], i);
          assert ForShard(c.n, es[next..], i) == [];
        }
      case Ending(counts, next) =>
    }
  }

  lemma AssignerKeepsStream(c: Config, s: State, i: nat)
    requires ValidConfig(c) && Shape(c, s) && !s.assigner.Intake? && i < c.n && StreamOk(c, s, i)
    ensures var s' := AfterAssigner(c, s);
            Shape(c, s') && StreamOk(c, s', i)
  {
    AssignerMoves(c, s, i);
    hide ForShard, Segments, Wrap32, AfterAssigner, ToSend;
    var s' := AfterAssigner(c, s);
    Regroup(Consumed(c, s, i), s.tx[i], ToSend(c, s, i));
    Regroup(Consumed(c, s', i), s'.tx[i], ToSend(c, s', i));
  }

  lemma OweOneLess(c: Config, s: State, i: nat)
    requires ValidConfig(c) && Shape(c, s) && i < c.n
    requires s.assigner.Sending? && s.assigner.next < |s.assigner.es|
    requires var (es, next) := (s.assigner.es, s.assigner.next);
             ForShard(c.n, es[next..], i)
             == (if ShardForTx(es[next].tx, c.n) == i then [es[next]] else []) + ForShard(c.n, es[next + 1..], i)
    ensures var s' := AfterAssigner(c, s);
            s'.tx[i] + ToSend(c, s', i) == s.tx[i] + ToSend(c, s, i)
  {
    hide ForShard, Wrap32, ShardForTx;
    var (es, next, counts) := (s.assigner.es, s.assigner.next, s.assigner.counts);
    var rest := ForShard(c.n, es[next + 1..], i);
    if ShardForTx(es[next].tx, c.n) == i {
      TxMsgsCons(es[next], rest);
      hide TxMsgs;
      var end := [EndMsg(s.roundNumber, Wrap32(counts[i] + 1 + |rest|))];
      Regroup(s.tx[i], [TxMsg(es[next])], TxMsgs(rest) + end);
      assert ToSend(c, s, i) == [TxMsg(es[next])] + (TxMsgs(rest) + end);
    }
  }

  lemma TxMsgsCons(e: Entry, es: seq<Entry>)
    ensures TxMsgs([e] + es) == [TxMsg(e)] + TxMsgs(es)
  {
  }

  lemma AssignerKeepsInv(c: Config, s: State)
    requires ValidConfig(c) && Inv(c, s) && !s.assigner.Intake?
    ensures Inv(c, AfterAssigner(c, s))
  {
    hide ForShard, Segments, Summarize, Assemble, StreamOk, ShardForTx;
    var s' := AfterAssigner(c, s);
    forall i | 0 <= i < c.n
      ensures StreamOk(c, s', i)
    {
      AssignerKeepsStream(c, s, i);
    }
    forall i: nat | Follower(c, i)
      ensures FollowerOk(c, s', i)
    {
      assert FollowerOk(c, s, i);
    }
    forall k | 0 <= k < |s'.blocks|
      ensures BlockOk(c, s', k)
    {
      assert BlockOk(c, s, k);
    }
  }

  // The leader, when idle, always finds the header of the next round: its two
  // fallback branches are never taken.
  lemma IdleLeaderSeesHeader(c: Config, s: State)
    requires ValidConfig(c) && Inv(c, s) && s.leader.Idle? && s.tx[0] != []
    ensures |s.blocks| < |s.rounds|
    ensures s.tx[0][0] == HeaderMsg(Wrap32(|s.blocks| + 1), Wrap32(c.n))
    ensures LeaderRound(s.leaderRound, s.tx[0][0]) == Wrap32(|s.blocks| + 1)
  {
    hide ForShard, Wrap32, FollowersOk, BlocksOk;
    assert StreamOk(c, s, 0);
    assert s.tx[0] + ToSend(c, s, 0) == Segments(c.n, s.rounds, 0, |s.blocks|);
    assert (s.tx[0] + ToSend(c, s, 0))[0] == s.tx[0][0];
  }

  lemma HeaderKeepsInv(c: Config, s: State)
    requires ValidConfig(c) && Inv(c, s) && Enabled(c, s, LeaderHeader)
    ensures Inv(c, Apply(c, s, LeaderHeader))
  {
    hide ForShard, Segments, Summarize, Assemble, ToSend;
    var s' := Apply(c, s, LeaderHeader);
    IdleLeaderSeesHeader(c, s);
    forall i | 0 <= i < c.n
      ensures StreamOk(c, s', i)
    {
      assert StreamOk(c, s, i);
      if i == 0 {
        TakeOne([], s.tx[0], ToSend(c, s, 0));
        OwedSame(c, s, s', 0);
      } else {
        StreamSame(c, s, s', i);
      }
    }
    forall i: nat | Follower(c, i)
      ensures FollowerOk(c, s', i)
    {
      assert FollowerOk(c, s, i);
    }
    forall k | 0 <= k < |s'.blocks|
      ensures BlockOk(c, s', k)
    {
      assert BlockOk(c, s, k);
    }
  }

  lemma OwedSame(c: Config, s: State, s': State, i: nat)
    requires ValidConfig(c) && Shape(c, s) && Shape(c, s') && i < c.n
    requires s'.assigner == s.assigner && s'.roundNumber == s.roundNumber
    ensures ToSend(c, s', i) == ToSend(c, s, i)
  {
  }

  lemma DoneKeepsInv(c: Config, s: State)
    requires ValidConfig(c) && Inv(c, s) && Enabled(c, s, LeaderDone)
    ensures Inv(c, Apply(c, s, LeaderDone))
  {
    hide ForShard, Segments, Summarize, Assemble, StreamOk, Wrap32;
    var s' := Apply(c, s, LeaderDone);
    forall i | 0 <= i < c.n
      ensures StreamOk(c, s', i)
    {
      StreamSame(c, s, s', i);
    }
    forall i: nat | Follower(c, i)
      ensures FollowerOk(c, s', i)
    {
      assert FollowerOk(c, s, i);
    }
    forall k | 0 <= k < |s'.blocks|
      ensures BlockOk(c, s', k)
    {
      assert BlockOk(c, s, k);
    }
  }

  lemma AnnounceKeepsInv(c: Config, s: State)
    requires ValidConfig(c) && Inv(c, s) && Enabled(c, s, LeaderAnnounce)
    ensures Inv(c, Apply(c, s, LeaderAnnounce))
  {
    hide ForShard, Segments, Summarize, Assemble, StreamOk, Wrap32;
    var s' := Apply(c, s, LeaderAnnounce);
    forall i | 0 <= i < c.n
      ensures StreamOk(c, s', i)
    {
      assert TxMsgs([]) == [];
      StreamSame(c, s, s', i);
    }
    forall i: nat | Follower(c, i)
      ensures FollowerOk(c, s', i)
    {
      assert FollowerOk(c, s, i);
    }
    forall k | 0 <= k < |s'.blocks|
      ensures BlockOk(c, s', k)
    {
      assert BlockOk(c, s, k);
    }
  }

  // A follower's own action leaves the other followers' conditions alone.
  lemma OtherFollowers(c: Config, s: State, s': State, i: nat)
    requires ValidConfig(c) && Inv(c, s) && Shape(c, s') && Follower(c, i)
    requires s'.rounds == s.rounds && s'.blocks == s.blocks
    requires s'.leader == s.leader && s'.leaderRound == s.leaderRound
    requires forall j: nat :: Follower(c, j) && j != i ==>
               && s'.followers[j] == s.followers[j] && s'.drained[j] == s.drained[j]
               && s'.starts[j] == s.starts[j] && s'.results[j] == s.results[j]
    ensures forall j: nat :: Follower(c, j) && j != i ==> FollowerOk(c, s', j)
  {
    hide Summarize;
    forall j: nat | Follower(c, j) && j != i
      ensures FollowerOk(c, s', j)
    {
      assert FollowerOk(c, s, j);
    }
  }

  lemma StartKeepsInv(c: Config, s: State, i: nat)
    requires ValidConfig(c) && Inv(c, s) && Enabled(c, s, FollowerStart(i))
    ensures Inv(c, Apply(c, s, FollowerStart(i)))
  {
    hide ForShard, Segments, Summarize, Assemble, StreamOk, Wrap32;
    var s' := Apply(c, s, FollowerStart(i));
    forall j | 0 <= j < c.n
      ensures StreamOk(c, s', j)
    {
      assert TxMsgs([]) == [];
      StreamSame(c, s, s', j);
    }
    OtherFollowers(c, s, s', i);
    assert FollowerOk(c, s, i);
    forall k | 0 <= k < |s'.blocks|
      ensures BlockOk(c, s', k)
    {
      assert BlockOk(c, s, k);
    }
  }

  lemma ReportKeepsInv(c: Config, s: State, i: nat)
    requires ValidConfig(c) && Inv(c, s) && Enabled(c, s, FollowerReport(i))
    ensures Inv(c, Apply(c, s, FollowerReport(i)))
  {
    hide ForShard, Segments, Summarize, Assemble, StreamOk, Wrap32;
    var s' := Apply(c, s, FollowerReport(i));
    forall j | 0 <= j < c.n
      ensures StreamOk(c, s', j)
    {
      StreamSame(c, s, s', j);
    }
    OtherFollowers(c, s, s', i);
    assert FollowerOk(c, s, i);
    forall k | 0 <= k < |s'.blocks|
      ensures BlockOk(c, s', k)
    {
      assert BlockOk(c, s, k);
    }
  }

  // One iteration of a drain loop in the middle of round k.
  lemma DrainStep(n: nat, rounds: seq<seq<Entry>>, i: nat, k: nat, d: Drain, m: Msg, rest: seq<Msg>)
    requires n > 0 && k <= |rounds| && FreshDrain(d)
    requires k < |rounds| ==> |rounds[k]| < TWO32
    requires Head(n, i, k) + TxMsgs(d.buf) + [m] + rest == Segments(n, rounds, i, k)
    ensures k < |rounds|
    ensures var d' := Receive(d, m);
            if m.TxMsg? then
              && d' == d.(buf := d.buf + [m.entry]) && !Finished(d')
              && Head(n, i, k) + TxMsgs(d'.buf) + rest == Segments(n, rounds, i, k)
            else
              && Finished(d') && d'.buf == ForShard(n, rounds[k], i)
              && rest == Segments(n, rounds, i, k + 1)
  {
    NextMessage(n, rounds, i, k, d.buf, m, rest);
    hide ForShard, Segments;
    if m.TxMsg? {
      assert TxMsgs(d.buf + [m.entry]) == TxMsgs(d.buf) + [m];
    }
  }

  lemma FollowerBeforeDrain(c: Config, s: State, i: nat)
    requires ValidConfig(c) && Inv(c, s) && Enabled(c, s, FollowerDrain(i))
    ensures var d, m, k := s.followers[i].d, s.tx[i][0], |s.blocks|;
            && k <= |s.rounds| && s.drained[i] == k && FreshDrain(d)
            && (k < |s.rounds| ==> |s.rounds[k]| < TWO32)
            && Head(c.n, i, k) + TxMsgs(d.buf) + [m] + (s.tx[i][1..] + ToSend(c, s, i)) == Segments(c.n, s.rounds, i, k)
  {
    assert FollowerOk(c, s, i);
    assert StreamOk(c, s, i);
    hide ForShard, Summarize, BlocksOk, DoneOk, FollowersOk, Streams, Wrap32, ToSend, Segments;
    TakeOne(Consumed(c, s, i), s.tx[i], ToSend(c, s, i));
  }

  // What a follower's drain step amounts to: one more transaction of its
  // share, or the end of its round with exactly its share taken in.
  lemma FollowerDrains(c: Config, s: State, i: nat)
    requires ValidConfig(c) && Inv(c, s) && Enabled(c, s, FollowerDrain(i))
    ensures var s' := AfterFollowerDrain(c, s, i);
            var m, k := s.tx[i][0], |s.blocks|;
            && k < |s.rounds| && s.drained[i] == k
            && StreamOk(c, s', i)
            && (m.TxMsg? ==> s'.drained == s.drained
                             && s'.followers[i] == Working(s.followers[i].d.(buf := s.followers[i].d.buf + [m.entry])))
            && (!m.TxMsg? ==> s'.drained[i] == k + 1
                              && s'.followers[i] == Reporting(SummaryOf(c, s.rounds, i, k)))
  {
    FollowerBeforeDrain(c, s, i);
    hide ForShard, Summarize, Inv, Wrap32, ToSend, Segments;
    var d, m := s.followers[i].d, s.tx[i][0];
    var s' := AfterFollowerDrain(c, s, i);
    var rest := s.tx[i][1..] + ToSend(c, s, i);
    DrainStep(c.n, s.rounds, i, s.drained[i], d, m, rest);
    hide Receive, Finished, TxMsgs;
    if m.TxMsg? {
      assert s' == s.(tx := s.tx[i := s.tx[i][1..]], followers := s.followers[i := Working(Receive(d, m))]);
    } else {
      assert s'.rounds == s.rounds && s'.tx[i] == s.tx[i][1..] && Consumed(c, s', i) == [];
    }
    hide AfterFollowerDrain;
    OwedSame(c, s, s', i);
    Regroup(Consumed(c, s', i), s'.tx[i], ToSend(c, s', i));
  }

  lemma FollowerDrainKeepsInv(c: Config, s: State, i: nat)
    requires ValidConfig(c) && Inv(c, s) && Enabled(c, s, FollowerDrain(i))
    ensures Inv(c, Apply(c, s, FollowerDrain(i)))
  {
    hide ForShard, Segments, Summarize, Assemble, StreamOk, Wrap32;
    var s' := Apply(c, s, FollowerDrain(i));
    FollowerDrains(c, s, i);
    forall j | 0 <= j < c.n && j != i
      ensures StreamOk(c, s', j)
    {
      StreamSame(c, s, s', j);
    }
    OtherFollowers(c, s, s', i);
    assert FollowerOk(c, s, i);
    forall k | 0 <= k < |s'.blocks|
      ensures BlockOk(c, s', k)
    {
      assert BlockOk(c, s, k);
    }
  }

  lemma LeaderBeforeDrain(c: Config, s: State)
    requires ValidConfig(c) && Inv(c, s) && Enabled(c, s, LeaderDrain)
    ensures var d, m, k := s.leader.d, s.tx[0][0], |s.blocks|;
            && k <= |s.rounds| && s.drained[0] == k && FreshDrain(d)
            && (k < |s.rounds| ==> |s.rounds[k]| < TWO32)
            && Head(c.n, 0, k) + TxMsgs(d.buf) + [m] + (s.tx[0][1..] + ToSend(c, s, 0)) == Segments(c.n, s.rounds, 0, k)
  {
    assert StreamOk(c, s, 0);
    hide ForShard, Summarize, BlocksOk, DoneOk, FollowersOk, Streams, ToSend, Segments;
    assert Consumed(c, s, 0) == Head(c.n, 0, |s.blocks|) + TxMsgs(s.leader.d.buf);
    hide Consumed, Head, TxMsgs;
    TakeOne(Consumed(c, s, 0), s.tx[0], ToSend(c, s, 0));
  }

  lemma LeaderDrains(c: Config, s: State)
    requires ValidConfig(c) && Inv(c, s) && Enabled(c, s, LeaderDrain)
    ensures var s' := AfterLeaderDrain(c, s);
            var m, k := s.tx[0][0], |s.blocks|;
            && k < |s.rounds|
            && StreamOk(c, s', 0)
            && (m.TxMsg? ==> s'.drained == s.drained
                             && s'.leader == Draining(s.leader.d.(buf := s.leader.d.buf + [m.entry])))
            && (!m.TxMsg? ==> s'.drained == s.drained[0 := k + 1]
                              && s'.leader == Collecting([SummaryOf(c, s.rounds, 0, k)], []))
  {
    LeaderBeforeDrain(c, s);
    hide ForShard, Summarize, Inv, Wrap32, ToSend, Segments;
    var d, m := s.leader.d, s.tx[0][0];
    var s' := AfterLeaderDrain(c, s);
    var rest := s.tx[0][1..] + ToSend(c, s, 0);
    DrainStep(c.n, s.rounds, 0, s.drained[0], d, m, rest);
    hide Receive, Finished, TxMsgs;
    if m.TxMsg? {
      assert s' == s.(tx := s.tx[0 := s.tx[0][1..]], leader := Draining(Receive(d, m)));
    } else {
      assert s'.rounds == s.rounds && s'.tx[0] == s.tx[0][1..] && Consumed(c, s', 0) == [];
    }
    hide AfterLeaderDrain;
    OwedSame(c, s, s', 0);
    Regroup(Consumed(c, s', 0), s'.tx[0], ToSend(c, s', 0));
  }

  lemma LeaderDrainKeepsInv(c: Config, s: State)
    requires ValidConfig(c) && Inv(c, s) && Enabled(c, s, LeaderDrain)
    ensures Inv(c, Apply(c, s, LeaderDrain))
  {
    hide ForShard, Segments, Summarize, Assemble, StreamOk, Wrap32;
    var s' := Apply(c, s, LeaderDrain);
    LeaderDrains(c, s);
    forall j | 0 <= j < c.n && j != 0
      ensures StreamOk(c, s', j)
    {
      StreamSame(c, s, s', j);
    }
    forall i: nat | Follower(c, i)
      ensures FollowerOk(c, s', i)
    {
      assert FollowerOk(c, s, i);
    }
    forall k | 0 <= k < |s'.blocks|
      ensures BlockOk(c, s', k)
    {
      assert BlockOk(c, s, k);
    }
  }

  lemma CollectKeepsInv(c: Config, s: State, i: nat)
    requires ValidConfig(c) && Inv(c, s) && Enabled(c, s, LeaderCollect(i))
    ensures Inv(c, Apply(c, s, LeaderCollect(i)))
  {
    hide ForShard, Segments, Summarize, Assemble, StreamOk, Wrap32;
    var s' := Apply(c, s, LeaderCollect(i));
    forall j | 0 <= j < c.n
      ensures StreamOk(c, s', j)
    {
      StreamSame(c, s, s', j);
    }
    assert FollowerOk(c, s, i);
    forall j: nat | Follower(c, j)
      ensures FollowerOk(c, s', j)
    {
      assert FollowerOk(c, s, j);
      assert Reported(s', j) <==> Reported(s, j) || j == i;
    }
    forall k | 0 <= k < |s'.blocks|
      ensures BlockOk(c, s', k)
    {
      assert BlockOk(c, s, k);
    }
  }

  // All followers have reported once n-1 distinct ones have.
  lemma AllReported(c: Config, s: State)
    requires ValidConfig(c) && Inv(c, s) && s.leader.Collecting? && |s.leader.senders| == c.n - 1
    ensures Visits(c.n, [0] + s.leader.senders)
    ensures forall i: nat :: Follower(c, i) ==> Reported(s, i)
  {
    hide StreamOk, FollowersOk, BlocksOk, Summarize;
    var order := [0] + s.leader.senders;
    assert Visits(c.n, order);
    forall i: nat | Follower(c, i)
      ensures Reported(s, i)
    {
      VisitsAll(c.n, order, i);
    }
  }

  lemma FinalizeKeepsBlocks(c: Config, s: State)
    requires ValidConfig(c) && Shape(c, s) && LeaderOk(c, s) && BlocksOk(c, s)
    requires s.leader.Collecting? && Visits(c.n, [0] + s.leader.senders)
    requires Enabled(c, s, LeaderFinalize)
    ensures BlocksOk(c, Apply(c, s, LeaderFinalize))
  {
    hide ForShard, Summarize, Assemble, Wrap32, Visits;
    var s' := Apply(c, s, LeaderFinalize);
    var k := |s.blocks|;
    assert s.leader.summaries == InOrder(c, s.rounds, k, s'.orders[k]);
    forall j | 0 <= j < |s'.blocks|
      ensures BlockOk(c, s', j)
    {
      if j < k {
        assert BlockOk(c, s, j);
      }
    }
  }

  lemma FinalizeKeepsInv(c: Config, s: State)
    requires ValidConfig(c) && Inv(c, s) && Enabled(c, s, LeaderFinalize)
    ensures Inv(c, Apply(c, s, LeaderFinalize))
  {
    AllReported(c, s);
    hide ForShard, Segments, Summarize, Assemble, StreamOk, Wrap32, Visits;
    var s' := Apply(c, s, LeaderFinalize);
    var k := |s.blocks|;
    forall j | 0 <= j < c.n
      ensures StreamOk(c, s', j)
    {
      StreamSame(c, s, s', j);
    }
    forall i: nat | Follower(c, i)
      ensures FollowerOk(c, s', i)
    {
      assert FollowerOk(c, s, i);
    }
    FinalizeKeepsBlocks(c, s);
  }

  lemma StepKeepsInv(c: Config, s: State, step: Step)
    requires ValidConfig(c) && Inv(c, s) && Enabled(c, s, step)
    ensures Inv(c, Apply(c, s, step))
  {
    match step {
      case Request(batch) => RequestKeepsInv(c, s, batch);
      case AssignerStep => AssignerKeepsInv(c, s);
      case LeaderHeader => HeaderKeepsInv(c, s);
      case LeaderDone => DoneKeepsInv(c, s);
      case LeaderAnnounce => AnnounceKeepsInv(c, s);
      case LeaderDrain => LeaderDrainKeepsInv(c, s);
      case LeaderCollect(i) => CollectKeepsInv(c, s, i);
      case LeaderFinalize => FinalizeKeepsInv(c, s);
      case FollowerStart(i) => StartKeepsInv(c, s, i);
      case FollowerDrain(i) => FollowerDrainKeepsInv(c, s, i);
      case FollowerReport(i) => ReportKeepsInv(c, s, i);
    }
  }

  lemma {:induction false} RunKeepsInv(c: Config, s: State, steps: seq<Step>, t: State)
    requires ValidConfig(c) && Inv(c, s) && RunsTo(c, s, steps, t)
    ensures Inv(c, t)
    decreases |steps|
  {
    hide Inv, Apply, Enabled;
    if steps != [] {
      StepKeepsInv(c, s, steps[0]);
      RunKeepsInv(c, Apply(c, s, steps[0]), steps[1..], t);
    }
  }

  // The invariant holds in every reachable state.
  lemma ReachableInv(c: Config, s: State)
    requires ValidConfig(c) && Reachable(c, s)
    ensures Inv(c, s)
  {
    hide Inv;
    var steps :| RunsTo(c, Init(c), steps, s);
    InitInv(c);
    RunKeepsInv(c, Init(c), steps, s);
  }
}
