/**
 The round protocol as a transition system. One receiver process (intake and
 dispatch), one leader and n-1 followers run concurrently; every step is one
 send, one receive, or one purely local action, and steps interleave freely.

 Channels are reliable FIFO queues, one per sender and receiver; a broadcast
 reaches every follower. Summaries of different followers reach the leader in
 any order.

 Fields under "history" are never read by a step: they record what happened so
 that the properties can be stated.
 */
module Protocol {
  import opened Wire
  import opened Routing
  import opened Mempool
  import opened ShardAssigner
  import opened ShardWorker
  import opened Receiver

  datatype Config = Config(n: nat, blockSize: u32, capacity: nat, admit: Entry -> bool, hashing: Hashing)

  ghost predicate ValidConfig(c: Config) {
    && 0 < c.n <= MAX_SHARDS
    && 0 < c.capacity <= MEMPOOL_MAX_SIZE
    && c.blockSize > 0
  }

  // Where the receiver process stands inside shard_assigner_dispatch.
  datatype AssignerPc =
    | Intake
    | Sending(es: seq<Entry>, next: nat, counts: seq<nat>)
    | Ending(endCounts: seq<nat>, nextShard: nat)

  datatype LeaderPc =
    | Idle
    | AwaitDone
    | Announce
    | Draining(d: Drain)
    | Collecting(summaries: seq<ShardSummary>, senders: seq<nat>)

  datatype FollowerPc =
    | Waiting
    | Working(d: Drain)
    | Reporting(summary: ShardSummary)

  datatype State = State(
    // receiver process
    pool: seq<Entry>, roundNumber: u32, assigner: AssignerPc,
    // channels: assigner to shard i, assigner to leader, leader to follower i,
    // follower i to leader
    tx: seq<seq<Msg>>, done: seq<u32>, starts: seq<seq<u32>>, results: seq<seq<ShardSummary>>,
    // leader
    leader: LeaderPc, leaderRound: u32, blocks: seq<Block>,
    // followers; position 0 is the leader's and stays unused
    followers: seq<FollowerPc>,
    // history
    rounds: seq<seq<Entry>>,    // the list drained by each dispatch
    drained: seq<nat>,          // how many rounds each shard has drained
    orders: seq<seq<nat>>,      // the arrival order used for each block
    accepted: seq<Entry>, discarded: seq<Entry>)

  datatype Step =
    | Request(batch: seq<Entry>)
    | AssignerStep
    | LeaderHeader | LeaderDone | LeaderAnnounce | LeaderDrain
    | LeaderCollect(from: nat) | LeaderFinalize
    | FollowerStart(i: nat) | FollowerDrain(i: nat) | FollowerReport(i: nat)

  function Init(c: Config): State {
    State([], 0, Intake,
          seq(c.n, _ => []), [], seq(c.n, _ => []), seq(c.n, _ => []),
          Idle, 0, [],
          seq(c.n, _ => Waiting),
          [], seq(c.n, _ => 0), [], [], [])
  }

  ghost predicate Shape(c: Config, s: State) {
    && |s.tx| == |s.starts| == |s.results| == |s.followers| == |s.drained| == c.n
    && (s.assigner.Sending? ==> s.assigner.next <= |s.assigner.es| && |s.assigner.counts| == c.n)
    && (s.assigner.Ending? ==> s.assigner.nextShard <= c.n && |s.assigner.endCounts| == c.n)
  }

  ghost predicate Follower(c: Config, i: nat) {
    0 < i < c.n
  }

  ghost predicate Enabled(c: Config, s: State, step: Step)
    requires Shape(c, s)
  {
    match step
    case Request(_) => s.assigner.Intake?
    case AssignerStep => !s.assigner.Intake?
    case LeaderHeader => c.n > 0 && s.leader.Idle? && s.tx[0] != []
    case LeaderDone => s.leader.AwaitDone? && s.done != []
    case LeaderAnnounce => s.leader.Announce?
    case LeaderDrain => c.n > 0 && s.leader.Draining? && s.tx[0] != []
    case LeaderCollect(i) => Follower(c, i) && s.leader.Collecting? && |s.leader.senders| < c.n - 1 && s.results[i] != []
    case LeaderFinalize => s.leader.Collecting? && |s.leader.senders| >= c.n - 1
    case FollowerStart(i) => Follower(c, i) && s.followers[i].Waiting? && s.starts[i] != []
    case FollowerDrain(i) => Follower(c, i) && s.followers[i].Working? && s.tx[i] != []
    case FollowerReport(i) => Follower(c, i) && s.followers[i].Reporting?
  }

  // ------------------------------------------------------------------
  // The steps.

  // A batch arrives; if the pool has reached the block size, a dispatch
  // begins: next round number, header to the leader, mempool drained.
  function AfterRequest(c: Config, s: State, batch: seq<Entry>): State
    requires ValidConfig(c) && Shape(c, s)
  {
    var pool := IntakeBatch(c.admit, c.capacity, s.pool, batch);
    var s1 := s.(pool := pool, accepted := s.accepted + pool[|s.pool|..]);
    if |pool| >= c.blockSize then BeginDispatch(c, s1) else s1
  }

  function BeginDispatch(c: Config, s: State): State
    requires ValidConfig(c) && Shape(c, s)
  {
    var es := Taken(s.pool, c.blockSize, c.n);
    var r := Wrap32(s.roundNumber + 1);
    s.(pool := [], roundNumber := r,
       tx := s.tx[0 := s.tx[0] + [HeaderMsg(r, Wrap32(c.n))]],
       assigner := Sending(es, 0, seq(c.n, _ => 0)),
       rounds := s.rounds + [es],
       discarded := s.discarded + s.pool[|es|..])
  }

  // The next action of shard_assigner_dispatch.
  function AfterAssigner(c: Config, s: State): State
    requires ValidConfig(c) && Shape(c, s) && !s.assigner.Intake?
  {
    match s.assigner
    case Sending(es, next, counts) =>
      if next < |es| then
        var i := ShardForTx(es[next].tx, c.n);
        s.(tx := s.tx[i := s.tx[i] + [TxMsg(es[next])]],
           assigner := Sending(es, next + 1, counts[i := counts[i] + 1]))
      else s.(assigner := Ending(counts, 0))
    case Ending(counts, next) =>
      if next < c.n then
        s.(tx := s.tx[next := s.tx[next] + [EndMsg(s.roundNumber, Wrap32(counts[next]))]],
           assigner := Ending(counts, next + 1))
      else s.(done := s.done + [s.roundNumber], assigner := Intake)
  }

  function AfterLeaderDrain(c: Config, s: State): State
    requires ValidConfig(c) && Shape(c, s) && s.leader.Draining? && s.tx[0] != []
  {
    var d := Receive(s.leader.d, s.tx[0][0]);
    var s1 := s.(tx := s.tx[0 := s.tx[0][1..]]);
    if Finished(d) then
      s1.(leader := Collecting([Summarize(c.hashing, 0, d.buf)], []),
          drained := s.drained[0 := s.drained[0] + 1])
    else s1.(leader := Draining(d))
  }

  function AfterFollowerDrain(c: Config, s: State, i: nat): State
    requires ValidConfig(c) && Shape(c, s) && Follower(c, i) && s.followers[i].Working? && s.tx[i] != []
  {
    var d := Receive(s.followers[i].d, s.tx[i][0]);
    var s1 := s.(tx := s.tx[i := s.tx[i][1..]]);
    if Finished(d) then
      s1.(followers := s.followers[i := Reporting(Summarize(c.hashing, i, d.buf))],
          drained := s.drained[i := s.drained[i] + 1])
    else s1.(followers := s.followers[i := Working(d)])
  }

  function Broadcast(starts: seq<seq<u32>>, r: u32): (b: seq<seq<u32>>)
    ensures |b| == |starts|
    ensures forall i :: 0 <= i < |b| ==> b[i] == if i == 0 then starts[i] else starts[i] + [r]
  {
    seq(|starts|, i requires 0 <= i < |starts| => if i == 0 then starts[i] else starts[i] + [r])
  }

  function Apply(c: Config, s: State, step: Step): State
    requires ValidConfig(c) && Shape(c, s) && Enabled(c, s, step)
  {
    match step
    case Request(batch) => AfterRequest(c, s, batch)
    case AssignerStep => AfterAssigner(c, s)
    case LeaderHeader =>
      s.(tx := s.tx[0 := s.tx[0][1..]],
         leaderRound := LeaderRound(s.leaderRound, s.tx[0][0]),
         leader := AwaitDone)
    case LeaderDone => s.(done := s.done[1..], leader := Announce)
    case LeaderAnnounce => s.(starts := Broadcast(s.starts, s.leaderRound), leader := Draining(EMPTY_DRAIN))
    case LeaderDrain => AfterLeaderDrain(c, s)
    case LeaderCollect(i) =>
      s.(results := s.results[i := s.results[i][1..]],
         leader := Collecting(s.leader.summaries + [s.results[i][0]], s.leader.senders + [i]))
    case LeaderFinalize =>
      s.(blocks := s.blocks + [Assemble(c.hashing, s.leaderRound, c.n, s.leader.summaries)],
         orders := s.orders + [[0] + s.leader.senders],
         leader := Idle)
    case FollowerStart(i) =>
      s.(starts := s.starts[i := s.starts[i][1..]], followers := s.followers[i := Working(EMPTY_DRAIN)])
    case FollowerDrain(i) => AfterFollowerDrain(c, s, i)
    case FollowerReport(i) =>
      s.(results := s.results[i := s.results[i] + [s.followers[i].summary]],
         followers := s.followers[i := Waiting])
  }

  // Only requests take entries in, drain the pool or open a round.
  lemma SameHistory(c: Config, s: State, step: Step)
    requires ValidConfig(c) && Shape(c, s) && Enabled(c, s, step) && !step.Request?
    ensures var s' := Apply(c, s, step);
            s'.rounds == s.rounds && s'.accepted == s.accepted && s'.discarded == s.discarded && s'.pool == s.pool
  {
    hide ShardForTx, Summarize, Assemble;
  }

  // ------------------------------------------------------------------
  // Runs.

  // The states a schedule passes through, starting in s; Option.None when some
  // step of the schedule is not enabled.
  ghost predicate RunsTo(c: Config, s: State, steps: seq<Step>, t: State)
    requires ValidConfig(c)
    decreases |steps|
  {
    if steps == [] then s == t
    else
      && Shape(c, s)
      && Enabled(c, s, steps[0])
      && RunsTo(c, Apply(c, s, steps[0]), steps[1..], t)
  }

  ghost predicate Reachable(c: Config, s: State)
    requires ValidConfig(c)
  {
    exists steps :: RunsTo(c, Init(c), steps, s)
  }
}
