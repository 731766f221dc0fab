/**
 Progress: left to itself, the system finishes every dispatched round. Some
 step other than a new request is always enabled until then, and each such
 step brings the end nearer.
 */
module ProtocolProgress {
  import opened Wire
  import opened Routing
  import opened ShardWorker
  import opened Protocol
  import opened ProtocolInvariant
  import opened ProtocolSafety

  // Nothing is left to do but to wait for requests.
  ghost predicate Quiet(c: Config, s: State) {
    && s.assigner.Intake? && s.leader.Idle? && s.done == []
    && |s.blocks| == |s.rounds|
    && |s.tx| == |s.starts| == |s.results| == |s.followers| == c.n
    && s.tx[..] == seq(c.n, _ => [])
    && forall i: nat :: Follower(c, i) ==> s.starts[i] == [] && s.results[i] == [] && s.followers[i].Waiting?
  }

  // ------------------------------------------------------------------
  // An enabled step.

  lemma ChannelNotEmpty(c: Config, s: State, i: nat)
    requires ValidConfig(c) && Inv(c, s) && s.assigner.Intake? && i < c.n
    requires s.drained[i] < |s.rounds|
    requires i == 0 ==> s.leader.Idle? || s.leader.Draining?
    requires i > 0 ==> s.followers[i].Working?
    ensures s.tx[i] != []
  {
    hide ForShard, Segments, FollowersOk, BlocksOk, Summarize, Wrap32;
    assert StreamOk(c, s, i);
    var k := s.drained[i];
    assert s.tx[i] == [] ==> Consumed(c, s, i) == Segments(c.n, s.rounds, i, k);
    if i > 0 {
      StreamNotExhausted(c.n, s.rounds, i, k, s.followers[i].d.buf);
    } else if s.leader.Draining? {
      StreamNotExhausted(c.n, s.rounds, 0, k, s.leader.d.buf);
    } else {
      SegmentsNotEmpty(c.n, s.rounds, 0, k);
    }
  }

  lemma SegmentsNotEmpty(n: nat, rounds: seq<seq<Entry>>, i: nat, k: nat)
    requires n > 0 && k < |rounds|
    ensures Segments(n, rounds, i, k) != []
  {
  }

  lemma FollowerCanMove(c: Config, s: State, i: nat) returns (step: Step)
    requires ValidConfig(c) && Inv(c, s) && s.assigner.Intake?
    requires s.leader.Collecting? && |s.leader.senders| < c.n - 1 && Follower(c, i) && !Reported(s, i)
    ensures Enabled(c, s, step) && !step.Request?
  {
    assert FollowerOk(c, s, i);
    hide ForShard, FollowersOk, BlocksOk, Summarize, Streams;
    match s.followers[i] {
      case Waiting =>
        step := if s.starts[i] != [] then FollowerStart(i) else LeaderCollect(i);
      case Working(_) =>
        ChannelNotEmpty(c, s, i);
        step := FollowerDrain(i);
      case Reporting(_) => step := FollowerReport(i);
    }
  }

  lemma SomeoneMissing(n: nat, senders: seq<nat>) returns (i: nat)
    requires |senders| < n - 1
    ensures 0 < i < n && i !in senders
  {
    BelowSize(n);
    var all := Below(n) - {0};
    SizeAtMost(senders);
    if all <= SetOf(senders) {
      SubsetSize(all, SetOf(senders));
    }
    i :| i in all && i !in SetOf(senders);
  }

  lemma {:induction false} SizeAtMost(s: seq<nat>)
    ensures |SetOf(s)| <= |s|
  {
    if s == [] {
      assert SetOf(s) == {};
    } else {
      SizeAtMost(s[..|s| - 1]);
      assert SetOf(s) == SetOf(s[..|s| - 1]) + {s[|s| - 1]};
    }
  }

  lemma SubsetSize(a: set<nat>, b: set<nat>)
    requires a <= b
    ensures |a| <= |b|
  {
    assert b == a + (b - a);
  }

  // No deadlock: while a dispatch is under way or a dispatched round has no
  // block yet, some step of the system is enabled.
  lemma {:induction false} NoDeadlock(c: Config, s: State) returns (step: Step)
    requires ValidConfig(c) && Inv(c, s)
    requires !s.assigner.Intake? || |s.blocks| < |s.rounds|
    ensures Enabled(c, s, step) && !step.Request?
  {
    hide ForShard, FollowersOk, BlocksOk, Summarize, Streams;
    if !s.assigner.Intake? {
      return AssignerStep;
    }
    match s.leader {
      case Idle =>
        ChannelNotEmpty(c, s, 0);
        step := LeaderHeader;
      case AwaitDone => step := LeaderDone;
      case Announce => step := LeaderAnnounce;
      case Draining(_) =>
        ChannelNotEmpty(c, s, 0);
        step := LeaderDrain;
      case Collecting(_, senders) =>
        if |senders| == c.n - 1 {
          step := LeaderFinalize;
        } else {
          var i := SomeoneMissing(c.n, senders);
          step := FollowerCanMove(c, s, i);
        }
    }
  }

  // Conversely, with everything dispatched and every block out, all channels
  // are empty and every process is back at its starting point.
  lemma {:induction false} AllFinalizedIsQuiet(c: Config, s: State)
    requires ValidConfig(c) && Inv(c, s)
    requires s.assigner.Intake? && |s.blocks| == |s.rounds|
    ensures Quiet(c, s)
  {
    hide ForShard, BlocksOk, Summarize, Wrap32;
    assert StreamOk(c, s, 0);
    assert s.leader.Idle?;
    forall i: nat | Follower(c, i)
      ensures s.starts[i] == [] && s.results[i] == [] && s.followers[i].Waiting? && s.drained[i] == |s.blocks|
    {
      assert FollowerOk(c, s, i);
    }
    forall i | 0 <= i < c.n
      ensures s.tx[i] == []
    {
      assert i == 0 || Follower(c, i);
      assert StreamOk(c, s, i);
    }
  }

  // ------------------------------------------------------------------
  // The measure.

  function Lengths(tx: seq<seq<Msg>>): (ls: seq<nat>)
    ensures |ls| == |tx|
    ensures forall i :: 0 <= i < |tx| ==> ls[i] == |tx[i]|
  {
    seq(|tx|, i requires 0 <= i < |tx| => |tx[i]|)
  }

  // How far a follower has come in the round of the next block.
  function Stage(s: State, i: nat): nat
    requires i < |s.followers| && i < |s.drained|
  {
    if i == 0 then 0
    else if !s.followers[i].Waiting? then 1
    else if s.drained[i] > |s.blocks| then 2
    else 0
  }

  function Stages(s: State): (st: seq<nat>)
    requires |s.followers| == |s.drained|
    ensures |st| == |s.followers|
    ensures forall i :: 0 <= i < |st| ==> st[i] == Stage(s, i)
  {
    seq(|s.followers|, i requires 0 <= i < |s.followers| => Stage(s, i))
  }

  function LeaderStage(s: State): nat {
    match s.leader
    case Draining(_) => 1
    case Collecting(_, senders) => 1 + |senders|
    case _ => 0
  }

  // Each round without a block weighs more than anything done inside it.
  function OpenRounds(c: Config, s: State): int {
    (|s.rounds| - |s.blocks|) * (3 * c.n)
  }

  function Measure(c: Config, s: State): int
    requires Shape(c, s)
  {
    OpenRounds(c, s) + AssignerWork(c, s) + Sum(Lengths(s.tx)) + |s.done|
    - LeaderStage(s) - Sum(Stages(s))
  }

  lemma {:induction false} SumAtMost(s: seq<nat>, bound: nat)
    requires forall i :: 0 <= i < |s| ==> s[i] <= bound
    ensures Sum(s) <= |s| * bound
  {
    if s != [] {
      SumAtMost(s[..|s| - 1], bound);
      assert |s| * bound == (|s| - 1) * bound + bound;
    }
  }

  lemma {:induction false} SumSplitFirst(s: seq<nat>)
    requires s != []
    ensures Sum(s) == s[0] + Sum(s[1..])
  {
    if |s| > 1 {
      SumSplitFirst(s[..|s| - 1]);
      assert s[1..][..|s[1..]| - 1] == s[..|s| - 1][1..];
    }
  }

  // The progress made inside a round is worth less than the round itself.
  lemma StageBound(c: Config, s: State)
    requires ValidConfig(c) && Inv(c, s)
    ensures LeaderStage(s) + Sum(Stages(s)) <= 3 * c.n - 2
    ensures s.leader.Idle? || s.leader.AwaitDone? || s.leader.Announce? ==> LeaderStage(s) + Sum(Stages(s)) == 0
  {
    hide ForShard, BlocksOk, Streams, Summarize, DoneOk;
    var st := Stages(s);
    SumSplitFirst(st);
    SumAtMost(st[1..], 2);
    if !Active(s) {
      forall i | 0 <= i < |st|
        ensures st[i] == 0
      {
        if i > 0 {
          assert FollowerOk(c, s, i);
        }
      }
      SumZero(st);
    }
  }

  lemma MeasureNotNegative(c: Config, s: State)
    requires ValidConfig(c) && Inv(c, s)
    ensures Measure(c, s) >= 0
  {
    StageBound(c, s);
    hide ForShard, BlocksOk, FollowersOk, Summarize, Sum, Stages, Lengths, AssignerWork, LeaderStage;
    assert StreamOk(c, s, 0);
    hide StreamOk, Streams;
    var open := |s.rounds| - |s.blocks|;
    assert open >= 0;
    if Active(s) {
      assert open >= 1 by {
        assert DoneTaken(s) <= |s.rounds|;
      }
      AtLeastOnce(open, 3 * c.n);
    } else {
      AtLeastZero(open, 3 * c.n);
    }
  }

  lemma AtLeastOnce(x: nat, w: nat)
    requires x >= 1
    ensures x * w >= w
  {
  }

  lemma AtLeastZero(x: nat, w: nat)
    ensures x * w >= 0
  {
  }

  lemma OneLess(x: int, w: int)
    ensures (x - 1) * w == x * w - w
  {
  }

  lemma LengthsUpdate(tx: seq<seq<Msg>>, i: nat, q: seq<Msg>)
    requires i < |tx|
    ensures Sum(Lengths(tx[i := q])) + |tx[i]| == Sum(Lengths(tx)) + |q|
  {
    SumUpdate(Lengths(tx), i, |q|);
    assert Lengths(tx[i := q]) == Lengths(tx)[i := |q|];
  }

  // A step that only concerns follower i changes only its stage.
  lemma StagesUpdate(c: Config, s: State, s': State, i: nat)
    requires Shape(c, s) && Shape(c, s') && i < c.n && |s'.blocks| == |s.blocks|
    requires forall j :: 0 <= j < c.n && j != i ==>
               s'.drained[j] == s.drained[j] && s'.followers[j] == s.followers[j]
    ensures Sum(Stages(s')) + Stage(s, i) == Sum(Stages(s)) + Stage(s', i)
  {
    SumUpdate(Stages(s), i, Stage(s', i));
    assert Stages(s') == Stages(s)[i := Stage(s', i)];
  }

  lemma AssignerStepDecreases(c: Config, s: State)
    requires ValidConfig(c) && Shape(c, s) && !s.assigner.Intake?
    ensures var s' := AfterAssigner(c, s);
            Shape(c, s') && Measure(c, s') < Measure(c, s)
  {
    hide ShardForTx, Sum, Lengths, Stages, Wrap32, OpenRounds;
    var s' := AfterAssigner(c, s);
    SameOpenRounds(c, s, s');
    assert Stages(s') == Stages(s) by {
      assert |Stages(s')| == |Stages(s)|;
    }
    match s.assigner {
      case Sending(es, next, counts) =>
        if next < |es| {
          var i := ShardForTx(es[next].tx, c.n);
          LengthsUpdate(s.tx, i, s.tx[i] + [TxMsg(es[next])]);
        }
      case Ending(counts, next) =>
        if next < c.n {
          LengthsUpdate(s.tx, next, s.tx[next] + [EndMsg(s.roundNumber, Wrap32(counts[next]))]);
        }
    }
  }

  lemma LeaderStepDecreases(c: Config, s: State, step: Step)
    requires ValidConfig(c) && Inv(c, s) && Enabled(c, s, step)
    requires step.LeaderHeader? || step.LeaderDone? || step.LeaderAnnounce? || step.LeaderDrain?
    ensures Measure(c, Apply(c, s, step)) < Measure(c, s)
  {
    assert Shape(c, s);
    hide ForShard, Summarize, Sum, Lengths, Stages, Wrap32, Inv, Receive, AssignerWork, OpenRounds;
    var s' := Apply(c, s, step);
    SameOpenRounds(c, s, s');
    StagesUpdate(c, s, s', 0);
    if step.LeaderHeader? || step.LeaderDrain? {
      LengthsUpdate(s.tx, 0, s.tx[0][1..]);
    }
    SameAssignerWork(c, s, s');
  }

  lemma SameOpenRounds(c: Config, s: State, s': State)
    requires |s'.rounds| == |s.rounds| && |s'.blocks| == |s.blocks|
    ensures OpenRounds(c, s') == OpenRounds(c, s)
  {
  }

  lemma SameAssignerWork(c: Config, s: State, s': State)
    requires Shape(c, s) && Shape(c, s') && s'.assigner == s.assigner
    ensures AssignerWork(c, s') == AssignerWork(c, s)
  {
  }

  lemma DrainDecreases(c: Config, s: State, i: nat)
    requires ValidConfig(c) && Inv(c, s) && Enabled(c, s, FollowerDrain(i))
    ensures Measure(c, Apply(c, s, FollowerDrain(i))) < Measure(c, s)
  {
    assert FollowerOk(c, s, i);
    hide ForShard, Summarize, Sum, Lengths, Stages, Wrap32, Receive, AssignerWork, Inv, OpenRounds, FollowerOk;
    var s' := Apply(c, s, FollowerDrain(i));
    SameOpenRounds(c, s, s');
    StagesUpdate(c, s, s', i);
    LengthsUpdate(s.tx, i, s.tx[i][1..]);
    SameAssignerWork(c, s, s');
  }

  lemma FollowerStepDecreases(c: Config, s: State, step: Step)
    requires ValidConfig(c) && Inv(c, s) && Enabled(c, s, step)
    requires step.FollowerStart? || step.FollowerDrain? || step.FollowerReport?
    ensures Measure(c, Apply(c, s, step)) < Measure(c, s)
  {
    var i := step.i;
    if step.FollowerDrain? {
      DrainDecreases(c, s, i);
      hide Measure, Apply;
    } else {
      assert FollowerOk(c, s, i);
      hide ForShard, Summarize, Sum, Lengths, Stages, Wrap32, AssignerWork, Streams, BlocksOk, FollowersOk, DoneOk, OpenRounds;
      var s' := Apply(c, s, step);
      SameOpenRounds(c, s, s');
      StagesUpdate(c, s, s', i);
      SameAssignerWork(c, s, s');
    }
  }

  lemma CollectDecreases(c: Config, s: State, i: nat)
    requires ValidConfig(c) && Inv(c, s) && Enabled(c, s, LeaderCollect(i))
    ensures Measure(c, Apply(c, s, LeaderCollect(i))) < Measure(c, s)
  {
    assert Shape(c, s) && FollowerOk(c, s, i);
    hide ForShard, Summarize, Sum, Lengths, Stages, Inv, AssignerWork, OpenRounds;
    var s' := Apply(c, s, LeaderCollect(i));
    SameOpenRounds(c, s, s');
    StagesUpdate(c, s, s', i);
    SameAssignerWork(c, s, s');
  }

  lemma FinalizeDecreases(c: Config, s: State)
    requires ValidConfig(c) && Inv(c, s) && Enabled(c, s, LeaderFinalize)
    ensures Measure(c, Apply(c, s, LeaderFinalize)) < Measure(c, s)
  {
    StageBound(c, s);
    FinalizeKeepsInv(c, s);
    var s' := Apply(c, s, LeaderFinalize);
    StageBound(c, s');
    hide Inv, Sum, Lengths, Stages, AssignerWork, LeaderStage, Assemble;
    SameAssignerWork(c, s, s');
    OneLess(|s.rounds| - |s.blocks|, 3 * c.n);
  }

  // Every step other than a request strictly lowers the measure.
  lemma {:induction false} StepDecreases(c: Config, s: State, step: Step)
    requires ValidConfig(c) && Inv(c, s) && Enabled(c, s, step) && !step.Request?
    ensures Inv(c, Apply(c, s, step))
    ensures 0 <= Measure(c, Apply(c, s, step)) < Measure(c, s)
  {
    StepKeepsInv(c, s, step);
    MeasureNotNegative(c, Apply(c, s, step));
    hide Inv, Measure;
    match step {
      case AssignerStep =>
        assert Shape(c, s);
        AssignerStepDecreases(c, s);
      case LeaderCollect(i) => CollectDecreases(c, s, i);
      case LeaderFinalize => FinalizeDecreases(c, s);
      case LeaderHeader => LeaderStepDecreases(c, s, step);
      case LeaderDone => LeaderStepDecreases(c, s, step);
      case LeaderAnnounce => LeaderStepDecreases(c, s, step);
      case LeaderDrain => LeaderStepDecreases(c, s, step);
      case FollowerStart(i) => FollowerStepDecreases(c, s, step);
      case FollowerDrain(i) => FollowerStepDecreases(c, s, step);
      case FollowerReport(i) => FollowerStepDecreases(c, s, step);
    }
  }

  ghost predicate NoRequests(steps: seq<Step>) {
    forall j :: 0 <= j < |steps| ==> !steps[j].Request?
  }

  // Without new requests every schedule is finite, with a bound known at its
  // start.
  lemma {:induction false} ScheduleIsBounded(c: Config, s: State, steps: seq<Step>, t: State)
    requires ValidConfig(c) && Inv(c, s) && RunsTo(c, s, steps, t) && NoRequests(steps)
    ensures Inv(c, t)
    ensures |steps| + Measure(c, t) <= Measure(c, s)
    ensures t.rounds == s.rounds && t.accepted == s.accepted && t.discarded == s.discarded && t.pool == s.pool
    decreases |steps|
  {
    if steps != [] {
      StepDecreases(c, s, steps[0]);
      SameHistory(c, s, steps[0]);
      assert Shape(c, s);
      hide Inv, Measure, Apply, Enabled;
      ScheduleIsBounded(c, Apply(c, s, steps[0]), steps[1..], t);
    }
  }

  // Every schedule without requests that cannot be continued has finalised a
  // block for each dispatched round and emptied every channel.
  lemma {:induction false} MaximalScheduleFinishes(c: Config, s: State, steps: seq<Step>, t: State)
    requires ValidConfig(c) && Reachable(c, s) && RunsTo(c, s, steps, t) && NoRequests(steps)
    requires Shape(c, t) ==> forall step :: Enabled(c, t, step) ==> step.Request?
    ensures Quiet(c, t) && |t.blocks| == |s.rounds|
    ensures Inv(c, s) && |steps| <= Measure(c, s)
  {
    ReachableInv(c, s);
    ScheduleIsBounded(c, s, steps, t);
    MeasureNotNegative(c, t);
    assert Shape(c, t);
    if !t.assigner.Intake? || |t.blocks| < |t.rounds| {
      var step := NoDeadlock(c, t);
      assert false;
    }
    assert |t.blocks| == |t.rounds| by {
      assert DoneOk(t);
    }
    AllFinalizedIsQuiet(c, t);
  }

  // From every reachable state the system can finish on its own.
  lemma {:induction false} CanFinish(c: Config, s: State) returns (steps: seq<Step>, t: State)
    requires ValidConfig(c) && Inv(c, s)
    ensures RunsTo(c, s, steps, t) && NoRequests(steps) && Quiet(c, t)
    ensures t.rounds == s.rounds && |t.blocks| == |s.rounds|
    decreases Measure(c, s)
  {
    if s.assigner.Intake? && |s.blocks| == |s.rounds| {
      AllFinalizedIsQuiet(c, s);
      return [], s;
    }
    assert DoneOk(s);
    var step := NoDeadlock(c, s);
    StepDecreases(c, s, step);
    SameHistory(c, s, step);
    var s' := Apply(c, s, step);
    hide Inv, Measure, Apply, Enabled, Quiet;
    var rest, t' := CanFinish(c, s');
    steps, t := [step] + rest, t';
    assert steps[1..] == rest;
  }
}
